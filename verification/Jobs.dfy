/**
 The bounded state machine behind monitoring and discovery jobs: a transition table, a transition
 log, and for monitoring jobs a frame count and at most one event. Times are integers.

 The last entry of a log names the state the job is in; a move that the table does not allow, or that
 would go back in time, is refused and leaves the log alone. The table has no way back, so a legal log
 has at most five entries. Monitoring allows more than discovery: a denial before authorization, and a
 failure before running.
 */
module Jobs {
  import opened Options

  datatype JobState = Created | Validated | Authorized | Running | Completed | Cancelled | Failed | Denied

  datatype Kind = Monitoring | Discovery

  function AllowedFrom(kind: Kind, s: JobState): set<JobState> {
    match s
    case Created => if kind == Monitoring then {Validated, Denied} else {Validated}
    case Validated => if kind == Monitoring then {Authorized, Denied} else {Authorized}
    case Authorized => if kind == Monitoring then {Running, Cancelled, Failed} else {Running, Cancelled}
    case Running => {Completed, Cancelled, Failed}
    case _ => {}
  }

  predicate IsTerminal(s: JobState) {
    s == Completed || s == Cancelled || s == Failed || s == Denied
  }

  datatype Transition = Transition(previous: Option<JobState>, resulting: JobState, action: string, actorId: string, timestamp: int, reason: string)

  datatype TransitionError = InvalidTransition | TimestampMovedBackwards

  datatype Log = Log(kind: Kind, state: JobState, transitions: seq<Transition>)

  function NewLog(kind: Kind, actorId: string, createdAt: int): Log {
    Log(kind, Created, [Transition(None, Created, "create", actorId, createdAt, "COMMAND_ACCEPTED")])
  }

  function LastTime(l: Log): int
    requires l.transitions != []
  {
    l.transitions[|l.transitions| - 1].timestamp
  }

  function LastReason(l: Log): string
    requires l.transitions != []
  {
    l.transitions[|l.transitions| - 1].reason
  }

  function Moved(l: Log, to: JobState, action: string, actorId: string, timestamp: int, reason: string): Log {
    Log(l.kind, to, l.transitions + [Transition(Some(l.state), to, action, actorId, timestamp, reason)])
  }

  function TransitionRefused(l: Log, to: JobState, timestamp: int): Option<TransitionError>
    requires l.transitions != []
  {
    if to !in AllowedFrom(l.kind, l.state) then Some(InvalidTransition)
    else if timestamp < LastTime(l) then Some(TimestampMovedBackwards)
    else None
  }

  // ---- Legal logs ------------------------------------------------------------------------------

  function Rank(s: JobState): nat {
    match s
    case Created => 1
    case Validated => 2
    case Authorized => 3
    case Running => 4
    case _ => 5
  }

  /** A chain of allowed transitions from CREATED to the current state, in non-decreasing time, of
      length at most five. */
  ghost predicate Legal(l: Log) {
    && 1 <= |l.transitions| <= Rank(l.state)
    && l.transitions[0].previous == None && l.transitions[0].resulting == Created
    && l.transitions[|l.transitions| - 1].resulting == l.state
    && forall i :: 0 < i < |l.transitions| ==>
         && l.transitions[i].previous == Some(l.transitions[i - 1].resulting)
         && l.transitions[i].resulting in AllowedFrom(l.kind, l.transitions[i - 1].resulting)
         && l.transitions[i - 1].timestamp <= l.transitions[i].timestamp
  }

  /** The log of a job that was created, validated, authorized and started at one time. */
  function StartedLog(kind: Kind, actorId: string, now: int): Log {
    var created := NewLog(kind, actorId, now);
    var validated := Moved(created, Validated, "validate", actorId, now, "COMMAND_VALIDATED");
    var authorized := Moved(validated, Authorized, "authorize", actorId, now, "AUTHORIZED");
    Moved(authorized, Running, "start", actorId, now, "SIMULATION_STARTED")
  }

  lemma StartedLogLegal(kind: Kind, actorId: string, now: int)
    ensures var log := StartedLog(kind, actorId, now);
            && Legal(log) && log.transitions != [] && log.state == Running && log.kind == kind && LastTime(log) == now
  {}

  lemma MoveIsLegal(l: Log, to: JobState, action: string, actorId: string, timestamp: int, reason: string)
    requires Legal(l) && TransitionRefused(l, to, timestamp).None?
    ensures Legal(Moved(l, to, action, actorId, timestamp, reason))
  {
    hide AllowedFrom;
    var t, n := Moved(l, to, action, actorId, timestamp, reason).transitions, |l.transitions|;
    RankGrows(l.kind, l.state, to);
    assert t[..n] == l.transitions && t[n].previous == Some(l.state);
    forall i | 0 < i < |t|
      ensures t[i].previous == Some(t[i - 1].resulting) && t[i].resulting in AllowedFrom(l.kind, t[i - 1].resulting)
              && t[i - 1].timestamp <= t[i].timestamp
    {
      if i < n {
        assert t[i] == l.transitions[i];
      }
    }
  }

  lemma RankGrows(kind: Kind, state: JobState, to: JobState)
    requires to in AllowedFrom(kind, state)
    ensures Rank(state) < Rank(to)
  {}

  /** Timestamps along a legal log never decrease, over any distance, and it has at most five
      entries. */
  lemma {:induction false} LegalLogOrdered(l: Log, i: nat, j: nat)
    requires Legal(l) && i <= j < |l.transitions|
    ensures l.transitions[i].timestamp <= l.transitions[j].timestamp
    ensures |l.transitions| <= 5
  {
    if i < j {
      LegalLogOrdered(l, i, j - 1);
    }
  }

  /** The steps a job may take: forward one stage at a time while it is prepared, and from running to any of the
      three ends; a monitoring job may also be denied while it is prepared, or fail before it runs. */
  predicate MayMove(kind: Kind, from: JobState, to: JobState) {
    || (from == Created && to == Validated) || (from == Validated && to == Authorized) || (from == Authorized && to == Running)
    || (from == Authorized && to == Cancelled) || (from == Running && to == Cancelled)
    || (from == Running && to == Completed) || (from == Running && to == Failed)
    || (kind == Monitoring && to == Denied && (from == Created || from == Validated))
    || (kind == Monitoring && from == Authorized && to == Failed)
  }

  lemma RefusedExactlyWhen(l: Log, to: JobState, timestamp: int)
    requires l.transitions != []
    ensures TransitionRefused(l, to, timestamp) ==
            if !MayMove(l.kind, l.state, to) then Some(InvalidTransition)
            else if timestamp < l.transitions[|l.transitions| - 1].timestamp then Some(TimestampMovedBackwards)
            else None
  {}

  /** The log of a job that was started: four entries at one time, by one actor. */
  lemma StartedLogTells(kind: Kind, actorId: string, now: int)
    ensures StartedLog(kind, actorId, now) == Log(kind, Running, [
              Transition(None, Created, "create", actorId, now, "COMMAND_ACCEPTED"),
              Transition(Some(Created), Validated, "validate", actorId, now, "COMMAND_VALIDATED"),
              Transition(Some(Validated), Authorized, "authorize", actorId, now, "AUTHORIZED"),
              Transition(Some(Authorized), Running, "start", actorId, now, "SIMULATION_STARTED")])
  {}

  /** Terminal states absorb. */
  lemma TerminalRefusesAll(l: Log, to: JobState, timestamp: int)
    requires l.transitions != [] && IsTerminal(l.state)
    ensures TransitionRefused(l, to, timestamp) == Some(InvalidTransition)
  {}

  // ---- The monitoring job object ---------------------------------------------------------------

  const FRAME_LIMIT := 300

  datatype Job = Job(log: Log, framesProcessed: nat, eventIds: seq<string>)

  class MonitoringJob {
    const jobId: string
    const actorId: string
    const createdAt: int
    const deadline: int
    var state: JobState
    var framesProcessed: nat
    var eventIds: seq<string>
    var transitions: seq<Transition>

    ghost function Value(): Job
      reads this
    {
      Job(Log(Monitoring, state, transitions), framesProcessed, eventIds)
    }

    ghost predicate Valid()
      reads this
    {
      Legal(Value().log) && |eventIds| <= 1
    }

    constructor (jobId: string, actorId: string, createdAt: int, duration: int)
      ensures Valid() && Value() == Job(NewLog(Monitoring, actorId, createdAt), 0, [])
      ensures this.jobId == jobId && this.createdAt == createdAt && this.deadline == createdAt + duration
    {
      this.jobId, this.actorId, this.createdAt, this.deadline := jobId, actorId, createdAt, createdAt + duration;
      state, framesProcessed, eventIds := Created, 0, [];
      transitions := [Transition(None, Created, "create", actorId, createdAt, "COMMAND_ACCEPTED")];
    }

    method MoveTo(to: JobState, action: string, actorId: string, timestamp: int, reason: string)
      returns (error: Option<TransitionError>)
      requires Valid()
      modifies this
      ensures Valid()
      ensures error == TransitionRefused(old(Value()).log, to, timestamp)
      ensures Value() == if error.Some? then old(Value())
                         else old(Value()).(log := Moved(old(Value()).log, to, action, actorId, timestamp, reason))
    {
      if to !in AllowedFrom(Monitoring, state) {
        return Some(InvalidTransition);
      }
      if timestamp < transitions[|transitions| - 1].timestamp {
        return Some(TimestampMovedBackwards);
      }
      MoveIsLegal(Value().log, to, action, actorId, timestamp, reason);
      var previous := state;
      state := to;
      transitions := transitions + [Transition(Some(previous), to, action, actorId, timestamp, reason)];
      return None;
    }

    /** False is the error: not running, or more than 300 frames (which are counted even so). */
    method RecordFrame() returns (ok: bool)
      requires Valid()
      modifies this`framesProcessed
      ensures Valid()
      ensures ok == (state == Running && old(framesProcessed) < FRAME_LIMIT)
      ensures framesProcessed == if state == Running then old(framesProcessed) + 1 else old(framesProcessed)
    {
      if state != Running {
        return false;
      }
      framesProcessed := framesProcessed + 1;
      return framesProcessed <= FRAME_LIMIT;
    }

    method AddEvent(eventId: string) returns (added: bool)
      requires Valid()
      modifies this`eventIds
      ensures Valid()
      ensures added == (old(eventIds) == [])
      ensures eventIds == if added then [eventId] else old(eventIds)
    {
      if eventId in eventIds {
        return false;
      }
      if |eventIds| >= 1 {
        return false;
      }
      eventIds := eventIds + [eventId];
      return true;
    }
  }
}
