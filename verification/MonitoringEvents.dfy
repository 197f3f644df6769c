/**
 When jobs announce an event: for every interleaving of calls on all jobs, exactly when the frames
 processed for the job contain a confirmed run; and the side effects counted over whole runs.
 */
module MonitoringEvents {
  import opened Options
  import opened Audit
  import opened Monitoring
  import opened MonitoringInvariants
  import opened MonitoringHistory
  import J = Jobs
  import P = Policy
  import D = Detection

  datatype Call =
    | StartCall(command: Command, x: Context, now: int)
    | AdvanceCall(jobId: string, x: Context, now: int)
    | CancelCall(jobId: string, x: Context, now: int)
    | PublishCall(event: BoundEvent, recipientId: string)

  function StateAfter(c: Config, s: State, call: Call): (t: State)
    requires Sound(c, s)
    ensures Sound(c, t)
  {
    match call
    case StartCall(command, x, now) => StartKeeps(c, s, command, x, now); Start(c, s, command, x, now).0
    case AdvanceCall(jobId, x, now) => AdvanceKeeps(c, s, jobId, x, now); Advance(c, s, jobId, x, now).0
    case CancelCall(jobId, x, now) => CancelKeeps(c, s, jobId, x, now); Cancel(c, s, jobId, x, now).0
    case PublishCall(event, recipientId) => PublishAgain(c, s, event, recipientId); Publish(c, s, event, recipientId).0
  }

  /** What a call hands to the confirmer. */
  function Observed(c: Config, s: State, call: Call): seq<D.Observation>
    requires Sound(c, s)
  {
    match call
    case AdvanceCall(jobId, x, now) =>
      SoundMeansCallable(c, s, jobId);
      var frame := FrameFor(s, jobId, x, now);
      if frame.Some? then [D.Observation(jobId, frame.value)] else []
    case _ => []
  }

  /** The service after a run from its initial state, and all observations of that run. */
  function RunCalls(c: Config, calls: seq<Call>): (r: (State, seq<D.Observation>))
    requires IdsDistinct(c) && D.SettingsValid(c.detection)
    ensures Sound(c, r.0)
  {
    if calls == [] then
      IdleGood(c);
      (IDLE, [])
    else
      var (s, observations) := RunCalls(c, calls[..|calls| - 1]);
      var call := calls[|calls| - 1];
      (StateAfter(c, s, call), observations + Observed(c, s, call))
  }

  // ---- Jobs follow their frames ----------------------------------------------------------------

  /** The event describes the first run of frames that was confirmed. */
  ghost predicate Describes(s: D.Settings, frames: seq<D.Frame>, jobId: string, e: D.Event) {
    exists n :: DescribesAt(s, frames, jobId, e, n)
  }

  ghost predicate DescribesAt(s: D.Settings, frames: seq<D.Frame>, jobId: string, e: D.Event, n: nat) {
    && 1 <= s.minimumFrames <= n <= |frames|
    && D.EndsConfirmedRun(s, frames[..n]) && !D.ConfirmedBefore(s, frames[..n])
    && (forall f :: f in frames[n - s.minimumFrames..n] ==> f.confidence.Some?)
    && e == D.EventFor(s, jobId, frames[n - s.minimumFrames..n])
  }

  ghost predicate JobTracks(c: Config, s: State, frames: seq<D.Frame>, id: string) {
    && (id !in s.jobs ==> frames == [])
    && (id in s.jobs ==>
          var core := s.jobs[id].core;
          && core.framesProcessed == |frames|
          && (core.eventIds == [] <==> !D.ConfirmedWithin(c.detection, frames))
          && (core.eventIds != [] ==>
                core.eventIds[0] in s.known && Describes(c.detection, frames, id, s.known[core.eventIds[0]].event)))
  }

  ghost predicate Tracks(c: Config, s: State, observations: seq<D.Observation>) {
    && D.SettingsValid(c.detection)
    && s.confirmer == D.ObserveAll(c.detection, observations)
    && forall id :: JobTracks(c, s, D.FramesOf(observations, id), id)
  }

  /** The same job, possibly with more transitions. */
  ghost predicate SameOrigin(a: Job, b: Job) {
    && a.key == b.key && a.actorId == b.actorId && a.organizationId == b.organizationId && a.deviceId == b.deviceId
    && a.cameraId == b.cameraId && a.correlationId == b.correlationId && a.deadline == b.deadline
    && a.core.log.transitions <= b.core.log.transitions
  }

  /** Nothing is observed; new jobs have no frames and no event. */
  ghost predicate Quiet(s: State, t: State) {
    && t.confirmer == s.confirmer && t.known == s.known
    && (forall id :: id in s.jobs ==>
          id in t.jobs && t.jobs[id].core.framesProcessed == s.jobs[id].core.framesProcessed
          && t.jobs[id].core.eventIds == s.jobs[id].core.eventIds && SameOrigin(s.jobs[id], t.jobs[id]))
    && (forall id :: id in t.jobs && id !in s.jobs ==>
          t.jobs[id].core.framesProcessed == 0 && t.jobs[id].core.eventIds == [])
  }

  lemma QuietTracks(c: Config, s: State, t: State, observations: seq<D.Observation>)
    requires Tracks(c, s, observations) && Quiet(s, t)
    ensures Tracks(c, t, observations)
  {
    hide Describes;
    NothingConfirmed(c.detection);
    forall id ensures JobTracks(c, t, D.FramesOf(observations, id), id) {
      assert JobTracks(c, s, D.FramesOf(observations, id), id);
    }
  }

  lemma NothingConfirmed(s: D.Settings)
    requires D.SettingsValid(s)
    ensures !D.ConfirmedWithin(s, [])
  {}

  lemma NewJobIsQuiet(s: State, t: State, id: string, job: Job)
    requires t.confirmer == s.confirmer && t.known == s.known && t.jobs == s.jobs[id := job] && id !in s.jobs
    requires job.core.framesProcessed == 0 && job.core.eventIds == []
    ensures Quiet(s, t)
  {}

  lemma SameJobIsQuiet(s: State, t: State, id: string, log: J.Log)
    requires t.confirmer == s.confirmer && t.known == s.known && id in s.jobs
    requires t.jobs == s.jobs[id := s.jobs[id].(core := s.jobs[id].core.(log := log))]
    requires s.jobs[id].core.log.transitions <= log.transitions
    ensures Quiet(s, t) && t.jobs.Keys == s.jobs.Keys
  {}

  lemma SameIsQuiet(s: State, t: State)
    requires t.confirmer == s.confirmer && t.known == s.known && t.jobs == s.jobs
    ensures Quiet(s, t)
  {}

  lemma NewJobIsFree(c: Config, s: State, key: Key)
    requires Sound(c, s) && key !in s.commands
    ensures c.jobIdOf(key) !in s.jobs && c.jobIdOf(key) !in s.workers
  {
    hide JobsGood;
    NewJobIsNew(c, s, key);
  }

  lemma OpenIsQuiet(c: Config, s: State, command: Command, x: Context, now: int, camera: Camera)
    requires c.jobIdOf(KeyOf(command, x)) !in s.jobs
    ensures Quiet(s, Open(c, s, command, x, now, camera).0)
  {
    hide FramesFor, J.StartedLog, OutcomeOf, Quiet, KeyOf;
    var t := Open(c, s, command, x, now, camera).0;
    if c.jobIdOf(KeyOf(command, x)) in s.workers {
      SameIsQuiet(s, s);
    } else {
      NewJobIsQuiet(s, t, c.jobIdOf(KeyOf(command, x)), NewJob(c, command, x, now, camera));
    }
  }

  lemma DenyIsQuiet(c: Config, s: State, key: Key, command: Command, now: int, denial: Denial)
    ensures Quiet(s, Deny(c, s, key, command, now, denial).0)
  {
    hide Quiet, Recorded;
    if Recorded(c.auditIdOf, s.audit, AuditRecord(key, denial.decision, denial.reason, DeniedResult, now)).None? {
      SameIsQuiet(s, s);
    } else {
      SameIsQuiet(s, Deny(c, s, key, command, now, denial).0);
    }
  }

  lemma StartIsQuiet(c: Config, s: State, command: Command, x: Context, now: int)
    requires Sound(c, s)
    ensures Quiet(s, Start(c, s, command, x, now).0)
  {
    hide DenialOf, Sound, Quiet, Open, Deny, Recall, KeyOf, CameraFor;
    var key := KeyOf(command, x);
    SameIsQuiet(s, s);
    if key !in s.commands {
      if DenialOf(c, command, x, now).None? {
        NewJobIsFree(c, s, key);
        DenialNeedsCamera(c, command, x, now);
        OpenIsQuiet(c, s, command, x, now, CameraFor(c, x.actor.organizationId, command).value);
      } else {
        DenyIsQuiet(c, s, key, command, now, DenialOf(c, command, x, now).value);
      }
    }
  }

  lemma FinishIsQuiet(c: Config, s: State, jobId: string, to: J.JobState, action: string, now: int, reason: string,
                      auditReason: string, result: Result)
    requires jobId in s.jobs && s.jobs[jobId].core.log.transitions != []
    ensures var t := Finish(c, s, jobId, to, action, now, reason, auditReason, result).0;
            Quiet(s, t) && t.jobs.Keys == s.jobs.Keys
  {
    hide OutcomeOf, Quiet, Recorded;
    var t := Finish(c, s, jobId, to, action, now, reason, auditReason, result).0;
    if J.TransitionRefused(s.jobs[jobId].core.log, to, now).None? {
      SameJobIsQuiet(s, t, jobId, J.Moved(s.jobs[jobId].core.log, to, action, s.jobs[jobId].actorId, now, reason));
    } else {
      SameIsQuiet(s, t);
    }
  }

  lemma CancelIsQuiet(c: Config, s: State, jobId: string, x: Context, now: int)
    requires Started(s, jobId)
    ensures var t := Cancel(c, s, jobId, x, now).0; Quiet(s, t) && t.jobs.Keys == s.jobs.Keys
  {
    hide Finish, Quiet;
    if Authorize(s, jobId, x).Some? || J.IsTerminal(s.jobs[jobId].core.log.state) {
      SameIsQuiet(s, s);
    } else {
      var stopped := s.(cancelledWorkers := s.cancelledWorkers + {jobId});
      FinishIsQuiet(c, stopped, jobId, J.Cancelled, "cancel", now, "CANCELLED_BY_OPERATOR", "CANCELLED_BY_OPERATOR", CancelledResult);
      StopIsQuiet(s, jobId, Cancel(c, s, jobId, x, now).0);
    }
  }

  lemma StopIsQuiet(s: State, jobId: string, t: State)
    requires Quiet(s.(cancelledWorkers := s.cancelledWorkers + {jobId}), t)
    ensures Quiet(s, t)
  {}

  lemma TakeIsQuiet(s: State, jobId: string, t: State)
    requires jobId in s.workers && Quiet(NextFrame(s, jobId).0, t)
    ensures Quiet(s, t)
  {
    hide NextFrame;
    NextFrameStep(s, jobId);
  }

  lemma FinishAfterTaking(c: Config, s: State, jobId: string, now: int, reason: string)
    requires jobId in s.jobs && s.jobs[jobId].core.log.transitions != [] && jobId in s.workers
    ensures var fed := NextFrame(s, jobId).0;
            var t := Complete(c, fed, jobId, now, reason).0;
            fed.jobs == s.jobs && Quiet(s, t) && t.jobs.Keys == s.jobs.Keys
  {
    hide NextFrame, Finish, Quiet;
    NextFrameStep(s, jobId);
    var fed := NextFrame(s, jobId).0;
    FinishIsQuiet(c, fed, jobId, J.Completed, "complete", now, reason, "SIMULATION_COMPLETED", SimulatedResult);
    TakeIsQuiet(s, jobId, Complete(c, fed, jobId, now, reason).0);
  }

  lemma AdvanceIsQuiet(c: Config, s: State, jobId: string, x: Context, now: int)
    requires Sound(c, s) && Started(s, jobId) && FrameFor(s, jobId, x, now).None?
    ensures D.RunsAbove(c.detection, s.confirmer)
    ensures var t := Advance(c, s, jobId, x, now).0; Quiet(s, t) && t.jobs.Keys == s.jobs.Keys
  {
    hide Sound, D.RunsAbove, FrameFor, Advance, Quiet, Complete;
    SoundMeansCallable(c, s, jobId);
    QuietCases(c, s, jobId, x, now);
    SameIsQuiet(s, s);
    if jobId in s.jobs && s.jobs[jobId].core.log.transitions != [] && jobId in s.workers {
      CompleteIsQuiet(c, s, jobId, now, "DURATION_ELAPSED");
      FinishAfterTaking(c, s, jobId, now, "FRAME_SEQUENCE_EXHAUSTED");
      FinishAfterTaking(c, s, jobId, now, "DURATION_ELAPSED");
    }
  }

  /** What an advance that hands no frame to the confirmer can lead to. */
  lemma QuietCases(c: Config, s: State, jobId: string, x: Context, now: int)
    requires D.SettingsValid(c.detection) && D.RunsAbove(c.detection, s.confirmer) && Started(s, jobId)
    requires FrameFor(s, jobId, x, now).None?
    ensures var t := Advance(c, s, jobId, x, now).0;
            || t == s
            || (&& jobId in s.jobs && s.jobs[jobId].core.log.transitions != [] && jobId in s.workers
                && (|| t == Complete(c, s, jobId, now, "DURATION_ELAPSED").0
                    || (NextFrame(s, jobId).0.jobs == s.jobs
                        && (|| t == Complete(c, NextFrame(s, jobId).0, jobId, now, "FRAME_SEQUENCE_EXHAUSTED").0
                            || t == Complete(c, NextFrame(s, jobId).0, jobId, now, "DURATION_ELAPSED").0))))
  {
    hide D.RunsAbove, NextFrame, ProcessFrame, Complete, OutcomeOf;
    if jobId in s.workers {
      NextFrameStep(s, jobId);
    }
  }

  lemma CompleteIsQuiet(c: Config, s: State, jobId: string, now: int, reason: string)
    requires jobId in s.jobs && s.jobs[jobId].core.log.transitions != []
    ensures var t := Complete(c, s, jobId, now, reason).0; Quiet(s, t) && t.jobs.Keys == s.jobs.Keys
  {
    hide Finish, Quiet;
    FinishIsQuiet(c, s, jobId, J.Completed, "complete", now, reason, "SIMULATION_COMPLETED", SimulatedResult);
  }

  // ---- A processed frame -----------------------------------------------------------------------

  ghost predicate OtherJobsSame(s: State, t: State, jobId: string) {
    t.jobs.Keys == s.jobs.Keys && forall id :: id in s.jobs && id != jobId ==> t.jobs[id] == s.jobs[id]
  }

  lemma CountedShape(s: State, jobId: string, confirmer: D.Memory)
    requires jobId in s.jobs
    ensures var t := Counted(s, jobId, confirmer);
            && t.confirmer == confirmer && t.known == s.known && jobId in t.jobs && OtherJobsSame(s, t, jobId)
            && var core := s.jobs[jobId].core.(framesProcessed := s.jobs[jobId].core.framesProcessed + 1);
               t.jobs[jobId] == s.jobs[jobId].(core := core)
  {}

  lemma AnnouncedShape(c: Config, s: State, jobId: string, bound: BoundEvent)
    requires jobId in s.jobs
    ensures var t := Announced(c, s, jobId, bound);
            && t.confirmer == s.confirmer && jobId in t.jobs && OtherJobsSame(s, t, jobId)
            && t.jobs[jobId] == s.jobs[jobId].(core := s.jobs[jobId].core.(eventIds := [bound.event.eventId]))
            && t.known == s.known[bound.event.eventId := bound]
  {}

  lemma OthersSameTwice(s: State, t: State, u: State, jobId: string)
    requires OtherJobsSame(s, t, jobId) && OtherJobsSame(t, u, jobId)
    ensures OtherJobsSame(s, u, jobId)
  {}

  /** A processed frame touches only its job, and its event record only when one is announced. */
  lemma ProcessedShape(c: Config, s: State, jobId: string, f: D.Frame)
    requires D.SettingsValid(c.detection) && D.RunsAbove(c.detection, s.confirmer) && jobId in s.jobs
    ensures var t := Processed(c, s, jobId, f);
            var event := D.Observe(c.detection, s.confirmer, jobId, f).1;
            var announces := event.Some? && s.jobs[jobId].core.eventIds == [];
            && t.confirmer == D.Observe(c.detection, s.confirmer, jobId, f).0 && jobId in t.jobs && OtherJobsSame(s, t, jobId)
            && t.jobs[jobId] == s.jobs[jobId].(core := s.jobs[jobId].core.(
                 framesProcessed := s.jobs[jobId].core.framesProcessed + 1,
                 eventIds := if announces then [event.value.eventId] else s.jobs[jobId].core.eventIds))
            && t.known == if announces then s.known[event.value.eventId := BoundFor(s.jobs[jobId], event.value)] else s.known
  {
    hide D.Observe, D.RunsAbove, Announced, Counted, OtherJobsSame;
    var (confirmer, event) := D.Observe(c.detection, s.confirmer, jobId, f);
    var counted := Counted(s, jobId, confirmer);
    CountedShape(s, jobId, confirmer);
    if event.Some? && s.jobs[jobId].core.eventIds == [] {
      var bound := BoundFor(s.jobs[jobId], event.value);
      AnnouncedShape(c, counted, jobId, bound);
      OthersSameTwice(s, counted, Announced(c, counted, jobId, bound), jobId);
    }
  }

  lemma DescribesLonger(s: D.Settings, frames: seq<D.Frame>, jobId: string, e: D.Event, f: D.Frame)
    requires Describes(s, frames, jobId, e)
    ensures Describes(s, frames + [f], jobId, e)
  {
    hide DescribesAt;
    var n :| DescribesAt(s, frames, jobId, e, n);
    SamePrefix(s, frames, jobId, e, f, n);
  }

  lemma SamePrefix(s: D.Settings, frames: seq<D.Frame>, jobId: string, e: D.Event, f: D.Frame, n: nat)
    requires DescribesAt(s, frames, jobId, e, n)
    ensures DescribesAt(s, frames + [f], jobId, e, n)
  {
    hide D.EndsConfirmedRun, D.ConfirmedBefore, D.EventFor;
    assert (frames + [f])[..n] == frames[..n];
    assert (frames + [f])[n - s.minimumFrames..n] == frames[n - s.minimumFrames..n];
  }

  /** The first confirmed run of the frames ends at the last one. */
  lemma DescribesNow(s: D.Settings, m: D.Memory, frames: seq<D.Frame>, jobId: string, f: D.Frame)
    requires D.SettingsValid(s) && D.RunsAbove(s, m) && D.MemoryFits(s, m, frames, jobId)
    ensures var event := D.Observe(s, m, jobId, f).1;
            && (event.Some? <==> D.ConfirmedWithin(s, frames + [f]) && !D.ConfirmedWithin(s, frames))
            && (D.ConfirmedWithin(s, frames) ==> D.ConfirmedWithin(s, frames + [f]))
            && (event.Some? ==> Describes(s, frames + [f], jobId, event.value))
  {
    hide D.Observe, D.RunsAbove, D.MemoryFits, D.EndsConfirmedRun, D.ConfirmedBefore, D.ConfirmedWithin, D.EventFor;
    D.ObservedEvent(s, m, frames, jobId, f);
    D.ConfirmedLater(s, frames, f);
    var event, more := D.Observe(s, m, jobId, f).1, frames + [f];
    if event.Some? {
      EndsLongEnough(s, more);
      assert more[..|more|] == more && more[|more| - s.minimumFrames..|more|] == more[|more| - s.minimumFrames..];
      assert DescribesAt(s, more, jobId, event.value, |more|);
    }
  }

  lemma EndsLongEnough(s: D.Settings, frames: seq<D.Frame>)
    requires D.EndsConfirmedRun(s, frames)
    ensures |frames| >= s.minimumFrames
  {}

  /** Distinct jobs announce distinct events, so announcing one does not touch another's. */
  lemma OtherEvent(c: Config, s: State, jobId: string, e: string, id: string)
    requires Sound(c, s) && jobId in s.jobs && s.jobs[jobId].core.eventIds == [] && IsEventIdOf(c, e, jobId)
    requires id in s.jobs && s.jobs[id].core.eventIds != []
    ensures s.jobs[id].core.eventIds[0] != e
  {
    hide JobsGood, CommandsGood, SinkGood, D.RunsAbove;
    EventIsNew(c, s, jobId, e);
    assert AnnouncedSound(s, id);
  }

  lemma ObservationAppended(observations: seq<D.Observation>, jobId: string, f: D.Frame, id: string)
    ensures D.FramesOf(observations + [D.Observation(jobId, f)], id)
            == D.FramesOf(observations, id) + (if id == jobId then [f] else [])
  {
    var all := observations + [D.Observation(jobId, f)];
    assert all[..|all| - 1] == observations;
  }

  lemma ProcessedTracks(c: Config, s: State, observations: seq<D.Observation>, jobId: string, f: D.Frame, id: string)
    requires Sound(c, s) && HasTaken(s, jobId) && Tracks(c, s, observations)
    ensures D.RunsAbove(c.detection, s.confirmer)
    ensures JobTracks(c, Processed(c, s, jobId, f), D.FramesOf(observations + [D.Observation(jobId, f)], id), id)
  {
    hide Good, IdsDistinct, D.RunsAbove, D.Observe, Processed, Describes, D.ConfirmedWithin, D.FramesOf, D.ObserveAll, D.MemoryFits;
    GoodRunsAbove(c, s);
    ObservationAppended(observations, jobId, f, id);
    ProcessedShape(c, s, jobId, f);
    D.ObserveAllFits(c.detection, observations, jobId);
    var frames := D.FramesOf(observations, jobId);
    assert JobTracks(c, s, D.FramesOf(observations, id), id);
    assert JobTracks(c, s, frames, jobId);
    var event := D.Observe(c.detection, s.confirmer, jobId, f).1;
    EventShape(c.detection, s.confirmer, jobId, f);
    DescribesNow(c.detection, s.confirmer, frames, jobId, f);
    if event.Some? && s.jobs[jobId].core.eventIds == [] {
      EventIsOwn(c, event.value.eventId, jobId);
      if id in s.jobs && s.jobs[id].core.eventIds != [] {
        OtherEvent(c, s, jobId, event.value.eventId, id);
      }
    }
    if id in s.jobs && s.jobs[id].core.eventIds != [] {
      DescribesLonger(c.detection, D.FramesOf(observations, id), id, s.known[s.jobs[id].core.eventIds[0]].event, f);
    }
    assert frames + [] == frames && D.FramesOf(observations, id) + [] == D.FramesOf(observations, id);
  }

  lemma AdvanceTracks(c: Config, s: State, observations: seq<D.Observation>, jobId: string, x: Context, now: int)
    requires Sound(c, s) && Tracks(c, s, observations)
    ensures Sound(c, StateAfter(c, s, AdvanceCall(jobId, x, now)))
    ensures Tracks(c, StateAfter(c, s, AdvanceCall(jobId, x, now)), observations + Observed(c, s, AdvanceCall(jobId, x, now)))
  {
    hide Good, IdsDistinct, D.RunsAbove, Advance, Processed, JobTracks, D.FramesOf, FrameFor, Started, Quiet;
    SoundMeansCallable(c, s, jobId);
    var frame := FrameFor(s, jobId, x, now);
    if frame.Some? {
      AdvanceProcesses(c, s, jobId, x, now);
      TakenTracks(c, s, observations, jobId);
      var taken := NextFrame(s, jobId).0;
      GoodRunsAbove(c, taken);
      var all := observations + [D.Observation(jobId, frame.value)];
      forall id ensures JobTracks(c, Processed(c, taken, jobId, frame.value), D.FramesOf(all, id), id) {
        ProcessedTracks(c, taken, observations, jobId, frame.value, id);
      }
      ObservedConfirmer(c, taken, observations, jobId, frame.value);
    } else {
      AdvanceIsQuiet(c, s, jobId, x, now);
      QuietTracks(c, s, Advance(c, s, jobId, x, now).0, observations);
      assert observations + [] == observations;
    }
  }

  lemma TakenTracks(c: Config, s: State, observations: seq<D.Observation>, jobId: string)
    requires Tracks(c, s, observations) && jobId in s.workers
    ensures Tracks(c, NextFrame(s, jobId).0, observations)
  {
    hide JobTracks, D.FramesOf, D.ObserveAll, NextFrame;
    NextFrameStep(s, jobId);
    QuietTracks(c, s, NextFrame(s, jobId).0, observations);
  }

  lemma ObservedConfirmer(c: Config, s: State, observations: seq<D.Observation>, jobId: string, f: D.Frame)
    requires Tracks(c, s, observations) && jobId in s.jobs && D.RunsAbove(c.detection, s.confirmer)
    ensures Processed(c, s, jobId, f).confirmer == D.ObserveAll(c.detection, observations + [D.Observation(jobId, f)])
  {
    hide JobTracks, D.FramesOf, D.RunsAbove, Processed, D.Observe;
    ProcessedShape(c, s, jobId, f);
    var all := observations + [D.Observation(jobId, f)];
    assert all[..|all| - 1] == observations;
  }

  lemma {:induction false} RunTracks(c: Config, calls: seq<Call>)
    requires IdsDistinct(c) && D.SettingsValid(c.detection)
    ensures Tracks(c, RunCalls(c, calls).0, RunCalls(c, calls).1)
  {
    hide JobTracks, IdsDistinct, Good, Advance, Start, Cancel, Quiet, FrameFor;
    if calls == [] {
      NoCallsTrack(c);
    } else {
      var front, call := calls[..|calls| - 1], calls[|calls| - 1];
      RunTracks(c, front);
      var (s, observations) := RunCalls(c, front);
      assert observations + [] == observations;
      match call {
        case StartCall(command, x, now) =>
          StartIsQuiet(c, s, command, x, now);
          QuietTracks(c, s, StateAfter(c, s, call), observations);
        case AdvanceCall(jobId, x, now) =>
          AdvanceTracks(c, s, observations, jobId, x, now);
        case CancelCall(jobId, x, now) =>
          SoundMeansCallable(c, s, jobId);
          CancelIsQuiet(c, s, jobId, x, now);
          QuietTracks(c, s, StateAfter(c, s, call), observations);
        case PublishCall(event, recipientId) =>
          PublishAgain(c, s, event, recipientId);
      }
    }
  }

  lemma NoCallsTrack(c: Config)
    requires D.SettingsValid(c.detection)
    ensures Tracks(c, IDLE, [])
  {
    forall id ensures JobTracks(c, IDLE, D.FramesOf([], id), id) {
      assert D.FramesOf([], id) == [];
    }
  }

  /** Over any run: a job has announced an event exactly when its processed frames contain a
      confirmed run, and the event describes the first such run. */
  lemma EventIffConfirmed(c: Config, calls: seq<Call>, id: string)
    requires IdsDistinct(c) && D.SettingsValid(c.detection)
    ensures var (s, observations) := RunCalls(c, calls);
            var frames := D.FramesOf(observations, id);
            id in s.jobs ==>
              && s.jobs[id].core.framesProcessed == |frames| <= MAXIMUM_FRAMES
              && (s.jobs[id].core.eventIds != [] <==> D.ConfirmedWithin(c.detection, frames))
              && (s.jobs[id].core.eventIds != [] ==>
                    exists e :: s.jobs[id].core.eventIds == [e] && e in s.known && Describes(c.detection, frames, id, s.known[e].event))
  {
    hide RunCalls, D.ConfirmedWithin, Describes, D.FramesOf;
    RunTracks(c, calls);
    var (s, observations) := RunCalls(c, calls);
    assert JobTracks(c, s, D.FramesOf(observations, id), id);
    if id in s.jobs {
      JobIsSound(c, s, id);
      assert AnnouncedSound(s, id);
    }
  }

  /** Over any run: equally many events, push deliveries and inbox deliveries, each event with one of
      each to the actor of its job. */
  lemma DeliveriesAreExact(c: Config, calls: seq<Call>, e: string)
    requires IdsDistinct(c) && D.SettingsValid(c.detection)
    ensures var s := RunCalls(c, calls).0;
            && |s.events| == |s.push| == |s.inbox|
            && (e in s.events ==>
                  && s.events[e].event.jobId in s.jobs && s.jobs[s.events[e].event.jobId].core.eventIds == [e]
                  && IsDelivered(c, s, s.push, Push, e) && IsDelivered(c, s, s.inbox, Inbox, e))
  {
    hide RunCalls;
    var s := RunCalls(c, calls).0;
    assert EventSound(c, s, e);
    forall k ensures k in s.known <==> k in s.events {
      assert EventSound(c, s, k);
    }
    assert s.events.Keys == s.known.Keys;
  }

  /** Over any run the audit trail is exact: a command has a record, telling how it ended, if and only
      if it was denied or its job is over; and there are no other records. */
  lemma AuditIsExact(c: Config, calls: seq<Call>, key: Key, r: Result, id: string)
    requires IdsDistinct(c) && D.SettingsValid(c.detection)
    ensures var s := RunCalls(c, calls).0;
            && (c.auditIdOf(key, r) in s.audit <==> ResultOf(s, key) == Some(r))
            && (c.auditIdOf(key, r) in s.audit ==>
                  s.audit[c.auditIdOf(key, r)].key == key && s.audit[c.auditIdOf(key, r)].result == r)
            && (id in s.audit ==>
                  id == c.auditIdOf(s.audit[id].key, s.audit[id].result)
                  && ResultOf(s, s.audit[id].key) == Some(s.audit[id].result))
  {
    hide RunCalls;
    var s := RunCalls(c, calls).0;
    assert AuditSound(c, s, key, r);
    assert EntrySound(c, s, c.auditIdOf(key, r)) && EntrySound(c, s, id);
    if id in s.audit {
      assert AuditSound(c, s, s.audit[id].key, s.audit[id].result);
    }
  }

  // ---- A driven job ----------------------------------------------------------------------------

  /** The frames up to the first one after the deadline. */
  function Due(frames: seq<D.Frame>, deadline: int): seq<D.Frame> {
    if frames == [] || frames[0].observedAt > deadline then [] else [frames[0]] + Due(frames[1..], deadline)
  }

  /** The frames that a job still has to process. */
  function DueFrames(s: State, jobId: string): seq<D.Frame>
    requires jobId in s.jobs
  {
    if jobId !in s.workers || jobId in s.cancelledWorkers || s.workers[jobId].1 > |s.workers[jobId].0| then []
    else Due(s.workers[jobId].0[s.workers[jobId].1..], s.jobs[jobId].deadline)
  }

  function Tagged(jobId: string, frames: seq<D.Frame>): seq<D.Observation> {
    if frames == [] then [] else [D.Observation(jobId, frames[0])] + Tagged(jobId, frames[1..])
  }

  ghost predicate Drivable(s: State, jobId: string, x: Context, now: int) {
    Authorize(s, jobId, x).None? && s.jobs[jobId].core.log.state == J.Running && now < s.jobs[jobId].deadline
  }

  lemma FrameIsDue(c: Config, s: State, jobId: string, x: Context, now: int)
    requires Sound(c, s) && Drivable(s, jobId, x, now) && Started(s, jobId)
    ensures FrameFor(s, jobId, x, now) == (if DueFrames(s, jobId) == [] then None else Some(DueFrames(s, jobId)[0]))
  {
    hide JobsGood, CommandsGood, EventsGood, SinkGood, D.RunsAbove, IdsDistinct;
    JobIsSound(c, s, jobId);
  }

  lemma DueAfterFrame(c: Config, s: State, jobId: string, x: Context, now: int)
    requires Sound(c, s) && Drivable(s, jobId, x, now) && Started(s, jobId) && DueFrames(s, jobId) != []
    ensures D.RunsAbove(c.detection, s.confirmer)
    ensures var t := Advance(c, s, jobId, x, now).0;
            Drivable(t, jobId, x, now) && DueFrames(t, jobId) == DueFrames(s, jobId)[1..]
  {
    hide Good, IdsDistinct, D.RunsAbove, Processed, Advance, DueFrames, NextFrame;
    FrameIsDue(c, s, jobId, x, now);
    AdvanceProcesses(c, s, jobId, x, now);
    DriveContinues(c, s, jobId, x, now);
    TakenFrame(c, s, jobId);
    var taken := NextFrame(s, jobId).0;
    GoodRunsAbove(c, taken);
    ProcessedKeepsLog(c, taken, jobId, FrameFor(s, jobId, x, now).value);
    DueAfterTaking(c, s, jobId, Advance(c, s, jobId, x, now).0);
  }

  lemma DueAfterTaking(c: Config, s: State, jobId: string, t: State)
    requires Good(c, s) && jobId in s.jobs && jobId in t.jobs && jobId in s.workers && DueFrames(s, jobId) != []
    requires t.workers == NextFrame(s, jobId).0.workers && t.cancelledWorkers == s.cancelledWorkers
    requires t.jobs[jobId].deadline == s.jobs[jobId].deadline
    ensures DueFrames(t, jobId) == DueFrames(s, jobId)[1..]
  {
    hide JobsGood, CommandsGood, EventsGood, SinkGood, D.RunsAbove, NextFrame;
    NextFrameStep(s, jobId);
    var (frames, index) := s.workers[jobId];
    if NextFrame(s, jobId).1.Some? {
      assert frames[index..][1..] == frames[index + 1..];
    } else {
      NoFrameNothingDue(c, s, jobId);
    }
  }

  lemma NoFrameNothingDue(c: Config, s: State, jobId: string)
    requires Good(c, s) && jobId in s.jobs && jobId in s.workers && NextFrame(s, jobId).1.None?
    ensures DueFrames(s, jobId) == []
  {}

  lemma {:induction false} DriveObserves(c: Config, s: State, observations: seq<D.Observation>, jobId: string, x: Context,
                                         now: int, limit: nat)
    requires Sound(c, s) && Drivable(s, jobId, x, now) && limit > Remaining(s, jobId) && Tracks(c, s, observations)
    ensures Tracks(c, Drive(c, s, jobId, x, now, limit).0, observations + Tagged(jobId, DueFrames(s, jobId)))
    decreases limit
  {
    hide Good, Sound, IdsDistinct, D.RunsAbove, Advance, Tracks, Drivable, DueFrames, FrameFor, Remaining, Drive, Authorize;
    SoundMeansCallable(c, s, jobId);
    DrivableIsAuthorized(s, jobId, x, now);
    AdvanceTracks(c, s, observations, jobId, x, now);
    FrameIsDue(c, s, jobId, x, now);
    DriveStep(c, s, jobId, x, now, limit);
    var due, t := DueFrames(s, jobId), Advance(c, s, jobId, x, now).0;
    if due != [] {
      DriveContinues(c, s, jobId, x, now);
      DueAfterFrame(c, s, jobId, x, now);
      DriveObserves(c, t, observations + [D.Observation(jobId, due[0])], jobId, x, now, limit - 1);
      assert observations + [D.Observation(jobId, due[0])] + Tagged(jobId, due[1..]) == observations + Tagged(jobId, due);
    } else {
      AdvanceOtherwise(c, s, jobId, x, now);
    }
  }

  lemma DrivableIsAuthorized(s: State, jobId: string, x: Context, now: int)
    requires Drivable(s, jobId, x, now)
    ensures jobId in s.jobs && Authorize(s, jobId, x).None?
  {}

  lemma {:induction false} TaggedFrames(observations: seq<D.Observation>, jobId: string, frames: seq<D.Frame>)
    ensures D.FramesOf(observations + Tagged(jobId, frames), jobId) == D.FramesOf(observations, jobId) + frames
    decreases |frames|
  {
    if frames != [] {
      var more := observations + [D.Observation(jobId, frames[0])];
      ObservationAppended(observations, jobId, frames[0], jobId);
      TaggedFrames(more, jobId, frames[1..]);
      assert more + Tagged(jobId, frames[1..]) == observations + Tagged(jobId, frames);
    } else {
      assert observations + Tagged(jobId, frames) == observations;
    }
  }

  /** Running a job to completion announces a person exactly when the frames it had processed,
      continued by all its camera frames up to the deadline, contain a confirmed run. */
  lemma CompletedRunReports(c: Config, s: State, observations: seq<D.Observation>, jobId: string, x: Context, now: int)
    requires Sound(c, s) && Drivable(s, jobId, x, now) && Tracks(c, s, observations)
    ensures var t := RunToCompletion(c, s, jobId, x, now).0;
            var frames := D.FramesOf(observations, jobId) + DueFrames(s, jobId);
            && jobId in t.jobs && t.jobs[jobId].core.framesProcessed == |frames|
            && (t.jobs[jobId].core.eventIds != [] <==> D.ConfirmedWithin(c.detection, frames))
  {
    hide Sound, D.RunsAbove, Drive, D.ConfirmedWithin, DueFrames, D.FramesOf, Drivable, Describes;
    DrivableIsAuthorized(s, jobId, x, now);
    RemainingBounded(c, s, jobId);
    DriveObserves(c, s, observations, jobId, x, now, MAXIMUM_FRAMES + 1);
    TaggedFrames(observations, jobId, DueFrames(s, jobId));
    var t := RunToCompletion(c, s, jobId, x, now).0;
    var all := observations + Tagged(jobId, DueFrames(s, jobId));
    assert JobTracks(c, t, D.FramesOf(all, jobId), jobId);
    DrivenJobStays(c, s, jobId, x, now, MAXIMUM_FRAMES + 1);
  }

  lemma {:induction false} DrivenJobStays(c: Config, s: State, jobId: string, x: Context, now: int, limit: nat)
    requires Sound(c, s) && jobId in s.jobs
    ensures jobId in Drive(c, s, jobId, x, now, limit).0.jobs
    decreases limit
  {
    hide Sound, Advance, FrameFor, D.RunsAbove, Quiet, SameOrigin;
    if limit > 0 {
      DriveStep(c, s, jobId, x, now, limit);
      SoundMeansCallable(c, s, jobId);
      AdvanceKeepsOrigins(c, s, jobId, x, now, jobId);
      DrivenJobStays(c, Advance(c, s, jobId, x, now).0, jobId, x, now, limit - 1);
    }
  }

  // ---- Where jobs come from --------------------------------------------------------------------

  /** The call started the job: in time, in its own context, for online cameras that its organization
      owns, and allowed by policy at that moment. */
  ghost predicate StartedBy(c: Config, call: Call, job: Job) {
    call.StartCall? &&
    var command, x, now := call.command, call.x, call.now;
    var cameras := CameraTable(c.cameras);
    && command.actionSupported && now - 300 * SECOND <= command.requestedAt <= now + 30 * SECOND
    && command.actorId == x.actor.actorId == job.actorId
    && command.organizationId == x.actor.organizationId == x.device.organizationId == job.organizationId
    && command.sourceDeviceId == x.device.deviceId == job.deviceId
    && job.key == (x.actor.organizationId, x.actor.actorId, command.commandId)
    && job.correlationId == command.correlationId
    && (forall i :: 0 <= i < |Targets(command)| ==> Owned(cameras, job.organizationId, Targets(command)[i]))
    && command.firstTarget in cameras && cameras[command.firstTarget].online && job.cameraId == command.firstTarget
    && P.Evaluate(PolicyRequest(command, x, now), c.tools).decision == P.Allow
    && job.deadline == now + SecondsOf(command.duration) * SECOND
    && J.StartedLog(J.Monitoring, x.actor.actorId, now).transitions <= job.core.log.transitions
  }

  lemma SameOriginStarted(c: Config, call: Call, a: Job, b: Job)
    requires StartedBy(c, call, a) && SameOrigin(a, b)
    ensures StartedBy(c, call, b)
  {
    hide P.Evaluate, J.StartedLog, CameraTable, Owned;
  }

  lemma ProcessedOrigin(c: Config, s: State, jobId: string, f: D.Frame, id: string)
    requires D.SettingsValid(c.detection) && D.RunsAbove(c.detection, s.confirmer) && jobId in s.jobs && id in s.jobs
    ensures var t := Processed(c, s, jobId, f);
            t.jobs.Keys == s.jobs.Keys && SameOrigin(s.jobs[id], t.jobs[id])
  {
    hide D.Observe, D.RunsAbove, Processed;
    ProcessedShape(c, s, jobId, f);
  }

  /** A call keeps the origin of every job and adds at most the one it starts. */
  lemma CallKeepsOrigins(c: Config, s: State, call: Call, id: string)
    requires Sound(c, s)
    ensures var t := StateAfter(c, s, call);
            && (id in s.jobs ==> id in t.jobs && SameOrigin(s.jobs[id], t.jobs[id]))
            && (id in t.jobs && id !in s.jobs ==> StartedBy(c, call, t.jobs[id]))
  {
    hide Sound, Advance, Start, Cancel, Publish, FrameFor, SameOrigin, StartedBy;
    match call {
      case StartCall(command, x, now) =>
        StartIsQuiet(c, s, command, x, now);
        NewJobStartedBy(c, s, command, x, now, id);
      case AdvanceCall(jobId, x, now) =>
        AdvanceKeepsOrigins(c, s, jobId, x, now, id);
      case CancelCall(jobId, x, now) =>
        SoundMeansCallable(c, s, jobId);
        CancelIsQuiet(c, s, jobId, x, now);
      case PublishCall(event, recipientId) =>
        PublishKeepsOrigins(c, s, event, recipientId, id);
    }
  }

  lemma PublishKeepsOrigins(c: Config, s: State, event: BoundEvent, recipientId: string, id: string)
    requires Sound(c, s)
    ensures Publish(c, s, event, recipientId).0 == s
    ensures id in s.jobs ==> SameOrigin(s.jobs[id], s.jobs[id])
  {
    hide Good, Publish;
    PublishAgain(c, s, event, recipientId);
  }

  lemma NewJobStartedBy(c: Config, s: State, command: Command, x: Context, now: int, id: string)
    ensures var t := Start(c, s, command, x, now).0;
            id in t.jobs && id !in s.jobs ==> StartedBy(c, StartCall(command, x, now), t.jobs[id])
  {
    hide DenialOf, StartedBy, J.StartedLog, Recorded, NewJob, OutcomeOf, FramesFor;
    if DenialOf(c, command, x, now).None? && command.actionSupported {
      DenialNeedsCamera(c, command, x, now);
      var camera := CameraFor(c, x.actor.organizationId, command).value;
      AdmittedJob(c, command, x, now, camera);
    }
  }

  lemma AdmittedJob(c: Config, command: Command, x: Context, now: int, camera: Camera)
    requires DenialOf(c, command, x, now).None? && command.actionSupported
    requires CameraFor(c, x.actor.organizationId, command) == Some(camera)
    ensures StartedBy(c, StartCall(command, x, now), NewJob(c, command, x, now, camera))
  {
    hide P.Evaluate, J.StartedLog, CameraTable;
    TableIsKeyed(c.cameras, command.firstTarget);
  }

  lemma {:induction false} TableIsKeyed(records: seq<Camera>, id: string)
    ensures id in CameraTable(records) ==> CameraTable(records)[id].cameraId == id && CameraTable(records)[id] in records
  {
    if records != [] {
      TableIsKeyed(records[..|records| - 1], id);
    }
  }

  lemma AdvanceKeepsOrigins(c: Config, s: State, jobId: string, x: Context, now: int, id: string)
    requires Sound(c, s)
    ensures D.RunsAbove(c.detection, s.confirmer) && Started(s, jobId)
    ensures var t := Advance(c, s, jobId, x, now).0;
            (id in s.jobs <==> id in t.jobs) && (id in s.jobs ==> SameOrigin(s.jobs[id], t.jobs[id]))
  {
    hide Good, IdsDistinct, D.RunsAbove, FrameFor, SameOrigin, Processed, NextFrame;
    SoundMeansCallable(c, s, jobId);
    if FrameFor(s, jobId, x, now).Some? {
      AdvanceProcesses(c, s, jobId, x, now);
      TakenFrame(c, s, jobId);
      var taken := NextFrame(s, jobId).0;
      GoodRunsAbove(c, taken);
      ProcessedOrigin(c, taken, jobId, FrameFor(s, jobId, x, now).value, if id in s.jobs then id else jobId);
    } else {
      AdvanceIsQuiet(c, s, jobId, x, now);
    }
  }

  /** No job without authorization: every job of every run was started by one of its calls that
      policy allowed, and keeps that call's actor, device, camera and deadline. */
  lemma {:induction false} EveryJobWasAllowed(c: Config, calls: seq<Call>, id: string)
    requires IdsDistinct(c) && D.SettingsValid(c.detection)
    ensures var s := RunCalls(c, calls).0;
            id in s.jobs ==> exists k :: 0 <= k < |calls| && StartedBy(c, calls[k], s.jobs[id])
  {
    hide IdsDistinct, Good, SameOrigin, StartedBy, StateAfter, Observed;
    if calls != [] {
      var front, call := calls[..|calls| - 1], calls[|calls| - 1];
      var s, t := RunCalls(c, front).0, RunCalls(c, calls).0;
      CallKeepsOrigins(c, s, call, id);
      EveryJobWasAllowed(c, front, id);
      if id in s.jobs {
        var k :| 0 <= k < |front| && StartedBy(c, front[k], s.jobs[id]);
        SameOriginStarted(c, front[k], s.jobs[id], t.jobs[id]);
        assert calls[k] == front[k] && id in t.jobs;
      } else if id in t.jobs {
        assert StartedBy(c, calls[|calls| - 1], t.jobs[id]);
      }
    }
  }
}
