/**
 The passive discovery service over all its jobs: the memory of commands, and an audit trail that gets
 one record per command, once it was denied or its job is over.

 Identifier derivations are function parameters of `Config`; `IdsDistinct` is what is assumed of them.
 */
module DiscoveryCommands {
  import opened Options
  import opened Audit
  import opened Discovery
  import J = Jobs
  import P = Policy

  datatype Config = Config(
    tools: P.Tools,
    fixtures: map<Scope, seq<Candidate>>,
    jobIdOf: Key -> string,
    auditIdOf: (Key, Result) -> string)

  /** A job together with the command that started it. */
  datatype Tracked = Tracked(key: Key, state: State)

  datatype Remembered = Remembered(requestHash: string, jobId: Option<string>, denial: string)

  datatype Service = Service(jobs: map<string, Tracked>, commands: map<Key, Remembered>, audit: map<string, AuditRecord>)

  const IDLE := Service(map[], map[], map[])

  function KeyOf(command: Command, x: Context): Key {
    (x.actor.organizationId, x.actor.actorId, command.commandId)
  }

  /** The answer to a command that was seen before. */
  function Recall(s: Service, key: Key, requestHash: string): Reply
    requires key in s.commands
  {
    var known := s.commands[key];
    if known.requestHash != requestHash then Raised(IdempotencyKeyReused)
    else if known.jobId.None? then Ok(Outcome(J.Denied, [], known.denial))
    else if known.jobId.value in s.jobs && s.jobs[known.jobId.value].state.job.log.transitions != [] then
      Ok(OutcomeOf(s.jobs[known.jobId.value].state.job))
    else Raised(JobUnknown)
  }

  function Deny(c: Config, s: Service, key: Key, requestHash: string, denial: Denial, now: int): (Service, Reply) {
    match Recorded(c.auditIdOf, s.audit, AuditRecord(key, denial.decision, denial.reason, DeniedResult, now))
    case None => (s, Raised(AuditCollision))
    case Some(audit) =>
      (s.(audit := audit, commands := s.commands[key := Remembered(requestHash, None, denial.reason)]),
       Ok(Outcome(J.Denied, [], denial.reason)))
  }

  function Open(s: Service, id: string, key: Key, requestHash: string, state: State): Service {
    s.(jobs := s.jobs[id := Tracked(key, state)], commands := s.commands[key := Remembered(requestHash, Some(id), "")])
  }

  function StartCommand(c: Config, s: Service, command: Command, x: Context, now: int): (Service, Reply) {
    if !command.actionSupported then (s, Raised(ActionNotSupported))
    else
      var key := KeyOf(command, x);
      if key in s.commands then (s, Recall(s, key, command.requestHash))
      else
        match Start(c.tools, c.fixtures, command, x, now, c.jobIdOf(key) in s.jobs)
        case Denied(denial) => Deny(c, s, key, command.requestHash, denial, now)
        case NotStarted(error) => (s, Raised(error))
        case Started(state) =>
          (Open(s, c.jobIdOf(key), key, command.requestHash, state),
           if state.job.log.transitions == [] then Raised(JobUnknown) else Ok(OutcomeOf(state.job)))
  }

  // ---- Calls on a job --------------------------------------------------------------------------

  function ResultFor(state: J.JobState): Option<Result> {
    match state
    case Completed => Some(SimulatedResult)
    case Cancelled => Some(CancelledResult)
    case Failed => Some(FailedResult)
    case _ => None
  }

  /** What a call made of a job is stored; if it ended the job, that is recorded. */
  function Conclude(c: Config, s: Service, id: string, t: State, reply: Reply, now: int): (Service, Reply)
    requires id in s.jobs
  {
    var tracked := s.jobs[id];
    var moved := s.(jobs := s.jobs[id := tracked.(state := t)]);
    if tracked.state.job.log.state != J.Running || ResultFor(t.job.log.state).None? || t.job.log.transitions == [] then (moved, reply)
    else
      var r := AuditRecord(tracked.key, P.Allow, J.LastReason(t.job.log), ResultFor(t.job.log.state).value, now);
      match Recorded(c.auditIdOf, s.audit, r)
      case None => (moved, Raised(AuditCollision))
      case Some(audit) => (moved.(audit := audit), reply)
  }

  predicate Callable(s: Service, id: string) {
    id in s.jobs ==> s.jobs[id].state.job.log.transitions != []
  }

  function AdvanceJob(c: Config, s: Service, id: string, x: Context, now: int): (Service, Reply)
    requires Callable(s, id)
  {
    if id !in s.jobs then (s, Raised(JobUnknown))
    else
      var (t, reply) := Advance(s.jobs[id].state, x, now);
      Conclude(c, s, id, t, reply, now)
  }

  function CancelJob(c: Config, s: Service, id: string, x: Context, now: int): (Service, Reply)
    requires Callable(s, id)
  {
    if id !in s.jobs then (s, Raised(JobUnknown))
    else
      var (t, reply) := Cancel(s.jobs[id].state, x, now);
      Conclude(c, s, id, t, reply, now)
  }

  /** The loop of the driver: advances one millisecond apart, and the guard after the last one. */
  function DriveJob(c: Config, s: Service, id: string, x: Context, now: int, offset: nat, limit: nat): (Service, Reply)
    requires Callable(s, id) && id in s.jobs && offset <= limit
    decreases limit - offset
  {
    if offset == limit then
      var (t, reply) := End(s.jobs[id].state, J.Failed, "fail", now + SECOND, "CANDIDATE_LIMIT_GUARD");
      Conclude(c, s, id, t, reply, now + SECOND)
    else
      var (t, reply) := AdvanceJob(c, s, id, x, Later(now, offset));
      if reply.Raised? || reply.outcome.status != J.Running || id !in t.jobs || !Callable(t, id) then (t, reply)
      else DriveJob(c, t, id, x, now, offset + 1, limit)
  }

  function RunJob(c: Config, s: Service, id: string, x: Context, now: int): (Service, Reply)
    requires Callable(s, id)
  {
    if id !in s.jobs then (s, Raised(JobUnknown))
    else if !Accessible(s.jobs[id].state.job, x) then (s, Raised(ContextMismatch))
    else DriveJob(c, s, id, x, now, 0, s.jobs[id].state.job.maximum + 1)
  }

  // ---- What every call keeps -------------------------------------------------------------------

  ghost predicate IdsDistinct(c: Config) {
    && (forall k, l :: c.jobIdOf(k) == c.jobIdOf(l) ==> k == l)
    && (forall k, r, l, q :: c.auditIdOf(k, r) == c.auditIdOf(l, q) ==> k == l && r == q)
  }

  ghost predicate JobSound(c: Config, s: Service, id: string) {
    id in s.jobs ==>
      && Good(s.jobs[id].state) && id == c.jobIdOf(s.jobs[id].key)
      && s.jobs[id].key in s.commands && s.commands[s.jobs[id].key].jobId == Some(id)
  }

  ghost predicate CommandSound(s: Service, key: Key) {
    key in s.commands && s.commands[key].jobId.Some? ==>
      s.commands[key].jobId.value in s.jobs && s.jobs[s.commands[key].jobId.value].key == key
  }

  /** How a command ended, once it was denied or its job is over. */
  function ResultOf(s: Service, key: Key): Option<Result> {
    if key !in s.commands then None
    else if s.commands[key].jobId.None? then Some(DeniedResult)
    else if s.commands[key].jobId.value !in s.jobs then None
    else ResultFor(s.jobs[s.commands[key].jobId.value].state.job.log.state)
  }

  ghost predicate AuditSound(c: Config, s: Service, key: Key, r: Result) {
    c.auditIdOf(key, r) in s.audit <==> ResultOf(s, key) == Some(r)
  }

  ghost predicate EntrySound(c: Config, s: Service, id: string) {
    id in s.audit ==> id == c.auditIdOf(s.audit[id].key, s.audit[id].result)
  }

  ghost predicate Sound(c: Config, s: Service) {
    && IdsDistinct(c) && FixturesValid(c.fixtures)
    && (forall id :: JobSound(c, s, id))
    && (forall key :: CommandSound(s, key))
    && (forall key, r :: AuditSound(c, s, key, r))
    && (forall id :: EntrySound(c, s, id))
  }

  lemma IdleSound(c: Config)
    requires IdsDistinct(c) && FixturesValid(c.fixtures)
    ensures Sound(c, IDLE)
  {}

  lemma SoundJob(c: Config, s: Service, id: string)
    requires Sound(c, s)
    ensures JobSound(c, s, id) && Callable(s, id)
    ensures id in s.jobs ==> Good(s.jobs[id].state)
  {
    assert JobSound(c, s, id);
    if id in s.jobs {
      GoodHasLog(s.jobs[id].state);
    }
  }

  lemma RecordIsNew(c: Config, s: Service, r: AuditRecord)
    requires Sound(c, s) && ResultOf(s, r.key) == None
    ensures Recorded(c.auditIdOf, s.audit, r) == Some(s.audit[c.auditIdOf(r.key, r.result) := r])
  {
    assert AuditSound(c, s, r.key, r.result);
  }

  /** Recording how one command ended, while no other command changes. */
  lemma RecordSettles(c: Config, s: Service, t: Service, r: AuditRecord)
    requires Sound(c, s) && ResultOf(s, r.key) == None
    requires t.audit == s.audit[c.auditIdOf(r.key, r.result) := r] && ResultOf(t, r.key) == Some(r.result)
    requires forall key :: key != r.key ==> ResultOf(t, key) == ResultOf(s, key)
    ensures forall key, q :: AuditSound(c, t, key, q)
    ensures forall id :: EntrySound(c, t, id)
  {
    hide ResultOf, JobSound, CommandSound, FixturesValid;
    forall key, q ensures AuditSound(c, t, key, q) {
      assert AuditSound(c, s, key, q);
      assert AuditSound(c, s, r.key, q);
    }
    forall id ensures EntrySound(c, t, id) {
      assert EntrySound(c, s, id);
    }
  }

  /** The audit trail stays sound while no command ends. */
  lemma NothingSettles(c: Config, s: Service, t: Service)
    requires Sound(c, s) && t.audit == s.audit && forall key :: ResultOf(t, key) == ResultOf(s, key)
    ensures forall key, q :: AuditSound(c, t, key, q)
    ensures forall id :: EntrySound(c, t, id)
  {
    hide ResultOf, JobSound, CommandSound, FixturesValid, IdsDistinct;
    forall key, q ensures AuditSound(c, t, key, q) {
      assert AuditSound(c, s, key, q);
    }
    forall id ensures EntrySound(c, t, id) {
      assert EntrySound(c, s, id);
    }
  }

  // ---- Starting --------------------------------------------------------------------------------

  lemma DenyKeeps(c: Config, s: Service, key: Key, requestHash: string, denial: Denial, now: int)
    requires Sound(c, s) && key !in s.commands
    ensures Sound(c, Deny(c, s, key, requestHash, denial, now).0)
    ensures Deny(c, s, key, requestHash, denial, now).1 == Ok(Outcome(J.Denied, [], denial.reason))
  {
    hide Good, FixturesValid, IdsDistinct, AuditSound, EntrySound;
    var r := AuditRecord(key, denial.decision, denial.reason, DeniedResult, now);
    RecordIsNew(c, s, r);
    var t := Deny(c, s, key, requestHash, denial, now).0;
    forall k ensures CommandSound(t, k) && (k != key ==> ResultOf(t, k) == ResultOf(s, k)) {
      assert CommandSound(s, k);
    }
    RecordSettles(c, s, t, r);
    forall id ensures JobSound(c, t, id) {
      assert JobSound(c, s, id);
    }
  }

  /** A new command's job id is free. */
  lemma NewJobIsNew(c: Config, s: Service, key: Key)
    requires Sound(c, s) && key !in s.commands
    ensures c.jobIdOf(key) !in s.jobs
  {
    assert JobSound(c, s, c.jobIdOf(key));
  }

  lemma OpenKeeps(c: Config, s: Service, key: Key, requestHash: string, state: State)
    requires Sound(c, s) && key !in s.commands && Good(state) && state.job.log.state == J.Running
    ensures Sound(c, Open(s, c.jobIdOf(key), key, requestHash, state))
  {
    hide Good, FixturesValid, IdsDistinct, AuditSound, EntrySound;
    NewJobIsNew(c, s, key);
    var t := Open(s, c.jobIdOf(key), key, requestHash, state);
    forall k ensures CommandSound(t, k) && ResultOf(t, k) == ResultOf(s, k) {
      assert CommandSound(s, k);
    }
    NothingSettles(c, s, t);
    forall id ensures JobSound(c, t, id) {
      assert JobSound(c, s, id);
    }
  }

  /** Starting keeps the invariant; neither a second worker nor an audit collision can occur. */
  lemma StartKeeps(c: Config, s: Service, command: Command, x: Context, now: int)
    requires Sound(c, s)
    ensures var (t, reply) := StartCommand(c, s, command, x, now);
            && Sound(c, t)
            && (reply.Raised? ==> t == s && (reply.error == ActionNotSupported || reply.error == IdempotencyKeyReused
                                             || reply.error == ScopeMissing || reply.error == CandidateCountInvalid))
  {
    hide Sound, Start, Deny, Open, Good, FixturesValid;
    if command.actionSupported {
      var key := KeyOf(command, x);
      if key in s.commands {
        RecallAnswers(c, s, key, command.requestHash);
      } else {
        NewCommandKeeps(c, s, command, x, now);
      }
    }
  }

  lemma RecallAnswers(c: Config, s: Service, key: Key, requestHash: string)
    requires Sound(c, s) && key in s.commands
    ensures Recall(s, key, requestHash).Raised? ==> Recall(s, key, requestHash) == Raised(IdempotencyKeyReused)
  {
    assert CommandSound(s, key);
    if s.commands[key].jobId.Some? {
      SoundJob(c, s, s.commands[key].jobId.value);
    }
  }

  lemma NewCommandKeeps(c: Config, s: Service, command: Command, x: Context, now: int)
    requires Sound(c, s) && command.actionSupported && KeyOf(command, x) !in s.commands
    ensures var (t, reply) := StartCommand(c, s, command, x, now);
            && Sound(c, t)
            && (reply.Raised? ==> t == s && (reply.error == ScopeMissing || reply.error == CandidateCountInvalid))
  {
    hide Sound, Deny, Open, Good, FixturesValid, Start;
    NewJobIsNew(c, s, KeyOf(command, x));
    FixturesAreValid(c, s);
    var key := KeyOf(command, x);
    NotStartedWhy(c.tools, c.fixtures, command, x, now);
    match Start(c.tools, c.fixtures, command, x, now, false) {
      case Denied(denial) => DenyKeeps(c, s, key, command.requestHash, denial, now);
      case NotStarted(error) =>
      case Started(state) =>
        StartSound(c.tools, c.fixtures, command, x, now, false);
        GoodHasLog(state);
        OpenKeeps(c, s, key, command.requestHash, state);
    }
  }

  lemma FixturesAreValid(c: Config, s: Service)
    requires Sound(c, s)
    ensures FixturesValid(c.fixtures)
  {}

  lemma NotStartedWhy(tools: P.Tools, fixtures: map<Scope, seq<Candidate>>, command: Command, x: Context, now: int)
    requires command.actionSupported
    ensures var reply := Start(tools, fixtures, command, x, now, false);
            reply.NotStarted? ==> reply.error == ScopeMissing || reply.error == CandidateCountInvalid
  {
    hide P.Evaluate;
  }

  // ---- Moving a job ----------------------------------------------------------------------------

  /** What the calls on a job have in common: the invariant is kept, an ended job stays as it is, and
      a call that ends a job answers. */
  ghost predicate Moves(s: State, t: State, reply: Reply) {
    && Good(t) && t.job.log.transitions != []
    && (s.job.log.state != J.Running ==> t.job.log.state == s.job.log.state)
    && (t.job.log.state != s.job.log.state ==> reply.Ok?)
    && (reply.Ok? ==> reply.outcome.status == t.job.log.state)
  }

  lemma AdvanceMoves(s: State, x: Context, now: int)
    requires Good(s)
    ensures s.job.log.transitions != [] && Moves(s, Advance(s, x, now).0, Advance(s, x, now).1)
  {
    hide Good, AddCandidate;
    GoodHasLog(s);
    AdvanceKeeps(s, x, now);
    GoodHasLog(Advance(s, x, now).0);
  }

  lemma CancelMoves(s: State, x: Context, now: int)
    requires Good(s)
    ensures s.job.log.transitions != [] && Moves(s, Cancel(s, x, now).0, Cancel(s, x, now).1)
  {
    hide Good;
    GoodHasLog(s);
    CancelKeeps(s, x, now);
    GoodHasLog(Cancel(s, x, now).0);
  }

  /** Storing what a call made of a job keeps the invariant, records an end exactly once, and never
      collides. */
  lemma ConcludeKeeps(c: Config, s: Service, id: string, t: State, reply: Reply, now: int)
    requires Sound(c, s) && id in s.jobs && Moves(s.jobs[id].state, t, reply)
    ensures var (u, answer) := Conclude(c, s, id, t, reply, now);
            && Sound(c, u) && answer == reply && id in u.jobs && u.jobs[id] == s.jobs[id].(state := t)
            && forall other :: other in s.jobs && other != id ==> other in u.jobs && u.jobs[other] == s.jobs[other]
  {
    hide Good, FixturesValid, IdsDistinct, AuditSound, EntrySound;
    SoundJob(c, s, id);
    var tracked := s.jobs[id];
    var u := Conclude(c, s, id, t, reply, now).0;
    GoodState(t);
    GoodState(tracked.state);
    if tracked.state.job.log.state == J.Running && t.job.log.state != J.Running {
      var r := AuditRecord(tracked.key, P.Allow, J.LastReason(t.job.log), ResultFor(t.job.log.state).value, now);
      RecordIsNew(c, s, r);
      forall key ensures CommandSound(u, key) && (key != r.key ==> ResultOf(u, key) == ResultOf(s, key)) {
        assert CommandSound(s, key);
      }
      RecordSettles(c, s, u, r);
    } else {
      forall key ensures CommandSound(u, key) && ResultOf(u, key) == ResultOf(s, key) {
        assert CommandSound(s, key);
      }
      NothingSettles(c, s, u);
    }
    forall other ensures JobSound(c, u, other) {
      assert JobSound(c, s, other);
    }
  }

  lemma GoodState(s: State)
    requires Good(s)
    ensures var state := s.job.log.state;
            state == J.Running || state == J.Completed || state == J.Cancelled || state == J.Failed
  {}

  lemma AdvanceJobKeeps(c: Config, s: Service, id: string, x: Context, now: int)
    requires Sound(c, s)
    ensures Callable(s, id) && Sound(c, AdvanceJob(c, s, id, x, now).0)
    ensures id in s.jobs ==>
              var (t, reply) := Advance(s.jobs[id].state, x, now);
              && AdvanceJob(c, s, id, x, now).1 == reply && id in AdvanceJob(c, s, id, x, now).0.jobs
              && AdvanceJob(c, s, id, x, now).0.jobs[id] == s.jobs[id].(state := t)
  {
    SoundJob(c, s, id);
    if id in s.jobs {
      AdvanceMoves(s.jobs[id].state, x, now);
      hide Sound, Good, Advance, Moves, Conclude;
      var (t, reply) := Advance(s.jobs[id].state, x, now);
      ConcludeKeeps(c, s, id, t, reply, now);
    }
  }

  lemma CancelJobKeeps(c: Config, s: Service, id: string, x: Context, now: int)
    requires Sound(c, s)
    ensures Callable(s, id) && Sound(c, CancelJob(c, s, id, x, now).0)
    ensures id in s.jobs ==> CancelJob(c, s, id, x, now).1 == Cancel(s.jobs[id].state, x, now).1
  {
    SoundJob(c, s, id);
    if id in s.jobs {
      CancelMoves(s.jobs[id].state, x, now);
      hide Sound, Good, Cancel, Moves, Conclude;
      var (t, reply) := Cancel(s.jobs[id].state, x, now);
      ConcludeKeeps(c, s, id, t, reply, now);
    }
  }

  // ---- The driver ------------------------------------------------------------------------------

  /** The service's driver follows the job's: same answer, same state of the job, invariant kept. */
  ghost predicate Follows(c: Config, s: Service, id: string, x: Context, now: int, offset: nat, limit: nat)
    requires Callable(s, id) && id in s.jobs && offset <= limit
  {
    var (t, reply) := DriveJob(c, s, id, x, now, offset, limit);
    && Sound(c, t) && reply == Drive(s.jobs[id].state, x, now, offset, limit).1
    && id in t.jobs && t.jobs[id] == s.jobs[id].(state := Drive(s.jobs[id].state, x, now, offset, limit).0)
  }

  lemma {:induction false} DriveFollows(c: Config, s: Service, id: string, x: Context, now: int, offset: nat, limit: nat)
    requires Sound(c, s) && id in s.jobs && offset <= limit && Accessible(s.jobs[id].state.job, x)
    requires s.jobs[id].state.job.log.state == J.Running && offset + Remaining(s.jobs[id].state) < limit
    ensures Callable(s, id) && Follows(c, s, id, x, now, offset, limit)
    decreases limit - offset
  {
    hide Sound, Good, Advance, AdvanceJob, Accessible, Remaining, Later, JobSound, Follows;
    SoundJob(c, s, id);
    var state := s.jobs[id].state;
    AdvanceJobKeeps(c, s, id, x, Later(now, offset));
    if Later(now, offset) < state.job.deadline && Remaining(state) > 0 {
      DriveContinues(state, x, Later(now, offset));
      DriveFollows(c, AdvanceJob(c, s, id, x, Later(now, offset)).0, id, x, now, offset + 1, limit);
      FollowsOn(c, s, id, x, now, offset, limit);
    } else {
      DriveStops(state, x, now, offset);
      FollowsToEnd(c, s, id, x, now, offset, limit);
    }
  }

  lemma FollowsOn(c: Config, s: Service, id: string, x: Context, now: int, offset: nat, limit: nat)
    requires Sound(c, s) && id in s.jobs && offset < limit && Callable(s, id)
    requires Advance(s.jobs[id].state, x, Later(now, offset)).1.Ok?
    requires Advance(s.jobs[id].state, x, Later(now, offset)).1.outcome.status == J.Running
    requires var t := AdvanceJob(c, s, id, x, Later(now, offset)).0;
             id in t.jobs && Callable(t, id) && Follows(c, t, id, x, now, offset + 1, limit)
    ensures Follows(c, s, id, x, now, offset, limit)
  {
    hide Sound, Good, Advance, AdvanceJob, Later;
    AdvanceJobKeeps(c, s, id, x, Later(now, offset));
    SoundJob(c, s, id);
    DriveStep(s.jobs[id].state, x, now, offset, limit);
  }

  lemma FollowsToEnd(c: Config, s: Service, id: string, x: Context, now: int, offset: nat, limit: nat)
    requires Sound(c, s) && id in s.jobs && offset < limit && Callable(s, id)
    requires var reply := Advance(s.jobs[id].state, x, Later(now, offset)).1;
             reply.Raised? || reply.outcome.status != J.Running
    ensures Follows(c, s, id, x, now, offset, limit)
  {
    hide Sound, Good, Advance, AdvanceJob, Later;
    AdvanceJobKeeps(c, s, id, x, Later(now, offset));
    SoundJob(c, s, id);
    DriveStep(s.jobs[id].state, x, now, offset, limit);
  }

  /** The driver never raises an audit collision nor reaches its guard: what `RunToCompletionEnds` says
      of a job holds of the service. */
  lemma RunJobKeeps(c: Config, s: Service, id: string, x: Context, now: int)
    requires Sound(c, s)
    ensures Callable(s, id) && Sound(c, RunJob(c, s, id, x, now).0)
    ensures id in s.jobs ==>
              && RunJob(c, s, id, x, now).1 == RunToCompletion(s.jobs[id].state, x, now).1
              && id in RunJob(c, s, id, x, now).0.jobs
              && RunJob(c, s, id, x, now).0.jobs[id].state == RunToCompletion(s.jobs[id].state, x, now).0
  {
    hide Sound, Good, DriveJob, Drive, Accessible, Remaining, JobSound;
    SoundJob(c, s, id);
    if id in s.jobs && Accessible(s.jobs[id].state.job, x) {
      var state := s.jobs[id].state;
      RemainingBounded(state);
      if state.job.log.state == J.Running {
        DriveFollows(c, s, id, x, now, 0, state.job.maximum + 1);
      } else {
        EndedRunKeeps(c, s, id, x, now);
      }
    }
  }

  lemma RemainingBounded(s: State)
    requires Good(s)
    ensures Remaining(s) <= s.job.maximum
  {}

  lemma EndedRunKeeps(c: Config, s: Service, id: string, x: Context, now: int)
    requires Sound(c, s) && id in s.jobs && Accessible(s.jobs[id].state.job, x)
    requires s.jobs[id].state.job.log.state != J.Running
    ensures Callable(s, id)
    ensures var limit := s.jobs[id].state.job.maximum + 1;
            Follows(c, s, id, x, now, 0, limit)
  {
    hide Sound, Good, Advance, AdvanceJob, Accessible, JobSound;
    SoundJob(c, s, id);
    var state := s.jobs[id].state;
    FinishedStays(state, x, Later(now, 0));
    AdvanceJobKeeps(c, s, id, x, Later(now, 0));
  }

  // ---- Any run ---------------------------------------------------------------------------------

  datatype ServiceCall =
    | StartCall(command: Command, x: Context, now: int)
    | AdvanceJobCall(id: string, x: Context, now: int)
    | RunJobCall(id: string, x: Context, now: int)
    | CancelJobCall(id: string, x: Context, now: int)

  function ServiceAfter(c: Config, s: Service, call: ServiceCall): (t: Service)
    requires Sound(c, s)
    ensures Sound(c, t)
  {
    match call
    case StartCall(command, x, now) => StartKeeps(c, s, command, x, now); StartCommand(c, s, command, x, now).0
    case AdvanceJobCall(id, x, now) => AdvanceJobKeeps(c, s, id, x, now); AdvanceJob(c, s, id, x, now).0
    case RunJobCall(id, x, now) => RunJobKeeps(c, s, id, x, now); RunJob(c, s, id, x, now).0
    case CancelJobCall(id, x, now) => CancelJobKeeps(c, s, id, x, now); CancelJob(c, s, id, x, now).0
  }

  function RunService(c: Config, calls: seq<ServiceCall>): (s: Service)
    requires IdsDistinct(c) && FixturesValid(c.fixtures)
    ensures Sound(c, s)
  {
    if calls == [] then IdleSound(c); IDLE
    else ServiceAfter(c, RunService(c, calls[..|calls| - 1]), calls[|calls| - 1])
  }

  /** Over any run the audit trail is exact: a command has a record, telling how it ended, if and only
      if it was denied or its job is over, failed jobs included; and there are no other records. */
  lemma DiscoveryAuditIsExact(c: Config, calls: seq<ServiceCall>, key: Key, r: Result, id: string)
    requires IdsDistinct(c) && FixturesValid(c.fixtures)
    ensures var s := RunService(c, calls);
            && (c.auditIdOf(key, r) in s.audit <==> ResultOf(s, key) == Some(r))
            && (c.auditIdOf(key, r) in s.audit ==>
                  s.audit[c.auditIdOf(key, r)].key == key && s.audit[c.auditIdOf(key, r)].result == r)
            && (id in s.audit ==>
                  id == c.auditIdOf(s.audit[id].key, s.audit[id].result)
                  && ResultOf(s, s.audit[id].key) == Some(s.audit[id].result))
  {
    hide RunService, FixturesValid, JobSound, CommandSound, ResultOf;
    var s := RunService(c, calls);
    assert AuditSound(c, s, key, r);
    assert EntrySound(c, s, c.auditIdOf(key, r)) && EntrySound(c, s, id);
    if id in s.audit {
      assert AuditSound(c, s, s.audit[id].key, s.audit[id].result);
    }
  }

  /** Over any run every job is good: its log, its candidates and their limit, whatever other jobs do. */
  lemma EveryJobIsGood(c: Config, calls: seq<ServiceCall>, id: string)
    requires IdsDistinct(c) && FixturesValid(c.fixtures)
    ensures var s := RunService(c, calls);
            id in s.jobs ==>
              && Good(s.jobs[id].state) && id == c.jobIdOf(s.jobs[id].key)
              && s.jobs[id].key in s.commands && s.commands[s.jobs[id].key].jobId == Some(id)
  {
    hide RunService, FixturesValid, Good;
    assert JobSound(c, RunService(c, calls), id);
  }
}
