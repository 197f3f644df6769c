/**
 The discovery worker and job objects and the service, updated in place, each proved against the
 functions of `Discovery` and `DiscoveryCommands`.

 The service holds its jobs and its memory of commands in maps, and its audit trail in a sink of its
 own; `Value` puts the three together. Every method that ends a job makes one transition and then
 appends one record, in that order, so that a refused transition leaves no record behind. The driver
 advances a job one millisecond at a time, up to one advance more than the job may list candidates, and
 `RunJobKeeps` says that the guard after its loop is never reached. What holds over any run of all jobs
 is in `DiscoveryCommands`.
 */
module DiscoveryService {
  import opened Options
  import opened Audit
  import opened Discovery
  import opened DiscoveryCommands
  import J = Jobs
  import P = Policy

  /** One started worker of the fixture source. */
  class DiscoveryWorker {
    const candidates: seq<Candidate>
    var index: nat
    var cancelled: bool

    ghost function Value(): Worker
      reads this
    {
      Worker(candidates, index, cancelled)
    }

    constructor (w: Worker)
      ensures Value() == w
    {
      candidates, index, cancelled := w.candidates, w.index, w.cancelled;
    }

    method TakeCandidate() returns (c: Option<Candidate>)
      modifies this`index
      ensures (Value(), c) == NextCandidate(old(Value()))
    {
      if cancelled || index >= |candidates| {
        return None;
      }
      index := index + 1;
      return Some(candidates[index - 1]);
    }

    method CancelWorker()
      modifies this`cancelled
      ensures Value() == old(Value()).(cancelled := true)
    {
      cancelled := true;
    }
  }

  class DiscoveryJob {
    const description: Job
    var log: J.Log
    var candidates: seq<Candidate>

    ghost function Value(): Job
      reads this
    {
      description.(log := log, candidates := candidates)
    }

    constructor (job: Job)
      ensures Value() == job
    {
      description, log, candidates := job, job.log, job.candidates;
    }

    /** `None` is the error for a job that is not running; false when the candidate is already listed
        or the limit is reached. */
    method Add(c: Candidate) returns (added: Option<bool>)
      modifies this`candidates
      ensures log.state != J.Running ==> added == None && Value() == old(Value())
      ensures log.state == J.Running ==>
                Value() == AddCandidate(old(Value()), c) && added == Some(candidates == old(candidates) + [c])
    {
      if log.state != J.Running {
        return None;
      }
      if Listed(candidates, c.candidateId) {
        return Some(false);
      }
      if |candidates| >= description.maximum {
        return Some(false);
      }
      candidates := candidates + [c];
      return Some(true);
    }

    method MoveTo(to: J.JobState, action: string, now: int, reason: string) returns (error: Option<J.TransitionError>)
      requires log.transitions != []
      modifies this`log
      ensures log.transitions != []
      ensures var refused := J.TransitionRefused(old(log), to, now);
              && error == (if refused.Some? then Some(refused.value) else None)
              && Value() == if refused.Some? then old(Value())
                            else old(Value()).(log := J.Moved(old(log), to, action, description.actorId, now, reason))
    {
      if to !in J.AllowedFrom(log.kind, log.state) {
        return Some(J.InvalidTransition);
      }
      if now < J.LastTime(log) {
        return Some(J.TimestampMovedBackwards);
      }
      log := J.Moved(log, to, action, description.actorId, now, reason);
      return None;
    }

    function CurrentOutcome(): Outcome
      requires log.transitions != []
      reads this
    {
      Outcome(log.state, candidates, if log.state == J.Running then "SIMULATION_RUNNING" else J.LastReason(log))
    }
  }

  /** The service over all its jobs; jobs are values of its map. */
  class PassiveDiscoveryService {
    const config: Config
    const audit: InMemoryAuditSink
    var jobs: map<string, Tracked>
    var commands: map<Key, Remembered>

    ghost function Value(): Service
      reads this, audit
    {
      Service(jobs, commands, audit.records)
    }

    ghost predicate Valid()
      reads this, audit
    {
      audit.idOf == config.auditIdOf && Sound(config, Value())
    }

    constructor (config: Config)
      requires IdsDistinct(config) && FixturesValid(config.fixtures)
      ensures Valid() && Value() == IDLE && this.config == config && fresh(audit)
    {
      this.config := config;
      audit := new InMemoryAuditSink(config.auditIdOf);
      jobs, commands := map[], map[];
      new;
      IdleSound(config);
    }

    method DenyAndRemember(key: Key, requestHash: string, denial: Denial, now: int) returns (reply: Reply)
      requires audit.idOf == config.auditIdOf
      modifies this`commands, audit
      ensures (Value(), reply) == Deny(config, old(Value()), key, requestHash, denial, now)
    {
      var stored := audit.Append(AuditRecord(key, denial.decision, denial.reason, DeniedResult, now));
      if stored.None? {
        return Raised(AuditCollision);
      }
      commands := commands[key := Remembered(requestHash, None, denial.reason)];
      return Ok(Outcome(J.Denied, [], denial.reason));
    }

    method RecallCommand(key: Key, requestHash: string) returns (reply: Reply)
      requires key in commands
      ensures reply == Recall(Value(), key, requestHash)
    {
      var known := commands[key];
      if known.requestHash != requestHash {
        return Raised(IdempotencyKeyReused);
      }
      if known.jobId.None? {
        return Ok(Outcome(J.Denied, [], known.denial));
      }
      if known.jobId.value !in jobs || jobs[known.jobId.value].state.job.log.transitions == [] {
        return Raised(JobUnknown);
      }
      return Ok(OutcomeOf(jobs[known.jobId.value].state.job));
    }

    /** The checks on a new command, in their order, up to the job they lead to. */
    method CheckCommand(command: Command, x: Context, now: int, taken: bool) returns (r: StartReply)
      ensures r == Start(config.tools, config.fixtures, command, x, now, taken)
    {
      hide P.Evaluate, P.ReasonCode;
      if !command.actionSupported {
        return NotStarted(ActionNotSupported);
      }
      if !(now - 300 * SECOND <= command.requestedAt <= now + 30 * SECOND) {
        return Refusal("COMMAND_TIMESTAMP_INVALID");
      }
      if command.actorId != x.actor.actorId || command.organizationId != x.actor.organizationId
         || command.sourceDeviceId != x.device.deviceId || x.actor.organizationId != x.device.organizationId {
        return Refusal("COMMAND_CONTEXT_MISMATCH");
      }
      var policy := P.Evaluate(PolicyRequest(command, x, now), config.tools);
      if policy.decision != P.Allow {
        return Denied(Denial(policy.decision, P.ReasonCode(policy.reason)));
      }
      if x.scope.None? {
        return NotStarted(ScopeMissing);
      }
      var deadline := now + command.seconds * SECOND;
      if x.scope.value.validUntil < deadline {
        return Refusal("SCOPE_EXPIRES_BEFORE_JOB");
      }
      if !(1 <= command.maximum <= MAXIMUM_CANDIDATES) {
        return NotStarted(CandidateCountInvalid);
      }
      if taken {
        return NotStarted(WorkerExists);
      }
      var target := if command.targets == [] then "" else command.targets[0];
      var scope := Scope(x.actor.organizationId, target, command.interfaceId);
      if scope !in config.fixtures {
        return Refusal("DISCOVERY_SOURCE_NOT_CONFIGURED");
      }
      var job := Job(x.actor.organizationId, x.actor.actorId, x.device.deviceId, x.scope.value.scopeId, command.maximum,
                     deadline, J.StartedLog(J.Discovery, x.actor.actorId, now), []);
      return Started(State(job, Worker(FirstOf(config.fixtures[scope], command.maximum), 0, false)));
    }

    method StartJob(command: Command, x: Context, now: int) returns (reply: Reply)
      requires Valid()
      modifies this, audit
      ensures Valid()
      ensures (Value(), reply) == StartCommand(config, old(Value()), command, x, now)
    {
      hide Sound, Start, Deny, Recall;
      StartKeeps(config, Value(), command, x, now);
      if !command.actionSupported {
        return Raised(ActionNotSupported);
      }
      var key := KeyOf(command, x);
      if key in commands {
        reply := RecallCommand(key, command.requestHash);
        return;
      }
      var id := config.jobIdOf(key);
      var started := CheckCommand(command, x, now, id in jobs);
      match started {
        case Denied(denial) => reply := DenyAndRemember(key, command.requestHash, denial, now);
        case NotStarted(error) => reply := Raised(error);
        case Started(state) =>
          jobs := jobs[id := Tracked(key, state)];
          commands := commands[key := Remembered(command.requestHash, Some(id), "")];
          reply := if state.job.log.transitions == [] then Raised(JobUnknown) else Ok(OutcomeOf(state.job));
      }
    }

    /** One transition of a running job, then its audit record. */
    method EndJob(id: string, to: J.JobState, action: string, now: int, reason: string) returns (reply: Reply)
      requires audit.idOf == config.auditIdOf && id in jobs && jobs[id].state.job.log.transitions != []
      requires jobs[id].state.job.log.state == J.Running && ResultFor(to).Some?
      modifies this`jobs, audit
      ensures var (t, answer) := End(old(jobs)[id].state, to, action, now, reason);
              (Value(), reply) == Conclude(config, old(Value()), id, t, answer, now)
    {
      var tracked := jobs[id];
      var job := tracked.state.job;
      var refused := J.TransitionRefused(job.log, to, now);
      if refused.Some? {
        assert jobs == jobs[id := tracked];
        return Raised(TransitionRefused(refused.value));
      }
      job := job.(log := J.Moved(job.log, to, action, job.actorId, now, reason));
      jobs := jobs[id := tracked.(state := tracked.state.(job := job))];
      var stored := audit.Append(AuditRecord(tracked.key, P.Allow, reason, ResultFor(to).value, now));
      if stored.None? {
        return Raised(AuditCollision);
      }
      return Ok(OutcomeOf(job));
    }

    method AdvanceTo(id: string, x: Context, now: int) returns (reply: Reply)
      requires audit.idOf == config.auditIdOf && Callable(Value(), id)
      modifies this`jobs, audit
      ensures (Value(), reply) == AdvanceJob(config, old(Value()), id, x, now)
    {
      hide End, AddCandidate, Conclude;
      if id !in jobs {
        return Raised(JobUnknown);
      }
      ghost var before := Value();
      var tracked := jobs[id];
      var state := tracked.state;
      StoringNothing(config, before, id, Raised(ContextMismatch), now);
      StoringNothing(config, before, id, Ok(OutcomeOf(state.job)), now);
      if !Accessible(state.job, x) {
        return Raised(ContextMismatch);
      }
      if state.job.log.state != J.Running {
        return Ok(OutcomeOf(state.job));
      }
      if now >= state.job.deadline {
        reply := EndJob(id, J.Completed, "complete", now, "DURATION_ELAPSED");
        return;
      }
      var (worker, candidate) := NextCandidate(state.worker);
      var fed := state.(worker := worker);
      jobs := jobs[id := tracked.(state := fed)];
      ghost var moved := Value();
      match candidate {
        case None =>
          ghost var (t, answer) := End(fed, J.Completed, "complete", now, "FIXTURE_EXHAUSTED");
          StoringTwice(config, before, moved, id, fed, t, answer, now);
          reply := EndJob(id, J.Completed, "complete", now, "FIXTURE_EXHAUSTED");
        case Some(c) =>
          if c.organizationId != state.job.organizationId {
            ghost var (t, answer) := End(fed, J.Failed, "fail", now, "CANDIDATE_CONTEXT_MISMATCH");
            StoringTwice(config, before, moved, id, fed, t, answer, now);
            reply := EndJob(id, J.Failed, "fail", now, "CANDIDATE_CONTEXT_MISMATCH");
          } else {
            AddKeepsLog(state.job, c);
            var job := AddCandidate(state.job, c);
            StoringRunning(config, before, id, fed.(job := job), Ok(OutcomeOf(job)), now);
            jobs := jobs[id := tracked.(state := fed.(job := job))];
            assert jobs == before.jobs[id := tracked.(state := fed.(job := job))];
            return Ok(OutcomeOf(job));
          }
      }
    }

    method AdvanceDiscovery(id: string, x: Context, now: int) returns (reply: Reply)
      requires Valid()
      modifies this, audit
      ensures Valid() && Callable(old(Value()), id)
      ensures (Value(), reply) == AdvanceJob(config, old(Value()), id, x, now)
    {
      hide Sound, AdvanceJob;
      AdvanceJobKeeps(config, Value(), id, x, now);
      reply := AdvanceTo(id, x, now);
    }

    /** The advances are one millisecond apart; what they achieve is `RunToCompletionEnds`. */
    method RunDiscovery(id: string, x: Context, now: int) returns (reply: Reply)
      requires Valid()
      modifies this, audit
      ensures Valid() && Callable(old(Value()), id)
      ensures (Value(), reply) == RunJob(config, old(Value()), id, x, now)
    {
      hide Sound, AdvanceJob, Conclude, End;
      RunJobKeeps(config, Value(), id, x, now);
      if id !in jobs {
        return Raised(JobUnknown);
      }
      if !Accessible(jobs[id].state.job, x) {
        return Raised(ContextMismatch);
      }
      var limit := jobs[id].state.job.maximum + 1;
      ghost var before := Value();
      for offset := 0 to limit
        invariant Valid() && id in jobs && Callable(Value(), id)
        invariant offset == 0 || jobs[id].state.job.log.state == J.Running
        invariant DriveJob(config, Value(), id, x, now, offset, limit) == DriveJob(config, before, id, x, now, 0, limit)
        invariant offset == 0 ==> Value() == before
      {
        AdvanceJobKeeps(config, Value(), id, x, Later(now, offset));
        ghost var at := Value();
        reply := AdvanceDiscovery(id, x, Later(now, offset));
        SoundJob(config, Value(), id);
        if reply.Raised? || reply.outcome.status != J.Running {
          return;
        }
        AnsweredState(config, at, id, x, Later(now, offset));
      }
      reply := EndJob(id, J.Failed, "fail", now + SECOND, "CANDIDATE_LIMIT_GUARD");
    }

    method CancelDiscovery(id: string, x: Context, now: int) returns (reply: Reply)
      requires Valid()
      modifies this, audit
      ensures Valid() && Callable(old(Value()), id)
      ensures (Value(), reply) == CancelJob(config, old(Value()), id, x, now)
    {
      hide Sound, Conclude, End;
      CancelJobKeeps(config, Value(), id, x, now);
      if id !in jobs {
        return Raised(JobUnknown);
      }
      ghost var before := Value();
      SoundState(config, before, id);
      var tracked := jobs[id];
      var state := tracked.state;
      StoringNothing(config, before, id, Raised(ContextMismatch), now);
      StoringNothing(config, before, id, Ok(OutcomeOf(state.job)), now);
      if !Accessible(state.job, x) {
        return Raised(ContextMismatch);
      }
      if state.job.log.state == J.Completed || state.job.log.state == J.Cancelled || state.job.log.state == J.Failed {
        return Ok(OutcomeOf(state.job));
      }
      var stopped := state.(worker := state.worker.(cancelled := true));
      jobs := jobs[id := tracked.(state := stopped)];
      ghost var (t, answer) := End(stopped, J.Cancelled, "cancel", now, "OPERATOR_CANCELLED");
      StoringTwice(config, before, Value(), id, stopped, t, answer, now);
      reply := EndJob(id, J.Cancelled, "cancel", now, "OPERATOR_CANCELLED");
    }
  }

  lemma AddKeepsLog(job: Job, c: Candidate)
    ensures AddCandidate(job, c).log == job.log
  {}

  /** Storing a job as it is changes nothing. */
  lemma StoringNothing(c: Config, s: Service, id: string, reply: Reply, now: int)
    requires id in s.jobs
    ensures Conclude(c, s, id, s.jobs[id].state, reply, now) == (s, reply)
  {
    assert s.jobs == s.jobs[id := s.jobs[id]];
  }

  lemma StoringRunning(c: Config, s: Service, id: string, t: State, reply: Reply, now: int)
    requires id in s.jobs && t.job.log.state == J.Running
    ensures Conclude(c, s, id, t, reply, now) == (s.(jobs := s.jobs[id := s.jobs[id].(state := t)]), reply)
  {}

  /** A first store of the same progress is overwritten by the second. */
  lemma StoringTwice(c: Config, s: Service, moved: Service, id: string, fed: State, t: State, reply: Reply, now: int)
    requires id in s.jobs && fed.job == s.jobs[id].state.job
    requires moved == s.(jobs := s.jobs[id := s.jobs[id].(state := fed)])
    ensures Conclude(c, moved, id, t, reply, now) == Conclude(c, s, id, t, reply, now)
  {
    assert moved.jobs[id := s.jobs[id].(state := t)] == s.jobs[id := s.jobs[id].(state := t)];
  }

  lemma SoundState(c: Config, s: Service, id: string)
    requires Sound(c, s) && id in s.jobs
    ensures var job := s.jobs[id].state.job;
            job.log.transitions != [] && (job.log.state == J.Running || ResultFor(job.log.state).Some?)
  {
    SoundJob(c, s, id);
    GoodState(s.jobs[id].state);
  }

  /** The status answered is that of the job. */
  lemma AnsweredState(c: Config, s: Service, id: string, x: Context, now: int)
    requires Sound(c, s) && id in s.jobs
    ensures Callable(s, id)
    ensures var (t, reply) := AdvanceJob(c, s, id, x, now);
            reply.Ok? && id in t.jobs ==> t.jobs[id].state.job.log.state == reply.outcome.status
  {
    hide Sound, AdvanceJob, Advance;
    AdvanceJobKeeps(c, s, id, x, now);
    SoundJob(c, s, id);
    AdvanceMoves(s.jobs[id].state, x, now);
  }
}
