/** When discovery commands are admitted, recalled or denied, and why an advance ends a job, over any run. */
module DiscoveryAdmission {
  import opened Options
  import opened Audit
  import opened Discovery
  import opened DiscoveryCommands
  import J = Jobs
  import P = Policy

  /** The fixture a command asks for. */
  function FixtureKey(command: Command, x: Context): Scope {
    Scope(x.actor.organizationId, if command.targets == [] then "" else command.targets[0], command.interfaceId)
  }

  /** Asked for within five minutes back and thirty seconds ahead, by the actor and device of the context in one
      organization, allowed by policy, within a scope that outlives the job, for 1 to 128 candidates of a fixture. */
  predicate Admissible(c: Config, command: Command, x: Context, now: int) {
    && now - 300_000_000 <= command.requestedAt <= now + 30_000_000
    && command.actorId == x.actor.actorId && command.sourceDeviceId == x.device.deviceId
    && command.organizationId == x.actor.organizationId && x.device.organizationId == x.actor.organizationId
    && P.Evaluate(PolicyRequest(command, x, now), c.tools).decision == P.Allow
    && x.scope.Some? && x.scope.value.validUntil >= now + command.seconds * 1_000_000
    && 1 <= command.maximum <= 128 && FixtureKey(command, x) in c.fixtures
  }

  /** What it takes for policy to allow discovery: the tool with its profile, roles, capabilities, number of targets and
      duration, a trusted device of the actor's organization, and for a tool by scope a live scope of the tool and every
      target. */
  lemma AllowedExactlyWhen(c: Config, command: Command, x: Context, now: int)
    ensures P.Evaluate(PolicyRequest(command, x, now), c.tools).decision == P.Allow <==>
              && ("network.passive_discovery", 1) in c.tools
              && var tool := c.tools[("network.passive_discovery", 1)];
                 && x.device.organizationId == x.actor.organizationId && x.device.trust == P.Trusted
                 && (x.scope.Some? ==> x.scope.value.organizationId == x.actor.organizationId)
                 && command.profile == tool.requiredProfile
                 && tool.requiredRoles <= x.actor.roles && tool.requiredCapabilities <= x.device.capabilities
                 && 0 < |command.targets| <= tool.maximumTargets
                 && tool.authorization != P.ByResourceGrant && !tool.requiresConfirmation
                 && (tool.authorization == P.ByOperationScope ==>
                       && x.scope.Some? && x.scope.value.validUntil > now
                       && "network.passive_discovery" in x.scope.value.toolIds
                       && forall t :: t in command.targets ==> t in x.scope.value.targetIds)
                 && (tool.maximumDuration.Some? ==> 1 <= command.seconds <= tool.maximumDuration.value)
  {
    hide P.Evaluate;
    P.AllowIff(PolicyRequest(command, x, now), c.tools);
  }

  /** A job starts exactly for an admissible command whose id has no worker; it then runs until its deadline over the
      first candidates of the fixture, and has listed none. */
  lemma StartsExactlyWhen(c: Config, command: Command, x: Context, now: int, taken: bool)
    ensures var r := Start(c.tools, c.fixtures, command, x, now, taken);
            && (r.Started? <==> command.actionSupported && !taken && Admissible(c, command, x, now))
            && (r.Started? ==>
                  var fixture := c.fixtures[FixtureKey(command, x)];
                  r.state == State(
                    Job(x.actor.organizationId, x.actor.actorId, x.device.deviceId, x.scope.value.scopeId, command.maximum,
                        now + command.seconds * 1_000_000, J.StartedLog(J.Discovery, x.actor.actorId, now), []),
                    Worker(if |fixture| <= command.maximum then fixture else fixture[..command.maximum], 0, false)))
  {
    hide P.Evaluate, P.ReasonCode, J.StartedLog;
  }

  /** What keeps a job from starting tells what was wrong. */
  lemma RefusalsTell(c: Config, command: Command, x: Context, now: int, taken: bool)
    ensures var r := Start(c.tools, c.fixtures, command, x, now, taken);
            var policy := P.Evaluate(PolicyRequest(command, x, now), c.tools);
            && (r.Denied? ==>
                  || (r == Refusal("COMMAND_TIMESTAMP_INVALID") && !(now - 300_000_000 <= command.requestedAt <= now + 30_000_000))
                  || (r == Refusal("COMMAND_CONTEXT_MISMATCH")
                      && !(command.actorId == x.actor.actorId && command.sourceDeviceId == x.device.deviceId
                           && command.organizationId == x.actor.organizationId == x.device.organizationId))
                  || (r.denial == Denial(policy.decision, P.ReasonCode(policy.reason)) && policy.decision != P.Allow)
                  || (r == Refusal("SCOPE_EXPIRES_BEFORE_JOB")
                      && x.scope.Some? && x.scope.value.validUntil < now + command.seconds * 1_000_000)
                  || (r == Refusal("DISCOVERY_SOURCE_NOT_CONFIGURED") && FixtureKey(command, x) !in c.fixtures))
            && (r.NotStarted? ==>
                  || (r.error == ActionNotSupported && !command.actionSupported)
                  || (r.error == ScopeMissing && x.scope.None?)
                  || (r.error == CandidateCountInvalid && !(1 <= command.maximum <= 128))
                  || (r.error == WorkerExists && taken))
  {
    hide P.Evaluate, P.ReasonCode, J.StartedLog;
  }

  /** Who may advance or cancel a job. */
  lemma AccessExactlyWhen(job: Job, x: Context)
    ensures Accessible(job, x) <==>
              && job.organizationId == x.actor.organizationId && job.actorId == x.actor.actorId
              && job.deviceId == x.device.deviceId && x.scope.Some? && x.scope.value.scopeId == job.scopeId
  {}

  // ---- Over any run ----------------------------------------------------------------------------

  /** The call leaves something to remember: it starts a supported command and does not raise. */
  predicate IsDecided(c: Config, call: ServiceCall) {
    && call.StartCall? && call.command.actionSupported
    && !Start(c.tools, c.fixtures, call.command, call.x, call.now, false).NotStarted?
  }

  function SeenAfter(c: Config, before: map<Key, string>, call: ServiceCall): map<Key, string> {
    if IsDecided(c, call) && KeyOf(call.command, call.x) !in before
    then before[KeyOf(call.command, call.x) := call.command.requestHash] else before
  }

  /** The first request hash decided under every key, over a run. */
  function Seen(c: Config, calls: seq<ServiceCall>): map<Key, string> {
    if calls == [] then map[] else SeenAfter(c, Seen(c, calls[..|calls| - 1]), calls[|calls| - 1])
  }

  ghost predicate RemembersSeen(s: Service, seen: map<Key, string>) {
    forall key :: (key in s.commands <==> key in seen) && (key in seen ==> s.commands[key].requestHash == seen[key])
  }

  lemma StartRemembers(c: Config, s: Service, command: Command, x: Context, now: int)
    requires Sound(c, s)
    ensures var t, key := StartCommand(c, s, command, x, now).0, KeyOf(command, x);
            if IsDecided(c, StartCall(command, x, now)) && key !in s.commands
            then exists r: Remembered :: r.requestHash == command.requestHash && t.commands == s.commands[key := r]
            else t.commands == s.commands
  {
    hide Sound, Start, KeyOf, Good, Recall, FixturesValid, IdsDistinct;
    StartKeeps(c, s, command, x, now);
    if KeyOf(command, x) !in s.commands {
      NewJobIsNew(c, s, KeyOf(command, x));
    }
    if IsDecided(c, StartCall(command, x, now)) && KeyOf(command, x) !in s.commands {
      var t, key := StartCommand(c, s, command, x, now).0, KeyOf(command, x);
      assert t.commands == s.commands[key := t.commands[key]];
    }
  }

  lemma ConcludeCommands(c: Config, s: Service, id: string, t: State, reply: Reply, now: int)
    requires id in s.jobs
    ensures Conclude(c, s, id, t, reply, now).0.commands == s.commands && id in Conclude(c, s, id, t, reply, now).0.jobs
  {}

  lemma AdvanceCommands(c: Config, s: Service, id: string, x: Context, now: int)
    requires Callable(s, id)
    ensures AdvanceJob(c, s, id, x, now).0.commands == s.commands
  {
    hide Conclude, Advance;
    if id in s.jobs {
      ConcludeCommands(c, s, id, Advance(s.jobs[id].state, x, now).0, Advance(s.jobs[id].state, x, now).1, now);
    }
  }

  lemma {:induction false} DriveCommands(c: Config, s: Service, id: string, x: Context, now: int, offset: nat, limit: nat)
    requires Callable(s, id) && id in s.jobs && offset <= limit
    ensures DriveJob(c, s, id, x, now, offset, limit).0.commands == s.commands
    decreases limit - offset
  {
    hide Conclude, AdvanceJob, End;
    if offset == limit {
      var (t, reply) := End(s.jobs[id].state, J.Failed, "fail", now + SECOND, "CANDIDATE_LIMIT_GUARD");
      ConcludeCommands(c, s, id, t, reply, now + SECOND);
    } else {
      var t := AdvanceJob(c, s, id, x, Later(now, offset)).0;
      AdvanceCommands(c, s, id, x, Later(now, offset));
      if id in t.jobs && Callable(t, id) {
        DriveCommands(c, t, id, x, now, offset + 1, limit);
      }
    }
  }

  lemma OthersKeepCommands(c: Config, s: Service, call: ServiceCall)
    requires Sound(c, s) && !call.StartCall?
    ensures ServiceAfter(c, s, call).commands == s.commands
  {
    hide Sound, AdvanceJob, Cancel, Conclude, DriveJob;
    match call
    case AdvanceJobCall(id, x, now) =>
      AdvanceJobKeeps(c, s, id, x, now);
      AdvanceCommands(c, s, id, x, now);
    case RunJobCall(id, x, now) =>
      RunJobKeeps(c, s, id, x, now);
      if id in s.jobs {
        DriveCommands(c, s, id, x, now, 0, s.jobs[id].state.job.maximum + 1);
      }
    case CancelJobCall(id, x, now) =>
      CancelJobKeeps(c, s, id, x, now);
      if id in s.jobs {
        ConcludeCommands(c, s, id, Cancel(s.jobs[id].state, x, now).0, Cancel(s.jobs[id].state, x, now).1, now);
      }
  }

  lemma CallRemembers(c: Config, s: Service, call: ServiceCall, seen: map<Key, string>)
    requires Sound(c, s) && RemembersSeen(s, seen)
    ensures RemembersSeen(ServiceAfter(c, s, call), SeenAfter(c, seen, call))
  {
    hide Sound, ServiceAfter, KeyOf, StartCommand, IsDecided;
    OnlyStartsDecide(c, call);
    if call.StartCall? {
      StartedService(c, s, call);
      StartRemembers(c, s, call.command, call.x, call.now);
      assert call == StartCall(call.command, call.x, call.now);
    } else {
      OthersKeepCommands(c, s, call);
    }
  }

  lemma OneMoreCall(c: Config, calls: seq<ServiceCall>)
    requires IdsDistinct(c) && FixturesValid(c.fixtures) && calls != []
    ensures RunService(c, calls) == ServiceAfter(c, RunService(c, calls[..|calls| - 1]), calls[|calls| - 1])
  {
    hide IdsDistinct, FixturesValid, Sound, ServiceAfter;
  }

  lemma OnlyStartsDecide(c: Config, call: ServiceCall)
    ensures IsDecided(c, call) ==> call.StartCall?
  {
    hide Start;
  }

  lemma StartedService(c: Config, s: Service, call: ServiceCall)
    requires Sound(c, s) && call.StartCall?
    ensures ServiceAfter(c, s, call) == StartCommand(c, s, call.command, call.x, call.now).0
  {
    hide Sound, StartCommand;
  }

  /** The service remembers exactly the commands it has decided, with the hash that came first. */
  lemma {:induction false} CommandsSeen(c: Config, calls: seq<ServiceCall>)
    requires IdsDistinct(c) && FixturesValid(c.fixtures)
    ensures RemembersSeen(RunService(c, calls), Seen(c, calls))
  {
    if calls == [] {
      assert RunService(c, calls) == IDLE;
    } else {
      hide IdsDistinct, FixturesValid, Sound, ServiceAfter, RunService, SeenAfter, RemembersSeen;
      CommandsSeen(c, calls[..|calls| - 1]);
      CallRemembers(c, RunService(c, calls[..|calls| - 1]), calls[|calls| - 1], Seen(c, calls[..|calls| - 1]));
      OneMoreCall(c, calls);
    }
  }

  /** The answer to a command whose first hash was `first`: its denial again, or how its job stands. */
  ghost predicate IsRecalled(s: Service, key: Key, command: Command, first: string, t: Service, reply: Reply) {
    && t == s && key in s.commands
    && if first != command.requestHash then reply == Raised(IdempotencyKeyReused)
       else
         match s.commands[key].jobId
         case None => reply == Ok(Outcome(J.Denied, [], s.commands[key].denial))
         case Some(id) =>
           && id in s.jobs && s.jobs[id].key == key && s.jobs[id].state.job.log.transitions != []
           && reply == Ok(OutcomeOf(s.jobs[id].state.job))
  }

  /** What a start call of a supported command comes to, over any run. A command decided before is recalled: with
      another hash it is refused, else it is answered and nothing changes. A new one gets a running job if it is
      admissible; otherwise it is denied, or raises for a missing scope or a wrong limit, and no job is made. */
  lemma StartedExactlyWhen(c: Config, calls: seq<ServiceCall>, command: Command, x: Context, now: int)
    requires IdsDistinct(c) && FixturesValid(c.fixtures) && command.actionSupported
    ensures var s, key, id := RunService(c, calls), KeyOf(command, x), c.jobIdOf(KeyOf(command, x));
            var (t, reply) := StartCommand(c, s, command, x, now);
            if key in Seen(c, calls) then IsRecalled(s, key, command, Seen(c, calls)[key], t, reply)
            else if Admissible(c, command, x, now) then
              && id !in s.jobs && t.jobs.Keys == s.jobs.Keys + {id} && t.audit == s.audit
              && (forall other :: other in s.jobs ==> t.jobs[other] == s.jobs[other])
              && Start(c.tools, c.fixtures, command, x, now, false) == Started(t.jobs[id].state)
              && reply == Ok(Outcome(J.Running, [], "SIMULATION_RUNNING"))
            else
              && t.jobs == s.jobs
              && match Start(c.tools, c.fixtures, command, x, now, false)
                 case Denied(denial) =>
                   && reply == Ok(Outcome(J.Denied, [], denial.reason))
                   && t.commands == s.commands[key := Remembered(command.requestHash, None, denial.reason)]
                 case NotStarted(error) => reply == Raised(error)
                 case Started(_) => false
  {
    hide IdsDistinct, FixturesValid, RunService, Seen, KeyOf, Sound, Start, Recall, Admissible, Deny;
    var s, key := RunService(c, calls), KeyOf(command, x);
    CommandsSeen(c, calls);
    StartKeeps(c, s, command, x, now);
    StartsExactlyWhen(c, command, x, now, false);
    if key in s.commands {
      RecallTells(c, s, key, command.requestHash);
    } else {
      NewJobIsNew(c, s, key);
      StartedJobRuns(c, command, x, now);
      if Start(c.tools, c.fixtures, command, x, now, false).Denied? {
        DenyAnswers(c, s, key, command.requestHash, Start(c.tools, c.fixtures, command, x, now, false).denial, now);
      }
    }
  }

  lemma RecallTells(c: Config, s: Service, key: Key, requestHash: string)
    requires Sound(c, s) && key in s.commands
    ensures var known := s.commands[key];
            if known.requestHash != requestHash then Recall(s, key, requestHash) == Raised(IdempotencyKeyReused)
            else
              match known.jobId
              case None => Recall(s, key, requestHash) == Ok(Outcome(J.Denied, [], known.denial))
              case Some(id) =>
                && id in s.jobs && s.jobs[id].key == key && s.jobs[id].state.job.log.transitions != []
                && Recall(s, key, requestHash) == Ok(OutcomeOf(s.jobs[id].state.job))
  {
    hide IdsDistinct, FixturesValid;
    assert CommandSound(s, key);
    if s.commands[key].jobId.Some? {
      SoundJob(c, s, s.commands[key].jobId.value);
    }
  }

  lemma StartedJobRuns(c: Config, command: Command, x: Context, now: int)
    ensures var r := Start(c.tools, c.fixtures, command, x, now, false);
            r.Started? ==> r.state.job.log.transitions != [] && OutcomeOf(r.state.job) == Outcome(J.Running, [], "SIMULATION_RUNNING")
  {
    hide Start, Admissible, J.StartedLog;
    StartsExactlyWhen(c, command, x, now, false);
    J.StartedLogLegal(J.Discovery, x.actor.actorId, now);
  }

  lemma DenyAnswers(c: Config, s: Service, key: Key, requestHash: string, denial: Denial, now: int)
    ensures var (t, reply) := Deny(c, s, key, requestHash, denial, now);
            && t.jobs == s.jobs
            && (reply == Raised(AuditCollision)
                || (reply == Ok(Outcome(J.Denied, [], denial.reason))
                    && t.commands == s.commands[key := Remembered(requestHash, None, denial.reason)]))
  {}

  // ---- Audit records ---------------------------------------------------------------------------

  /** A call that ends a running job leaves one record under the job's key, of that moment, with the reason of the
      end; any other call on a job leaves none. */
  lemma EndRecorded(c: Config, s: Service, id: string, t: State, reply: Reply, now: int)
    requires Sound(c, s) && id in s.jobs && Moves(s.jobs[id].state, t, reply)
    ensures var ends := s.jobs[id].state.job.log.state == J.Running && t.job.log.state != J.Running;
            && t.job.log.transitions != [] && (ends ==> ResultFor(t.job.log.state).Some?)
            && Conclude(c, s, id, t, reply, now).0.audit ==
               if ends then
                 var r := AuditRecord(s.jobs[id].key, P.Allow, J.LastReason(t.job.log), ResultFor(t.job.log.state).value, now);
                 s.audit[c.auditIdOf(r.key, r.result) := r]
               else s.audit
  {
    hide Sound, Good;
    ConcludeKeeps(c, s, id, t, reply, now);
    GoodState(t);
    NoCollision(c, s, id, t, reply, now);
  }

  lemma NoCollision(c: Config, s: Service, id: string, t: State, reply: Reply, now: int)
    requires id in s.jobs && Conclude(c, s, id, t, reply, now).1 == reply
    requires t.job.log.state != J.Running ==> reply.Ok? || s.jobs[id].state.job.log.state != J.Running
    requires t.job.log.transitions != []
    ensures s.jobs[id].state.job.log.state == J.Running && ResultFor(t.job.log.state).Some? ==>
              var r := AuditRecord(s.jobs[id].key, P.Allow, J.LastReason(t.job.log), ResultFor(t.job.log.state).value, now);
              Conclude(c, s, id, t, reply, now).0.audit == s.audit[c.auditIdOf(r.key, r.result) := r]
    ensures s.jobs[id].state.job.log.state != J.Running || ResultFor(t.job.log.state).None? ==>
              Conclude(c, s, id, t, reply, now).0.audit == s.audit
  {
    if ResultFor(t.job.log.state).Some? {
      var r := AuditRecord(s.jobs[id].key, P.Allow, J.LastReason(t.job.log), ResultFor(t.job.log.state).value, now);
      var audit := c.auditIdOf(r.key, r.result);
      assert audit in s.audit ==> s.audit[audit := s.audit[audit]] == s.audit;
    }
  }

  /** What a result says about the state a job ended in. */
  lemma ResultTable(state: J.JobState)
    ensures ResultFor(state) == match state
                                case Completed => Some(SimulatedResult)
                                case Cancelled => Some(CancelledResult)
                                case Failed => Some(FailedResult)
                                case _ => None
  {}

  /** A denial is recorded under the command's key with its decision and reason. */
  lemma DenialRecorded(c: Config, s: Service, key: Key, requestHash: string, denial: Denial, now: int)
    ensures var (t, reply) := Deny(c, s, key, requestHash, denial, now);
            reply.Ok? ==>
              t.audit == s.audit[c.auditIdOf(key, DeniedResult) := AuditRecord(key, denial.decision, denial.reason, DeniedResult, now)]
  {
    var id := c.auditIdOf(key, DeniedResult);
    assert id in s.audit ==> s.audit[id := s.audit[id]] == s.audit;
  }
}
