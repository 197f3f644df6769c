/**
 The experiment engine: context checks, policy decision, session lifetime and an audit record for
 every state an experiment enters.

 Executors are outside: whether a session could be created, and what one `advance` of a session
 returned or raised, are inputs. Plans arrive validated.
 */
module Experiments {
  import opened Options
  import opened Policy

  datatype ExperimentState = Validated | AuthorizedState | Running | Completed | CancelledState | DeniedState | Failed

  predicate IsTerminal(s: ExperimentState) {
    s == Completed || s == CancelledState || s == DeniedState || s == Failed
  }

  datatype Location = OnEdge | OnDevice

  datatype Module = Module(manifest: ToolManifest, executorId: string, location: Location)

  datatype Report = Report(organizationId: string, validUntil: int, modules: set<(string, int, string)>)

  datatype Plan = Plan(
    experimentId: string,
    planHash: string,
    actorId: string,
    organizationId: string,
    sourceDeviceId: string,
    scopeId: string,
    moduleId: string,
    moduleVersion: int,
    profile: Profile,
    targets: seq<string>,
    duration: Duration)

  datatype Context = Context(
    actor: Actor,
    device: Device,
    scope: Option<OperationScope>,
    grant: Option<ResourceGrant>,
    confirmation: Option<Confirmation>,
    report: Option<Report>)

  datatype Rejection =
    | ExperimentIdReused
    | ExperimentNotFound
    | ExperimentNotRunning
    | ModuleNotFound
    | PlanContextMismatch
    | PlanScopeMismatch
    | PlanDurationInvalid
    | ScopeTooShort
    | ReportRequired
    | ReportInvalid
    | EdgeModuleUnavailable
    | SessionNotCreated
    | ExecutorCrashed

  datatype Outcome<+T> = Ok(value: T) | Rejected(reason: Rejection)

  datatype Job = Job(plan: Plan, state: ExperimentState, progress: int, hasSession: bool, result: Option<string>)

  datatype AuditRecord = AuditRecord(sequence: nat, timestamp: int, experimentId: string, planHash: string, state: ExperimentState)

  /** What a session's step comes to: an exception that the engine expects (`Raises`) or lets through
      (`Crashes`), before or after the progress of the step was stored, or a proper step. */
  datatype StepResult =
    | Crashes
    | CrashesLate(progress: int)
    | Raises
    | RaisesLate(progress: int)
    | Steps(complete: bool, progress: int, result: Option<string>, resultValid: bool)

  datatype Config = Config(modules: map<(string, int), Module>, executors: set<string>)

  const SECOND := 1_000_000
  const MAXIMUM_EXPERIMENT_TARGETS := 16

  /** Execution capability is checked against the edge report, so the policy tool asks for none. */
  function AsTool(m: Module): ToolManifest {
    m.manifest.(requiredCapabilities := {}, maximumTargets := MAXIMUM_EXPERIMENT_TARGETS)
  }

  function PolicyTools(c: Config): Tools {
    map key | key in c.modules :: AsTool(c.modules[key])
  }

  /** The engine is only built when every module registers. */
  ghost predicate ConfigValid(c: Config) {
    forall key :: key in c.modules ==>
      && key == (c.modules[key].manifest.toolId, c.modules[key].manifest.version)
      && CheckManifest(AsTool(c.modules[key])).None?
  }

  function PolicyRequest(plan: Plan, x: Context, now: int): Request {
    Request(x.actor, x.device, plan.profile, plan.moduleId, plan.moduleVersion, plan.targets, plan.duration, now,
            plan.planHash, x.grant, x.scope, x.confirmation)
  }

  function VerifyContext(c: Config, plan: Plan, x: Context, now: int): Outcome<Module> {
    if x.actor.actorId != plan.actorId || x.actor.organizationId != plan.organizationId
       || x.device.deviceId != plan.sourceDeviceId || x.device.organizationId != plan.organizationId
    then Rejected(PlanContextMismatch)
    else if x.scope.None? || x.scope.value.scopeId != plan.scopeId then Rejected(PlanScopeMismatch)
    else if !plan.duration.Seconds? then Rejected(PlanDurationInvalid)
    else
      var end := now + plan.duration.n * SECOND;
      if x.scope.value.validUntil < end then Rejected(ScopeTooShort)
      else if (plan.moduleId, plan.moduleVersion) !in c.modules then Rejected(ModuleNotFound)
      else
        var mod := c.modules[(plan.moduleId, plan.moduleVersion)];
        if mod.location == OnEdge && x.report.None? then Rejected(ReportRequired)
        else if mod.location == OnEdge
                && (x.report.value.organizationId != plan.organizationId || x.report.value.validUntil < end)
        then Rejected(ReportInvalid)
        else if mod.location == OnEdge && (plan.moduleId, plan.moduleVersion, mod.executorId) !in x.report.value.modules
        then Rejected(EdgeModuleUnavailable)
        else Ok(mod)
  }

  // ---- Specification ---------------------------------------------------------------------------

  datatype State = State(jobs: map<string, Job>, audit: seq<AuditRecord>)

  const IDLE := State(map[], [])

  /** Enter a state and record it. */
  function Enter(s: State, job: Job, now: int): State {
    State(s.jobs[job.plan.experimentId := job],
          s.audit + [AuditRecord(|s.audit| + 1, now, job.plan.experimentId, job.plan.planHash, job.state)])
  }

  function Start(c: Config, s: State, plan: Plan, x: Context, now: int, sessionCreated: bool): (State, Outcome<Job>) {
    if plan.experimentId in s.jobs then
      var job := s.jobs[plan.experimentId];
      (s, if job.plan.planHash != plan.planHash then Rejected(ExperimentIdReused) else Ok(job))
    else
      match VerifyContext(c, plan, x, now)
      case Rejected(reason) => (s, Rejected(reason))
      case Ok(mod) =>
        var job := Job(plan, Validated, 0, false, None);
        var validated := Enter(s, job, now);
        if Evaluate(PolicyRequest(plan, x, now), PolicyTools(c)).decision != Allow then
          var denied := job.(state := DeniedState);
          (Enter(validated, denied, now), Ok(denied))
        else
          var authorized := Enter(validated, job.(state := AuthorizedState), now);
          if mod.executorId !in c.executors then
            var failed := job.(state := Failed);
            (Enter(authorized, failed, now), Ok(failed))
          else if !sessionCreated then (authorized, Rejected(SessionNotCreated))
          else
            var running := job.(state := Running, hasSession := true);
            (Enter(authorized, running, now), Ok(running))
  }

  function AdvancedJob(job: Job, step: StepResult): Job {
    match step
    case Crashes => job
    case CrashesLate(progress) =>
      if !(0 <= progress <= 100) then job.(state := Failed, hasSession := false) else job.(progress := progress)
    case Raises => job.(state := Failed, hasSession := false)
    case RaisesLate(progress) =>
      job.(progress := if 0 <= progress <= 100 then progress else job.progress, state := Failed, hasSession := false)
    case Steps(complete, progress, result, resultValid) =>
      if !(0 <= progress <= 100) then job.(state := Failed, hasSession := false)
      else if !complete then job.(progress := progress)
      else if result.None? || !resultValid then job.(progress := progress, state := Failed, hasSession := false)
      else job.(progress := progress, result := result, state := Completed, hasSession := false)
  }

  function Advance(s: State, experimentId: string, now: int, step: StepResult): (State, Outcome<Job>) {
    if experimentId !in s.jobs then (s, Rejected(ExperimentNotFound))
    else
      var job := s.jobs[experimentId];
      if job.state != Running || !job.hasSession then (s, Rejected(ExperimentNotRunning))
      else if step.Crashes? then (s, Rejected(ExecutorCrashed))
      else
        var after := AdvancedJob(job, step);
        var stored := if after.state == Running then s.(jobs := s.jobs[experimentId := after]) else Enter(s, after, now);
        (stored, if after.state == Running && step.CrashesLate? then Rejected(ExecutorCrashed) else Ok(after))
  }

  /** A session whose own cancellation raises is kept, and so is its job. */
  function Cancel(s: State, experimentId: string, now: int, sessionRaises: bool): (State, Outcome<Job>) {
    if experimentId !in s.jobs then (s, Rejected(ExperimentNotFound))
    else
      var job := s.jobs[experimentId];
      if IsTerminal(job.state) then (s, Ok(job))
      else if job.hasSession && sessionRaises then (s, Rejected(ExecutorCrashed))
      else
        var after := job.(state := CancelledState, hasSession := false);
        (Enter(s, after, now), Ok(after))
  }

  // ---- The engine object -----------------------------------------------------------------------

  class ExperimentEngine {
    const config: Config
    var jobs: map<string, Job>
    var auditSequence: nat
    var audit: seq<AuditRecord>

    ghost predicate Valid()
      reads this
    {
      && auditSequence == |audit|
      && forall id :: id in jobs ==> jobs[id].plan.experimentId == id
    }

    ghost function Value(): State
      reads this
    {
      State(jobs, audit)
    }

    constructor (config: Config)
      requires ConfigValid(config)
      ensures Valid() && Value() == IDLE && this.config == config
    {
      this.config := config;
      jobs, auditSequence, audit := map[], 0, [];
    }

    method EnterState(job: Job, now: int)
      requires Valid()
      modifies this
      ensures Valid() && Value() == Enter(old(Value()), job, now)
    {
      jobs := jobs[job.plan.experimentId := job];
      auditSequence := auditSequence + 1;
      audit := audit + [AuditRecord(auditSequence, now, job.plan.experimentId, job.plan.planHash, job.state)];
    }

    method StartExperiment(plan: Plan, x: Context, now: int, sessionCreated: bool) returns (outcome: Outcome<Job>)
      requires Valid()
      modifies this
      ensures Valid()
      ensures (Value(), outcome) == Start(config, old(Value()), plan, x, now, sessionCreated)
    {
      hide VerifyContext, Evaluate, Enter;
      if plan.experimentId in jobs {
        if jobs[plan.experimentId].plan.planHash != plan.planHash {
          return Rejected(ExperimentIdReused);
        }
        return Ok(jobs[plan.experimentId]);
      }
      var verified := VerifyContext(config, plan, x, now);
      if verified.Rejected? {
        return Rejected(verified.reason);
      }
      var job := Job(plan, Validated, 0, false, None);
      EnterState(job, now);
      var decision := Evaluate(PolicyRequest(plan, x, now), PolicyTools(config));
      if decision.decision != Allow {
        job := job.(state := DeniedState);
        EnterState(job, now);
        return Ok(job);
      }
      job := job.(state := AuthorizedState);
      EnterState(job, now);
      if verified.value.executorId !in config.executors {
        job := job.(state := Failed);
        EnterState(job, now);
        return Ok(job);
      }
      if !sessionCreated {
        return Rejected(SessionNotCreated);
      }
      job := job.(state := Running, hasSession := true);
      EnterState(job, now);
      return Ok(job);
    }

    method AdvanceExperiment(experimentId: string, now: int, step: StepResult) returns (outcome: Outcome<Job>)
      requires Valid()
      modifies this
      ensures Valid()
      ensures (Value(), outcome) == Advance(old(Value()), experimentId, now, step)
    {
      hide Enter;
      if experimentId !in jobs {
        return Rejected(ExperimentNotFound);
      }
      var job := jobs[experimentId];
      if job.state != Running || !job.hasSession {
        return Rejected(ExperimentNotRunning);
      }
      if step == Crashes {
        return Rejected(ExecutorCrashed);
      }
      if step.Raises? || !(0 <= step.progress <= 100) {
        job := job.(state := Failed, hasSession := false);
      } else {
        job := job.(progress := step.progress);
        if step.CrashesLate? {
          jobs := jobs[experimentId := job];
          return Rejected(ExecutorCrashed);
        }
        if step.RaisesLate? {
          job := job.(state := Failed, hasSession := false);
        } else if step.complete {
          if step.result.None? || !step.resultValid {
            job := job.(state := Failed, hasSession := false);
          } else {
            job := job.(result := step.result, state := Completed, hasSession := false);
          }
        }
      }
      if job.state == Running {
        jobs := jobs[experimentId := job];
      } else {
        EnterState(job, now);
      }
      return Ok(job);
    }

    method CancelExperiment(experimentId: string, now: int, sessionRaises: bool) returns (outcome: Outcome<Job>)
      requires Valid()
      modifies this
      ensures Valid()
      ensures (Value(), outcome) == Cancel(old(Value()), experimentId, now, sessionRaises)
    {
      if experimentId !in jobs {
        return Rejected(ExperimentNotFound);
      }
      var job := jobs[experimentId];
      if IsTerminal(job.state) {
        return Ok(job);
      }
      if job.hasSession && sessionRaises {
        return Rejected(ExecutorCrashed);
      }
      job := job.(hasSession := false);
      job := job.(state := CancelledState);
      EnterState(job, now);
      return Ok(job);
    }
  }

  // ---- Whole runs ------------------------------------------------------------------------------

  datatype Operation =
    | StartOp(plan: Plan, context: Context, now: int, sessionCreated: bool)
    | AdvanceOp(experimentId: string, now: int, step: StepResult)
    | CancelOp(experimentId: string, now: int, sessionRaises: bool)

  /** The state together with the context and time each known experiment was started with. */
  datatype World = World(state: State, starts: map<string, (Context, int)>)

  function Step(c: Config, w: World, op: Operation): World {
    match op
    case StartOp(plan, x, now, sessionCreated) =>
      var after := Start(c, w.state, plan, x, now, sessionCreated).0;
      World(after, if plan.experimentId in after.jobs && plan.experimentId !in w.state.jobs
                   then w.starts[plan.experimentId := (x, now)] else w.starts)
    case AdvanceOp(experimentId, now, step) => w.(state := Advance(w.state, experimentId, now, step).0)
    case CancelOp(experimentId, now, sessionRaises) => w.(state := Cancel(w.state, experimentId, now, sessionRaises).0)
  }

  function Run(c: Config, ops: seq<Operation>): World {
    if ops == [] then World(IDLE, map[]) else Step(c, Run(c, ops[..|ops| - 1]), ops[|ops| - 1])
  }

  /** The states recorded for one experiment, in order. */
  function Trail(audit: seq<AuditRecord>, id: string): seq<ExperimentState> {
    if audit == [] then []
    else
      var last := audit[|audit| - 1];
      Trail(audit[..|audit| - 1], id) + (if last.experimentId == id then [last.state] else [])
  }

  lemma TrailAppend(audit: seq<AuditRecord>, r: AuditRecord, id: string)
    ensures Trail(audit + [r], id) == if r.experimentId == id then Trail(audit, id) + [r.state] else Trail(audit, id)
  {
    assert (audit + [r])[..|audit|] == audit;
    assert Trail(audit, id) + [] == Trail(audit, id);
  }

  /** The complete list of trails an experiment can leave. */
  predicate LegalTrail(trail: seq<ExperimentState>) {
    || trail == [Validated, DeniedState]
    || trail == [Validated, AuthorizedState]
    || trail == [Validated, AuthorizedState, Failed]
    || trail == [Validated, AuthorizedState, CancelledState]
    || trail == [Validated, AuthorizedState, Running]
    || trail == [Validated, AuthorizedState, Running, Completed]
    || trail == [Validated, AuthorizedState, Running, Failed]
    || trail == [Validated, AuthorizedState, Running, CancelledState]
  }

  /** What a start must have satisfied for the experiment to get past authorization. */
  ghost predicate ProperlyStarted(c: Config, plan: Plan, x: Context, now: int) {
    && Evaluate(PolicyRequest(plan, x, now), PolicyTools(c)).decision == Allow
    && plan.duration.Seconds?
    && x.scope.Some? && x.scope.value.scopeId == plan.scopeId
    && x.scope.value.validUntil >= now + plan.duration.n * SECOND
    && x.actor.actorId == plan.actorId && x.actor.organizationId == plan.organizationId
    && x.device.deviceId == plan.sourceDeviceId
  }

  ghost predicate JobSound(c: Config, w: World, id: string) {
    if id in w.state.jobs then
      var job := w.state.jobs[id];
      var trail := Trail(w.state.audit, id);
      && job.plan.experimentId == id && id in w.starts
      && LegalTrail(trail) && trail[|trail| - 1] == job.state
      && (job.hasSession <==> job.state == Running)
      && (AuthorizedState in trail ==> ProperlyStarted(c, job.plan, w.starts[id].0, w.starts[id].1))
    else
      Trail(w.state.audit, id) == []
  }

  ghost predicate Sound(c: Config, w: World) {
    && (forall id :: JobSound(c, w, id))
    && forall i :: 0 <= i < |w.state.audit| ==> w.state.audit[i].sequence == i + 1
  }

  lemma EnterTrail(s: State, job: Job, now: int, id: string)
    ensures Trail(Enter(s, job, now).audit, id) ==
            if job.plan.experimentId == id then Trail(s.audit, id) + [job.state] else Trail(s.audit, id)
    ensures |Enter(s, job, now).audit| == |s.audit| + 1
  {
    TrailAppend(s.audit, AuditRecord(|s.audit| + 1, now, job.plan.experimentId, job.plan.planHash, job.state), id);
  }

  lemma EnterSequence(s: State, job: Job, now: int)
    requires forall i :: 0 <= i < |s.audit| ==> s.audit[i].sequence == i + 1
    ensures var t := Enter(s, job, now); forall i :: 0 <= i < |t.audit| ==> t.audit[i].sequence == i + 1
  {}

  lemma VerifiedContext(c: Config, plan: Plan, x: Context, now: int)
    requires VerifyContext(c, plan, x, now).Ok?
    requires Evaluate(PolicyRequest(plan, x, now), PolicyTools(c)).decision == Allow
    ensures ProperlyStarted(c, plan, x, now)
  {
    hide Evaluate;
  }

  /** Entering a list of states one after the other. */
  function EnterAll(s: State, job: Job, states: seq<ExperimentState>, now: int): State {
    if states == [] then s
    else
      var last := states[|states| - 1];
      Enter(EnterAll(s, job, states[..|states| - 1], now), job.(state := last, hasSession := last == Running), now)
  }

  lemma {:induction false} EnterAllFacts(s: State, job: Job, states: seq<ExperimentState>, now: int, id: string)
    requires forall i :: 0 <= i < |s.audit| ==> s.audit[i].sequence == i + 1
    ensures var t := EnterAll(s, job, states, now);
            && Trail(t.audit, id) == (if job.plan.experimentId == id then Trail(s.audit, id) + states else Trail(s.audit, id))
            && (forall i :: 0 <= i < |t.audit| ==> t.audit[i].sequence == i + 1)
            && (states != [] ==>
                  var last := states[|states| - 1];
                  t.jobs == s.jobs[job.plan.experimentId := job.(state := last, hasSession := last == Running)])
  {
    hide Enter, Trail;
    if states != [] {
      var front, last := states[..|states| - 1], states[|states| - 1];
      EnterAllFacts(s, job, front, now, id);
      var before := EnterAll(s, job, front, now);
      var entered := job.(state := last, hasSession := last == Running);
      EnterTrail(before, entered, now, id);
      EnterSequence(before, entered, now);
      EnteredJobs(before, entered, now);
      assert Trail(s.audit, id) + front + [last] == Trail(s.audit, id) + states;
    }
  }

  lemma EnterAllUnfold(s: State, job: Job, now: int, a: ExperimentState, b: ExperimentState, d: ExperimentState)
    ensures var one := Enter(s, job.(state := a, hasSession := a == Running), now);
            var two := Enter(one, job.(state := b, hasSession := b == Running), now);
            && EnterAll(s, job, [a, b], now) == two
            && EnterAll(s, job, [a, b, d], now) == Enter(two, job.(state := d, hasSession := d == Running), now)
  {
    hide Enter;
    assert [a, b, d][..2] == [a, b] && [a, b][..1] == [a] && [a][..0] == [];
    assert EnterAll(s, job, [], now) == s;
    assert EnterAll(s, job, [a], now) == Enter(s, job.(state := a, hasSession := a == Running), now);
  }

  /** Which states a start enters. */
  function StatesEntered(c: Config, plan: Plan, x: Context, now: int, sessionCreated: bool): seq<ExperimentState> {
    if VerifyContext(c, plan, x, now).Rejected? then []
    else if Evaluate(PolicyRequest(plan, x, now), PolicyTools(c)).decision != Allow then [Validated, DeniedState]
    else if VerifyContext(c, plan, x, now).value.executorId !in c.executors then [Validated, AuthorizedState, Failed]
    else if !sessionCreated then [Validated, AuthorizedState]
    else [Validated, AuthorizedState, Running]
  }

  lemma StartEnters(c: Config, s: State, plan: Plan, x: Context, now: int, sessionCreated: bool)
    requires plan.experimentId !in s.jobs
    ensures Start(c, s, plan, x, now, sessionCreated).0 ==
            EnterAll(s, Job(plan, Validated, 0, false, None), StatesEntered(c, plan, x, now, sessionCreated), now)
  {
    hide Evaluate, VerifyContext, Enter, EnterAll;
    var job := Job(plan, Validated, 0, false, None);
    EnterAllUnfold(s, job, now, Validated, DeniedState, Failed);
    EnterAllUnfold(s, job, now, Validated, AuthorizedState, Failed);
    EnterAllUnfold(s, job, now, Validated, AuthorizedState, Running);
    EnterNothing(s, job, now);
  }

  lemma EnterNothing(s: State, job: Job, now: int)
    ensures EnterAll(s, job, [], now) == s
  {}

  /** What a start that enters some states does to the world, for one id. */
  lemma StartedWorld(c: Config, w: World, plan: Plan, x: Context, now: int, sessionCreated: bool, id: string)
    requires Sound(c, w) && plan.experimentId !in w.state.jobs
    requires StatesEntered(c, plan, x, now, sessionCreated) != []
    ensures var states := StatesEntered(c, plan, x, now, sessionCreated);
            var after := Step(c, w, StartOp(plan, x, now, sessionCreated));
            var last := states[|states| - 1];
            && Trail(after.state.audit, id)
               == (if plan.experimentId == id then Trail(w.state.audit, id) + states else Trail(w.state.audit, id))
            && after.state.jobs == w.state.jobs[plan.experimentId := Job(plan, last, 0, last == Running, None)]
            && after.starts == w.starts[plan.experimentId := (x, now)]
  {
    hide Start, StatesEntered, EnterAll, Trail, JobSound;
    var states := StatesEntered(c, plan, x, now, sessionCreated);
    StartEnters(c, w.state, plan, x, now, sessionCreated);
    EnterAllFacts(w.state, Job(plan, Validated, 0, false, None), states, now, id);
  }

  /** An id without a job has left no record. */
  lemma UnknownLeftNothing(c: Config, w: World, id: string)
    requires Sound(c, w) && id !in w.state.jobs
    ensures Trail(w.state.audit, id) == []
  {
    assert JobSound(c, w, id);
  }

  lemma StartedJobSound(c: Config, w: World, plan: Plan, x: Context, now: int, sessionCreated: bool)
    requires Sound(c, w) && plan.experimentId !in w.state.jobs
    requires StatesEntered(c, plan, x, now, sessionCreated) != []
    ensures JobSound(c, Step(c, w, StartOp(plan, x, now, sessionCreated)), plan.experimentId)
  {
    hide Step, StatesEntered, Trail, LegalTrail, ProperlyStarted, Sound;
    var states := StatesEntered(c, plan, x, now, sessionCreated);
    StartedWorld(c, w, plan, x, now, sessionCreated, plan.experimentId);
    StartedTrail(c, plan, x, now, sessionCreated);
    UnknownLeftNothing(c, w, plan.experimentId);
    assert [] + states == states;
  }

  lemma OtherStartJobSound(
    c: Config, w: World, plan: Plan, x: Context, now: int, sessionCreated: bool, id: string)
    requires Sound(c, w) && plan.experimentId !in w.state.jobs && id != plan.experimentId
    requires StatesEntered(c, plan, x, now, sessionCreated) != []
    ensures JobSound(c, Step(c, w, StartOp(plan, x, now, sessionCreated)), id)
  {
    hide Step, StatesEntered, Trail, LegalTrail, ProperlyStarted;
    StartedWorld(c, w, plan, x, now, sessionCreated, id);
    assert JobSound(c, w, id);
  }

  /** The jobs that a start leaves alone, and the one it enters. */
  lemma StartJobSound(c: Config, w: World, plan: Plan, x: Context, now: int, sessionCreated: bool, id: string)
    requires Sound(c, w) && plan.experimentId !in w.state.jobs
    requires StatesEntered(c, plan, x, now, sessionCreated) != []
    ensures JobSound(c, Step(c, w, StartOp(plan, x, now, sessionCreated)), id)
  {
    hide *;
    if id == plan.experimentId {
      StartedJobSound(c, w, plan, x, now, sessionCreated);
    } else {
      OtherStartJobSound(c, w, plan, x, now, sessionCreated, id);
    }
  }

  /** The states a start enters are a legal trail, authorized only when properly started. */
  lemma StartedTrail(c: Config, plan: Plan, x: Context, now: int, sessionCreated: bool)
    ensures var states := StatesEntered(c, plan, x, now, sessionCreated);
            && (states != [] ==> LegalTrail(states))
            && (AuthorizedState in states ==> ProperlyStarted(c, plan, x, now))
  {
    hide Evaluate, VerifyContext, ProperlyStarted;
    if AuthorizedState in StatesEntered(c, plan, x, now, sessionCreated) {
      VerifiedContext(c, plan, x, now);
    }
  }

  lemma StartSound(c: Config, w: World, plan: Plan, x: Context, now: int, sessionCreated: bool)
    requires Sound(c, w)
    ensures Sound(c, Step(c, w, StartOp(plan, x, now, sessionCreated)))
  {
    hide Evaluate, VerifyContext, Enter, EnterAll, Trail, JobSound, LegalTrail;
    var job := Job(plan, Validated, 0, false, None);
    if plan.experimentId !in w.state.jobs {
      StartEnters(c, w.state, plan, x, now, sessionCreated);
      if StatesEntered(c, plan, x, now, sessionCreated) == [] {
        EnterNothing(w.state, job, now);
      } else {
        hide Start, StatesEntered;
        EnterAllFacts(w.state, job, StatesEntered(c, plan, x, now, sessionCreated), now, plan.experimentId);
        forall id ensures JobSound(c, Step(c, w, StartOp(plan, x, now, sessionCreated)), id) {
          StartJobSound(c, w, plan, x, now, sessionCreated, id);
        }
      }
    }
  }

  lemma EnteredJobs(s: State, job: Job, now: int)
    ensures Enter(s, job, now).jobs == s.jobs[job.plan.experimentId := job]
  {}

  /** Moving one known job along a legal edge. */
  lemma MoveSound(c: Config, w: World, job: Job, now: int)
    requires Sound(c, w) && job.plan.experimentId in w.state.jobs
    requires var before := w.state.jobs[job.plan.experimentId];
             && job.plan == before.plan && !job.hasSession
             && ((before.state == Running && (job.state == Completed || job.state == Failed || job.state == CancelledState))
                 || (before.state == AuthorizedState && job.state == CancelledState))
    ensures Sound(c, w.(state := Enter(w.state, job, now)))
  {
    hide Enter, JobSound, Trail, LegalTrail;
    EnterSequence(w.state, job, now);
    forall other ensures JobSound(c, w.(state := Enter(w.state, job, now)), other) {
      if other == job.plan.experimentId {
        MovedJobSound(c, w, job, now);
      } else {
        OtherJobSound(c, w, job, now, other);
      }
    }
  }

  lemma MovedJobSound(c: Config, w: World, job: Job, now: int)
    requires JobSound(c, w, job.plan.experimentId) && job.plan.experimentId in w.state.jobs
    requires var before := w.state.jobs[job.plan.experimentId];
             && job.plan == before.plan && !job.hasSession
             && ((before.state == Running && (job.state == Completed || job.state == Failed || job.state == CancelledState))
                 || (before.state == AuthorizedState && job.state == CancelledState))
    ensures JobSound(c, w.(state := Enter(w.state, job, now)), job.plan.experimentId)
  {
    hide Enter, ProperlyStarted, Trail, LegalTrail;
    var id := job.plan.experimentId;
    EnteredJobs(w.state, job, now);
    EnterTrail(w.state, job, now, id);
    TrailExtends(Trail(w.state.audit, id), w.state.jobs[id].state, job.state);
  }

  lemma TrailExtends(trail: seq<ExperimentState>, from: ExperimentState, to: ExperimentState)
    requires LegalTrail(trail) && trail[|trail| - 1] == from
    requires (from == Running && (to == Completed || to == Failed || to == CancelledState))
             || (from == AuthorizedState && to == CancelledState)
    ensures LegalTrail(trail + [to])
  {}

  lemma OtherJobSound(c: Config, w: World, job: Job, now: int, id: string)
    requires JobSound(c, w, id) && id != job.plan.experimentId
    ensures JobSound(c, w.(state := Enter(w.state, job, now)), id)
  {
    EnteredJobs(w.state, job, now);
    EnterTrail(w.state, job, now, id);
    hide Enter, ProperlyStarted, Trail, LegalTrail;
  }

  lemma ProgressSound(c: Config, w: World, job: Job)
    requires Sound(c, w) && job.plan.experimentId in w.state.jobs
    requires job == w.state.jobs[job.plan.experimentId].(progress := job.progress)
    ensures Sound(c, w.(state := w.state.(jobs := w.state.jobs[job.plan.experimentId := job])))
  {
    hide ProperlyStarted, Trail;
    var after := w.(state := w.state.(jobs := w.state.jobs[job.plan.experimentId := job]));
    forall other ensures JobSound(c, after, other) {
      assert JobSound(c, w, other);
    }
  }

  lemma StepSound(c: Config, w: World, op: Operation)
    requires Sound(c, w)
    ensures Sound(c, Step(c, w, op))
  {
    hide Sound, Evaluate, VerifyContext, Enter, Start;
    match op
    case StartOp(plan, x, now, sessionCreated) => StartSound(c, w, plan, x, now, sessionCreated);
    case AdvanceOp(id, now, step) =>
      KnownJob(c, w, id);
      if id in w.state.jobs && w.state.jobs[id].state == Running && step != Crashes {
        var after := AdvancedJob(w.state.jobs[id], step);
        if after.state == Running { ProgressSound(c, w, after); } else { MoveSound(c, w, after, now); }
      }
    case CancelOp(id, now, _) =>
      KnownJob(c, w, id);
      if id in w.state.jobs && !IsTerminal(w.state.jobs[id].state) {
        MoveSound(c, w, w.state.jobs[id].(state := CancelledState, hasSession := false), now);
      }
  }

  /** At rest a job is never in the validated state, and has a session exactly while running. */
  lemma KnownJob(c: Config, w: World, id: string)
    requires Sound(c, w)
    ensures id in w.state.jobs ==>
              && w.state.jobs[id].plan.experimentId == id && w.state.jobs[id].state != Validated
              && (w.state.jobs[id].hasSession <==> w.state.jobs[id].state == Running)
  {
    assert JobSound(c, w, id);
  }

  lemma {:induction false} RunSound(c: Config, ops: seq<Operation>)
    ensures Sound(c, Run(c, ops))
  {
    if ops != [] {
      hide Sound, Step;
      RunSound(c, ops[..|ops| - 1]);
      StepSound(c, Run(c, ops[..|ops| - 1]), ops[|ops| - 1]);
    }
  }

  /** An experiment reaches RUNNING, and so also COMPLETED, only through an ALLOW decision at its
      start, under a scope that outlives its duration. */
  lemma RunningOnlyIfAllowed(c: Config, ops: seq<Operation>, id: string)
    requires id in Run(c, ops).state.jobs
    requires var state := Run(c, ops).state.jobs[id].state; state == Running || state == Completed
    ensures var w := Run(c, ops);
            id in w.starts && ProperlyStarted(c, w.state.jobs[id].plan, w.starts[id].0, w.starts[id].1)
  {
    hide Run, ProperlyStarted, Trail;
    RunSound(c, ops);
    var w := Run(c, ops);
    assert JobSound(c, w, id);
    var trail := Trail(w.state.audit, id);
    assert trail[1] == AuthorizedState;
  }

  /** A running or completed experiment therefore is of a configured module, and if that is R2, it had
      a live scope covering the tool and every target, and a live confirmation of exactly its plan. */
  lemma StartedR2WasConfirmed(c: Config, ops: seq<Operation>, id: string)
    requires ConfigValid(c) && id in Run(c, ops).state.jobs
    requires var state := Run(c, ops).state.jobs[id].state; state == Running || state == Completed
    ensures var w := Run(c, ops);
            && id in w.starts
            && var request := PolicyRequest(w.state.jobs[id].plan, w.starts[id].0, w.starts[id].1);
               && (request.toolId, request.toolVersion) in c.modules
               && var manifest := c.modules[(request.toolId, request.toolVersion)].manifest;
                  manifest.risk == R2 ==> ScopeCovers(request) && Confirmed(request, manifest.requiresPhysicalConfirmation)
  {
    hide Run, Evaluate;
    RunningOnlyIfAllowed(c, ops, id);
    var w := Run(c, ops);
    var request := PolicyRequest(w.state.jobs[id].plan, w.starts[id].0, w.starts[id].1);
    AllowIff(request, PolicyTools(c));
  }

  /** The audit log is numbered 1, 2, 3, ... and leaves every experiment one of eight legal trails
      that ends in the state its job is in; unknown experiments leave none. */
  lemma AuditIsComplete(c: Config, ops: seq<Operation>, id: string)
    ensures var s := Run(c, ops).state;
            && (forall i :: 0 <= i < |s.audit| ==> s.audit[i].sequence == i + 1)
            && (id !in s.jobs ==> Trail(s.audit, id) == [])
            && (id in s.jobs ==> LegalTrail(Trail(s.audit, id)) && Trail(s.audit, id)[|Trail(s.audit, id)| - 1] == s.jobs[id].state)
  {
    hide Run, ProperlyStarted, Trail;
    RunSound(c, ops);
    assert JobSound(c, Run(c, ops), id);
  }
}
