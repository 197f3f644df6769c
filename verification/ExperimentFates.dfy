/** How every experiment starts and ends, told from its own history over any run. */
module ExperimentFates {
  import opened Options
  import opened Policy
  import opened Experiments

  // ---- Starting --------------------------------------------------------------------------------

  /** Actor, device and scope are those of the plan, the duration is a number of seconds, and the scope
      outlives it; the module is configured, and for an edge module a report of the plan's organization
      that lasts as long names it with its executor. */
  predicate ContextFits(c: Config, plan: Plan, x: Context, now: int) {
    && x.actor.actorId == plan.actorId && x.actor.organizationId == plan.organizationId
    && x.device.deviceId == plan.sourceDeviceId && x.device.organizationId == plan.organizationId
    && x.scope.Some? && x.scope.value.scopeId == plan.scopeId && plan.duration.Seconds?
    && var end := now + plan.duration.n * 1_000_000;
       && x.scope.value.validUntil >= end && (plan.moduleId, plan.moduleVersion) in c.modules
       && var m := c.modules[(plan.moduleId, plan.moduleVersion)];
          m.location == OnEdge ==>
            && x.report.Some? && x.report.value.organizationId == plan.organizationId && x.report.value.validUntil >= end
            && (plan.moduleId, plan.moduleVersion, m.executorId) in x.report.value.modules
  }

  lemma ContextFitsExactly(c: Config, plan: Plan, x: Context, now: int)
    ensures VerifyContext(c, plan, x, now).Ok? <==> ContextFits(c, plan, x, now)
    ensures ContextFits(c, plan, x, now) ==>
              VerifyContext(c, plan, x, now).value == c.modules[(plan.moduleId, plan.moduleVersion)]
  {}

  /** What it takes for policy to allow an experiment: its module with the profile, the roles, at most 16 targets and the
      duration, a trusted device in one organization with grant and scope, the grant or scope the module needs, and its
      confirmation. The device's own capabilities do not matter. */
  lemma AllowedExactlyWhen(c: Config, plan: Plan, x: Context, now: int)
    ensures Evaluate(PolicyRequest(plan, x, now), PolicyTools(c)).decision == Allow <==>
              && (plan.moduleId, plan.moduleVersion) in c.modules
              && var m, org := c.modules[(plan.moduleId, plan.moduleVersion)].manifest, x.actor.organizationId;
                 && x.device.organizationId == org && x.device.trust == Trusted
                 && (x.grant.Some? ==> x.grant.value.organizationId == org)
                 && (x.scope.Some? ==> x.scope.value.organizationId == org)
                 && plan.profile == m.requiredProfile && m.requiredRoles <= x.actor.roles && 1 <= |plan.targets| <= 16
                 && (m.authorization == ByResourceGrant ==>
                       && x.grant.Some? && x.grant.value.enabled && x.grant.value.validUntil > now
                       && forall t :: t in plan.targets ==> t in x.grant.value.resourceIds)
                 && (m.authorization == ByOperationScope ==>
                       && x.scope.Some? && x.scope.value.validUntil > now && plan.moduleId in x.scope.value.toolIds
                       && forall t :: t in plan.targets ==> t in x.scope.value.targetIds)
                 && (m.maximumDuration.Some? ==> plan.duration.Seconds? && 1 <= plan.duration.n <= m.maximumDuration.value)
                 && (m.requiresConfirmation ==>
                       && x.confirmation.Some? && x.confirmation.value.validUntil > now
                       && x.confirmation.value.actorId == x.actor.actorId && x.confirmation.value.deviceId == x.device.deviceId
                       && x.confirmation.value.planHash == plan.planHash
                       && (m.requiresPhysicalConfirmation ==> x.confirmation.value.means == PhysicalMethod))
  {
    hide Evaluate;
    AllowIff(PolicyRequest(plan, x, now), PolicyTools(c));
  }

  /** What becomes of a new experiment: nothing if the context does not fit its plan; else it is denied unless
      policy allows it, has failed without its executor, stays authorized if no session comes about, and runs
      otherwise; a known one is answered as it is. */
  lemma StartedExactlyWhen(c: Config, s: State, plan: Plan, x: Context, now: int, sessionCreated: bool)
    ensures var (after, outcome) := Start(c, s, plan, x, now, sessionCreated);
            var id := plan.experimentId;
            if id in s.jobs then
              after == s && outcome == if s.jobs[id].plan.planHash == plan.planHash then Ok(s.jobs[id]) else Rejected(ExperimentIdReused)
            else if !ContextFits(c, plan, x, now) then after == s && outcome.Rejected?
            else
              var allowed := Evaluate(PolicyRequest(plan, x, now), PolicyTools(c)).decision == Allow;
              var executes := c.modules[(plan.moduleId, plan.moduleVersion)].executorId in c.executors;
              var state := if !allowed then DeniedState else if !executes then Failed
                           else if !sessionCreated then AuthorizedState else Running;
              && after.jobs == s.jobs[id := Job(plan, state, 0, state == Running, None)]
              && outcome == (if state == AuthorizedState then Rejected(SessionNotCreated) else Ok(after.jobs[id]))
  {
    hide Evaluate, VerifyContext, ContextFits;
    ContextFitsExactly(c, plan, x, now);
  }

  /** A refused start tells what was wrong. */
  lemma StartRefusalsTell(c: Config, s: State, plan: Plan, x: Context, now: int, sessionCreated: bool)
    requires plan.experimentId !in s.jobs
    ensures var outcome := Start(c, s, plan, x, now, sessionCreated).1;
            outcome.Rejected? ==>
              match outcome.reason
              case PlanContextMismatch =>
                || x.actor.actorId != plan.actorId || x.actor.organizationId != plan.organizationId
                || x.device.deviceId != plan.sourceDeviceId || x.device.organizationId != plan.organizationId
              case PlanScopeMismatch => x.scope.None? || x.scope.value.scopeId != plan.scopeId
              case PlanDurationInvalid => !plan.duration.Seconds?
              case ScopeTooShort => x.scope.Some? && plan.duration.Seconds?
                                    && x.scope.value.validUntil < now + plan.duration.n * 1_000_000
              case ModuleNotFound => (plan.moduleId, plan.moduleVersion) !in c.modules
              case ReportRequired => x.report.None?
              case ReportInvalid =>
                x.report.Some? && (x.report.value.organizationId != plan.organizationId
                                   || !plan.duration.Seconds? || x.report.value.validUntil < now + plan.duration.n * 1_000_000)
              case EdgeModuleUnavailable =>
                && x.report.Some? && (plan.moduleId, plan.moduleVersion) in c.modules
                && (plan.moduleId, plan.moduleVersion, c.modules[(plan.moduleId, plan.moduleVersion)].executorId) !in x.report.value.modules
              case SessionNotCreated => ContextFits(c, plan, x, now) && !sessionCreated
              case _ => false
  {
    hide Evaluate;
  }

  // ---- Steps -----------------------------------------------------------------------------------

  predicate InBounds(progress: int) { 0 <= progress <= 100 }

  /** A complete step with its progress in bounds and a result that is there and valid. */
  predicate Completes(step: StepResult) {
    step.Steps? && step.complete && InBounds(step.progress) && step.result.Some? && step.resultValid
  }

  /** A step that raised an expected exception, was out of bounds, or was complete without a valid result. */
  predicate Fails(step: StepResult) {
    match step
    case Crashes => false
    case CrashesLate(progress) => !InBounds(progress)
    case Raises => true
    case RaisesLate(_) => true
    case Steps(complete, progress, result, resultValid) =>
      !InBounds(progress) || (complete && (result.None? || !resultValid))
  }

  predicate Continues(step: StepResult) {
    !Completes(step) && !Fails(step)
  }

  predicate IsRunning(s: State, id: string) {
    id in s.jobs && s.jobs[id].state == Running
  }

  /** The step by which a call advances a running experiment, if it does. */
  function StepBy(s: State, op: Operation, id: string): seq<StepResult> {
    if op.AdvanceOp? && op.experimentId == id && IsRunning(s, id) then [op.step] else []
  }

  /** The call cancels the experiment: it is known, not over, and without a session that raises. */
  predicate CancelledBy(s: State, op: Operation, id: string) {
    && op.CancelOp? && op.experimentId == id && id in s.jobs && !IsTerminal(s.jobs[id].state)
    && !(s.jobs[id].state == Running && op.sessionRaises)
  }

  /** The steps of one experiment during a run: those it was advanced by while it was running. */
  function StepsOf(c: Config, ops: seq<Operation>, id: string): seq<StepResult> {
    if ops == [] then []
    else
      var front := ops[..|ops| - 1];
      StepsOf(c, front, id) + StepBy(Run(c, front).state, ops[|ops| - 1], id)
  }

  predicate WasCancelled(c: Config, ops: seq<Operation>, id: string) {
    ops != [] && (WasCancelled(c, ops[..|ops| - 1], id) || CancelledBy(Run(c, ops[..|ops| - 1]).state, ops[|ops| - 1], id))
  }

  /** The progress stored last. */
  function StoredProgress(steps: seq<StepResult>): int {
    if steps == [] then 0
    else
      var front, last := steps[..|steps| - 1], steps[|steps| - 1];
      match last
      case Crashes => StoredProgress(front)
      case Raises => StoredProgress(front)
      case CrashesLate(progress) => if InBounds(progress) then progress else StoredProgress(front)
      case RaisesLate(progress) => if InBounds(progress) then progress else StoredProgress(front)
      case Steps(_, progress, _, _) => if InBounds(progress) then progress else StoredProgress(front)
  }

  /** The result that the last step brought, if it did. */
  function LastResult(steps: seq<StepResult>): Option<string> {
    if steps != [] && steps[|steps| - 1].Steps? then steps[|steps| - 1].result else None
  }

  /** The job is where its steps and its cancellation have brought it. */
  ghost predicate JobFate(job: Job, trail: seq<ExperimentState>, steps: seq<StepResult>, cancelled: bool) {
    var n := |steps|;
    && (forall i :: 0 <= i < n - 1 ==> Continues(steps[i]))
    && (job.state == Completed <==> n > 0 && Completes(steps[n - 1]))
    && (job.state == Failed <==> (n > 0 && Fails(steps[n - 1])) || trail == [Validated, AuthorizedState, Failed])
    && (job.state == CancelledState <==> cancelled)
    && (job.state == Running <==> Running in trail && !cancelled && forall i :: 0 <= i < n ==> Continues(steps[i]))
    && (Running !in trail ==> n == 0)
    && job.progress == StoredProgress(steps)
    && job.result == (if job.state == Completed then LastResult(steps) else None)
  }

  ghost predicate Fate(w: World, id: string, steps: seq<StepResult>, cancelled: bool) {
    if id in w.state.jobs then JobFate(w.state.jobs[id], Trail(w.state.audit, id), steps, cancelled)
    else steps == [] && !cancelled
  }

  // ---- The induction ---------------------------------------------------------------------------

  /** At rest a running job's trail says so, and a job that is over or was never run cannot be advanced. */
  lemma TrailAtRest(c: Config, w: World, id: string)
    requires Sound(c, w) && id in w.state.jobs
    ensures var trail, state := Trail(w.state.audit, id), w.state.jobs[id].state;
            && (state == Running ==> trail == [Validated, AuthorizedState, Running])
            && (state == AuthorizedState ==> trail == [Validated, AuthorizedState])
            && LegalTrail(trail) && trail[|trail| - 1] == state
            && (w.state.jobs[id].hasSession <==> state == Running) && w.state.jobs[id].plan.experimentId == id
  {
    hide Trail, ProperlyStarted;
    assert JobSound(c, w, id);
  }

  /** A step that leaves the job and the trail of an experiment alone leaves its fate. */
  lemma SameFate(w: World, t: World, id: string, steps: seq<StepResult>, cancelled: bool)
    requires Fate(w, id, steps, cancelled)
    requires (id in t.state.jobs <==> id in w.state.jobs) && Trail(t.state.audit, id) == Trail(w.state.audit, id)
    requires id in w.state.jobs ==> t.state.jobs[id] == w.state.jobs[id]
    ensures Fate(t, id, steps, cancelled)
  {}

  lemma StartedFate(c: Config, w: World, op: Operation, id: string, steps: seq<StepResult>, cancelled: bool)
    requires Sound(c, w) && Fate(w, id, steps, cancelled) && op.StartOp?
    ensures Fate(Step(c, w, op), id, steps, cancelled)
  {
    hide Sound, Fate, StatesEntered, Start, Trail, Step;
    if op.plan.experimentId in w.state.jobs || StatesEntered(c, op.plan, op.context, op.now, op.sessionCreated) == [] {
      StartedNothing(c, w, op);
      SameFate(w, Step(c, w, op), id, steps, cancelled);
    } else {
      StartedWorld(c, w, op.plan, op.context, op.now, op.sessionCreated, id);
      if id == op.plan.experimentId {
        UnknownLeftNothing(c, w, id);
        NewFate(c, w, op, steps, cancelled);
      } else {
        SameFate(w, Step(c, w, op), id, steps, cancelled);
      }
    }
  }

  lemma StartedNothing(c: Config, w: World, op: Operation)
    requires op.StartOp?
    requires op.plan.experimentId in w.state.jobs || StatesEntered(c, op.plan, op.context, op.now, op.sessionCreated) == []
    ensures Step(c, w, op).state == w.state
  {
    hide Evaluate, VerifyContext, Enter;
  }

  lemma NewFate(c: Config, w: World, op: Operation, steps: seq<StepResult>, cancelled: bool)
    requires op.StartOp? && op.plan.experimentId !in w.state.jobs && Fate(w, op.plan.experimentId, steps, cancelled)
    requires Trail(w.state.audit, op.plan.experimentId) == []
    requires var states, t := StatesEntered(c, op.plan, op.context, op.now, op.sessionCreated), Step(c, w, op);
             && states != []
             && Trail(t.state.audit, op.plan.experimentId) == Trail(w.state.audit, op.plan.experimentId) + states
             && t.state.jobs == w.state.jobs[op.plan.experimentId :=
                  Job(op.plan, states[|states| - 1], 0, states[|states| - 1] == Running, None)]
    ensures Fate(Step(c, w, op), op.plan.experimentId, steps, cancelled)
  {
    hide Step, Trail, StatesEntered, JobFate;
    var states := StatesEntered(c, op.plan, op.context, op.now, op.sessionCreated);
    assert [] + states == states;
    EnteredStates(c, op.plan, op.context, op.now, op.sessionCreated);
    FreshFate(op.plan, states);
  }

  predicate IsStartTrail(states: seq<ExperimentState>) {
    || states == [Validated, DeniedState] || states == [Validated, AuthorizedState]
    || states == [Validated, AuthorizedState, Failed] || states == [Validated, AuthorizedState, Running]
  }

  lemma EnteredStates(c: Config, plan: Plan, x: Context, now: int, sessionCreated: bool)
    ensures var states := StatesEntered(c, plan, x, now, sessionCreated); states != [] ==> IsStartTrail(states)
  {
    hide Evaluate, VerifyContext;
  }

  /** A job that has just been started has taken no step. */
  lemma FreshFate(plan: Plan, states: seq<ExperimentState>)
    requires IsStartTrail(states)
    ensures states != []
    ensures var last := states[|states| - 1]; JobFate(Job(plan, last, 0, last == Running, None), states, [], false)
  {
    assert StoredProgress([]) == 0;
    assert Running in states <==> states[|states| - 1] == Running;
  }

  lemma AdvancedFate(c: Config, w: World, op: Operation, id: string, steps: seq<StepResult>, cancelled: bool)
    requires Sound(c, w) && Fate(w, id, steps, cancelled) && op.AdvanceOp?
    ensures Fate(Step(c, w, op), id,
                 if op.experimentId == id && IsRunning(w.state, id) then steps + [op.step] else steps, cancelled)
  {
    hide Sound, JobFate, Trail, AdvancedJob, Enter, Step;
    if op.experimentId in w.state.jobs {
      TrailAtRest(c, w, op.experimentId);
    }
    AdvancedTrail(c, w, op, id);
    if op.experimentId == id && IsRunning(w.state, id) {
      StepFate(w.state.jobs[id], Trail(w.state.audit, id), op.step, steps, cancelled);
    } else {
      SameFate(w, Step(c, w, op), id, steps, cancelled);
    }
  }

  /** What an advance does to the jobs and trails. */
  lemma AdvancedTrail(c: Config, w: World, op: Operation, id: string)
    requires op.AdvanceOp?
    requires op.experimentId in w.state.jobs ==>
               var job := w.state.jobs[op.experimentId];
               job.plan.experimentId == op.experimentId && (job.hasSession <==> job.state == Running)
    ensures var t := Step(c, w, op);
            var hit := id == op.experimentId && IsRunning(w.state, id);
            && (id in t.state.jobs <==> id in w.state.jobs)
            && (id in w.state.jobs ==> t.state.jobs[id] == if hit then AdvancedJob(w.state.jobs[id], op.step) else w.state.jobs[id])
            && Trail(t.state.audit, id) ==
               Trail(w.state.audit, id)
               + (if hit && AdvancedJob(w.state.jobs[id], op.step).state != Running
                  then [AdvancedJob(w.state.jobs[id], op.step).state] else [])
  {
    hide Trail, Enter, AdvancedJob;
    assert Trail(w.state.audit, id) + [] == Trail(w.state.audit, id);
    CrashedJob(w.state, id);
    if IsRunning(w.state, op.experimentId) && op.step != Crashes {
      var after := AdvancedJob(w.state.jobs[op.experimentId], op.step);
      AdvancedPlan(w.state.jobs[op.experimentId], op.step);
      EnterTrail(w.state, after, op.now, id);
      EnteredJobs(w.state, after, op.now);
    }
  }

  lemma CrashedJob(s: State, id: string)
    ensures id in s.jobs ==> AdvancedJob(s.jobs[id], Crashes) == s.jobs[id]
  {}

  lemma AdvancedPlan(job: Job, step: StepResult)
    ensures AdvancedJob(job, step).plan == job.plan
  {}

  /** What the step makes of a running job. */
  lemma AdvancedExactly(job: Job, step: StepResult)
    requires job.state == Running
    ensures var after := AdvancedJob(job, step);
            && (after.state == Completed <==> Completes(step)) && (after.state == Failed <==> Fails(step))
            && (after.state == Running <==> Continues(step))
            && after.progress == (match step
                                  case Crashes => job.progress
                                  case Raises => job.progress
                                  case _ => if InBounds(step.progress) then step.progress else job.progress)
            && after.result == (if Completes(step) then step.result else job.result)
  {}

  lemma StepFate(job: Job, trail: seq<ExperimentState>, step: StepResult, steps: seq<StepResult>, cancelled: bool)
    requires job.state == Running && trail == [Validated, AuthorizedState, Running] && JobFate(job, trail, steps, cancelled)
    ensures var after := AdvancedJob(job, step);
            JobFate(after, trail + (if after.state != Running then [after.state] else []), steps + [step], cancelled)
  {
    hide AdvancedJob, Completes, Fails, Continues, JobFate, StoredProgress;
    RunningFate(job, trail, steps, cancelled);
    AdvancedExactly(job, step);
    OneOfThree(step);
    OneMoreStep(steps, step);
    StepProgress(job, steps, step);
    var after := AdvancedJob(job, step);
    LongerTrail(trail, after.state);
    FateFromParts(after, trail + (if after.state != Running then [after.state] else []), steps + [step], cancelled);
  }

  /** While a job runs, no step has ended it. */
  lemma RunningFate(job: Job, trail: seq<ExperimentState>, steps: seq<StepResult>, cancelled: bool)
    requires job.state == Running && JobFate(job, trail, steps, cancelled)
    ensures !cancelled && job.result == None && job.progress == StoredProgress(steps)
    ensures forall i :: 0 <= i < |steps| ==> Continues(steps[i])
  {
    hide Continues, StoredProgress, Completes, Fails;
  }

  lemma OneMoreStep(steps: seq<StepResult>, step: StepResult)
    requires forall i :: 0 <= i < |steps| ==> Continues(steps[i])
    ensures var longer := steps + [step];
            && longer[|longer| - 1] == step && (forall i :: 0 <= i < |longer| - 1 ==> Continues(longer[i]))
            && ((forall i :: 0 <= i < |longer| ==> Continues(longer[i])) <==> Continues(step))
  {
    hide Continues;
    var longer := steps + [step];
    assert longer[|longer| - 1] == step;
  }

  lemma StepProgress(job: Job, steps: seq<StepResult>, step: StepResult)
    requires job.state == Running && job.progress == StoredProgress(steps)
    ensures AdvancedJob(job, step).progress == StoredProgress(steps + [step])
  {
    hide AdvancedJob;
    AdvancedExactly(job, step);
    assert (steps + [step])[..|steps|] == steps;
  }

  lemma LongerTrail(trail: seq<ExperimentState>, state: ExperimentState)
    requires trail == [Validated, AuthorizedState, Running]
    ensures var longer := trail + (if state != Running then [state] else []);
            Running in longer && longer != [Validated, AuthorizedState, Failed]
  {
    var longer := trail + (if state != Running then [state] else []);
    assert longer[2] == Running;
  }

  /** The parts of a fate right after a step. */
  lemma FateFromParts(job: Job, trail: seq<ExperimentState>, steps: seq<StepResult>, cancelled: bool)
    requires steps != [] && Running in trail && trail != [Validated, AuthorizedState, Failed] && !cancelled
    requires forall i :: 0 <= i < |steps| - 1 ==> Continues(steps[i])
    requires var last := steps[|steps| - 1];
             && (job.state == Completed <==> Completes(last)) && (job.state == Failed <==> Fails(last))
             && (job.state == Running <==> Continues(last)) && job.state != CancelledState
             && ((forall i :: 0 <= i < |steps| ==> Continues(steps[i])) <==> Continues(last))
             && job.progress == StoredProgress(steps) && job.result == (if Completes(last) then LastResult(steps) else None)
    ensures JobFate(job, trail, steps, cancelled)
  {
    hide Completes, Fails, Continues, StoredProgress;
  }

  lemma OneOfThree(step: StepResult)
    ensures !(Completes(step) && Fails(step)) && (Continues(step) <==> !Completes(step) && !Fails(step))
    ensures Completes(step) ==> step.Steps?
  {}

  lemma CancelledFate(c: Config, w: World, op: Operation, id: string, steps: seq<StepResult>, cancelled: bool)
    requires Sound(c, w) && Fate(w, id, steps, cancelled) && op.CancelOp?
    ensures Fate(Step(c, w, op), id, steps, cancelled || CancelledBy(w.state, op, id))
  {
    hide Sound, Trail, Enter, JobFate;
    if op.experimentId in w.state.jobs {
      TrailAtRest(c, w, op.experimentId);
    }
    if CancelledBy(w.state, op, op.experimentId) {
      var after := w.state.jobs[op.experimentId].(state := CancelledState, hasSession := false);
      EnterTrail(w.state, after, op.now, id);
      EnteredJobs(w.state, after, op.now);
      if id == op.experimentId {
        EndedFate(w.state.jobs[id], Trail(w.state.audit, id), steps, cancelled);
      } else {
        SameFate(w, Step(c, w, op), id, steps, cancelled);
      }
    }
  }

  lemma EndedFate(job: Job, trail: seq<ExperimentState>, steps: seq<StepResult>, cancelled: bool)
    requires JobFate(job, trail, steps, cancelled)
    requires (job.state == Running && trail == [Validated, AuthorizedState, Running])
             || (job.state == AuthorizedState && trail == [Validated, AuthorizedState])
    ensures JobFate(job.(state := CancelledState, hasSession := false), trail + [CancelledState], steps, true)
  {
    hide Completes, Fails, StoredProgress;
    var longer := trail + [CancelledState];
    assert longer[|trail|] == CancelledState;
    assert Running in longer <==> Running in trail;
  }

  lemma StepKeepsFate(c: Config, w: World, op: Operation, id: string, steps: seq<StepResult>, cancelled: bool)
    requires Sound(c, w) && Fate(w, id, steps, cancelled)
    ensures Fate(Step(c, w, op), id, steps + StepBy(w.state, op, id), cancelled || CancelledBy(w.state, op, id))
  {
    hide Fate, Step, Sound;
    assert steps + [] == steps;
    match op
    case StartOp(_, _, _, _) => StartedFate(c, w, op, id, steps, cancelled);
    case AdvanceOp(_, _, _) => AdvancedFate(c, w, op, id, steps, cancelled);
    case CancelOp(_, _, _) => CancelledFate(c, w, op, id, steps, cancelled);
  }

  /** Over any run, for every experiment: it is completed exactly if its last step completed it, with that
      step's result; failed exactly if its last step failed it or it found no executor; cancelled exactly
      if it was cancelled; and otherwise, once running, it still runs. Its progress is the one stored last,
      and no step but the last ended it. */
  lemma {:induction false} RunFate(c: Config, ops: seq<Operation>, id: string)
    ensures Fate(Run(c, ops), id, StepsOf(c, ops, id), WasCancelled(c, ops, id))
  {
    if ops != [] {
      hide Fate, Step, Sound, StepBy, CancelledBy;
      var front := ops[..|ops| - 1];
      RunSound(c, front);
      RunFate(c, front, id);
      StepKeepsFate(c, Run(c, front), ops[|ops| - 1], id, StepsOf(c, front, id), WasCancelled(c, front, id));
    }
  }

  /** What that says of a job whose session was created. */
  lemma EndsExactlyWhen(c: Config, ops: seq<Operation>, id: string)
    requires id in Run(c, ops).state.jobs && Running in Trail(Run(c, ops).state.audit, id)
    ensures var job, steps := Run(c, ops).state.jobs[id], StepsOf(c, ops, id);
            && (job.state == Completed <==> steps != [] && Completes(steps[|steps| - 1]))
            && (job.state == Failed <==> steps != [] && Fails(steps[|steps| - 1]))
            && (job.state == CancelledState <==> WasCancelled(c, ops, id))
            && (job.state == Running <==> !WasCancelled(c, ops, id) && forall i :: 0 <= i < |steps| ==> Continues(steps[i]))
            && (forall i :: 0 <= i < |steps| - 1 ==> Continues(steps[i]))
            && job.progress == StoredProgress(steps)
            && job.result == (if job.state == Completed then LastResult(steps) else None)
  {
    hide Run, Trail, Completes, Fails, StepsOf, WasCancelled;
    RunFate(c, ops, id);
  }

  /** What advancing and cancelling answer. */
  lemma Answers(s: State, id: string, now: int, step: StepResult, raises: bool)
    ensures var (after, outcome) := Advance(s, id, now, step);
            outcome == if id !in s.jobs then Rejected(ExperimentNotFound)
                       else if s.jobs[id].state != Running || !s.jobs[id].hasSession then Rejected(ExperimentNotRunning)
                       else if step == Crashes || (step.CrashesLate? && InBounds(step.progress)) then Rejected(ExecutorCrashed)
                       else Ok(AdvancedJob(s.jobs[id], step))
    ensures var (after, outcome) := Cancel(s, id, now, raises);
            outcome == if id !in s.jobs then Rejected(ExperimentNotFound)
                       else if IsTerminal(s.jobs[id].state) then Ok(s.jobs[id])
                       else if s.jobs[id].hasSession && raises then Rejected(ExecutorCrashed)
                       else Ok(s.jobs[id].(state := CancelledState, hasSession := false))
  {}

  function Subject(op: Operation): string {
    match op
    case StartOp(plan, _, _, _) => plan.experimentId
    case AdvanceOp(id, _, _) => id
    case CancelOp(id, _, _) => id
  }

  /** A call only appends to the audit log; what it appends bears its time, its experiment and that
      experiment's plan. */
  lemma AuditTells(c: Config, ops: seq<Operation>, op: Operation)
    ensures var before, after := Run(c, ops).state, Step(c, Run(c, ops), op).state;
            && before.audit <= after.audit
            && forall i :: |before.audit| <= i < |after.audit| ==>
                 && after.audit[i].timestamp == op.now && after.audit[i].experimentId == Subject(op)
                 && Subject(op) in after.jobs && after.audit[i].planHash == after.jobs[Subject(op)].plan.planHash
  {
    hide Run, Evaluate, VerifyContext;
    RunSound(c, ops);
    KnownJob(c, Run(c, ops), Subject(op));
    if op.AdvanceOp? && op.experimentId in Run(c, ops).state.jobs {
      AdvancedPlan(Run(c, ops).state.jobs[op.experimentId], op.step);
    }
    hide AdvancedJob, Sound;
  }
}
