/**
 Passive discovery: reviewed candidate fixtures, a bounded job that collects them, and the driver
 that advances the job one millisecond apart until it ends. Times count microseconds.

 This module follows one job with its source worker; commands are taken after schema validation.
 */
module Discovery {
  import opened Options
  import opened Audit
  import J = Jobs
  import P = Policy

  const TOOL_ID := "network.passive_discovery"
  const TOOL_VERSION := 1
  const MAXIMUM_CANDIDATES := 128
  const SECOND := 1_000_000

  const PROTOCOLS: set<string> := {"arp_cache", "dhcp_lease", "mdns_announcement", "ssdp_notification", "ws_discovery_announcement"}
  const PROBABLE_TYPES: set<string> := {"camera", "edge_node", "network_device", "sensor", "unknown"}

  datatype Candidate = Candidate(
    candidateId: string,
    observerId: string,
    organizationId: string,
    networkId: string,
    interfaceId: string,
    protocols: seq<string>,
    probableTypes: seq<string>,
    firstObservedAt: int,
    lastObservedAt: int,
    confidence: real)

  datatype Scope = Scope(organizationId: string, networkId: string, interfaceId: string)

  // ---- Fixtures --------------------------------------------------------------------------------

  predicate Distinct(s: seq<string>) {
    forall i, j :: 0 <= i < j < |s| ==> s[i] != s[j]
  }

  predicate Classified(names: seq<string>, allowed: set<string>) {
    1 <= |names| <= 8 && Distinct(names) && forall n :: n in names ==> n in allowed
  }

  predicate IsAlphanumeric(c: char) {
    'a' <= c <= 'z' || 'A' <= c <= 'Z' || '0' <= c <= '9'
  }

  /** At most 160 characters: the prefix, a letter or digit, and then letters, digits, dots,
      underscores and hyphens. */
  predicate IsTypedId(value: string, prefix: string) {
    && |prefix| < |value| <= 160 && value[..|prefix|] == prefix && IsAlphanumeric(value[|prefix|])
    && forall i :: |prefix| < i < |value| ==>
         IsAlphanumeric(value[i]) || value[i] == '.' || value[i] == '_' || value[i] == '-'
  }

  predicate ScopeValid(scope: Scope) {
    && IsTypedId(scope.organizationId, "org:") && IsTypedId(scope.networkId, "network:")
    && IsTypedId(scope.interfaceId, "interface:")
  }

  predicate CandidateValid(scope: Scope, c: Candidate) {
    && IsTypedId(c.candidateId, "candidate:") && IsTypedId(c.observerId, "edge:")
    && c.organizationId == scope.organizationId && c.networkId == scope.networkId && c.interfaceId == scope.interfaceId
    && c.firstObservedAt <= c.lastObservedAt
    && 0.0 <= c.confidence <= 1.0
    && Classified(c.protocols, PROTOCOLS) && Classified(c.probableTypes, PROBABLE_TYPES)
  }

  /** At most 128 candidates of a well-formed scope, no id twice. */
  ghost predicate FixtureValid(scope: Scope, candidates: seq<Candidate>) {
    && |candidates| <= MAXIMUM_CANDIDATES && ScopeValid(scope)
    && (forall i :: 0 <= i < |candidates| ==> CandidateValid(scope, candidates[i]))
    && DistinctIds(candidates)
  }

  ghost predicate DistinctIds(candidates: seq<Candidate>) {
    forall i, j :: 0 <= i < j < |candidates| ==> candidates[i].candidateId != candidates[j].candidateId
  }

  /** The scan that admits a fixture; false is the error. */
  method ScanFixture(scope: Scope, candidates: seq<Candidate>) returns (ok: bool)
    ensures ok <==> FixtureValid(scope, candidates)
  {
    hide IsTypedId, CandidateValid, ScopeValid;
    if |candidates| > MAXIMUM_CANDIDATES || !ScopeValid(scope) {
      return false;
    }
    var seen: set<string> := {};
    for k := 0 to |candidates|
      invariant forall i :: 0 <= i < k ==> CandidateValid(scope, candidates[i]) && candidates[i].candidateId in seen
      invariant forall id :: id in seen ==> exists i :: 0 <= i < k && candidates[i].candidateId == id
      invariant forall i, j :: 0 <= i < j < k ==> candidates[i].candidateId != candidates[j].candidateId
    {
      var c := candidates[k];
      if c.candidateId in seen || !CandidateValid(scope, c) {
        return false;
      }
      seen := seen + {c.candidateId};
    }
    return true;
  }

  // ---- Job and worker --------------------------------------------------------------------------

  datatype Job = Job(
    organizationId: string,
    actorId: string,
    deviceId: string,
    scopeId: string,
    maximum: nat,
    deadline: int,
    log: J.Log,
    candidates: seq<Candidate>)

  datatype Worker = Worker(candidates: seq<Candidate>, index: nat, cancelled: bool)

  datatype State = State(job: Job, worker: Worker)

  datatype Context = Context(actor: P.Actor, device: P.Device, scope: Option<P.OperationScope>)

  datatype Outcome = Outcome(status: J.JobState, candidates: seq<Candidate>, reason: string)

  datatype Error =
    | ActionNotSupported
    | IdempotencyKeyReused
    | JobUnknown
    | ScopeMissing
    | CandidateCountInvalid
    | WorkerExists
    | ContextMismatch
    | AuditCollision
    | TransitionRefused(error: J.TransitionError)

  datatype Reply = Ok(outcome: Outcome) | Raised(error: Error)

  function OutcomeOf(job: Job): Outcome
    requires job.log.transitions != []
  {
    Outcome(job.log.state, job.candidates, if job.log.state == J.Running then "SIMULATION_RUNNING" else J.LastReason(job.log))
  }

  predicate Listed(candidates: seq<Candidate>, id: string) {
    exists i :: 0 <= i < |candidates| && candidates[i].candidateId == id
  }

  function AddCandidate(job: Job, c: Candidate): Job {
    if Listed(job.candidates, c.candidateId) || |job.candidates| >= job.maximum then job
    else job.(candidates := job.candidates + [c])
  }

  function NextCandidate(w: Worker): (Worker, Option<Candidate>) {
    if w.cancelled || w.index >= |w.candidates| then (w, None) else (w.(index := w.index + 1), Some(w.candidates[w.index]))
  }

  // ---- Starting --------------------------------------------------------------------------------

  datatype Command = Command(
    commandId: string,
    requestHash: string,
    actionSupported: bool,
    actorId: string,
    organizationId: string,
    sourceDeviceId: string,
    requestedAt: int,
    profile: P.Profile,
    targets: seq<string>,
    seconds: nat,
    interfaceId: string,
    maximum: int,
    planHash: string)

  datatype StartReply = Denied(denial: Denial) | NotStarted(error: Error) | Started(state: State)

  function PolicyRequest(command: Command, x: Context, now: int): P.Request {
    P.Request(x.actor, x.device, command.profile, TOOL_ID, TOOL_VERSION, command.targets, P.Seconds(command.seconds), now,
              command.planHash, None, x.scope, None)
  }

  function Refusal(reason: string): StartReply {
    Denied(Denial(P.Decision.Deny, reason))
  }

  /** `taken` tells whether the job's id has a worker already. */
  function Start(tools: P.Tools, fixtures: map<Scope, seq<Candidate>>, command: Command, x: Context, now: int, taken: bool)
    : StartReply
  {
    if !command.actionSupported then NotStarted(ActionNotSupported)
    else if !(now - 300 * SECOND <= command.requestedAt <= now + 30 * SECOND) then Refusal("COMMAND_TIMESTAMP_INVALID")
    else if command.actorId != x.actor.actorId || command.organizationId != x.actor.organizationId
            || command.sourceDeviceId != x.device.deviceId || x.actor.organizationId != x.device.organizationId
    then Refusal("COMMAND_CONTEXT_MISMATCH")
    else
      var policy := P.Evaluate(PolicyRequest(command, x, now), tools);
      if policy.decision != P.Allow then Denied(Denial(policy.decision, P.ReasonCode(policy.reason)))
      else if x.scope.None? then NotStarted(ScopeMissing)
      else if x.scope.value.validUntil < now + command.seconds * SECOND then Refusal("SCOPE_EXPIRES_BEFORE_JOB")
      else if !(1 <= command.maximum <= MAXIMUM_CANDIDATES) then NotStarted(CandidateCountInvalid)
      else
        var target := if command.targets == [] then "" else command.targets[0];
        var scope := Scope(x.actor.organizationId, target, command.interfaceId);
        if taken then NotStarted(WorkerExists)
        else if scope !in fixtures then Refusal("DISCOVERY_SOURCE_NOT_CONFIGURED")
        else
          Started(State(
            Job(x.actor.organizationId, x.actor.actorId, x.device.deviceId, x.scope.value.scopeId, command.maximum,
                now + command.seconds * SECOND, J.StartedLog(J.Discovery, x.actor.actorId, now), []),
            Worker(FirstOf(fixtures[scope], command.maximum), 0, false)))
  }

  function FirstOf(candidates: seq<Candidate>, maximum: nat): seq<Candidate> {
    if |candidates| <= maximum then candidates else candidates[..maximum]
  }

  // ---- Advancing and ending --------------------------------------------------------------------

  predicate Accessible(job: Job, x: Context) {
    && job.organizationId == x.actor.organizationId && job.actorId == x.actor.actorId
    && job.deviceId == x.device.deviceId && x.scope.Some? && job.scopeId == x.scope.value.scopeId
  }

  function End(s: State, to: J.JobState, action: string, now: int, reason: string): (State, Reply)
    requires s.job.log.transitions != []
  {
    match J.TransitionRefused(s.job.log, to, now)
    case Some(error) => (s, Raised(TransitionRefused(error)))
    case None =>
      var job := s.job.(log := J.Moved(s.job.log, to, action, s.job.actorId, now, reason));
      (s.(job := job), Ok(OutcomeOf(job)))
  }

  function Advance(s: State, x: Context, now: int): (State, Reply)
    requires s.job.log.transitions != []
  {
    if !Accessible(s.job, x) then (s, Raised(ContextMismatch))
    else if s.job.log.state != J.Running then (s, Ok(OutcomeOf(s.job)))
    else if now >= s.job.deadline then End(s, J.Completed, "complete", now, "DURATION_ELAPSED")
    else
      var (worker, candidate) := NextCandidate(s.worker);
      var fed := s.(worker := worker);
      match candidate
      case None => End(fed, J.Completed, "complete", now, "FIXTURE_EXHAUSTED")
      case Some(c) =>
        if c.organizationId != s.job.organizationId then End(fed, J.Failed, "fail", now, "CANDIDATE_CONTEXT_MISMATCH")
        else
          var job := AddCandidate(s.job, c);
          (fed.(job := job), Ok(OutcomeOf(job)))
  }

  function Cancel(s: State, x: Context, now: int): (State, Reply)
    requires s.job.log.transitions != []
  {
    if !Accessible(s.job, x) then (s, Raised(ContextMismatch))
    else if s.job.log.state == J.Completed || s.job.log.state == J.Cancelled || s.job.log.state == J.Failed
    then (s, Ok(OutcomeOf(s.job)))
    else End(s.(worker := s.worker.(cancelled := true)), J.Cancelled, "cancel", now, "OPERATOR_CANCELLED")
  }

  function Later(now: int, milliseconds: int): int {
    now + milliseconds * 1_000
  }

  /** Advances from `offset` milliseconds on; after `limit` of them the guard fails the job. */
  function Drive(s: State, x: Context, now: int, offset: nat, limit: nat): (State, Reply)
    requires s.job.log.transitions != [] && offset <= limit
    decreases limit - offset
  {
    if offset == limit then End(s, J.Failed, "fail", now + SECOND, "CANDIDATE_LIMIT_GUARD")
    else
      var (t, reply) := Advance(s, x, Later(now, offset));
      if reply.Raised? || reply.outcome.status != J.Running || t.job.log.transitions == [] then (t, reply)
      else Drive(t, x, now, offset + 1, limit)
  }

  function RunToCompletion(s: State, x: Context, now: int): (State, Reply)
    requires s.job.log.transitions != []
  {
    if !Accessible(s.job, x) then (s, Raised(ContextMismatch)) else Drive(s, x, now, 0, s.job.maximum + 1)
  }

  // ---- What every call keeps -------------------------------------------------------------------

  /** A legal log; the candidates listed are the ones taken from the fixture, in its order; and the
      limit cannot be exceeded. */
  ghost predicate Good(s: State) {
    && J.Legal(s.job.log) && s.job.log.kind == J.Discovery && J.Rank(s.job.log.state) >= 4 && s.job.log.state != J.Denied
    && (s.job.log.state == J.Running ==> J.LastTime(s.job.log) <= s.job.deadline)
    && s.worker.index <= |s.worker.candidates| <= s.job.maximum <= MAXIMUM_CANDIDATES
    && s.job.candidates == s.worker.candidates[..s.worker.index]
    && DistinctIds(s.worker.candidates)
    && forall i :: 0 <= i < |s.worker.candidates| ==> s.worker.candidates[i].organizationId == s.job.organizationId
  }

  ghost predicate FixturesValid(fixtures: map<Scope, seq<Candidate>>) {
    forall scope :: scope in fixtures ==> FixtureValid(scope, fixtures[scope])
  }

  /** A started job was allowed by policy within a scope that outlives it, and lists the first
      fixture candidates of its own organization, network and interface. */
  lemma StartSound(tools: P.Tools, fixtures: map<Scope, seq<Candidate>>, command: Command, x: Context, now: int, taken: bool)
    requires FixturesValid(fixtures) && Start(tools, fixtures, command, x, now, taken).Started?
    ensures var s := Start(tools, fixtures, command, x, now, taken).state;
            && Good(s) && s.job.log.state == J.Running && s.job.candidates == [] && Accessible(s.job, x)
            && J.LastTime(s.job.log) == now && s.job.deadline == now + command.seconds * SECOND
            && P.Evaluate(PolicyRequest(command, x, now), tools).decision == P.Allow
            && P.OneOrganization(PolicyRequest(command, x, now)) && command.targets != []
            && x.scope.Some? && x.scope.value.validUntil >= s.job.deadline
            && var scope := Scope(x.actor.organizationId, command.targets[0], command.interfaceId);
               && scope in fixtures && !s.worker.cancelled && s.worker.index == 0
               && s.worker.candidates == FirstOf(fixtures[scope], s.job.maximum)
  {
    hide P.Evaluate, J.StartedLog, J.Legal, CandidateValid;
    P.AllowIff(PolicyRequest(command, x, now), tools);
    J.StartedLogLegal(J.Discovery, x.actor.actorId, now);
    var scope := Scope(x.actor.organizationId, command.targets[0], command.interfaceId);
    FixtureOwned(scope, fixtures[scope]);
  }

  lemma FixtureOwned(scope: Scope, candidates: seq<Candidate>)
    requires FixtureValid(scope, candidates)
    ensures forall i :: 0 <= i < |candidates| ==> candidates[i].organizationId == scope.organizationId
  {
    forall i | 0 <= i < |candidates| ensures candidates[i].organizationId == scope.organizationId {
      assert CandidateValid(scope, candidates[i]);
    }
  }

  lemma GoodHasLog(s: State)
    requires Good(s)
    ensures s.job.log.transitions != []
  {}

  lemma EndKeeps(s: State, to: J.JobState, action: string, now: int, reason: string)
    requires Good(s) && s.job.log.state == J.Running && (to == J.Completed || to == J.Cancelled)
    ensures var (t, reply) := End(s, to, action, now, reason);
            && Good(t)
            && (reply.Ok? <==> now >= J.LastTime(s.job.log))
            && (reply.Ok? ==> reply.outcome == Outcome(to, s.job.candidates, reason)
                              && t == s.(job := s.job.(log := t.job.log)) && t.job.log.state == to)
            && (reply.Raised? ==> reply.error == TransitionRefused(J.TimestampMovedBackwards) && t == s)
  {
    hide J.Legal, DistinctIds;
    GoodHasLog(s);
    if now >= J.LastTime(s.job.log) {
      J.MoveIsLegal(s.job.log, to, action, s.job.actorId, now, reason);
    }
  }

  /** The next candidate of a fixture is never listed yet and always fits. */
  lemma NextIsNew(s: State)
    requires Good(s) && s.worker.index < |s.worker.candidates|
    ensures var c := s.worker.candidates[s.worker.index];
            && c.organizationId == s.job.organizationId
            && AddCandidate(s.job, c) == s.job.(candidates := s.worker.candidates[..s.worker.index + 1])
  {
    hide J.Legal;
    var c := s.worker.candidates[s.worker.index];
    forall i | 0 <= i < |s.job.candidates| ensures s.job.candidates[i].candidateId != c.candidateId {
      assert s.job.candidates[i] == s.worker.candidates[i];
    }
    assert s.worker.candidates[..s.worker.index + 1] == s.worker.candidates[..s.worker.index] + [c];
  }

  function Remaining(s: State): nat {
    if s.worker.cancelled || s.worker.index > |s.worker.candidates| then 0 else |s.worker.candidates| - s.worker.index
  }

  /** A running job advanced before its deadline takes the next candidate or is exhausted. */
  lemma AdvanceKeeps(s: State, x: Context, now: int)
    requires Good(s)
    ensures var (t, reply) := Advance(s, x, now);
            && Good(t)
            && (Accessible(s.job, x) && s.job.log.state == J.Running && now < s.job.deadline && Remaining(s) > 0 ==>
                  && reply.Ok? && reply.outcome.status == J.Running && Remaining(t) + 1 == Remaining(s)
                  && t.worker == s.worker.(index := s.worker.index + 1)
                  && t.job == s.job.(candidates := s.worker.candidates[..t.worker.index]))
            && (Accessible(s.job, x) && s.job.log.state == J.Running && (now >= s.job.deadline || Remaining(s) == 0) ==>
                  var reason := if now >= s.job.deadline then "DURATION_ELAPSED" else "FIXTURE_EXHAUSTED";
                  && (reply.Ok? <==> now >= J.LastTime(s.job.log))
                  && (reply.Ok? ==> reply.outcome == Outcome(J.Completed, s.job.candidates, reason) && t.job.log.state == J.Completed)
                  && (reply.Raised? ==> reply.error == TransitionRefused(J.TimestampMovedBackwards)))
  {
    hide J.Legal, AddCandidate, DistinctIds, End;
    if Accessible(s.job, x) && s.job.log.state == J.Running {
      EndKeeps(s, J.Completed, "complete", now, "DURATION_ELAPSED");
      EndKeeps(s, J.Completed, "complete", now, "FIXTURE_EXHAUSTED");
      if Remaining(s) > 0 {
        NextIsNew(s);
      }
    }
  }

  /** Cancelling in time ends a running job; a refused cancellation has already stopped the worker,
      and nothing else changed. */
  lemma CancelKeeps(s: State, x: Context, now: int)
    requires Good(s)
    ensures var (t, reply) := Cancel(s, x, now);
            && Good(t)
            && (Accessible(s.job, x) ==> (reply.Ok? <==> s.job.log.state != J.Running || now >= J.LastTime(s.job.log)))
            && (reply.Ok? ==> reply.outcome.status == if s.job.log.state == J.Running then J.Cancelled else s.job.log.state)
            && (reply.Ok? ==> t.job.log.state == reply.outcome.status)
            && (!Accessible(s.job, x) || s.job.log.state != J.Running ==> t == s)
            && (Accessible(s.job, x) && reply.Raised? ==>
                  reply.error == TransitionRefused(J.TimestampMovedBackwards) && t == s.(worker := s.worker.(cancelled := true)))
  {
    hide J.Legal, DistinctIds, End;
    if Accessible(s.job, x) && s.job.log.state == J.Running {
      EndKeeps(s.(worker := s.worker.(cancelled := true)), J.Cancelled, "cancel", now, "OPERATOR_CANCELLED");
    }
  }

  /** So after a refused cancellation no further candidate is listed: the next advance completes the
      job as exhausted, or as elapsed from the deadline on, unless it comes too early as well. */
  lemma RefusedCancelEndsListing(s: State, x: Context, early: int, y: Context, now: int)
    requires Good(s) && s.job.log.transitions != [] && Accessible(s.job, x) && Accessible(s.job, y)
    requires Cancel(s, x, early).1.Raised?
    ensures s.job.log.state == J.Running && Cancel(s, x, early).0.job == s.job
    ensures var reason := if now >= s.job.deadline then "DURATION_ELAPSED" else "FIXTURE_EXHAUSTED";
            Advance(Cancel(s, x, early).0, y, now).1 ==
            if now < J.LastTime(s.job.log) then Raised(TransitionRefused(J.TimestampMovedBackwards))
            else Ok(Outcome(J.Completed, s.job.candidates, reason))
  {
    hide J.Legal, DistinctIds, Cancel, Advance;
    CancelKeeps(s, x, early);
    AdvanceKeeps(Cancel(s, x, early).0, y, now);
  }

  // ---- The bounded driver ----------------------------------------------------------------------

  /** How a driven job whose last advance is at `last` ends. */
  predicate Driven(s: State, last: int, t: State, reply: Reply)
    requires s.job.log.transitions != []
  {
    && (reply.Ok? <==> last >= J.LastTime(s.job.log))
    && (reply.Ok? ==> reply.outcome.status == J.Completed && t.job.log.state == J.Completed)
    && (reply.Raised? ==> reply.error == TransitionRefused(J.TimestampMovedBackwards))
    && (reply.Ok? && last < s.job.deadline ==>
          reply.outcome.reason == "FIXTURE_EXHAUSTED" && s.worker.index + Remaining(s) <= |s.worker.candidates|
          && reply.outcome.candidates == s.worker.candidates[..s.worker.index + Remaining(s)])
  }

  ghost predicate DriveIsDone(s: State, x: Context, now: int, offset: nat, limit: nat)
    requires Good(s) && offset <= limit
  {
    GoodHasLog(s);
    var (t, reply) := Drive(s, x, now, offset, limit);
    Good(t) && Driven(s, Later(now, offset + Remaining(s)), t, reply)
  }

  /** With as many advances as there are candidates left and one more, the guard is not reached. A
      running job completes exactly when its last advance is not before its last transition. */
  lemma {:induction false} DriveEnds(s: State, x: Context, now: int, offset: nat, limit: nat)
    requires Good(s) && Accessible(s.job, x) && s.job.log.state == J.Running && offset + Remaining(s) < limit
    ensures DriveIsDone(s, x, now, offset, limit)
    decreases limit - offset
  {
    hide Good, Advance, Accessible, DriveIsDone, Later, Remaining;
    GoodHasLog(s);
    if Later(now, offset) < s.job.deadline && Remaining(s) > 0 {
      DriveContinues(s, x, Later(now, offset));
      AdvanceKeeps(s, x, Later(now, offset));
      DriveEnds(Advance(s, x, Later(now, offset)).0, x, now, offset + 1, limit);
      DriveGoesOn(s, x, now, offset, limit);
    } else {
      DriveStopsDone(s, x, now, offset, limit);
    }
  }

  lemma DriveGoesOn(s: State, x: Context, now: int, offset: nat, limit: nat)
    requires Good(s) && Accessible(s.job, x) && s.job.log.state == J.Running && offset < limit
    requires Later(now, offset) < s.job.deadline && Remaining(s) > 0
    requires s.job.log.transitions != [] && Good(Advance(s, x, Later(now, offset)).0)
    requires DriveIsDone(Advance(s, x, Later(now, offset)).0, x, now, offset + 1, limit)
    ensures DriveIsDone(s, x, now, offset, limit)
  {
    hide Good, Advance, Accessible, Driven, Later, Remaining, Drive;
    DriveStep(s, x, now, offset, limit);
    DriveContinues(s, x, Later(now, offset));
    var t := Advance(s, x, Later(now, offset)).0;
    TakenWithin(s);
    TakenWithin(t);
    var (u, reply) := Drive(t, x, now, offset + 1, limit);
    SameEnd(s, t, Later(now, offset + Remaining(s)), u, reply);
  }

  lemma DriveStopsDone(s: State, x: Context, now: int, offset: nat, limit: nat)
    requires Good(s) && Accessible(s.job, x) && s.job.log.state == J.Running && offset < limit
    requires Later(now, offset) >= s.job.deadline || Remaining(s) == 0
    ensures DriveIsDone(s, x, now, offset, limit)
  {
    hide Good, Advance, Accessible, Driven, Later, Remaining, Drive;
    DriveStep(s, x, now, offset, limit);
    DriveStops(s, x, now, offset);
    var (t, reply) := Advance(s, x, Later(now, offset));
    assert Drive(s, x, now, offset, limit) == (t, reply);
  }

  lemma TakenWithin(s: State)
    requires Good(s)
    ensures s.worker.index + Remaining(s) <= |s.worker.candidates|
  {}

  lemma DriveStep(s: State, x: Context, now: int, offset: nat, limit: nat)
    requires Good(s) && offset < limit
    ensures s.job.log.transitions != []
    ensures var (t, reply) := Advance(s, x, Later(now, offset));
            && Good(t) && t.job.log.transitions != []
            && Drive(s, x, now, offset, limit) ==
               if reply.Raised? || reply.outcome.status != J.Running then (t, reply) else Drive(t, x, now, offset + 1, limit)
  {
    hide Advance, Good;
    GoodHasLog(s);
    AdvanceKeeps(s, x, Later(now, offset));
    GoodHasLog(Advance(s, x, Later(now, offset)).0);
  }

  lemma DriveContinues(s: State, x: Context, now: int)
    requires Good(s) && Accessible(s.job, x) && s.job.log.state == J.Running && now < s.job.deadline && Remaining(s) > 0
    ensures s.job.log.transitions != []
    ensures var (t, reply) := Advance(s, x, now);
            && reply.Ok? && reply.outcome.status == J.Running && Remaining(t) + 1 == Remaining(s)
            && t.worker == s.worker.(index := s.worker.index + 1) && t.job == s.job.(candidates := t.job.candidates)
            && Accessible(t.job, x)
  {
    hide Advance, J.Legal, DistinctIds, Accessible;
    GoodHasLog(s);
    AdvanceKeeps(s, x, now);
    SameAccess(s.job, Advance(s, x, now).0.job, x);
  }

  lemma DriveStops(s: State, x: Context, now: int, offset: nat)
    requires Good(s) && Accessible(s.job, x) && s.job.log.state == J.Running
    requires Later(now, offset) >= s.job.deadline || Remaining(s) == 0
    ensures s.job.log.transitions != []
    ensures var (t, reply) := Advance(s, x, Later(now, offset));
            && (reply.Ok? ==> reply.outcome.status == J.Completed)
            && Driven(s, Later(now, offset + Remaining(s)), t, reply)
  {
    hide Advance, J.Legal, DistinctIds, Accessible;
    GoodHasLog(s);
    AdvanceKeeps(s, x, Later(now, offset));
  }

  lemma SameEnd(s: State, t: State, last: int, u: State, reply: Reply)
    requires s.job.log.transitions != [] && s.worker.index + Remaining(s) <= |s.worker.candidates|
    requires t.job.log.transitions != [] && t.worker.index + Remaining(t) <= |t.worker.candidates|
    requires t.worker == s.worker.(index := s.worker.index + 1) && t.job == s.job.(candidates := t.job.candidates)
    requires Remaining(t) + 1 == Remaining(s) && Driven(t, last, u, reply)
    ensures Driven(s, last, u, reply)
  {}

  lemma SameAccess(a: Job, b: Job, x: Context)
    requires Accessible(a, x) && b == a.(candidates := b.candidates)
    ensures Accessible(b, x)
  {}

  /** `CANDIDATE_LIMIT_GUARD` is unreachable: a running job completes, unless even the last advance is
      before the job's last transition. */
  lemma RunToCompletionEnds(s: State, x: Context, now: int)
    requires Good(s) && Accessible(s.job, x)
    ensures var (t, reply) := RunToCompletion(s, x, now);
            && Good(t)
            && (reply.Ok? <==> s.job.log.state != J.Running || Later(now, Remaining(s)) >= J.LastTime(s.job.log))
            && (reply.Ok? ==> t.job.log.state == reply.outcome.status)
            && (reply.Ok? ==> reply.outcome.status == if s.job.log.state == J.Running then J.Completed else s.job.log.state)
            && (reply.Raised? ==> reply.error == TransitionRefused(J.TimestampMovedBackwards))
  {
    hide J.Legal, DistinctIds, Advance;
    if s.job.log.state == J.Running {
      DriveEnds(s, x, now, 0, s.job.maximum + 1);
    } else {
      FinishedStays(s, x, now);
    }
  }

  lemma FinishedStays(s: State, x: Context, now: int)
    requires Good(s) && Accessible(s.job, x) && s.job.log.state != J.Running
    ensures Advance(s, x, now) == (s, Ok(OutcomeOf(s.job)))
  {}

  /** A job started and driven at the same time completes with exactly its fixture candidates, in
      their order, up to its limit. */
  lemma FreshRunListsFixture(tools: P.Tools, fixtures: map<Scope, seq<Candidate>>, command: Command, x: Context, now: int, taken: bool)
    requires FixturesValid(fixtures) && Start(tools, fixtures, command, x, now, taken).Started? && command.seconds >= 1
    ensures command.targets != [] && Good(Start(tools, fixtures, command, x, now, taken).state)
    ensures var s := Start(tools, fixtures, command, x, now, taken).state;
            var scope := Scope(x.actor.organizationId, command.targets[0], command.interfaceId);
            && scope in fixtures
            && RunToCompletion(s, x, now).1
               == Ok(Outcome(J.Completed, FirstOf(fixtures[scope], s.job.maximum), "FIXTURE_EXHAUSTED"))
  {
    hide Start, J.Legal, DistinctIds, Drive, P.Evaluate, FixturesValid;
    StartSound(tools, fixtures, command, x, now, taken);
    var s := Start(tools, fixtures, command, x, now, taken).state;
    DriveEnds(s, x, now, 0, s.job.maximum + 1);
    assert s.worker.candidates[..|s.worker.candidates|] == s.worker.candidates;
  }

  // ---- Any run ---------------------------------------------------------------------------------

  datatype Call = AdvanceCall(x: Context, now: int) | RunCall(x: Context, now: int) | CancelCall(x: Context, now: int)

  function StateAfter(s: State, call: Call): (t: State)
    requires Good(s)
    ensures Good(t)
  {
    match call
    case AdvanceCall(x, now) => AdvanceKeeps(s, x, now); Advance(s, x, now).0
    case RunCall(x, now) =>
      GoodHasLog(s);
      if Accessible(s.job, x) then RunToCompletionEnds(s, x, now); RunToCompletion(s, x, now).0
      else RunToCompletion(s, x, now).0
    case CancelCall(x, now) => CancelKeeps(s, x, now); Cancel(s, x, now).0
  }

  function RunCalls(s: State, calls: seq<Call>): (t: State)
    requires Good(s)
    ensures Good(t)
  {
    if calls == [] then s else StateAfter(RunCalls(s, calls[..|calls| - 1]), calls[|calls| - 1])
  }

  /** Over any run the job's log stays a legal chain of at most five transitions in time order, and
      it lists distinct candidates of its own organization, never more than its limit. */
  lemma RunsStayBounded(s: State, calls: seq<Call>, i: nat, j: nat)
    requires Good(s) && i < j
    ensures var job := RunCalls(s, calls).job;
            && J.Legal(job.log) && |job.log.transitions| <= 5
            && (j < |job.log.transitions| ==> job.log.transitions[i].timestamp <= job.log.transitions[j].timestamp)
            && |job.candidates| <= job.maximum <= MAXIMUM_CANDIDATES
            && (j < |job.candidates| ==>
                  job.candidates[i].candidateId != job.candidates[j].candidateId
                  && job.candidates[i].organizationId == job.organizationId)
  {
    hide RunCalls, J.Legal;
    var job := RunCalls(s, calls).job;
    if j < |job.log.transitions| {
      J.LegalLogOrdered(job.log, i, j);
    }
    LegalIsShort(job.log);
  }

  lemma LegalIsShort(l: J.Log)
    requires J.Legal(l)
    ensures |l.transitions| <= 5
  {}
}
