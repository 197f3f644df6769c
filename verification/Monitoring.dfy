/**
 Camera monitoring jobs under policy: start, advance frame by frame, run to completion, cancel,
 publish. Frame source, event sink, notification sinks, confirmer and audit log are part of the
 state. Times count microseconds.

 Identifier derivations (SHA-256 of their material) are function parameters of `Config`; where
 distinctness is needed it is assumed explicitly by `IdsDistinct`. An operation returns the state it
 leaves and its reply; a call that raises an error may have changed the state up to that point, as the
 original does; what it leaves then is part of the model.
 */
module Monitoring {
  import opened Options
  import opened Audit
  import J = Jobs
  import D = Detection
  import P = Policy

  const TOOL_ID := "camera.monitor"
  const TOOL_VERSION := 1
  const MAXIMUM_FRAMES := 300
  const SECOND := 1_000_000

  datatype Channel = Push | Inbox

  datatype Command = Command(
    commandId: string,
    actorId: string,
    organizationId: string,
    sourceDeviceId: string,
    requestedAt: int,
    profile: P.Profile,
    firstTarget: string,
    otherTargets: seq<string>,
    duration: P.Duration,
    correlationId: string,
    actionSupported: bool,
    requestHash: string,
    planHash: string)

  datatype Context = Context(actor: P.Actor, device: P.Device, grant: P.ResourceGrant)

  datatype Camera = Camera(cameraId: string, organizationId: string, online: bool)

  datatype Config = Config(
    tools: P.Tools,
    cameras: seq<Camera>,
    sequences: map<string, seq<D.Frame>>,
    detection: D.Settings,
    jobIdOf: Key -> string,
    auditIdOf: (Key, Result) -> string,
    deliveryKey: (string, string, Channel) -> string)

  datatype Job = Job(
    key: Key,
    actorId: string,
    organizationId: string,
    deviceId: string,
    cameraId: string,
    correlationId: string,
    deadline: int,
    core: J.Job)

  /** A person event bound to its job's organization, camera and correlation. */
  datatype BoundEvent = BoundEvent(event: D.Event, organizationId: string, cameraId: string, correlationId: string)

  datatype Delivery = Delivery(eventId: string, recipientId: string, channel: Channel)

  datatype Remembered = Remembered(requestHash: string, jobId: Option<string>, denial: string)

  datatype State = State(
    jobs: map<string, Job>,
    commands: map<Key, Remembered>,
    known: map<string, BoundEvent>,
    workers: map<string, (seq<D.Frame>, nat)>,
    cancelledWorkers: set<string>,
    confirmer: D.Memory,
    events: map<string, BoundEvent>,
    push: map<string, Delivery>,
    inbox: map<string, Delivery>,
    audit: map<string, AuditRecord>)

  const IDLE := State(map[], map[], map[], map[], {}, D.NOTHING_OBSERVED, map[], map[], map[], map[])

  datatype Error =
    | ActionNotSupported
    | IdempotencyKeyReused
    | JobNotFound
    | JobNotAccessible
    | MaximumFramesInvalid
    | WorkerExists
    | TransitionRefused(error: J.TransitionError)
    | FrameLimitExceeded
    | EventNotBound
    | EventIdCollision
    | NotificationCollision
    | AuditCollision
    | DriverDidNotTerminate

  datatype Outcome = Outcome(jobId: Option<string>, status: J.JobState, eventIds: seq<string>, reason: string)

  datatype Reply<+T> = Ok(value: T) | Raised(error: Error)

  function OutcomeOf(s: State, jobId: string): Outcome
    requires jobId in s.jobs && s.jobs[jobId].core.log.transitions != []
  {
    var job := s.jobs[jobId].core;
    Outcome(Some(jobId), job.log.state, job.eventIds, J.LastReason(job.log))
  }

  // ---- Starting --------------------------------------------------------------------------------

  function Deny(c: Config, s: State, key: Key, command: Command, now: int, denial: Denial): (State, Reply<Outcome>) {
    match Recorded(c.auditIdOf, s.audit, AuditRecord(key, denial.decision, denial.reason, DeniedResult, now))
    case None => (s, Raised(AuditCollision))
    case Some(audit) =>
      (s.(audit := audit, commands := s.commands[key := Remembered(command.requestHash, None, denial.reason)]),
       Ok(Outcome(None, J.Denied, [], denial.reason)))
  }

  function KeyOf(command: Command, x: Context): Key {
    (x.actor.organizationId, x.actor.actorId, command.commandId)
  }

  /** A validated command names at least one target. */
  function Targets(command: Command): seq<string> {
    [command.firstTarget] + command.otherTargets
  }

  /** The camera repository: the last record under each id. */
  function CameraTable(records: seq<Camera>): map<string, Camera> {
    if records == [] then map[]
    else
      var last := records[|records| - 1];
      CameraTable(records[..|records| - 1])[last.cameraId := last]
  }

  predicate Owned(cameras: map<string, Camera>, organizationId: string, cameraId: string) {
    cameraId in cameras && cameras[cameraId].organizationId == organizationId
  }

  /** All the cameras named, or nothing unless every one belongs to the organization. */
  function ResolveOwned(cameras: map<string, Camera>, organizationId: string, ids: seq<string>): (r: Option<seq<Camera>>)
    ensures r.Some? <==> forall i :: 0 <= i < |ids| ==> Owned(cameras, organizationId, ids[i])
    ensures r.Some? ==> |r.value| == |ids| && forall i :: 0 <= i < |ids| ==> ids[i] in cameras && r.value[i] == cameras[ids[i]]
  {
    if forall i :: 0 <= i < |ids| ==> Owned(cameras, organizationId, ids[i])
    then Some(seq(|ids|, i requires 0 <= i < |ids| && Owned(cameras, organizationId, ids[i]) => cameras[ids[i]]))
    else None
  }

  function CameraFor(c: Config, organizationId: string, command: Command): Option<Camera> {
    match ResolveOwned(CameraTable(c.cameras), organizationId, Targets(command))
    case None => None
    case Some(cameras) => Some(cameras[0])
  }

  function PolicyRequest(command: Command, x: Context, now: int): P.Request {
    P.Request(x.actor, x.device, command.profile, TOOL_ID, TOOL_VERSION, Targets(command), command.duration, now,
              command.planHash, Some(x.grant), None, None)
  }

  /** Why a new command is denied, if it is, in the order of the checks. */
  function DenialOf(c: Config, command: Command, x: Context, now: int): Option<Denial> {
    if !(now - 300 * SECOND <= command.requestedAt <= now + 30 * SECOND)
    then Some(Denial(P.Decision.Deny, "COMMAND_TIMESTAMP_INVALID"))
    else if command.actorId != x.actor.actorId || command.organizationId != x.actor.organizationId
            || command.sourceDeviceId != x.device.deviceId || x.actor.organizationId != x.device.organizationId
    then Some(Denial(P.Decision.Deny, "COMMAND_CONTEXT_MISMATCH"))
    else
      match CameraFor(c, x.actor.organizationId, command)
      case None => Some(Denial(P.Decision.Deny, "TARGET_NOT_ACCESSIBLE"))
      case Some(camera) =>
        if !camera.online then Some(Denial(P.Decision.Deny, "CAMERA_NOT_AVAILABLE"))
        else
          var policy := P.Evaluate(PolicyRequest(command, x, now), c.tools);
          if policy.decision != P.Allow then Some(Denial(policy.decision, P.ReasonCode(policy.reason))) else None
  }

  function SecondsOf(d: P.Duration): int {
    if d.Seconds? then d.n else 0
  }

  function NewJob(c: Config, command: Command, x: Context, now: int, camera: Camera): Job {
    Job(KeyOf(command, x), x.actor.actorId, x.actor.organizationId, x.device.deviceId, camera.cameraId,
        command.correlationId, now + SecondsOf(command.duration) * SECOND,
        J.Job(J.StartedLog(J.Monitoring, x.actor.actorId, now), 0, []))
  }

  function FramesFor(sequences: map<string, seq<D.Frame>>, cameraId: string, maximum: nat): seq<D.Frame> {
    var frames := if cameraId in sequences then sequences[cameraId] else [];
    if |frames| <= maximum then frames else frames[..maximum]
  }

  /** The admitted command gets a frame worker and a running job. */
  function Open(c: Config, s: State, command: Command, x: Context, now: int, camera: Camera): (State, Reply<Outcome>) {
    var key := KeyOf(command, x);
    var jobId := c.jobIdOf(key);
    if jobId in s.workers then (s, Raised(WorkerExists))
    else
      var job := NewJob(c, command, x, now, camera);
      var after := s.(
        workers := s.workers[jobId := (FramesFor(c.sequences, camera.cameraId, MAXIMUM_FRAMES), 0)],
        jobs := s.jobs[jobId := job],
        commands := s.commands[key := Remembered(command.requestHash, Some(jobId), "")]);
      (after, Ok(OutcomeOf(after, jobId)))
  }

  /** The answer to a command that was seen before. */
  function Recall(s: State, key: Key, requestHash: string): Reply<Outcome>
    requires key in s.commands
  {
    var known := s.commands[key];
    if known.requestHash != requestHash then Raised(IdempotencyKeyReused)
    else if known.jobId.None? then Ok(Outcome(None, J.Denied, [], known.denial))
    else if known.jobId.value in s.jobs && s.jobs[known.jobId.value].core.log.transitions != [] then
      Ok(OutcomeOf(s, known.jobId.value))
    else Raised(JobNotFound)
  }

  function Start(c: Config, s: State, command: Command, x: Context, now: int): (State, Reply<Outcome>)
  {
    if !command.actionSupported then (s, Raised(ActionNotSupported))
    else
      var key := KeyOf(command, x);
      if key in s.commands then
        (s, Recall(s, key, command.requestHash))
      else
        var denial := DenialOf(c, command, x, now);
        if denial.Some? then Deny(c, s, key, command, now, denial.value)
        else
          Open(c, s, command, x, now, CameraFor(c, x.actor.organizationId, command).value)
  }

  // ---- Advancing -------------------------------------------------------------------------------

  function Authorize(s: State, jobId: string, x: Context): Option<Error> {
    if jobId !in s.jobs then Some(JobNotFound)
    else
      var job := s.jobs[jobId];
      if job.organizationId != x.actor.organizationId || job.actorId != x.actor.actorId || job.deviceId != x.device.deviceId
      then Some(JobNotAccessible) else None
  }

  /** Ending a job: one transition, then one audit record. */
  function Finish(c: Config, s: State, jobId: string, to: J.JobState, action: string, now: int, reason: string,
                  auditReason: string, result: Result): (State, Reply<Outcome>)
    requires jobId in s.jobs && s.jobs[jobId].core.log.transitions != []
  {
    var job := s.jobs[jobId];
    match J.TransitionRefused(job.core.log, to, now)
    case Some(error) => (s, Raised(TransitionRefused(error)))
    case None =>
      var moved := J.Moved(job.core.log, to, action, job.actorId, now, reason);
      var over := s.(jobs := s.jobs[jobId := job.(core := job.core.(log := moved))]);
      match Recorded(c.auditIdOf, s.audit, AuditRecord(job.key, P.Allow, auditReason, result, now))
      case None => (over, Raised(AuditCollision))
      case Some(audit) =>
        var after := over.(audit := audit);
        (after, Ok(OutcomeOf(after, jobId)))
  }

  function Complete(c: Config, s: State, jobId: string, now: int, reason: string): (State, Reply<Outcome>)
    requires jobId in s.jobs && s.jobs[jobId].core.log.transitions != []
  {
    Finish(c, s, jobId, J.Completed, "complete", now, reason, "SIMULATION_COMPLETED", SimulatedResult)
  }

  function Deliver(sink: map<string, Delivery>, key: string, d: Delivery): Option<map<string, Delivery>> {
    if key !in sink then Some(sink[key := d]) else if sink[key] == d then Some(sink) else None
  }

  function Publish(c: Config, s: State, e: BoundEvent, recipientId: string): (State, Reply<bool>) {
    var id, jobId := e.event.eventId, e.event.jobId;
    if jobId !in s.jobs || id !in s.known || s.known[id] != e
       || e.organizationId != s.jobs[jobId].organizationId || e.cameraId != s.jobs[jobId].cameraId
       || e.correlationId != s.jobs[jobId].correlationId || recipientId != s.jobs[jobId].actorId
    then (s, Raised(EventNotBound))
    else if id in s.events && s.events[id] != e then (s, Raised(EventIdCollision))
    else
      var appended := if id in s.events then s else s.(events := s.events[id := e]);
      match Deliver(s.push, c.deliveryKey(id, recipientId, Push), Delivery(id, recipientId, Push))
      case None => (appended, Raised(NotificationCollision))
      case Some(push) =>
        match Deliver(s.inbox, c.deliveryKey(id, recipientId, Inbox), Delivery(id, recipientId, Inbox))
        case None => (appended.(push := push), Raised(NotificationCollision))
        case Some(inbox) => (appended.(push := push, inbox := inbox), Ok(id !in s.events))
  }

  /** A job that has been started: its log is not empty and it has a worker. */
  predicate Started(s: State, jobId: string) {
    jobId in s.jobs ==> s.jobs[jobId].core.log.transitions != [] && jobId in s.workers
  }

  function NextFrame(s: State, jobId: string): (State, Option<D.Frame>)
    requires jobId in s.workers
  {
    if jobId in s.cancelledWorkers then (s, None)
    else
      var (frames, index) := s.workers[jobId];
      if index >= |frames| then (s, None)
      else (s.(workers := s.workers[jobId := (frames, index + 1)]), Some(frames[index]))
  }

  /** One frame through the job, the confirmer and, for a confirmed run, the sinks. */
  function ProcessFrame(c: Config, s: State, jobId: string, f: D.Frame): (State, Reply<Outcome>)
    requires D.SettingsValid(c.detection) && D.RunsAbove(c.detection, s.confirmer)
    requires jobId in s.jobs && s.jobs[jobId].core.log.transitions != []
  {
    var job := s.jobs[jobId];
    var counted := job.(core := job.core.(framesProcessed := job.core.framesProcessed + 1));
    var recorded := s.(jobs := s.jobs[jobId := counted]);
    if job.core.framesProcessed >= J.FRAME_LIMIT then (recorded, Raised(FrameLimitExceeded))
    else
      var (confirmer, event) := D.Observe(c.detection, s.confirmer, jobId, f);
      var observed := recorded.(confirmer := confirmer);
      if event.None? || job.core.eventIds != [] then (observed, Ok(OutcomeOf(observed, jobId)))
      else
        var bound := BoundEvent(event.value, job.organizationId, job.cameraId, job.correlationId);
        var id := event.value.eventId;
        var announced := observed.(
          jobs := s.jobs[jobId := counted.(core := counted.core.(eventIds := [id]))],
          known := s.known[id := bound]);
        var (published, reply) := Publish(c, announced, bound, job.actorId);
        (published, if reply.Raised? then Raised(reply.error) else Ok(OutcomeOf(published, jobId)))
  }

  function Advance(c: Config, s: State, jobId: string, x: Context, now: int): (State, Reply<Outcome>)
    requires D.SettingsValid(c.detection) && D.RunsAbove(c.detection, s.confirmer) && Started(s, jobId)
  {
    var refusal := Authorize(s, jobId, x);
    if refusal.Some? then (s, Raised(refusal.value))
    else
      var job := s.jobs[jobId];
      if job.core.log.state != J.Running then (s, Ok(OutcomeOf(s, jobId)))
      else if now >= job.deadline then Complete(c, s, jobId, now, "DURATION_ELAPSED")
      else
        var (fed, frame) := NextFrame(s, jobId);
        match frame
        case None => Complete(c, fed, jobId, now, "FRAME_SEQUENCE_EXHAUSTED")
        case Some(f) =>
          if f.observedAt > job.deadline then Complete(c, fed, jobId, now, "DURATION_ELAPSED")
          else ProcessFrame(c, fed, jobId, f)
  }

  function Cancel(c: Config, s: State, jobId: string, x: Context, now: int): (State, Reply<Outcome>)
    requires Started(s, jobId)
  {
    var refusal := Authorize(s, jobId, x);
    if refusal.Some? then (s, Raised(refusal.value))
    else if J.IsTerminal(s.jobs[jobId].core.log.state) then (s, Ok(OutcomeOf(s, jobId)))
    else
      var stopped := s.(cancelledWorkers := s.cancelledWorkers + {jobId});
      Finish(c, stopped, jobId, J.Cancelled, "cancel", now, "CANCELLED_BY_OPERATOR", "CANCELLED_BY_OPERATOR", CancelledResult)
  }
}
