/**
 The monitoring service as an object over its adapters: frame source, event sink, two notification
 sinks, audit sink and confirmer, all updated in place.

 `Value` is the state of the service and its adapters together. A method's contract equates it, with
 the reply, with the operation of `Monitoring` on the value before the call. `Wired` says that the
 adapters are those of the configuration and that push and inbox have separate sinks; `Valid` adds the
 invariant. The longer operations are cut where the original calls an adapter or a job (counting a frame,
 moving a job, appending a record, notifying the recipient), and each part says what it does to `Value`.
 What holds over any run is in `MonitoringHistory` and `MonitoringEvents`.
 */
module MonitoringService {
  import opened Options
  import opened Audit
  import opened Monitoring
  import opened MonitoringInvariants
  import opened MonitoringHistory
  import J = Jobs
  import D = Detection
  import P = Policy

  class InMemoryCameraRepository {
    var cameras: map<string, Camera>

    constructor (records: seq<Camera>)
      ensures cameras == CameraTable(records)
    {
      cameras := map[];
      new;
      for k := 0 to |records|
        invariant cameras == CameraTable(records[..k])
      {
        assert records[..k + 1][..k] == records[..k];
        cameras := cameras[records[k].cameraId := records[k]];
      }
      assert records[..|records|] == records;
    }

    method ResolveOwnedCameras(organizationId: string, ids: seq<string>) returns (r: Option<seq<Camera>>)
      ensures r == ResolveOwned(cameras, organizationId, ids)
    {
      var resolved: seq<Camera> := [];
      for k := 0 to |ids|
        invariant |resolved| == k
        invariant forall i :: 0 <= i < k ==> Owned(cameras, organizationId, ids[i]) && resolved[i] == cameras[ids[i]]
      {
        if ids[k] !in cameras || cameras[ids[k]].organizationId != organizationId {
          assert !Owned(cameras, organizationId, ids[k]);
          return None;
        }
        resolved := resolved + [cameras[ids[k]]];
      }
      assert forall i :: 0 <= i < |ids| ==> Owned(cameras, organizationId, ids[i]);
      assert resolved == ResolveOwned(cameras, organizationId, ids).value;
      return Some(resolved);
    }
  }

  class InMemoryFrameSource {
    const sequences: map<string, seq<D.Frame>>
    var active: map<string, (seq<D.Frame>, nat)>
    var cancelled: set<string>

    constructor (sequences: map<string, seq<D.Frame>>)
      ensures this.sequences == sequences && active == map[] && cancelled == {}
    {
      this.sequences, active, cancelled := sequences, map[], {};
    }

    /** `None` is success. */
    method StartWorker(jobId: string, cameraId: string, maximum: int) returns (error: Option<Error>)
      modifies this`active
      ensures error == if !(1 <= maximum <= MAXIMUM_FRAMES) then Some(MaximumFramesInvalid)
                       else if jobId in old(active) then Some(WorkerExists)
                       else None
      ensures active == if error.Some? then old(active)
                        else old(active)[jobId := (FramesFor(sequences, cameraId, maximum), 0)]
    {
      if !(1 <= maximum <= MAXIMUM_FRAMES) {
        return Some(MaximumFramesInvalid);
      }
      if jobId in active {
        return Some(WorkerExists);
      }
      var frames := if cameraId in sequences then sequences[cameraId] else [];
      active := active[jobId := (if |frames| <= maximum then frames else frames[..maximum], 0)];
      return None;
    }

    method TakeFrame(jobId: string) returns (frame: Option<D.Frame>)
      requires jobId in active
      modifies this`active
      ensures var (frames, index) := old(active)[jobId];
              var left := jobId !in cancelled && index < |frames|;
              && frame == (if left then Some(frames[index]) else None)
              && active == if left then old(active)[jobId := (frames, index + 1)] else old(active)
    {
      if jobId in cancelled {
        return None;
      }
      var (frames, index) := active[jobId];
      if index >= |frames| {
        return None;
      }
      active := active[jobId := (frames, index + 1)];
      return Some(frames[index]);
    }

    method CancelWorker(jobId: string)
      modifies this`cancelled
      ensures cancelled == if jobId in active then old(cancelled) + {jobId} else old(cancelled)
    {
      if jobId in active {
        cancelled := cancelled + {jobId};
      }
    }
  }

  class InMemoryEventSink {
    var events: map<string, BoundEvent>

    constructor ()
      ensures events == map[]
    {
      events := map[];
    }

    /** Appended once; a different event under the same id is an error. */
    method Append(e: BoundEvent) returns (reply: Reply<bool>)
      modifies this
      ensures var id := e.event.eventId;
              reply == if id !in old(events) then Ok(true) else if old(events)[id] == e then Ok(false) else Raised(EventIdCollision)
      ensures events == if e.event.eventId in old(events) then old(events) else old(events)[e.event.eventId := e]
    {
      var id := e.event.eventId;
      if id !in events {
        events := events[id := e];
        return Ok(true);
      }
      if events[id] != e {
        return Raised(EventIdCollision);
      }
      return Ok(false);
    }
  }

  class InMemoryNotificationSink {
    const channel: Channel
    const keyOf: (string, string, Channel) -> string
    var deliveries: map<string, Delivery>

    constructor (channel: Channel, keyOf: (string, string, Channel) -> string)
      ensures this.channel == channel && this.keyOf == keyOf && deliveries == map[]
    {
      this.channel, this.keyOf, deliveries := channel, keyOf, map[];
    }

    /** Delivered once per event, recipient and channel; the answer tells the first delivery from an
        identical repeat. */
    method DeliverTo(eventId: string, recipientId: string) returns (reply: Reply<bool>)
      modifies this
      ensures var key, d := keyOf(eventId, recipientId, channel), Delivery(eventId, recipientId, channel);
              && reply == (if key !in old(deliveries) then Ok(true)
                           else if old(deliveries)[key] == d then Ok(false)
                           else Raised(NotificationCollision))
              && deliveries == if key !in old(deliveries) then old(deliveries)[key := d] else old(deliveries)
    {
      var key, d := keyOf(eventId, recipientId, channel), Delivery(eventId, recipientId, channel);
      if key !in deliveries {
        deliveries := deliveries[key := d];
        return Ok(true);
      }
      if deliveries[key] != d {
        return Raised(NotificationCollision);
      }
      return Ok(false);
    }
  }

  /** The state in which the event of a job is about to be published. */
  function WithEvent(s: State, jobId: string, event: D.Event): State
    requires jobId in s.jobs
  {
    var job := s.jobs[jobId];
    s.(jobs := s.jobs[jobId := job.(core := job.core.(eventIds := [event.eventId]))],
       known := s.known[event.eventId := BoundFor(job, event)])
  }

  lemma AnnouncedState(s: State, confirmer: D.Memory, jobId: string, counted: Job, event: D.Event)
    requires jobId in s.jobs
    ensures WithEvent(s.(jobs := s.jobs[jobId := counted], confirmer := confirmer), jobId, event) ==
            s.(jobs := s.jobs[jobId := counted.(core := counted.core.(eventIds := [event.eventId]))],
               known := s.known[event.eventId := BoundFor(counted, event)], confirmer := confirmer)
  {
    var job := counted.(core := counted.core.(eventIds := [event.eventId]));
    assert s.jobs[jobId := counted][jobId := job] == s.jobs[jobId := job];
  }

  lemma SoundStart(c: Config, s: State, command: Command, x: Context, now: int)
    requires Sound(c, s)
    ensures Sound(c, Start(c, s, command, x, now).0)
  {
    hide Good, IdsDistinct, Start;
    StartKeeps(c, s, command, x, now);
  }

  class Service {
    const config: Config
    const cameras: InMemoryCameraRepository
    const frames: InMemoryFrameSource
    const events: InMemoryEventSink
    const push: InMemoryNotificationSink
    const inbox: InMemoryNotificationSink
    const audit: InMemoryAuditSink
    const confirmer: D.TemporalPersonConfirmer
    var jobs: map<string, Job>
    var commands: map<Key, Remembered>
    var knownEvents: map<string, BoundEvent>

    ghost function Value(): State
      reads this, frames, events, push, inbox, audit, confirmer
    {
      State(jobs, commands, knownEvents, frames.active, frames.cancelled, confirmer.Value(), events.events,
            push.deliveries, inbox.deliveries, audit.records)
    }

    /** The adapters are those of the configuration, and the two channels have separate sinks. */
    ghost predicate Wired()
      reads cameras
    {
      && cameras.cameras == CameraTable(config.cameras)
      && push != inbox && push.channel == Push && inbox.channel == Inbox
      && push.keyOf == config.deliveryKey && inbox.keyOf == config.deliveryKey
      && audit.idOf == config.auditIdOf && confirmer.settings == config.detection && frames.sequences == config.sequences
    }

    ghost predicate Valid()
      reads this, cameras, frames, events, push, inbox, audit, confirmer
    {
      Wired() && confirmer.Valid() && Sound(config, Value())
    }

    function CurrentOutcome(jobId: string): Outcome
      requires jobId in jobs && jobs[jobId].core.log.transitions != []
      reads this
    {
      var job := jobs[jobId].core;
      Outcome(Some(jobId), job.log.state, job.eventIds, J.LastReason(job.log))
    }

    constructor (config: Config)
      requires IdsDistinct(config) && D.SettingsValid(config.detection)
      ensures Valid() && Value() == IDLE && this.config == config
      ensures fresh(cameras) && fresh(frames) && fresh(events) && fresh(push) && fresh(inbox) && fresh(audit) && fresh(confirmer)
    {
      this.config := config;
      cameras := new InMemoryCameraRepository(config.cameras);
      frames := new InMemoryFrameSource(config.sequences);
      events := new InMemoryEventSink();
      push := new InMemoryNotificationSink(Push, config.deliveryKey);
      inbox := new InMemoryNotificationSink(Inbox, config.deliveryKey);
      audit := new InMemoryAuditSink(config.auditIdOf);
      confirmer := new D.TemporalPersonConfirmer(config.detection);
      jobs, commands, knownEvents := map[], map[], map[];
      new;
      IdleGood(config);
    }

    method AppendRecord(r: AuditRecord) returns (stored: bool)
      requires Wired()
      modifies audit
      ensures var recorded := Recorded(config.auditIdOf, old(audit.records), r);
              && stored == recorded.Some?
              && Value() == if stored then old(Value()).(audit := recorded.value) else old(Value())
    {
      var appended := audit.Append(r);
      stored := appended.Some?;
    }

    method DenyAndRemember(key: Key, command: Command, now: int, denial: Denial) returns (reply: Reply<Outcome>)
      requires Wired()
      modifies this`commands, audit
      ensures (Value(), reply) == Deny(config, old(Value()), key, command, now, denial)
    {
      var stored := AppendRecord(AuditRecord(key, denial.decision, denial.reason, DeniedResult, now));
      if !stored {
        return Raised(AuditCollision);
      }
      commands := commands[key := Remembered(command.requestHash, None, denial.reason)];
      return Ok(Outcome(None, J.Denied, [], denial.reason));
    }

    method OpenJob(command: Command, x: Context, now: int, camera: Camera) returns (reply: Reply<Outcome>)
      requires Wired()
      modifies this`jobs, this`commands, frames
      ensures (Value(), reply) == Open(config, old(Value()), command, x, now, camera)
    {
      hide J.StartedLog, FramesFor, KeyOf;
      var key := KeyOf(command, x);
      var jobId := config.jobIdOf(key);
      var error := frames.StartWorker(jobId, camera.cameraId, MAXIMUM_FRAMES);
      if error.Some? {
        return Raised(error.value);
      }
      J.StartedLogLegal(J.Monitoring, x.actor.actorId, now);
      jobs := jobs[jobId := NewJob(config, command, x, now, camera)];
      commands := commands[key := Remembered(command.requestHash, Some(jobId), "")];
      return Ok(CurrentOutcome(jobId));
    }

    /** The checks on a new command, in their order; without a denial there is a camera. */
    method CheckCommand(command: Command, x: Context, now: int) returns (denial: Option<Denial>, camera: Option<Camera>)
      requires Wired()
      ensures denial == DenialOf(config, command, x, now)
      ensures denial.None? ==> camera == CameraFor(config, x.actor.organizationId, command) && camera.Some?
    {
      hide P.Evaluate, P.ReasonCode, ResolveOwned, CameraTable;
      camera := None;
      if !(now - 300 * SECOND <= command.requestedAt <= now + 30 * SECOND) {
        return Some(Denial(P.Decision.Deny, "COMMAND_TIMESTAMP_INVALID")), None;
      }
      if command.actorId != x.actor.actorId || command.organizationId != x.actor.organizationId
         || command.sourceDeviceId != x.device.deviceId || x.actor.organizationId != x.device.organizationId {
        return Some(Denial(P.Decision.Deny, "COMMAND_CONTEXT_MISMATCH")), None;
      }
      var resolved := cameras.ResolveOwnedCameras(x.actor.organizationId, Targets(command));
      if resolved.None? {
        return Some(Denial(P.Decision.Deny, "TARGET_NOT_ACCESSIBLE")), None;
      }
      camera := Some(resolved.value[0]);
      if !camera.value.online {
        return Some(Denial(P.Decision.Deny, "CAMERA_NOT_AVAILABLE")), None;
      }
      var policy := P.Evaluate(PolicyRequest(command, x, now), config.tools);
      denial := if policy.decision != P.Allow then Some(Denial(policy.decision, P.ReasonCode(policy.reason))) else None;
    }

    /** The answer to a command that was seen before. */
    method RecallCommand(key: Key, requestHash: string) returns (reply: Reply<Outcome>)
      requires key in commands
      ensures reply == Recall(Value(), key, requestHash)
    {
      var known := commands[key];
      if known.requestHash != requestHash {
        return Raised(IdempotencyKeyReused);
      }
      if known.jobId.None? {
        return Ok(Outcome(None, J.Denied, [], known.denial));
      }
      if known.jobId.value !in jobs || jobs[known.jobId.value].core.log.transitions == [] {
        return Raised(JobNotFound);
      }
      return Ok(CurrentOutcome(known.jobId.value));
    }

    method AdmitCommand(command: Command, x: Context, now: int) returns (reply: Reply<Outcome>)
      requires Wired()
      modifies this`jobs, this`commands, frames, audit
      ensures (Value(), reply) == Start(config, old(Value()), command, x, now)
    {
      hide Open, Deny, KeyOf, DenialOf, CameraFor, Recall, CameraTable;
      if !command.actionSupported {
        return Raised(ActionNotSupported);
      }
      var key := KeyOf(command, x);
      if key in commands {
        reply := RecallCommand(key, command.requestHash);
        return;
      }
      var denial, camera := CheckCommand(command, x, now);
      if denial.Some? {
        reply := DenyAndRemember(key, command, now, denial.value);
        return;
      }
      reply := OpenJob(command, x, now, camera.value);
    }

    method StartJob(command: Command, x: Context, now: int) returns (reply: Reply<Outcome>)
      requires Valid()
      modifies this, frames, audit
      ensures Valid()
      ensures (Value(), reply) == Start(config, old(Value()), command, x, now)
    {
      hide Sound, Start, D.RunsAbove, CameraTable;
      SoundStart(config, Value(), command, x, now);
      reply := AdmitCommand(command, x, now);
    }

    /** The refusal of a caller, if any. */
    method CheckAccess(jobId: string, x: Context) returns (error: Option<Error>)
      ensures error == Authorize(Value(), jobId, x)
    {
      if jobId !in jobs {
        return Some(JobNotFound);
      }
      var job := jobs[jobId];
      if job.organizationId != x.actor.organizationId || job.actorId != x.actor.actorId || job.deviceId != x.device.deviceId {
        return Some(JobNotAccessible);
      }
      return None;
    }

    /** One transition, or the refusal of it. */
    method MoveJob(jobId: string, to: J.JobState, action: string, now: int, reason: string) returns (error: Option<J.TransitionError>)
      requires jobId in jobs && jobs[jobId].core.log.transitions != []
      modifies this`jobs
      ensures jobId in jobs && jobs[jobId].core.log.transitions != [] && jobs[jobId].key == old(jobs)[jobId].key
      ensures var job := old(jobs)[jobId];
              var moved := J.Moved(job.core.log, to, action, job.actorId, now, reason);
              && error == J.TransitionRefused(job.core.log, to, now)
              && Value() == if error.Some? then old(Value())
                            else old(Value()).(jobs := old(jobs)[jobId := job.(core := job.core.(log := moved))])
    {
      var job := jobs[jobId];
      error := J.TransitionRefused(job.core.log, to, now);
      if error.None? {
        jobs := jobs[jobId := job.(core := job.core.(log := J.Moved(job.core.log, to, action, job.actorId, now, reason)))];
      }
    }

    /** One transition, then one audit record. */
    method EndJob(jobId: string, to: J.JobState, action: string, now: int, reason: string, auditReason: string, result: Result)
      returns (reply: Reply<Outcome>)
      requires Wired() && jobId in jobs && jobs[jobId].core.log.transitions != []
      modifies this`jobs, audit
      ensures (Value(), reply) == Finish(config, old(Value()), jobId, to, action, now, reason, auditReason, result)
    {
      hide J.TransitionRefused, J.LastReason, J.Moved, Recorded;
      var error := MoveJob(jobId, to, action, now, reason);
      if error.Some? {
        return Raised(TransitionRefused(error.value));
      }
      var stored := AppendRecord(AuditRecord(jobs[jobId].key, P.Allow, auditReason, result, now));
      reply := if stored then Ok(CurrentOutcome(jobId)) else Raised(AuditCollision);
    }

    /** The push delivery, then the inbox delivery unless the first one failed. */
    method NotifyRecipient(eventId: string, recipientId: string) returns (delivered: Reply<bool>)
      requires Wired()
      modifies push, inbox
      ensures var push := Deliver(old(push.deliveries), config.deliveryKey(eventId, recipientId, Push),
                                  Delivery(eventId, recipientId, Push));
              var inbox := Deliver(old(inbox.deliveries), config.deliveryKey(eventId, recipientId, Inbox),
                                   Delivery(eventId, recipientId, Inbox));
              && (delivered.Raised? ==> delivered.error == NotificationCollision)
              && delivered.Ok? == (push.Some? && inbox.Some?)
              && Value() == if push.None? then old(Value())
                            else if inbox.None? then old(Value()).(push := push.value)
                            else old(Value()).(push := push.value, inbox := inbox.value)
    {
      delivered := push.DeliverTo(eventId, recipientId);
      if delivered.Ok? {
        delivered := inbox.DeliverTo(eventId, recipientId);
      }
    }

    method PublishBound(e: BoundEvent, recipientId: string) returns (reply: Reply<bool>)
      requires Wired()
      modifies events, push, inbox
      ensures (Value(), reply) == Publish(config, old(Value()), e, recipientId)
    {
      hide Deliver;
      var id, jobId := e.event.eventId, e.event.jobId;
      if jobId !in jobs || id !in knownEvents || knownEvents[id] != e {
        return Raised(EventNotBound);
      }
      var job := jobs[jobId];
      if e.organizationId != job.organizationId || e.cameraId != job.cameraId || e.correlationId != job.correlationId
         || recipientId != job.actorId {
        return Raised(EventNotBound);
      }
      reply := events.Append(e);
      if reply.Raised? {
        return;
      }
      var delivered := NotifyRecipient(id, recipientId);
      if delivered.Raised? {
        return Raised(delivered.error);
      }
    }

    method PublishEvent(e: BoundEvent, recipientId: string) returns (reply: Reply<bool>)
      requires Valid()
      modifies events, push, inbox
      ensures Valid()
      ensures Value() == old(Value())
      ensures (Value(), reply) == Publish(config, old(Value()), e, recipientId)
    {
      hide Sound, Publish;
      SoundPublish(config, Value(), e, recipientId);
      reply := PublishBound(e, recipientId);
    }

    /** A confirmed run of a job without event is announced under the job and published. */
    method AnnounceEvent(jobId: string, event: D.Event) returns (published: Reply<bool>)
      requires Wired() && jobId in jobs
      modifies this`jobs, this`knownEvents, events, push, inbox
      ensures jobs.Keys == old(jobs).Keys && jobs[jobId].core.log == old(jobs)[jobId].core.log
      ensures (Value(), published) == Publish(config, WithEvent(old(Value()), jobId, event),
                                              BoundFor(old(jobs)[jobId], event), old(jobs)[jobId].actorId)
    {
      hide Publish;
      var job := jobs[jobId];
      jobs := jobs[jobId := job.(core := job.core.(eventIds := [event.eventId]))];
      knownEvents := knownEvents[event.eventId := BoundFor(job, event)];
      published := PublishBound(BoundFor(job, event), job.actorId);
    }

    method CountFrame(jobId: string) returns (counted: Job)
      requires jobId in jobs
      modifies this`jobs
      ensures var job := old(jobs)[jobId];
              counted == job.(core := job.core.(framesProcessed := job.core.framesProcessed + 1))
      ensures Value() == old(Value()).(jobs := old(jobs)[jobId := counted])
    {
      var job := jobs[jobId];
      counted := job.(core := job.core.(framesProcessed := job.core.framesProcessed + 1));
      jobs := jobs[jobId := counted];
    }

    method Process(jobId: string, f: D.Frame) returns (reply: Reply<Outcome>)
      requires Wired() && confirmer.Valid() && jobId in jobs && jobs[jobId].core.log.transitions != []
      modifies this`jobs, this`knownEvents, confirmer, events, push, inbox
      ensures confirmer.Valid()
      ensures (Value(), reply) == ProcessFrame(config, old(Value()), jobId, f)
    {
      hide D.Observe, D.RunsAbove, Publish, J.LastReason;
      ghost var before := Value();
      var counted := CountFrame(jobId);
      if counted.core.framesProcessed > J.FRAME_LIMIT {
        return Raised(FrameLimitExceeded);
      }
      var event := confirmer.ObserveFrame(jobId, f);
      if event.Some? && counted.core.eventIds == [] {
        AnnouncedState(before, confirmer.Value(), jobId, counted, event.value);
        var published := AnnounceEvent(jobId, event.value);
        if published.Raised? {
          return Raised(published.error);
        }
      }
      return Ok(CurrentOutcome(jobId));
    }

    method AdvanceJob(jobId: string, x: Context, now: int) returns (reply: Reply<Outcome>)
      requires Valid()
      modifies this, frames, audit, confirmer, events, push, inbox
      ensures Valid()
      ensures D.RunsAbove(config.detection, old(Value()).confirmer) && Started(old(Value()), jobId)
      ensures (Value(), reply) == Advance(config, old(Value()), jobId, x, now)
    {
      hide Sound, D.RunsAbove, Finish, ProcessFrame;
      AdvanceKeeps(config, Value(), jobId, x, now);
      var refusal := CheckAccess(jobId, x);
      if refusal.Some? {
        return Raised(refusal.value);
      }
      var job := jobs[jobId];
      if job.core.log.state != J.Running {
        return Ok(CurrentOutcome(jobId));
      }
      if now >= job.deadline {
        reply := EndJob(jobId, J.Completed, "complete", now, "DURATION_ELAPSED", "SIMULATION_COMPLETED", SimulatedResult);
        return;
      }
      var frame := frames.TakeFrame(jobId);
      if frame.None? {
        reply := EndJob(jobId, J.Completed, "complete", now, "FRAME_SEQUENCE_EXHAUSTED", "SIMULATION_COMPLETED", SimulatedResult);
      } else if frame.value.observedAt > job.deadline {
        reply := EndJob(jobId, J.Completed, "complete", now, "DURATION_ELAPSED", "SIMULATION_COMPLETED", SimulatedResult);
      } else {
        reply := Process(jobId, frame.value);
      }
    }

    /** At most 301 advances; what that achieves is `RunToCompletionEnds`. */
    method RunJobToCompletion(jobId: string, x: Context, now: int) returns (reply: Reply<Outcome>)
      requires Valid()
      modifies this, frames, audit, confirmer, events, push, inbox
      ensures Valid()
      ensures (Value(), reply) == RunToCompletion(config, old(Value()), jobId, x, now)
    {
      hide Sound, D.RunsAbove, Advance, Started, Drive;
      ghost var before := Value();
      for i := 0 to MAXIMUM_FRAMES + 1
        invariant Valid()
        invariant Drive(config, Value(), jobId, x, now, MAXIMUM_FRAMES + 1 - i) == Drive(config, before, jobId, x, now, MAXIMUM_FRAMES + 1)
      {
        DriveStep(config, Value(), jobId, x, now, MAXIMUM_FRAMES + 1 - i);
        reply := AdvanceJob(jobId, x, now);
        if reply.Raised? || reply.value.status != J.Running {
          return;
        }
      }
      DriveExhausted(config, Value(), jobId, x, now);
      return Raised(DriverDidNotTerminate);
    }

    method CancelJob(jobId: string, x: Context, now: int) returns (reply: Reply<Outcome>)
      requires Valid()
      modifies this, frames, audit
      ensures Valid()
      ensures Started(old(Value()), jobId)
      ensures (Value(), reply) == Cancel(config, old(Value()), jobId, x, now)
    {
      hide Sound, D.RunsAbove, Finish;
      CancelKeeps(config, Value(), jobId, x, now);
      var refusal := CheckAccess(jobId, x);
      if refusal.Some? {
        return Raised(refusal.value);
      }
      if J.IsTerminal(jobs[jobId].core.log.state) {
        return Ok(CurrentOutcome(jobId));
      }
      frames.CancelWorker(jobId);
      reply := EndJob(jobId, J.Cancelled, "cancel", now, "CANCELLED_BY_OPERATOR", "CANCELLED_BY_OPERATOR", CancelledResult);
    }
  }

  lemma SoundPublish(c: Config, s: State, e: BoundEvent, recipientId: string)
    requires Sound(c, s)
    ensures Publish(c, s, e, recipientId).0 == s
  {
    hide Good, IdsDistinct, Publish;
    PublishAgain(c, s, e, recipientId);
  }

  lemma DriveExhausted(c: Config, s: State, jobId: string, x: Context, now: int)
    requires Sound(c, s)
    ensures Drive(c, s, jobId, x, now, 0) == (s, Raised(DriverDidNotTerminate))
  {
    hide Sound;
  }
}
