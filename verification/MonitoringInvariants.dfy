/**
 What every call of the monitoring service keeps: legal job logs, one audit record per settled
 command, one published event per announcing job, and notification sinks that mirror the events.

 `Good` is stated pointwise, with one predicate for a job, a command, an audit id, an event and a
 delivery key, so that each kind of change (a frame is counted, a job ends, a command is denied, an
 event is announced) is compared with the state before it at one point at a time. That neither a second
 worker nor a collision of identifiers occurs is part of what is shown. Runs are the subject of
 `MonitoringHistory` and `MonitoringEvents`.
 */
module MonitoringInvariants {
  import opened Options
  import opened Audit
  import opened Monitoring
  import J = Jobs
  import D = Detection
  import P = Policy

  /** Different material has different identifiers. */
  ghost predicate IdsDistinct(c: Config) {
    && (forall k, l :: c.jobIdOf(k) == c.jobIdOf(l) ==> k == l)
    && (forall k, r, l, q :: c.auditIdOf(k, r) == c.auditIdOf(l, q) ==> k == l && r == q)
    && (forall i, f, g, j, k, l :: c.detection.eventIdOf(i, f, g) == c.detection.eventIdOf(j, k, l) ==> i == j)
    && (forall e, r, f, q, ch :: c.deliveryKey(e, r, ch) == c.deliveryKey(f, q, ch) ==> e == f && r == q)
  }

  // ---- Jobs and their frame workers ------------------------------------------------------------

  ghost predicate JobSound(c: Config, s: State, id: string) {
    && (id in s.jobs <==> id in s.workers)
    && (id in s.jobs ==>
          var job, (frames, index) := s.jobs[id], s.workers[id];
          && J.Legal(job.core.log) && job.core.log.kind == J.Monitoring
          && (job.core.log.state == J.Running || job.core.log.state == J.Completed || job.core.log.state == J.Cancelled)
          && id == c.jobIdOf(job.key) && job.key in s.commands && s.commands[job.key].jobId == Some(id)
          && job.core.framesProcessed <= index <= |frames| <= MAXIMUM_FRAMES)
  }

  ghost predicate JobsGood(c: Config, s: State) {
    forall id :: JobSound(c, s, id)
  }

  // ---- Commands and their audit records --------------------------------------------------------

  ghost predicate CommandSound(s: State, key: Key) {
    key in s.commands && s.commands[key].jobId.Some? ==>
      && s.commands[key].jobId.value in s.jobs && s.jobs[s.commands[key].jobId.value].key == key
  }

  /** How a command ended, once it was denied or its job is over. */
  function ResultOf(s: State, key: Key): Option<Result> {
    if key !in s.commands then None
    else if s.commands[key].jobId.None? then Some(DeniedResult)
    else if s.commands[key].jobId.value !in s.jobs then None
    else
      match s.jobs[s.commands[key].jobId.value].core.log.state
      case Completed => Some(SimulatedResult)
      case Cancelled => Some(CancelledResult)
      case _ => None
  }

  /** The audit record of a command says how it ended, and there is none before it ended. */
  ghost predicate AuditSound(c: Config, s: State, key: Key, r: Result) {
    c.auditIdOf(key, r) in s.audit <==> ResultOf(s, key) == Some(r)
  }

  ghost predicate EntrySound(c: Config, s: State, id: string) {
    id in s.audit ==> id == c.auditIdOf(s.audit[id].key, s.audit[id].result)
  }

  ghost predicate CommandsGood(c: Config, s: State) {
    && (forall key :: CommandSound(s, key))
    && (forall key, r :: AuditSound(c, s, key, r))
    && (forall id :: EntrySound(c, s, id))
  }

  // ---- Events ----------------------------------------------------------------------------------

  predicate BoundTo(e: BoundEvent, job: Job) {
    e.organizationId == job.organizationId && e.cameraId == job.cameraId && e.correlationId == job.correlationId
  }

  ghost predicate IsEventIdOf(c: Config, e: string, jobId: string) {
    exists first, last :: e == c.detection.eventIdOf(jobId, first, last)
  }

  /** Every known event is appended to the event sink and is the one event of its job. */
  ghost predicate EventSound(c: Config, s: State, e: string) {
    && (e in s.known <==> e in s.events)
    && (e in s.known ==>
          var bound := s.known[e];
          && s.events[e] == bound && bound.event.eventId == e && IsEventIdOf(c, e, bound.event.jobId)
          && bound.event.jobId in s.jobs && s.jobs[bound.event.jobId].core.eventIds == [e]
          && BoundTo(bound, s.jobs[bound.event.jobId]))
  }

  ghost predicate AnnouncedSound(s: State, id: string) {
    id in s.jobs && s.jobs[id].core.eventIds != [] ==>
      var e := s.jobs[id].core.eventIds[0];
      s.jobs[id].core.eventIds == [e] && e in s.known && s.known[e].event.jobId == id
  }

  ghost predicate EventsGood(c: Config, s: State) {
    && (forall e :: EventSound(c, s, e))
    && (forall id :: AnnouncedSound(s, id))
  }

  // ---- Deliveries ------------------------------------------------------------------------------

  /** The event was delivered to the actor who started its job. */
  ghost predicate IsDelivered(c: Config, s: State, sink: map<string, Delivery>, ch: Channel, e: string) {
    e in s.known ==>
      && s.known[e].event.jobId in s.jobs
      && var actor := s.jobs[s.known[e].event.jobId].actorId;
         && c.deliveryKey(e, actor, ch) in sink
         && sink[c.deliveryKey(e, actor, ch)] == Delivery(e, actor, ch)
  }

  ghost predicate IsDue(c: Config, s: State, sink: map<string, Delivery>, ch: Channel, k: string) {
    k in sink ==> k == c.deliveryKey(sink[k].eventId, sink[k].recipientId, ch) && sink[k].eventId in s.known
  }

  ghost predicate SinkGood(c: Config, s: State, sink: map<string, Delivery>, ch: Channel) {
    && |sink| == |s.known|
    && (forall k :: IsDue(c, s, sink, ch, k))
    && (forall e :: IsDelivered(c, s, sink, ch, e))
  }

  ghost predicate Good(c: Config, s: State) {
    && D.RunsAbove(c.detection, s.confirmer)
    && JobsGood(c, s) && CommandsGood(c, s) && EventsGood(c, s)
    && SinkGood(c, s, s.push, Push) && SinkGood(c, s, s.inbox, Inbox)
  }

  lemma IdleGood(c: Config)
    ensures Good(c, IDLE)
  {}

  lemma GoodMeansStarted(c: Config, s: State, jobId: string)
    requires Good(c, s)
    ensures Started(s, jobId)
  {
    assert JobSound(c, s, jobId);
  }

  // ---- What carries over -----------------------------------------------------------------------

  ghost predicate SameBinding(a: Job, b: Job) {
    && a.key == b.key && a.actorId == b.actorId && a.organizationId == b.organizationId && a.deviceId == b.deviceId
    && a.cameraId == b.cameraId && a.correlationId == b.correlationId && a.deadline == b.deadline
    && a.core.eventIds == b.core.eventIds
  }

  /** Jobs keep their binding and events; new jobs have no event yet. */
  ghost predicate Extends(s: State, t: State) {
    && (forall id :: id in s.jobs ==> id in t.jobs && SameBinding(s.jobs[id], t.jobs[id]))
    && (forall id :: id in t.jobs && id !in s.jobs ==> t.jobs[id].core.eventIds == [])
    && s.known == t.known && s.events == t.events && s.push == t.push && s.inbox == t.inbox
  }

  lemma EventsCarry(c: Config, s: State, t: State)
    requires EventsGood(c, s) && Extends(s, t)
    requires SinkGood(c, s, s.push, Push) && SinkGood(c, s, s.inbox, Inbox)
    ensures EventsGood(c, t) && SinkGood(c, t, t.push, Push) && SinkGood(c, t, t.inbox, Inbox)
  {
    hide IsEventIdOf;
    forall e ensures EventSound(c, t, e) {
      assert EventSound(c, s, e);
    }
    forall id ensures AnnouncedSound(t, id) {
      assert AnnouncedSound(s, id);
    }
    SinkCarries(c, s, t, s.push, Push);
    SinkCarries(c, s, t, s.inbox, Inbox);
  }

  lemma SinkCarries(c: Config, s: State, t: State, sink: map<string, Delivery>, ch: Channel)
    requires SinkGood(c, s, sink, ch) && Extends(s, t)
    ensures SinkGood(c, t, sink, ch)
  {
    forall k ensures IsDue(c, t, sink, ch, k) {
      assert IsDue(c, s, sink, ch, k);
    }
    forall e ensures IsDelivered(c, t, sink, ch, e) {
      assert IsDelivered(c, s, sink, ch, e);
    }
  }

  /** Jobs keep their key and their state. */
  ghost predicate SameProgress(s: State, t: State) {
    && s.jobs.Keys == t.jobs.Keys && s.commands == t.commands && s.audit == t.audit
    && forall id :: id in s.jobs ==> s.jobs[id].key == t.jobs[id].key && s.jobs[id].core.log == t.jobs[id].core.log
  }

  lemma CommandsCarry(c: Config, s: State, t: State)
    requires CommandsGood(c, s) && SameProgress(s, t)
    ensures CommandsGood(c, t)
  {
    forall key ensures CommandSound(t, key) {
      assert CommandSound(s, key);
    }
    forall key, r ensures AuditSound(c, t, key, r) {
      assert AuditSound(c, s, key, r);
      assert ResultOf(t, key) == ResultOf(s, key);
    }
    forall id ensures EntrySound(c, t, id) {
      assert EntrySound(c, s, id);
    }
  }

  /** Only one job or worker changes, and commands are only added. */
  ghost predicate OnlyChanges(s: State, t: State, jobId: string) {
    && (forall key :: key in s.commands ==> key in t.commands && t.commands[key] == s.commands[key])
    && (forall id :: id != jobId ==> (id in s.jobs <==> id in t.jobs) && (id in s.workers <==> id in t.workers))
    && (forall id :: id != jobId && id in s.jobs ==> t.jobs[id] == s.jobs[id])
    && (forall id :: id != jobId && id in s.workers ==> t.workers[id] == s.workers[id])
  }

  lemma JobIsSound(c: Config, s: State, id: string)
    requires JobsGood(c, s)
    ensures JobSound(c, s, id)
  {}

  lemma JobsCarry(c: Config, s: State, t: State, jobId: string)
    requires JobsGood(c, s) && OnlyChanges(s, t, jobId) && JobSound(c, t, jobId)
    ensures JobsGood(c, t)
  {
    hide J.Legal;
    forall id ensures JobSound(c, t, id) {
      assert JobSound(c, s, id);
    }
  }

  lemma WorkerStep(s: State, t: State, jobId: string, worker: (seq<D.Frame>, nat))
    requires jobId in s.workers && t == s.(workers := s.workers[jobId := worker])
    ensures Extends(s, t) && SameProgress(s, t) && OnlyChanges(s, t, jobId)
  {}

  lemma JobStep(s: State, t: State, jobId: string, core: J.Job)
    requires jobId in s.jobs && core.eventIds == s.jobs[jobId].core.eventIds
    requires t == s.(jobs := s.jobs[jobId := s.jobs[jobId].(core := core)], audit := t.audit, confirmer := t.confirmer)
    ensures Extends(s, t) && OnlyChanges(s, t, jobId)
    ensures t.audit == s.audit && core.log == s.jobs[jobId].core.log ==> SameProgress(s, t)
  {}

  // ---- Starting --------------------------------------------------------------------------------

  lemma RecordedIsNew(c: Config, s: State, r: AuditRecord)
    requires IdsDistinct(c) && CommandsGood(c, s) && ResultOf(s, r.key) == None
    ensures c.auditIdOf(r.key, r.result) !in s.audit
    ensures Recorded(c.auditIdOf, s.audit, r) == Some(s.audit[c.auditIdOf(r.key, r.result) := r])
  {
    assert AuditSound(c, s, r.key, r.result);
  }

  /** Recording how one command ended, while no other command changes. */
  lemma RecordSettles(c: Config, s: State, t: State, r: AuditRecord)
    requires IdsDistinct(c) && CommandsGood(c, s) && ResultOf(s, r.key) == None
    requires t.audit == s.audit[c.auditIdOf(r.key, r.result) := r]
    requires ResultOf(t, r.key) == Some(r.result)
    requires forall key :: key != r.key ==> ResultOf(t, key) == ResultOf(s, key)
    requires forall key :: CommandSound(t, key)
    ensures CommandsGood(c, t)
  {
    hide ResultOf, CommandSound;
    forall key, q ensures AuditSound(c, t, key, q) {
      assert AuditSound(c, s, key, q);
      assert AuditSound(c, s, r.key, q);
    }
    forall id ensures EntrySound(c, t, id) {
      assert EntrySound(c, s, id);
    }
  }

  lemma DenyKeeps(c: Config, s: State, key: Key, command: Command, now: int, denial: Denial)
    requires IdsDistinct(c) && Good(c, s) && key !in s.commands
    ensures Good(c, Deny(c, s, key, command, now, denial).0)
    ensures Deny(c, s, key, command, now, denial).1 == Ok(Outcome(None, J.Denied, [], denial.reason))
  {
    hide IdsDistinct, D.RunsAbove, EventsGood, SinkGood, AuditSound, EntrySound, J.Legal;
    var r := AuditRecord(key, denial.decision, denial.reason, DeniedResult, now);
    RecordedIsNew(c, s, r);
    var t := Deny(c, s, key, command, now, denial).0;
    forall k ensures CommandSound(t, k) {
      assert CommandSound(s, k);
    }
    RecordSettles(c, s, t, r);
    EventsCarry(c, s, t);
    forall id ensures JobSound(c, t, id) {
      assert JobSound(c, s, id);
    }
  }

  /** A new command's job id is free: the frame worker never exists already. */
  lemma NewJobIsNew(c: Config, s: State, key: Key)
    requires IdsDistinct(c) && JobsGood(c, s) && key !in s.commands
    ensures c.jobIdOf(key) !in s.jobs && c.jobIdOf(key) !in s.workers
  {
    assert JobSound(c, s, c.jobIdOf(key));
  }

  function Opened(c: Config, s: State, job: Job, requestHash: string, frames: seq<D.Frame>): State {
    var id := c.jobIdOf(job.key);
    s.(workers := s.workers[id := (frames, 0)], jobs := s.jobs[id := job],
       commands := s.commands[job.key := Remembered(requestHash, Some(id), "")])
  }

  ghost predicate IsFresh(job: Job) {
    && J.Legal(job.core.log) && job.core.log.kind == J.Monitoring && job.core.log.state == J.Running
    && job.core.framesProcessed == 0 && job.core.eventIds == []
  }

  lemma OpenStep(c: Config, s: State, job: Job, requestHash: string, frames: seq<D.Frame>)
    requires job.key !in s.commands && c.jobIdOf(job.key) !in s.jobs && job.core.eventIds == []
    ensures var t := Opened(c, s, job, requestHash, frames); Extends(s, t) && OnlyChanges(s, t, c.jobIdOf(job.key))
  {}

  lemma OpenCommands(c: Config, s: State, job: Job, requestHash: string, frames: seq<D.Frame>)
    requires CommandsGood(c, s) && job.key !in s.commands && c.jobIdOf(job.key) !in s.jobs && IsFresh(job)
    ensures CommandsGood(c, Opened(c, s, job, requestHash, frames))
  {
    hide J.Legal;
    var t := Opened(c, s, job, requestHash, frames);
    forall key ensures CommandSound(t, key) && ResultOf(t, key) == ResultOf(s, key) {
      assert CommandSound(s, key);
    }
    forall key, r ensures AuditSound(c, t, key, r) {
      assert AuditSound(c, s, key, r);
    }
    forall id ensures EntrySound(c, t, id) {
      assert EntrySound(c, s, id);
    }
  }

  lemma OpenKeeps(c: Config, s: State, job: Job, requestHash: string, frames: seq<D.Frame>)
    requires IdsDistinct(c) && Good(c, s) && job.key !in s.commands && IsFresh(job) && |frames| <= MAXIMUM_FRAMES
    ensures Good(c, Opened(c, s, job, requestHash, frames))
  {
    hide IdsDistinct, JobsGood, CommandsGood, D.RunsAbove, EventsGood, SinkGood, J.Legal, Extends, OnlyChanges;
    NewJobIsNew(c, s, job.key);
    OpenStep(c, s, job, requestHash, frames);
    OpenCommands(c, s, job, requestHash, frames);
    var t := Opened(c, s, job, requestHash, frames);
    EventsCarry(c, s, t);
    JobsCarry(c, s, t, c.jobIdOf(job.key));
  }

  /** Starting keeps the invariant, and none of the service's internal collisions occurs. */
  lemma StartKeeps(c: Config, s: State, command: Command, x: Context, now: int)
    requires IdsDistinct(c) && Good(c, s)
    ensures var (t, reply) := Start(c, s, command, x, now);
            && Good(c, t)
            && (reply.Raised? ==> t == s && (reply.error == ActionNotSupported || reply.error == IdempotencyKeyReused))
  {
    hide IdsDistinct, DenialOf, Deny, D.RunsAbove, EventsGood, SinkGood, J.Legal, FramesFor, J.StartedLog;
    var key := KeyOf(command, x);
    if command.actionSupported {
      if key in s.commands {
        assert CommandSound(s, key);
        if s.commands[key].jobId.Some? {
          GoodMeansStarted(c, s, s.commands[key].jobId.value);
        }
      } else if DenialOf(c, command, x, now).Some? {
        DenyKeeps(c, s, key, command, now, DenialOf(c, command, x, now).value);
      } else {
        DenialNeedsCamera(c, command, x, now);
        var camera := CameraFor(c, x.actor.organizationId, command).value;
        NewJobIsNew(c, s, key);
        J.StartedLogLegal(J.Monitoring, x.actor.actorId, now);
        FramesBounded(c.sequences, camera.cameraId);
        OpenKeeps(c, s, NewJob(c, command, x, now, camera), command.requestHash, FramesFor(c.sequences, camera.cameraId, MAXIMUM_FRAMES));
      }
    }
  }

  lemma DenialNeedsCamera(c: Config, command: Command, x: Context, now: int)
    requires DenialOf(c, command, x, now).None?
    ensures CameraFor(c, x.actor.organizationId, command).Some?
  {}

  lemma FramesBounded(sequences: map<string, seq<D.Frame>>, cameraId: string)
    ensures |FramesFor(sequences, cameraId, MAXIMUM_FRAMES)| <= MAXIMUM_FRAMES
  {}

  // ---- Ending ----------------------------------------------------------------------------------

  /** The state after a job ended and its audit record was stored. */
  function Ended(c: Config, s: State, jobId: string, log: J.Log, r: AuditRecord): State
    requires jobId in s.jobs
  {
    var job := s.jobs[jobId];
    s.(jobs := s.jobs[jobId := job.(core := job.core.(log := log))], audit := s.audit[c.auditIdOf(r.key, r.result) := r])
  }

  lemma EndedCommands(c: Config, s: State, jobId: string, log: J.Log, r: AuditRecord)
    requires IdsDistinct(c) && JobsGood(c, s) && CommandsGood(c, s)
    requires jobId in s.jobs && s.jobs[jobId].core.log.state == J.Running && r.key == s.jobs[jobId].key
    requires (log.state == J.Completed && r.result == SimulatedResult) || (log.state == J.Cancelled && r.result == CancelledResult)
    ensures CommandsGood(c, Ended(c, s, jobId, log, r))
    ensures Recorded(c.auditIdOf, s.audit, r) == Some(s.audit[c.auditIdOf(r.key, r.result) := r])
  {
    hide IdsDistinct, AuditSound, EntrySound, JobsGood, J.Legal;
    JobIsSound(c, s, jobId);
    var t := Ended(c, s, jobId, log, r);
    forall key ensures CommandSound(t, key) && (key != r.key ==> ResultOf(t, key) == ResultOf(s, key)) {
      assert CommandSound(s, key);
    }
    RecordedIsNew(c, s, r);
    RecordSettles(c, s, t, r);
  }

  lemma EndedGood(c: Config, s: State, jobId: string, log: J.Log, r: AuditRecord)
    requires IdsDistinct(c) && Good(c, s)
    requires jobId in s.jobs && s.jobs[jobId].core.log.state == J.Running && r.key == s.jobs[jobId].key
    requires (log.state == J.Completed && r.result == SimulatedResult) || (log.state == J.Cancelled && r.result == CancelledResult)
    requires J.Legal(log) && log.kind == J.Monitoring
    ensures Good(c, Ended(c, s, jobId, log, r))
    ensures Recorded(c.auditIdOf, s.audit, r) == Some(s.audit[c.auditIdOf(r.key, r.result) := r])
  {
    hide JobsGood, IdsDistinct, D.RunsAbove, EventsGood, SinkGood, CommandsGood, J.Legal, Extends, SameProgress, OnlyChanges;
    JobIsSound(c, s, jobId);
    EndedCommands(c, s, jobId, log, r);
    var t := Ended(c, s, jobId, log, r);
    JobStep(s, t, jobId, s.jobs[jobId].core.(log := log));
    EventsCarry(c, s, t);
    JobsCarry(c, s, t, jobId);
  }

  /** Ending a running job succeeds unless time moved backwards, and then changes nothing. */
  lemma FinishKeeps(c: Config, s: State, jobId: string, to: J.JobState, action: string, now: int, reason: string,
                    auditReason: string, result: Result)
    requires IdsDistinct(c) && Good(c, s)
    requires jobId in s.jobs && s.jobs[jobId].core.log.state == J.Running && s.jobs[jobId].core.log.transitions != []
    requires (to == J.Completed && result == SimulatedResult) || (to == J.Cancelled && result == CancelledResult)
    ensures var (t, reply) := Finish(c, s, jobId, to, action, now, reason, auditReason, result);
            && Good(c, t)
            && (reply.Ok? <==> now >= J.LastTime(s.jobs[jobId].core.log))
            && (reply.Raised? ==> reply.error == TransitionRefused(J.TimestampMovedBackwards) && t == s)
            && (reply.Ok? ==> jobId in t.jobs && t.jobs[jobId].core.log.state == to
                              && reply.value == Outcome(Some(jobId), to, s.jobs[jobId].core.eventIds, reason))
  {
    JobIsSound(c, s, jobId);
    hide JobsGood, IdsDistinct, D.RunsAbove, EventsGood, SinkGood, CommandsGood, J.Legal, Good;
    var job := s.jobs[jobId];
    if now >= J.LastTime(job.core.log) {
      var r := AuditRecord(job.key, P.Allow, auditReason, result, now);
      J.MoveIsLegal(job.core.log, to, action, job.actorId, now, reason);
      var moved := J.Moved(job.core.log, to, action, job.actorId, now, reason);
      EndedGood(c, s, jobId, moved, r);
      assert Finish(c, s, jobId, to, action, now, reason, auditReason, result).0 == Ended(c, s, jobId, moved, r);
    }
  }

  // ---- Frames ----------------------------------------------------------------------------------

  lemma NextFrameStep(s: State, jobId: string)
    requires jobId in s.workers
    ensures var (t, frame) := NextFrame(s, jobId);
            var (frames, index) := s.workers[jobId];
            && (frame.None? ==> t == s)
            && (frame.Some? ==> jobId !in s.cancelledWorkers && index < |frames| && frame.value == frames[index]
                                && t == s.(workers := s.workers[jobId := (frames, index + 1)]))
  {}

  lemma NextFrameKeeps(c: Config, s: State, jobId: string)
    requires Good(c, s) && jobId in s.workers
    ensures Good(c, NextFrame(s, jobId).0)
  {
    hide JobsGood, D.RunsAbove, EventsGood, SinkGood, CommandsGood, J.Legal, NextFrame, Extends, SameProgress, OnlyChanges;
    JobIsSound(c, s, jobId);
    NextFrameStep(s, jobId);
    var (t, frame) := NextFrame(s, jobId);
    if frame.Some? {
      var (frames, index) := s.workers[jobId];
      WorkerStep(s, t, jobId, (frames, index + 1));
      EventsCarry(c, s, t);
      CommandsCarry(c, s, t);
      JobsCarry(c, s, t, jobId);
    }
  }

  /** Counting a frame that was taken from the worker. */
  lemma CountKeeps(c: Config, s: State, jobId: string, confirmer: D.Memory)
    requires Good(c, s) && D.RunsAbove(c.detection, confirmer)
    requires jobId in s.jobs && jobId in s.workers && s.jobs[jobId].core.framesProcessed < s.workers[jobId].1
    ensures var job := s.jobs[jobId];
            var core := job.core.(framesProcessed := job.core.framesProcessed + 1);
            Good(c, s.(jobs := s.jobs[jobId := job.(core := core)], confirmer := confirmer))
  {
    hide JobsGood, D.RunsAbove, EventsGood, SinkGood, CommandsGood, J.Legal, Extends, SameProgress, OnlyChanges;
    var job := s.jobs[jobId];
    JobIsSound(c, s, jobId);
    var core := job.core.(framesProcessed := job.core.framesProcessed + 1);
    var t := s.(jobs := s.jobs[jobId := job.(core := core)], confirmer := confirmer);
    JobStep(s, t, jobId, core);
    EventsCarry(c, s, t);
    CommandsCarry(c, s, t);
    JobsCarry(c, s, t, jobId);
  }

  // ---- Publishing ------------------------------------------------------------------------------

  /** The event a job announces is new, so no sink has seen it. */
  lemma EventIsNew(c: Config, s: State, jobId: string, e: string)
    requires IdsDistinct(c) && EventsGood(c, s) && IsEventIdOf(c, e, jobId)
    requires jobId in s.jobs && s.jobs[jobId].core.eventIds == []
    ensures e !in s.known && e !in s.events
  {
    assert EventSound(c, s, e);
  }

  lemma DeliveryIsNew(c: Config, s: State, sink: map<string, Delivery>, ch: Channel, e: string, actor: string)
    requires IdsDistinct(c) && SinkGood(c, s, sink, ch) && e !in s.known
    ensures c.deliveryKey(e, actor, ch) !in sink
  {
    assert IsDue(c, s, sink, ch, c.deliveryKey(e, actor, ch));
  }

  /** The state after a new event was announced and published. */
  function Announced(c: Config, s: State, jobId: string, bound: BoundEvent): State
    requires jobId in s.jobs
  {
    var job, id := s.jobs[jobId], bound.event.eventId;
    s.(jobs := s.jobs[jobId := job.(core := job.core.(eventIds := [id]))],
       known := s.known[id := bound],
       events := s.events[id := bound],
       push := s.push[c.deliveryKey(id, job.actorId, Push) := Delivery(id, job.actorId, Push)],
       inbox := s.inbox[c.deliveryKey(id, job.actorId, Inbox) := Delivery(id, job.actorId, Inbox)])
  }

  ghost predicate IsNewEvent(c: Config, s: State, jobId: string, bound: BoundEvent) {
    && jobId in s.jobs && s.jobs[jobId].core.eventIds == [] && bound.event.jobId == jobId
    && IsEventIdOf(c, bound.event.eventId, jobId) && BoundTo(bound, s.jobs[jobId])
  }

  lemma AnnouncedEvents(c: Config, s: State, jobId: string, bound: BoundEvent)
    requires IdsDistinct(c) && EventsGood(c, s) && IsNewEvent(c, s, jobId, bound)
    ensures EventsGood(c, Announced(c, s, jobId, bound))
  {
    hide IdsDistinct, IsEventIdOf;
    EventIsNew(c, s, jobId, bound.event.eventId);
    var t := Announced(c, s, jobId, bound);
    forall e ensures EventSound(c, t, e) {
      assert EventSound(c, s, e);
    }
    forall id ensures AnnouncedSound(t, id) {
      assert AnnouncedSound(s, id);
    }
  }

  lemma AnnouncedSink(c: Config, s: State, jobId: string, bound: BoundEvent, sink: map<string, Delivery>, ch: Channel)
    requires IdsDistinct(c) && EventsGood(c, s) && IsNewEvent(c, s, jobId, bound) && SinkGood(c, s, sink, ch)
    ensures var id, actor := bound.event.eventId, s.jobs[jobId].actorId;
            && c.deliveryKey(id, actor, ch) !in sink
            && SinkGood(c, Announced(c, s, jobId, bound), sink[c.deliveryKey(id, actor, ch) := Delivery(id, actor, ch)], ch)
  {
    hide IdsDistinct, IsEventIdOf, EventsGood, IsDue, IsDelivered;
    var id, actor := bound.event.eventId, s.jobs[jobId].actorId;
    EventIsNew(c, s, jobId, id);
    DeliveryIsNew(c, s, sink, ch, id, actor);
    var t := Announced(c, s, jobId, bound);
    var more := sink[c.deliveryKey(id, actor, ch) := Delivery(id, actor, ch)];
    forall k ensures IsDue(c, t, more, ch, k) {
      assert IsDue(c, s, sink, ch, k);
      DueAfter(c, s, jobId, bound, sink, ch, k);
    }
    forall e ensures IsDelivered(c, t, more, ch, e) {
      assert IsDelivered(c, s, sink, ch, e);
      DeliveredAfter(c, s, jobId, bound, sink, ch, e);
    }
  }

  lemma DueAfter(c: Config, s: State, jobId: string, bound: BoundEvent, sink: map<string, Delivery>, ch: Channel, k: string)
    requires jobId in s.jobs && IsDue(c, s, sink, ch, k)
    ensures var id, actor := bound.event.eventId, s.jobs[jobId].actorId;
            IsDue(c, Announced(c, s, jobId, bound), sink[c.deliveryKey(id, actor, ch) := Delivery(id, actor, ch)], ch, k)
  {}

  lemma DeliveredAfter(
    c: Config, s: State, jobId: string, bound: BoundEvent, sink: map<string, Delivery>, ch: Channel, e: string)
    requires jobId in s.jobs && bound.event.jobId == jobId && IsDelivered(c, s, sink, ch, e)
    requires c.deliveryKey(bound.event.eventId, s.jobs[jobId].actorId, ch) !in sink
    ensures var id, actor := bound.event.eventId, s.jobs[jobId].actorId;
            IsDelivered(c, Announced(c, s, jobId, bound), sink[c.deliveryKey(id, actor, ch) := Delivery(id, actor, ch)], ch, e)
  {}

  lemma AnnouncedStep(c: Config, s: State, jobId: string, bound: BoundEvent)
    requires jobId in s.jobs
    ensures SameProgress(s, Announced(c, s, jobId, bound)) && OnlyChanges(s, Announced(c, s, jobId, bound), jobId)
  {}

  lemma AnnouncedGood(c: Config, s: State, jobId: string, bound: BoundEvent)
    requires IdsDistinct(c) && Good(c, s) && IsNewEvent(c, s, jobId, bound)
    ensures Good(c, Announced(c, s, jobId, bound))
  {
    hide IdsDistinct, IsEventIdOf, JobsGood, EventsGood, SinkGood, D.RunsAbove, CommandsGood, J.Legal, SameProgress, OnlyChanges;
    AnnouncedEvents(c, s, jobId, bound);
    AnnouncedSink(c, s, jobId, bound, s.push, Push);
    AnnouncedSink(c, s, jobId, bound, s.inbox, Inbox);
    JobIsSound(c, s, jobId);
    var t := Announced(c, s, jobId, bound);
    AnnouncedStep(c, s, jobId, bound);
    CommandsCarry(c, s, t);
    JobsCarry(c, s, t, jobId);
  }

  /** Publishing a new event reaches the event sink and both notification sinks. */
  lemma PublishNew(c: Config, s: State, jobId: string, bound: BoundEvent)
    requires IdsDistinct(c) && Good(c, s) && IsNewEvent(c, s, jobId, bound)
    ensures var job, id := s.jobs[jobId], bound.event.eventId;
            var known := s.(jobs := s.jobs[jobId := job.(core := job.core.(eventIds := [id]))], known := s.known[id := bound]);
            Publish(c, known, bound, job.actorId) == (Announced(c, s, jobId, bound), Ok(true))
  {
    EventIsNew(c, s, jobId, bound.event.eventId);
    DeliveryIsNew(c, s, s.push, Push, bound.event.eventId, s.jobs[jobId].actorId);
    DeliveryIsNew(c, s, s.inbox, Inbox, bound.event.eventId, s.jobs[jobId].actorId);
  }

  /** Publishing again changes nothing: it is refused, or says that the event was already there. */
  lemma PublishAgain(c: Config, s: State, e: BoundEvent, recipientId: string)
    requires Good(c, s)
    ensures Publish(c, s, e, recipientId).0 == s
    ensures var bound := e.event.eventId in s.known && s.known[e.event.eventId] == e
                         && e.event.jobId in s.jobs && recipientId == s.jobs[e.event.jobId].actorId;
            Publish(c, s, e, recipientId).1 == if bound then Ok(false) else Raised(EventNotBound)
  {
    var id := e.event.eventId;
    assert EventSound(c, s, id);
    if id in s.known && s.known[id] == e && recipientId == s.jobs[e.event.jobId].actorId {
      assert IsDelivered(c, s, s.push, Push, id);
      assert IsDelivered(c, s, s.inbox, Inbox, id);
    }
  }
}
