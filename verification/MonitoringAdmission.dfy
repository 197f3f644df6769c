/** When monitoring commands are admitted, recalled or denied, and why an advance ends a job, over any run. */
module MonitoringAdmission {
  import opened Options
  import opened Audit
  import opened Monitoring
  import opened MonitoringInvariants
  import opened MonitoringHistory
  import opened MonitoringEvents
  import D = Detection
  import J = Jobs
  import P = Policy

  // ---- New commands ----------------------------------------------------------------------------

  /** Asked for within five minutes back and thirty seconds ahead, by the actor and device of the context in one
      organization, for cameras that all belong to it, the first one online, and allowed by policy. */
  predicate Admissible(c: Config, command: Command, x: Context, now: int) {
    var cameras := CameraTable(c.cameras);
    && now - 300_000_000 <= command.requestedAt <= now + 30_000_000
    && command.actorId == x.actor.actorId && command.sourceDeviceId == x.device.deviceId
    && command.organizationId == x.actor.organizationId && x.device.organizationId == x.actor.organizationId
    && (forall i :: 0 <= i < |Targets(command)| ==> Owned(cameras, x.actor.organizationId, Targets(command)[i]))
    && command.firstTarget in cameras && cameras[command.firstTarget].online
    && P.Evaluate(PolicyRequest(command, x, now), c.tools).decision == P.Allow
  }

  lemma DeniedExactlyWhen(c: Config, command: Command, x: Context, now: int)
    ensures DenialOf(c, command, x, now).None? <==> Admissible(c, command, x, now)
    ensures Admissible(c, command, x, now) ==>
              CameraFor(c, x.actor.organizationId, command) == Some(CameraTable(c.cameras)[command.firstTarget])
  {
    hide P.Evaluate, P.ReasonCode, CameraTable;
    assert Targets(command)[0] == command.firstTarget;
  }

  /** What it takes for policy to allow monitoring: the tool with its profile, roles, capabilities, number of targets and
      duration, a trusted device of the actor's organization, and for a tool by grant a live grant of every target. */
  lemma AllowedExactlyWhen(c: Config, command: Command, x: Context, now: int)
    ensures P.Evaluate(PolicyRequest(command, x, now), c.tools).decision == P.Allow <==>
              && ("camera.monitor", 1) in c.tools
              && var tool := c.tools[("camera.monitor", 1)];
                 && x.device.organizationId == x.actor.organizationId && x.grant.organizationId == x.actor.organizationId
                 && x.device.trust == P.Trusted && command.profile == tool.requiredProfile
                 && tool.requiredRoles <= x.actor.roles && tool.requiredCapabilities <= x.device.capabilities
                 && 1 + |command.otherTargets| <= tool.maximumTargets
                 && tool.authorization != P.ByOperationScope && !tool.requiresConfirmation
                 && (tool.authorization == P.ByResourceGrant ==>
                       && x.grant.enabled && x.grant.validUntil > now && command.firstTarget in x.grant.resourceIds
                       && forall t :: t in command.otherTargets ==> t in x.grant.resourceIds)
                 && (tool.maximumDuration.Some? ==>
                       command.duration.Seconds? && 1 <= command.duration.n <= tool.maximumDuration.value)
  {
    hide P.Evaluate;
    P.AllowIff(PolicyRequest(command, x, now), c.tools);
    assert forall t :: t in Targets(command) <==> t == command.firstTarget || t in command.otherTargets;
  }

  /** A denial tells what was wrong. */
  lemma DenialsTell(c: Config, command: Command, x: Context, now: int)
    ensures var denial, cameras := DenialOf(c, command, x, now), CameraTable(c.cameras);
            denial.Some? ==>
              var policy := P.Evaluate(PolicyRequest(command, x, now), c.tools);
              || (denial.value == Denial(P.Decision.Deny, "COMMAND_TIMESTAMP_INVALID")
                  && !(now - 300_000_000 <= command.requestedAt <= now + 30_000_000))
              || (denial.value == Denial(P.Decision.Deny, "COMMAND_CONTEXT_MISMATCH")
                  && !(command.actorId == x.actor.actorId && command.sourceDeviceId == x.device.deviceId
                       && command.organizationId == x.actor.organizationId == x.device.organizationId))
              || (denial.value == Denial(P.Decision.Deny, "TARGET_NOT_ACCESSIBLE")
                  && exists i :: 0 <= i < |Targets(command)| && !Owned(cameras, x.actor.organizationId, Targets(command)[i]))
              || (denial.value == Denial(P.Decision.Deny, "CAMERA_NOT_AVAILABLE")
                  && command.firstTarget in cameras && !cameras[command.firstTarget].online)
              || (denial.value == Denial(policy.decision, P.ReasonCode(policy.reason)) && policy.decision != P.Allow)
  {
    hide P.Evaluate, P.ReasonCode, CameraTable;
    assert Targets(command)[0] == command.firstTarget;
  }

  function SeenAfter(before: map<Key, string>, call: Call): map<Key, string> {
    if call.StartCall? && call.command.actionSupported && KeyOf(call.command, call.x) !in before
    then before[KeyOf(call.command, call.x) := call.command.requestHash] else before
  }

  /** The first request hash seen under every key, over a run. */
  function Seen(calls: seq<Call>): map<Key, string> {
    if calls == [] then map[] else SeenAfter(Seen(calls[..|calls| - 1]), calls[|calls| - 1])
  }

  ghost predicate RemembersSeen(s: State, seen: map<Key, string>) {
    forall key :: (key in s.commands <==> key in seen) && (key in seen ==> s.commands[key].requestHash == seen[key])
  }

  lemma DenyRemembers(c: Config, s: State, key: Key, command: Command, now: int, denial: Denial)
    ensures var (t, reply) := Deny(c, s, key, command, now, denial);
            && (reply.Ok? ==> t.commands == s.commands[key := Remembered(command.requestHash, None, denial.reason)])
            && (reply.Raised? ==> reply.error == AuditCollision)
            && t.jobs == s.jobs
            && (reply.Ok? ==> reply.value == Outcome(None, J.Denied, [], denial.reason))
  {}

  lemma OpenRemembers(c: Config, s: State, command: Command, x: Context, now: int, camera: Camera)
    ensures var (t, reply) := Open(c, s, command, x, now, camera);
            var key := KeyOf(command, x);
            && (reply.Ok? ==>
                  && t.commands == s.commands[key := Remembered(command.requestHash, Some(c.jobIdOf(key)), "")]
                  && t.jobs == s.jobs[c.jobIdOf(key) := NewJob(c, command, x, now, camera)] && t.audit == s.audit
                  && t.workers == s.workers[c.jobIdOf(key) := (FirstFrames(c, camera.cameraId), 0)]
                  && reply.value.jobId == Some(c.jobIdOf(key)) && reply.value.status == J.Running)
            && (reply.Raised? ==> reply.error == WorkerExists)
  {
    hide KeyOf;
  }

  lemma StartRemembers(c: Config, s: State, command: Command, x: Context, now: int)
    requires Sound(c, s)
    ensures var t, key := Start(c, s, command, x, now).0, KeyOf(command, x);
            if command.actionSupported && key !in s.commands
            then exists r: Remembered :: r.requestHash == command.requestHash && t.commands == s.commands[key := r]
            else t.commands == s.commands
  {
    hide Good, IdsDistinct, DenialOf, Deny, Open, Admissible, CameraFor, Recall;
    StartKeeps(c, s, command, x, now);
    DeniedExactlyWhen(c, command, x, now);
    if command.actionSupported && KeyOf(command, x) !in s.commands {
      var denial := DenialOf(c, command, x, now);
      if denial.Some? {
        DenyRemembers(c, s, KeyOf(command, x), command, now, denial.value);
      } else {
        OpenRemembers(c, s, command, x, now, CameraFor(c, x.actor.organizationId, command).value);
      }
    }
  }

  lemma FinishCommands(c: Config, s: State, jobId: string, to: J.JobState, action: string, now: int, reason: string,
                       auditReason: string, result: Result)
    requires jobId in s.jobs && s.jobs[jobId].core.log.transitions != []
    ensures Finish(c, s, jobId, to, action, now, reason, auditReason, result).0.commands == s.commands
  {
    hide J.Moved, J.TransitionRefused, Recorded;
  }

  lemma PublishCommands(c: Config, s: State, e: BoundEvent, recipientId: string)
    ensures Publish(c, s, e, recipientId).0.commands == s.commands
  {
    hide Deliver;
  }

  lemma ProcessedCommands(c: Config, s: State, jobId: string, f: D.Frame)
    requires D.SettingsValid(c.detection) && D.RunsAbove(c.detection, s.confirmer) && jobId in s.jobs
    ensures Processed(c, s, jobId, f).commands == s.commands
  {
    hide D.Observe, D.RunsAbove, Announced, Counted, BoundFor;
    var (confirmer, event) := D.Observe(c.detection, s.confirmer, jobId, f);
    CountedCommands(s, jobId, confirmer);
    if event.Some? {
      AnnouncedCommands(c, Counted(s, jobId, confirmer), jobId, BoundFor(s.jobs[jobId], event.value));
    }
  }

  lemma CountedCommands(s: State, jobId: string, confirmer: D.Memory)
    requires jobId in s.jobs
    ensures Counted(s, jobId, confirmer).commands == s.commands && jobId in Counted(s, jobId, confirmer).jobs
  {}

  lemma AnnouncedCommands(c: Config, s: State, jobId: string, bound: BoundEvent)
    requires jobId in s.jobs
    ensures Announced(c, s, jobId, bound).commands == s.commands
  {}

  lemma NextFrameCommands(s: State, jobId: string)
    requires jobId in s.workers
    ensures var t := NextFrame(s, jobId).0; t.commands == s.commands && t.jobs == s.jobs && t.confirmer == s.confirmer && t.audit == s.audit
  {}

  lemma AdvanceCommands(c: Config, s: State, jobId: string, x: Context, now: int)
    requires Sound(c, s)
    ensures D.SettingsValid(c.detection) && D.RunsAbove(c.detection, s.confirmer) && Started(s, jobId)
    ensures Advance(c, s, jobId, x, now).0.commands == s.commands
  {
    hide Good, IdsDistinct, D.RunsAbove, D.SettingsValid, NextFrame, Advance, Processed;
    SoundMeansCallable(c, s, jobId);
    if jobId in s.workers {
      NextFrameCommands(s, jobId);
    }
    if FrameFor(s, jobId, x, now).Some? {
      AdvanceProcesses(c, s, jobId, x, now);
      ProcessedCommands(c, NextFrame(s, jobId).0, jobId, FrameFor(s, jobId, x, now).value);
    } else {
      OtherwiseCommands(c, s, jobId, x, now);
    }
  }

  lemma OtherwiseCommands(c: Config, s: State, jobId: string, x: Context, now: int)
    requires D.SettingsValid(c.detection) && D.RunsAbove(c.detection, s.confirmer) && Started(s, jobId)
    requires FrameFor(s, jobId, x, now).None?
    ensures Advance(c, s, jobId, x, now).0.commands == s.commands
  {
    hide D.RunsAbove, ProcessFrame, Finish, NextFrame, Authorize, D.SettingsValid;
    if Authorize(s, jobId, x).None? {
      AuthorizedExists(s, jobId, x);
      NextFrameCommands(s, jobId);
      FinishCommands(c, s, jobId, J.Completed, "complete", now, "DURATION_ELAPSED", "SIMULATION_COMPLETED", SimulatedResult);
      FinishCommands(c, NextFrame(s, jobId).0, jobId, J.Completed, "complete", now, "DURATION_ELAPSED", "SIMULATION_COMPLETED",
                     SimulatedResult);
      FinishCommands(c, NextFrame(s, jobId).0, jobId, J.Completed, "complete", now, "FRAME_SEQUENCE_EXHAUSTED",
                     "SIMULATION_COMPLETED", SimulatedResult);
    }
  }

  lemma CancelCommands(c: Config, s: State, jobId: string, x: Context, now: int)
    requires Started(s, jobId)
    ensures Cancel(c, s, jobId, x, now).0.commands == s.commands
  {
    hide Finish;
    if Authorize(s, jobId, x).None? {
      FinishCommands(c, s.(cancelledWorkers := s.cancelledWorkers + {jobId}), jobId, J.Cancelled, "cancel", now,
                     "CANCELLED_BY_OPERATOR", "CANCELLED_BY_OPERATOR", CancelledResult);
    }
  }

  lemma OthersKeepCommands(c: Config, s: State, call: Call)
    requires Sound(c, s) && !call.StartCall?
    ensures StateAfter(c, s, call).commands == s.commands
  {
    hide Good, IdsDistinct, Advance, Cancel, Publish, D.RunsAbove;
    match call
    case AdvanceCall(jobId, x, now) => AdvanceCommands(c, s, jobId, x, now);
    case CancelCall(jobId, x, now) =>
      SoundMeansCallable(c, s, jobId);
      CancelCommands(c, s, jobId, x, now);
    case PublishCall(event, recipientId) => PublishCommands(c, s, event, recipientId);
  }

  /** One call, seen and remembered. */
  lemma CallRemembers(c: Config, s: State, call: Call, seen: map<Key, string>)
    requires Sound(c, s) && RemembersSeen(s, seen)
    ensures RemembersSeen(StateAfter(c, s, call), SeenAfter(seen, call))
  {
    hide StateAfter, KeyOf, Sound, Start;
    if call.StartCall? {
      StartedState(c, s, call);
      StartRemembers(c, s, call.command, call.x, call.now);
    } else {
      OthersKeepCommands(c, s, call);
    }
  }

  lemma OneMoreCall(c: Config, calls: seq<Call>)
    requires IdsDistinct(c) && D.SettingsValid(c.detection) && calls != []
    ensures RunCalls(c, calls).0 == StateAfter(c, RunCalls(c, calls[..|calls| - 1]).0, calls[|calls| - 1])
  {
    hide IdsDistinct, Sound, StateAfter, Observed;
  }

  lemma StartedState(c: Config, s: State, call: Call)
    requires Sound(c, s) && call.StartCall?
    ensures StateAfter(c, s, call) == Start(c, s, call.command, call.x, call.now).0
  {
    hide Good, Start;
  }

  /** The service remembers exactly the supported commands it has seen, with the hash that came first. */
  lemma {:induction false} CommandsSeen(c: Config, calls: seq<Call>)
    requires IdsDistinct(c) && D.SettingsValid(c.detection)
    ensures RemembersSeen(RunCalls(c, calls).0, Seen(calls))
  {
    if calls == [] {
      assert RunCalls(c, calls).0 == IDLE;
    } else {
      hide IdsDistinct, Sound, StateAfter, RunCalls, SeenAfter, RemembersSeen, D.SettingsValid;
      CommandsSeen(c, calls[..|calls| - 1]);
      CallRemembers(c, RunCalls(c, calls[..|calls| - 1]).0, calls[|calls| - 1], Seen(calls[..|calls| - 1]));
      OneMoreCall(c, calls);
    }
  }

  /** The answer to a command whose first hash was `first`: its denial again, or how its job stands. */
  ghost predicate IsRecalled(s: State, key: Key, command: Command, first: string, t: State, reply: Reply<Outcome>) {
    && t == s && key in s.commands
    && if first != command.requestHash then reply == Raised(IdempotencyKeyReused)
       else
         match s.commands[key].jobId
         case None => reply == Ok(Outcome(None, J.Denied, [], s.commands[key].denial))
         case Some(id) =>
           && id in s.jobs && s.jobs[id].key == key && s.jobs[id].core.log.transitions != []
           && var core := s.jobs[id].core;
              reply == Ok(Outcome(Some(id), core.log.state, core.eventIds, J.LastReason(core.log)))
  }

  /** The first 300 frames of a camera. */
  function FirstFrames(c: Config, cameraId: string): seq<D.Frame> {
    var frames := if cameraId in c.sequences then c.sequences[cameraId] else [];
    if |frames| <= 300 then frames else frames[..300]
  }

  /** One new job for the first camera, running and without frames or events. */
  ghost predicate IsAdmitted(c: Config, s: State, command: Command, x: Context, now: int, t: State, reply: Reply<Outcome>) {
    var key, cameras := KeyOf(command, x), CameraTable(c.cameras);
    && c.jobIdOf(key) !in s.jobs && command.firstTarget in cameras
    && t.jobs == s.jobs[c.jobIdOf(key) :=
         Job(key, x.actor.actorId, x.actor.organizationId, x.device.deviceId, cameras[command.firstTarget].cameraId,
             command.correlationId, now + (if command.duration.Seconds? then command.duration.n * 1_000_000 else 0),
             J.Job(J.StartedLog(J.Monitoring, x.actor.actorId, now), 0, []))]
    && t.workers == s.workers[c.jobIdOf(key) := (FirstFrames(c, cameras[command.firstTarget].cameraId), 0)]
    && t.commands == s.commands[key := Remembered(command.requestHash, Some(c.jobIdOf(key)), "")] && t.audit == s.audit
    && reply.Ok? && reply.value.jobId == Some(c.jobIdOf(key)) && reply.value.status == J.Running
  }

  /** What a start call of a supported command comes to, over any run. A command seen before is recalled: with
      another hash it is refused, else it is answered and nothing changes. A new one gets a running job for its first
      camera if it is admissible, and otherwise the denial and no job. */
  lemma StartedExactlyWhen(c: Config, calls: seq<Call>, command: Command, x: Context, now: int)
    requires IdsDistinct(c) && D.SettingsValid(c.detection) && command.actionSupported
    ensures var s, key := RunCalls(c, calls).0, KeyOf(command, x);
            var (t, reply) := Start(c, s, command, x, now);
            if key in Seen(calls) then IsRecalled(s, key, command, Seen(calls)[key], t, reply)
            else if Admissible(c, command, x, now) then IsAdmitted(c, s, command, x, now, t, reply)
            else
              && t.jobs == s.jobs && DenialOf(c, command, x, now).Some?
              && var reason := DenialOf(c, command, x, now).value.reason;
                 && t.commands == s.commands[key := Remembered(command.requestHash, None, reason)]
                 && reply == Ok(Outcome(None, J.Denied, [], reason))
  {
    hide IdsDistinct, Good, RunCalls, DenialOf, CameraTable, Seen, KeyOf, J.StartedLog, Admissible, Deny, Open, CameraFor,
         Recall, D.SettingsValid;
    var s, key := RunCalls(c, calls).0, KeyOf(command, x);
    CommandsSeen(c, calls);
    StartKeeps(c, s, command, x, now);
    DeniedExactlyWhen(c, command, x, now);
    if key in s.commands {
      RecallTells(c, s, key, command.requestHash);
    } else if Admissible(c, command, x, now) {
      NewIdIsFree(c, s, key);
      AdmissibleHasCamera(c, command, x, now);
      OpenRemembers(c, s, command, x, now, CameraFor(c, x.actor.organizationId, command).value);
      var (t, reply) := Start(c, s, command, x, now);
      assert reply.Ok?;
      assert t.jobs == s.jobs[c.jobIdOf(key) := NewJob(c, command, x, now, CameraTable(c.cameras)[command.firstTarget])];
      assert IsAdmitted(c, s, command, x, now, t, reply);
    } else {
      DenyRemembers(c, s, key, command, now, DenialOf(c, command, x, now).value);
      assert Start(c, s, command, x, now) == Deny(c, s, key, command, now, DenialOf(c, command, x, now).value);
    }
  }

  lemma AdmissibleHasCamera(c: Config, command: Command, x: Context, now: int)
    requires Admissible(c, command, x, now)
    ensures command.firstTarget in CameraTable(c.cameras)
  {
    hide CameraTable, P.Evaluate;
  }

  lemma RecallTells(c: Config, s: State, key: Key, requestHash: string)
    requires Sound(c, s) && key in s.commands
    ensures var known := s.commands[key];
            if known.requestHash != requestHash then Recall(s, key, requestHash) == Raised(IdempotencyKeyReused)
            else
              match known.jobId
              case None => Recall(s, key, requestHash) == Ok(Outcome(None, J.Denied, [], known.denial))
              case Some(id) =>
                && id in s.jobs && s.jobs[id].key == key && s.jobs[id].core.log.transitions != []
                && Recall(s, key, requestHash)
                   == Ok(Outcome(Some(id), s.jobs[id].core.log.state, s.jobs[id].core.eventIds, J.LastReason(s.jobs[id].core.log)))
  {
    hide IdsDistinct, JobsGood, EventsGood, SinkGood;
    assert CommandSound(s, key);
    if s.commands[key].jobId.Some? {
      GoodMeansStarted(c, s, s.commands[key].jobId.value);
    }
  }

  lemma NewIdIsFree(c: Config, s: State, key: Key)
    requires Sound(c, s) && key !in s.commands
    ensures c.jobIdOf(key) !in s.jobs
  {
    hide IdsDistinct, D.RunsAbove, CommandsGood, EventsGood, SinkGood;
    assert JobSound(c, s, c.jobIdOf(key));
    DistinctJobIds(c, key);
  }

  lemma DistinctJobIds(c: Config, key: Key)
    requires IdsDistinct(c)
    ensures forall other :: c.jobIdOf(other) == c.jobIdOf(key) ==> other == key
  {}

  // ---- Advancing -------------------------------------------------------------------------------

  /** Who may advance or cancel a job. */
  lemma AccessExactlyWhen(s: State, jobId: string, x: Context)
    ensures Authorize(s, jobId, x).None? <==>
              && jobId in s.jobs
              && var job := s.jobs[jobId];
                 job.organizationId == x.actor.organizationId && job.actorId == x.actor.actorId && job.deviceId == x.device.deviceId
    ensures Authorize(s, jobId, x) == Some(JobNotFound) <==> jobId !in s.jobs
  {}

  /** What a running job's worker has to give: nothing once it is cancelled or at its end. */
  predicate Exhausted(s: State, jobId: string)
    requires jobId in s.workers
  {
    jobId in s.cancelledWorkers || s.workers[jobId].1 >= |s.workers[jobId].0|
  }

  /** What a timely advance of a running job does. From the deadline on it ends the job as elapsed; before it,
      without frames as exhausted, and with a frame that was observed after the deadline as elapsed; otherwise it
      counts the next frame. */
  lemma AdvanceExactly(c: Config, s: State, jobId: string, x: Context, now: int)
    requires Sound(c, s) && Authorize(s, jobId, x).None? && jobId in s.jobs && s.jobs[jobId].core.log.state == J.Running
    requires s.jobs[jobId].core.log.transitions != [] && now >= J.LastTime(s.jobs[jobId].core.log)
    ensures D.SettingsValid(c.detection) && D.RunsAbove(c.detection, s.confirmer) && Started(s, jobId)
    ensures var (t, reply) := Advance(c, s, jobId, x, now);
            var job, (frames, index) := s.jobs[jobId], s.workers[jobId];
            && reply.Ok? && jobId in t.jobs && reply.value.jobId == Some(jobId)
            && if now >= job.deadline then
                 reply.value.status == J.Completed && reply.value.reason == "DURATION_ELAPSED" && t.workers == s.workers
               else if Exhausted(s, jobId) then reply.value.status == J.Completed && reply.value.reason == "FRAME_SEQUENCE_EXHAUSTED"
               else if frames[index].observedAt > job.deadline then
                 && reply.value.status == J.Completed && reply.value.reason == "DURATION_ELAPSED"
                 && t.jobs[jobId].core.framesProcessed == job.core.framesProcessed
               else
                 && reply.value.status == J.Running && t.workers == s.workers[jobId := (frames, index + 1)]
                 && t.jobs[jobId].core.framesProcessed == job.core.framesProcessed + 1
  {
    hide Good, IdsDistinct, D.RunsAbove, D.SettingsValid, Advance, Processed, Finish, NextFrame;
    SoundMeansCallable(c, s, jobId);
    NextFrameStep(s, jobId);
    NextFrameGives(s, jobId);
    if FrameFor(s, jobId, x, now).Some? {
      AdvanceProcesses(c, s, jobId, x, now);
      NextFrameCommands(s, jobId);
      ProcessedCounts(c, NextFrame(s, jobId).0, jobId, FrameFor(s, jobId, x, now).value);
    } else {
      EndsExactly(c, s, jobId, x, now);
    }
  }

  lemma NextFrameGives(s: State, jobId: string)
    requires jobId in s.workers
    ensures NextFrame(s, jobId).1.None? <==> Exhausted(s, jobId)
  {}

  lemma ProcessedCounts(c: Config, s: State, jobId: string, f: D.Frame)
    requires D.SettingsValid(c.detection) && D.RunsAbove(c.detection, s.confirmer) && jobId in s.jobs
    ensures var t := Processed(c, s, jobId, f);
            && t.workers == s.workers && jobId in t.jobs && t.jobs[jobId].core.log == s.jobs[jobId].core.log
            && t.jobs[jobId].core.framesProcessed == s.jobs[jobId].core.framesProcessed + 1
  {
    hide D.Observe, D.RunsAbove;
  }

  lemma EndsExactly(c: Config, s: State, jobId: string, x: Context, now: int)
    requires Sound(c, s) && Started(s, jobId) && Authorize(s, jobId, x).None? && jobId in s.jobs
    requires s.jobs[jobId].core.log.state == J.Running && now >= J.LastTime(s.jobs[jobId].core.log)
    requires FrameFor(s, jobId, x, now).None?
    ensures D.SettingsValid(c.detection) && D.RunsAbove(c.detection, s.confirmer)
    ensures var (t, reply) := Advance(c, s, jobId, x, now);
            && reply.Ok? && jobId in t.jobs && reply.value.jobId == Some(jobId) && reply.value.status == J.Completed
            && t.jobs[jobId].core.framesProcessed == s.jobs[jobId].core.framesProcessed
            && (now >= s.jobs[jobId].deadline ==> t.workers == s.workers)
            && reply.value.reason == (if now < s.jobs[jobId].deadline && NextFrame(s, jobId).1.None?
                                      then "FRAME_SEQUENCE_EXHAUSTED" else "DURATION_ELAPSED")
  {
    hide Good, IdsDistinct, D.RunsAbove, D.SettingsValid, ProcessFrame, Finish, NextFrame, Authorize;
    SoundMeansCallable(c, s, jobId);
    NextFrameCommands(s, jobId);
    NextFrameStep(s, jobId);
    CompletesWith(c, s, jobId, now, "DURATION_ELAPSED");
    NextFrameKeepsGood(c, s, jobId);
    CompletesWith(c, NextFrame(s, jobId).0, jobId, now, "DURATION_ELAPSED");
    CompletesWith(c, NextFrame(s, jobId).0, jobId, now, "FRAME_SEQUENCE_EXHAUSTED");
  }

  lemma NextFrameKeepsGood(c: Config, s: State, jobId: string)
    requires Sound(c, s) && jobId in s.workers
    ensures Sound(c, NextFrame(s, jobId).0)
  {
    hide Good, NextFrame, IdsDistinct;
    NextFrameKeeps(c, s, jobId);
  }

  lemma CompletesWith(c: Config, s: State, jobId: string, now: int, reason: string)
    requires Sound(c, s) && jobId in s.jobs && s.jobs[jobId].core.log.transitions != []
    requires s.jobs[jobId].core.log.state == J.Running && now >= J.LastTime(s.jobs[jobId].core.log)
    ensures var (t, reply) := Complete(c, s, jobId, now, reason);
            && reply.Ok? && jobId in t.jobs && reply.value.jobId == Some(jobId) && reply.value.status == J.Completed
            && reply.value.reason == reason && t.workers == s.workers
            && t.jobs[jobId].core.framesProcessed == s.jobs[jobId].core.framesProcessed
  {
    hide Good, IdsDistinct, D.SettingsValid;
    FinishKeeps(c, s, jobId, J.Completed, "complete", now, reason, "SIMULATION_COMPLETED", SimulatedResult);
  }

  // ---- Audit records ---------------------------------------------------------------------------

  /** The audit trail after one more record. */
  function WithRecord(c: Config, s: State, r: AuditRecord): map<string, AuditRecord> {
    s.audit[c.auditIdOf(r.key, r.result) := r]
  }

  /** A job that ends in time leaves one record, under its own key and of that moment, which says that policy allowed
      it and how it ended. */
  lemma EndRecorded(c: Config, s: State, jobId: string, to: J.JobState, action: string, now: int, reason: string,
                    auditReason: string, result: Result)
    requires Sound(c, s) && jobId in s.jobs && s.jobs[jobId].core.log.transitions != []
    requires s.jobs[jobId].core.log.state == J.Running && now >= J.LastTime(s.jobs[jobId].core.log)
    requires (to == J.Completed && result == SimulatedResult) || (to == J.Cancelled && result == CancelledResult)
    ensures Finish(c, s, jobId, to, action, now, reason, auditReason, result).0.audit
            == WithRecord(c, s, AuditRecord(s.jobs[jobId].key, P.Allow, auditReason, result, now))
  {
    hide Good, IdsDistinct, D.SettingsValid, J.TransitionRefused, J.Moved, J.LastReason;
    FinishKeeps(c, s, jobId, to, action, now, reason, auditReason, result);
    FinishRecorded(c, s, jobId, to, action, now, reason, auditReason, result);
  }

  lemma FinishRecorded(c: Config, s: State, jobId: string, to: J.JobState, action: string, now: int, reason: string,
                       auditReason: string, result: Result)
    requires jobId in s.jobs && s.jobs[jobId].core.log.transitions != []
    ensures var (t, reply) := Finish(c, s, jobId, to, action, now, reason, auditReason, result);
            reply.Ok? ==> t.audit == WithRecord(c, s, AuditRecord(s.jobs[jobId].key, P.Allow, auditReason, result, now))
  {
    hide J.TransitionRefused, J.Moved, J.LastReason;
    var r := AuditRecord(s.jobs[jobId].key, P.Allow, auditReason, result, now);
    var id := c.auditIdOf(r.key, r.result);
    assert id in s.audit ==> s.audit[id := s.audit[id]] == s.audit;
  }

  /** What is recorded when a running job is cancelled in time. */
  lemma CancellationRecorded(c: Config, s: State, jobId: string, x: Context, now: int)
    requires Sound(c, s) && Authorize(s, jobId, x).None? && jobId in s.jobs && s.jobs[jobId].core.log.state == J.Running
    requires s.jobs[jobId].core.log.transitions != [] && now >= J.LastTime(s.jobs[jobId].core.log)
    ensures Started(s, jobId)
    ensures Cancel(c, s, jobId, x, now).0.audit
            == WithRecord(c, s, AuditRecord(s.jobs[jobId].key, P.Allow, "CANCELLED_BY_OPERATOR", CancelledResult, now))
  {
    hide Good, IdsDistinct, D.RunsAbove, D.SettingsValid, Finish, Authorize, WithRecord;
    SoundMeansCallable(c, s, jobId);
    StopKeepsSound(c, s, jobId);
    var stopped := s.(cancelledWorkers := s.cancelledWorkers + {jobId});
    EndRecorded(c, stopped, jobId, J.Cancelled, "cancel", now, "CANCELLED_BY_OPERATOR", "CANCELLED_BY_OPERATOR", CancelledResult);
    SameAudit(c, s, stopped);
  }

  /** And when an advance in time completes it, for whatever reason. */
  lemma CompletionRecorded(c: Config, s: State, jobId: string, x: Context, now: int)
    requires Sound(c, s) && Authorize(s, jobId, x).None? && jobId in s.jobs && s.jobs[jobId].core.log.state == J.Running
    requires s.jobs[jobId].core.log.transitions != [] && now >= J.LastTime(s.jobs[jobId].core.log)
    requires Started(s, jobId) && FrameFor(s, jobId, x, now).None?
    ensures D.SettingsValid(c.detection) && D.RunsAbove(c.detection, s.confirmer)
    ensures Advance(c, s, jobId, x, now).0.audit
            == WithRecord(c, s, AuditRecord(s.jobs[jobId].key, P.Allow, "SIMULATION_COMPLETED", SimulatedResult, now))
  {
    hide Good, IdsDistinct, D.RunsAbove, D.SettingsValid, ProcessFrame, Complete, NextFrame, Authorize, WithRecord;
    SoundMeansCallable(c, s, jobId);
    NextFrameCommands(s, jobId);
    NextFrameKeepsGood(c, s, jobId);
    var fed := NextFrame(s, jobId).0;
    SameAudit(c, s, fed);
    CompleteRecorded(c, s, jobId, now, "DURATION_ELAPSED");
    CompleteRecorded(c, fed, jobId, now, "DURATION_ELAPSED");
    CompleteRecorded(c, fed, jobId, now, "FRAME_SEQUENCE_EXHAUSTED");
  }

  lemma CompleteRecorded(c: Config, s: State, jobId: string, now: int, reason: string)
    requires Sound(c, s) && jobId in s.jobs && s.jobs[jobId].core.log.transitions != []
    requires s.jobs[jobId].core.log.state == J.Running && now >= J.LastTime(s.jobs[jobId].core.log)
    ensures Complete(c, s, jobId, now, reason).0.audit
            == WithRecord(c, s, AuditRecord(s.jobs[jobId].key, P.Allow, "SIMULATION_COMPLETED", SimulatedResult, now))
  {
    hide Good, IdsDistinct, D.SettingsValid, Finish, WithRecord;
    EndRecorded(c, s, jobId, J.Completed, "complete", now, reason, "SIMULATION_COMPLETED", SimulatedResult);
  }

  lemma SameAudit(c: Config, s: State, t: State)
    requires t.audit == s.audit
    ensures forall r :: WithRecord(c, t, r) == WithRecord(c, s, r)
  {}

  lemma StopKeepsSound(c: Config, s: State, jobId: string)
    requires Sound(c, s)
    ensures Sound(c, s.(cancelledWorkers := s.cancelledWorkers + {jobId}))
  {
    hide Good, IdsDistinct;
    StopKeeps(c, s, jobId);
  }

  /** A denial is recorded under the command's key with its decision and reason. */
  lemma DenialRecorded(c: Config, s: State, key: Key, command: Command, now: int, denial: Denial)
    ensures var (t, reply) := Deny(c, s, key, command, now, denial);
            reply.Ok? ==> t.audit == WithRecord(c, s, AuditRecord(key, denial.decision, denial.reason, DeniedResult, now))
  {
    var r := AuditRecord(key, denial.decision, denial.reason, DeniedResult, now);
    var id := c.auditIdOf(r.key, r.result);
    assert id in s.audit ==> s.audit[id := s.audit[id]] == s.audit;
  }
}
