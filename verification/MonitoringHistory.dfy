/**
 The service one call at a time on good states: a frame is always processed without an error, an
 advance and a cancellation keep the invariant and say exactly when they are refused, and the
 bounded driver ends every job.
 */
module MonitoringHistory {
  import opened Options
  import opened Audit
  import opened Monitoring
  import opened MonitoringInvariants
  import J = Jobs
  import D = Detection

  ghost predicate Sound(c: Config, s: State) {
    IdsDistinct(c) && D.SettingsValid(c.detection) && Good(c, s)
  }

  lemma SoundMeansCallable(c: Config, s: State, jobId: string)
    requires Sound(c, s)
    ensures D.SettingsValid(c.detection) && D.RunsAbove(c.detection, s.confirmer) && Started(s, jobId)
  {
    GoodMeansStarted(c, s, jobId);
  }

  // ---- One frame -------------------------------------------------------------------------------

  lemma EventShape(s: D.Settings, m: D.Memory, jobId: string, f: D.Frame)
    requires D.SettingsValid(s) && D.RunsAbove(s, m)
    ensures var event := D.Observe(s, m, jobId, f).1;
            event.Some? ==> event.value.jobId == jobId
                            && exists first, last :: event.value.eventId == s.eventIdOf(jobId, first, last)
  {
    hide D.RunsAbove;
  }

  function Counted(s: State, jobId: string, confirmer: D.Memory): State
    requires jobId in s.jobs
  {
    var job := s.jobs[jobId];
    s.(jobs := s.jobs[jobId := job.(core := job.core.(framesProcessed := job.core.framesProcessed + 1))], confirmer := confirmer)
  }

  function BoundFor(job: Job, e: D.Event): BoundEvent {
    BoundEvent(e, job.organizationId, job.cameraId, job.correlationId)
  }

  /** The service state after a frame of a running job: the frame is counted and observed, and a
      confirmed run of a job without event is announced and published to every sink. */
  function Processed(c: Config, s: State, jobId: string, f: D.Frame): State
    requires D.SettingsValid(c.detection) && D.RunsAbove(c.detection, s.confirmer) && jobId in s.jobs
  {
    var (confirmer, event) := D.Observe(c.detection, s.confirmer, jobId, f);
    var counted := Counted(s, jobId, confirmer);
    if event.None? || s.jobs[jobId].core.eventIds != [] then counted
    else Announced(c, counted, jobId, BoundFor(s.jobs[jobId], event.value))
  }

  ghost predicate HasTaken(s: State, jobId: string) {
    jobId in s.jobs && jobId in s.workers && s.jobs[jobId].core.framesProcessed < s.workers[jobId].1
  }

  lemma TakenWithinLimit(c: Config, s: State, jobId: string)
    requires Good(c, s) && HasTaken(s, jobId)
    ensures s.jobs[jobId].core.framesProcessed < J.FRAME_LIMIT && s.jobs[jobId].core.log.transitions != []
  {
    JobIsSound(c, s, jobId);
  }

  /** Processing a frame never raises: no frame limit, no unbound event and no collision. */
  lemma ProcessFrameSucceeds(c: Config, s: State, jobId: string, f: D.Frame)
    requires Sound(c, s) && HasTaken(s, jobId)
    ensures s.jobs[jobId].core.log.transitions != []
    ensures ProcessFrame(c, s, jobId, f).0 == Processed(c, s, jobId, f)
    ensures ProcessFrame(c, s, jobId, f).1 == Ok(OutcomeOf(Processed(c, s, jobId, f), jobId))
    ensures Good(c, Processed(c, s, jobId, f))
  {
    hide Good, IdsDistinct, D.Observe, D.RunsAbove, IsEventIdOf, Publish;
    GoodRunsAbove(c, s);
    TakenWithinLimit(c, s, jobId);
    D.ObserveKeepsRuns(c.detection, s.confirmer, jobId, f);
    EventShape(c.detection, s.confirmer, jobId, f);
    var (confirmer, event) := D.Observe(c.detection, s.confirmer, jobId, f);
    CountKeeps(c, s, jobId, confirmer);
    var counted := Counted(s, jobId, confirmer);
    var job := s.jobs[jobId];
    if event.Some? && job.core.eventIds == [] {
      var bound := BoundFor(job, event.value);
      EventIsOwn(c, bound.event.eventId, jobId);
      PublishNew(c, counted, jobId, bound);
      AnnouncedGood(c, counted, jobId, bound);
      var core := counted.jobs[jobId].core.(eventIds := [event.value.eventId]);
      assert counted.jobs[jobId := counted.jobs[jobId].(core := core)] == s.jobs[jobId := counted.jobs[jobId].(core := core)];
    }
  }

  lemma EventIsOwn(c: Config, e: string, jobId: string)
    requires exists first, last :: e == c.detection.eventIdOf(jobId, first, last)
    ensures IsEventIdOf(c, e, jobId)
  {}

  lemma GoodRunsAbove(c: Config, s: State)
    requires Good(c, s)
    ensures D.RunsAbove(c.detection, s.confirmer)
  {}

  // ---- Advancing -------------------------------------------------------------------------------

  /** The frame that an advance hands to the confirmer, if any. */
  function FrameFor(s: State, jobId: string, x: Context, now: int): Option<D.Frame>
    requires Started(s, jobId)
  {
    if Authorize(s, jobId, x).Some? || s.jobs[jobId].core.log.state != J.Running || now >= s.jobs[jobId].deadline then None
    else
      var frame := NextFrame(s, jobId).1;
      if frame.Some? && frame.value.observedAt <= s.jobs[jobId].deadline then frame else None
  }

  function Remaining(s: State, jobId: string): nat {
    if jobId !in s.workers || jobId in s.cancelledWorkers || s.workers[jobId].1 > |s.workers[jobId].0| then 0
    else |s.workers[jobId].0| - s.workers[jobId].1
  }

  lemma TakenFrame(c: Config, s: State, jobId: string)
    requires Good(c, s) && jobId in s.jobs
    ensures jobId in s.workers
    ensures var (t, frame) := NextFrame(s, jobId);
            frame.Some? ==> HasTaken(t, jobId) && t == s.(workers := t.workers) && Remaining(t, jobId) + 1 == Remaining(s, jobId)
    ensures NextFrame(s, jobId).1.None? ==> NextFrame(s, jobId).0 == s
  {
    hide NextFrame;
    JobIsSound(c, s, jobId);
    NextFrameStep(s, jobId);
  }

  /** An advance that hands a frame to the confirmer. */
  lemma AdvanceProcesses(c: Config, s: State, jobId: string, x: Context, now: int)
    requires Sound(c, s) && Started(s, jobId) && FrameFor(s, jobId, x, now).Some?
    ensures jobId in s.workers && HasTaken(NextFrame(s, jobId).0, jobId)
    ensures Good(c, NextFrame(s, jobId).0)
    ensures var t := Processed(c, NextFrame(s, jobId).0, jobId, FrameFor(s, jobId, x, now).value);
            && jobId in t.jobs && t.jobs[jobId].core.log == s.jobs[jobId].core.log
            && t.jobs[jobId].core.log.transitions != []
            && Advance(c, s, jobId, x, now) == (t, Ok(OutcomeOf(t, jobId)))
            && Good(c, t)
            && Remaining(t, jobId) + 1 == Remaining(s, jobId)
            && t.workers == NextFrame(s, jobId).0.workers
  {
    hide Good, IdsDistinct, D.Observe, D.RunsAbove, NextFrame, ProcessFrame, Announced;
    GoodRunsAbove(c, s);
    TakenFrame(c, s, jobId);
    NextFrameKeeps(c, s, jobId);
    var taken := NextFrame(s, jobId).0;
    var f := FrameFor(s, jobId, x, now).value;
    ProcessFrameSucceeds(c, taken, jobId, f);
    ProcessedKeepsLog(c, taken, jobId, f);
  }

  lemma ProcessedKeepsLog(c: Config, s: State, jobId: string, f: D.Frame)
    requires D.SettingsValid(c.detection) && D.RunsAbove(c.detection, s.confirmer) && jobId in s.jobs
    ensures var t := Processed(c, s, jobId, f);
            && jobId in t.jobs && t.jobs[jobId].core.log == s.jobs[jobId].core.log && t.workers == s.workers
            && t.cancelledWorkers == s.cancelledWorkers && t.jobs[jobId].deadline == s.jobs[jobId].deadline
            && SameOwner(s.jobs[jobId], t.jobs[jobId])
  {
    hide D.Observe, D.RunsAbove, Announced;
    var (confirmer, event) := D.Observe(c.detection, s.confirmer, jobId, f);
    var counted := Counted(s, jobId, confirmer);
    if event.Some? {
      AnnouncedKeepsLog(c, counted, jobId, BoundFor(s.jobs[jobId], event.value));
    }
  }

  lemma AnnouncedKeepsLog(c: Config, s: State, jobId: string, bound: BoundEvent)
    requires jobId in s.jobs
    ensures var t := Announced(c, s, jobId, bound);
            && jobId in t.jobs && t.jobs[jobId] == s.jobs[jobId].(core := s.jobs[jobId].core.(eventIds := [bound.event.eventId]))
            && t.workers == s.workers && t.cancelledWorkers == s.cancelledWorkers && t.confirmer == s.confirmer
  {}

  predicate SameOwner(a: Job, b: Job) {
    a.organizationId == b.organizationId && a.actorId == b.actorId && a.deviceId == b.deviceId
  }

  /** An advance that does not: it is refused, finds the job over, or tries to complete it. */
  lemma AdvanceOtherwise(c: Config, s: State, jobId: string, x: Context, now: int)
    requires Sound(c, s) && Started(s, jobId) && FrameFor(s, jobId, x, now).None?
    ensures D.RunsAbove(c.detection, s.confirmer)
    ensures var (t, reply) := Advance(c, s, jobId, x, now);
            && Good(c, t)
            && (Authorize(s, jobId, x).Some? ==> t == s && reply == Raised(Authorize(s, jobId, x).value))
            && (Authorize(s, jobId, x).None? ==>
                  && (reply.Ok? <==> s.jobs[jobId].core.log.state != J.Running || now >= J.LastTime(s.jobs[jobId].core.log))
                  && (reply.Ok? ==> reply.value.status == J.Completed || reply.value.status == J.Cancelled)
                  && (reply.Ok? ==> jobId in t.jobs && t.jobs[jobId].core.log.state == reply.value.status)
                  && (reply.Raised? ==> reply.error == TransitionRefused(J.TimestampMovedBackwards)))
  {
    hide Good, IdsDistinct, D.RunsAbove, NextFrame, ProcessFrame, Finish;
    GoodRunsAbove(c, s);
    if Authorize(s, jobId, x).None? {
      var job := s.jobs[jobId];
      JobHasState(c, s, jobId);
      if job.core.log.state == J.Running {
        TakenFrame(c, s, jobId);
        NextFrameKeeps(c, s, jobId);
        var fed := NextFrame(s, jobId).0;
        var reason := if NextFrame(s, jobId).1.None? then "FRAME_SEQUENCE_EXHAUSTED" else "DURATION_ELAPSED";
        FinishKeeps(c, s, jobId, J.Completed, "complete", now, "DURATION_ELAPSED", "SIMULATION_COMPLETED", SimulatedResult);
        FinishKeeps(c, fed, jobId, J.Completed, "complete", now, reason, "SIMULATION_COMPLETED", SimulatedResult);
      }
    }
  }

  lemma JobHasState(c: Config, s: State, jobId: string)
    requires Good(c, s) && jobId in s.jobs
    ensures var log := s.jobs[jobId].core.log;
            log.state == J.Running || log.state == J.Completed || log.state == J.Cancelled
  {
    JobIsSound(c, s, jobId);
  }

  lemma AdvanceKeeps(c: Config, s: State, jobId: string, x: Context, now: int)
    requires Sound(c, s)
    ensures D.SettingsValid(c.detection) && D.RunsAbove(c.detection, s.confirmer) && Started(s, jobId)
    ensures Sound(c, Advance(c, s, jobId, x, now).0)
  {
    hide Good, Advance, FrameFor, IdsDistinct;
    SoundMeansCallable(c, s, jobId);
    if FrameFor(s, jobId, x, now).Some? {
      AdvanceProcesses(c, s, jobId, x, now);
    } else {
      AdvanceOtherwise(c, s, jobId, x, now);
    }
  }

  // ---- Cancelling ------------------------------------------------------------------------------

  lemma StopKeeps(c: Config, s: State, jobId: string)
    requires Good(c, s)
    ensures Good(c, s.(cancelledWorkers := s.cancelledWorkers + {jobId}))
  {
    hide EventSound, AnnouncedSound, D.RunsAbove, CommandsGood, IsDue, IsDelivered, JobSound;
    var t := s.(cancelledWorkers := s.cancelledWorkers + {jobId});
    assert Extends(s, t) && SameProgress(s, t) && OnlyChanges(s, t, jobId);
    EventsCarry(c, s, t);
    CommandsCarry(c, s, t);
    forall id ensures JobSound(c, t, id) {
      assert JobSound(c, s, id);
      StopJob(c, s, jobId, id);
    }
  }

  lemma StopJob(c: Config, s: State, jobId: string, id: string)
    requires JobSound(c, s, id)
    ensures JobSound(c, s.(cancelledWorkers := s.cancelledWorkers + {jobId}), id)
  {
    hide J.Legal;
  }

  /** Cancelling a running job in good time ends it; later it answers with what it was, and only
      time moving backwards is refused. A refused cancellation has already stopped the frames: the
      job goes on running with a cancelled worker, and nothing else changed. */
  lemma CancelKeeps(c: Config, s: State, jobId: string, x: Context, now: int)
    requires Sound(c, s)
    ensures Started(s, jobId)
    ensures var (t, reply) := Cancel(c, s, jobId, x, now);
            && Sound(c, t)
            && (Authorize(s, jobId, x).Some? ==> t == s && reply == Raised(Authorize(s, jobId, x).value))
            && (Authorize(s, jobId, x).None? ==>
                  var log := s.jobs[jobId].core.log;
                  && (reply.Ok? <==> log.state != J.Running || now >= J.LastTime(log))
                  && (reply.Ok? ==> reply.value.status == if log.state == J.Running then J.Cancelled else log.state)
                  && (log.state != J.Running ==> t == s)
                  && (reply.Raised? ==> reply.error == TransitionRefused(J.TimestampMovedBackwards)
                                        && t == s.(cancelledWorkers := s.cancelledWorkers + {jobId})))
  {
    hide Good, IdsDistinct, D.RunsAbove, Finish;
    SoundMeansCallable(c, s, jobId);
    if Authorize(s, jobId, x).None? {
      JobHasState(c, s, jobId);
      if s.jobs[jobId].core.log.state == J.Running {
        StopKeeps(c, s, jobId);
        var stopped := s.(cancelledWorkers := s.cancelledWorkers + {jobId});
        FinishKeeps(c, stopped, jobId, J.Cancelled, "cancel", now, "CANCELLED_BY_OPERATOR", "CANCELLED_BY_OPERATOR", CancelledResult);
      }
    }
  }

  /** So a refused cancellation is not without effect: however many frames were left, the next advance
      processes none. It completes the job as exhausted, or as elapsed from the deadline on, unless it
      comes before the job's last transition as well. */
  lemma RefusedCancelEndsFrames(c: Config, s: State, jobId: string, x: Context, early: int, y: Context, now: int)
    requires Sound(c, s) && Authorize(s, jobId, x).None? && Authorize(s, jobId, y).None? && Started(s, jobId)
    requires Cancel(c, s, jobId, x, early).1.Raised?
    ensures var t := Cancel(c, s, jobId, x, early).0;
            && jobId in s.jobs && s.jobs[jobId].core.log.state == J.Running
            && Sound(c, t) && Started(t, jobId)
            && D.RunsAbove(c.detection, t.confirmer)
            && var reason := if now >= s.jobs[jobId].deadline then "DURATION_ELAPSED" else "FRAME_SEQUENCE_EXHAUSTED";
               Advance(c, t, jobId, y, now).1 ==
               if now < J.LastTime(s.jobs[jobId].core.log) then Raised(TransitionRefused(J.TimestampMovedBackwards))
               else Ok(Outcome(Some(jobId), J.Completed, s.jobs[jobId].core.eventIds, reason))
  {
    hide Good, IdsDistinct, D.RunsAbove, Finish, Cancel;
    CancelKeeps(c, s, jobId, x, early);
    var t := Cancel(c, s, jobId, x, early).0;
    SoundMeansCallable(c, t, jobId);
    FinishKeeps(c, t, jobId, J.Completed, "complete", now, "DURATION_ELAPSED", "SIMULATION_COMPLETED", SimulatedResult);
    FinishKeeps(c, t, jobId, J.Completed, "complete", now, "FRAME_SEQUENCE_EXHAUSTED", "SIMULATION_COMPLETED", SimulatedResult);
  }

  // ---- The bounded driver ----------------------------------------------------------------------

  function Drive(c: Config, s: State, jobId: string, x: Context, now: int, limit: nat): (State, Reply<Outcome>)
    requires Sound(c, s)
    decreases limit
  {
    if limit == 0 then (s, Raised(DriverDidNotTerminate))
    else
      AdvanceKeeps(c, s, jobId, x, now);
      var (t, reply) := Advance(c, s, jobId, x, now);
      if reply.Raised? || reply.value.status != J.Running then (t, reply)
      else Drive(c, t, jobId, x, now, limit - 1)
  }

  /** At most 301 advances. */
  function RunToCompletion(c: Config, s: State, jobId: string, x: Context, now: int): (State, Reply<Outcome>)
    requires Sound(c, s)
  {
    Drive(c, s, jobId, x, now, MAXIMUM_FRAMES + 1)
  }

  /** The job is over, unless it was running and time moved backwards since its last transition. */
  predicate IsOver(log: J.Log, jobId: string, now: int, t: State, reply: Reply<Outcome>) {
    && log.transitions != []
    && (reply.Ok? <==> log.state != J.Running || now >= J.LastTime(log))
    && (reply.Ok? ==> reply.value.status == J.Completed || reply.value.status == J.Cancelled)
    && (reply.Ok? ==> jobId in t.jobs && t.jobs[jobId].core.log.state == reply.value.status)
    && (reply.Raised? ==> reply.error == TransitionRefused(J.TimestampMovedBackwards))
  }

  ghost predicate DriveIsOver(c: Config, s: State, jobId: string, x: Context, now: int, limit: nat)
    requires Sound(c, s) && jobId in s.jobs
  {
    var (t, reply) := Drive(c, s, jobId, x, now, limit);
    Good(c, t) && IsOver(s.jobs[jobId].core.log, jobId, now, t, reply)
  }

  lemma {:induction false} DriveEnds(c: Config, s: State, jobId: string, x: Context, now: int, limit: nat)
    requires Sound(c, s) && Authorize(s, jobId, x).None? && limit > Remaining(s, jobId)
    ensures jobId in s.jobs && DriveIsOver(c, s, jobId, x, now, limit)
    decreases limit
  {
    hide DriveIsOver, Sound, Advance, Authorize, FrameFor, Remaining, D.RunsAbove;
    SoundMeansCallable(c, s, jobId);
    if FrameFor(s, jobId, x, now).Some? {
      DriveContinues(c, s, jobId, x, now);
      DriveEnds(c, Advance(c, s, jobId, x, now).0, jobId, x, now, limit - 1);
      DriveGoesOn(c, s, jobId, x, now, limit);
    } else {
      DriveStops(c, s, jobId, x, now, limit);
    }
  }

  lemma DriveGoesOn(c: Config, s: State, jobId: string, x: Context, now: int, limit: nat)
    requires Sound(c, s) && Started(s, jobId) && FrameFor(s, jobId, x, now).Some? && limit > 0
    requires var t := Advance(c, s, jobId, x, now).0;
             Sound(c, t) && jobId in t.jobs && DriveIsOver(c, t, jobId, x, now, limit - 1)
    ensures jobId in s.jobs && DriveIsOver(c, s, jobId, x, now, limit)
  {
    hide Good, Sound, Started, D.RunsAbove, Advance, Authorize, FrameFor, Remaining, Drive, IsOver;
    DriveStep(c, s, jobId, x, now, limit);
    DriveContinues(c, s, jobId, x, now);
  }

  lemma DriveStep(c: Config, s: State, jobId: string, x: Context, now: int, limit: nat)
    requires Sound(c, s) && limit > 0
    ensures D.SettingsValid(c.detection) && D.RunsAbove(c.detection, s.confirmer) && Started(s, jobId)
    ensures var (t, reply) := Advance(c, s, jobId, x, now);
            && Sound(c, t)
            && Drive(c, s, jobId, x, now, limit) ==
               if reply.Raised? || reply.value.status != J.Running then (t, reply) else Drive(c, t, jobId, x, now, limit - 1)
  {
    hide Good, IdsDistinct, Advance, D.RunsAbove;
    AdvanceKeeps(c, s, jobId, x, now);
  }

  /** An advance that processes a frame leaves one frame less and the job running. */
  lemma DriveContinues(c: Config, s: State, jobId: string, x: Context, now: int)
    requires Sound(c, s) && Started(s, jobId) && FrameFor(s, jobId, x, now).Some?
    ensures D.RunsAbove(c.detection, s.confirmer) && jobId in s.jobs
    ensures var (t, reply) := Advance(c, s, jobId, x, now);
            && Sound(c, t) && Authorize(t, jobId, x).None? && Remaining(t, jobId) + 1 == Remaining(s, jobId)
            && t.jobs[jobId].core.log == s.jobs[jobId].core.log && reply.Ok? && reply.value.status == J.Running
            && t.jobs[jobId].deadline == s.jobs[jobId].deadline
  {
    hide Good, IdsDistinct, D.RunsAbove, Advance, Processed, NextFrame;
    AdvanceProcesses(c, s, jobId, x, now);
    AdvanceOwner(c, s, jobId, x, now);
    RunningFrame(s, jobId, x, now);
  }

  lemma AuthorizedExists(s: State, jobId: string, x: Context)
    requires Authorize(s, jobId, x).None?
    ensures jobId in s.jobs
  {}

  lemma DriveStops(c: Config, s: State, jobId: string, x: Context, now: int, limit: nat)
    requires Sound(c, s) && Started(s, jobId) && Authorize(s, jobId, x).None? && FrameFor(s, jobId, x, now).None?
    requires limit > 0
    ensures jobId in s.jobs && DriveIsOver(c, s, jobId, x, now, limit)
  {
    hide Good, Sound, D.RunsAbove, Advance, Authorize, FrameFor, Remaining, Drive;
    AuthorizedExists(s, jobId, x);
    DriveStep(c, s, jobId, x, now, limit);
    AdvanceOtherwise(c, s, jobId, x, now);
    assert Drive(c, s, jobId, x, now, limit) == Advance(c, s, jobId, x, now);
  }

  lemma RunningFrame(s: State, jobId: string, x: Context, now: int)
    requires Started(s, jobId) && FrameFor(s, jobId, x, now).Some?
    ensures jobId in s.jobs && s.jobs[jobId].core.log.state == J.Running && now < s.jobs[jobId].deadline
  {}

  lemma AdvanceOwner(c: Config, s: State, jobId: string, x: Context, now: int)
    requires Sound(c, s) && Started(s, jobId) && FrameFor(s, jobId, x, now).Some?
    ensures D.RunsAbove(c.detection, s.confirmer)
    ensures var t := Advance(c, s, jobId, x, now).0;
            jobId in t.jobs && SameOwner(s.jobs[jobId], t.jobs[jobId]) && t.jobs[jobId].deadline == s.jobs[jobId].deadline
  {
    hide Good, IdsDistinct, D.RunsAbove, Advance, Processed, NextFrame;
    GoodRunsAbove(c, s);
    AdvanceProcesses(c, s, jobId, x, now);
    TakenFrame(c, s, jobId);
    GoodRunsAbove(c, NextFrame(s, jobId).0);
    ProcessedKeepsLog(c, NextFrame(s, jobId).0, jobId, FrameFor(s, jobId, x, now).value);
  }

  lemma RemainingBounded(c: Config, s: State, jobId: string)
    requires Sound(c, s)
    ensures Remaining(s, jobId) <= MAXIMUM_FRAMES
  {
    hide JobsGood;
    JobIsSound(c, s, jobId);
  }

  /** The driver always ends its job within 301 advances, or is refused for a time before the job's
      start: its own guard and the frame limit are unreachable. */
  lemma RunToCompletionEnds(c: Config, s: State, jobId: string, x: Context, now: int)
    requires Sound(c, s) && Authorize(s, jobId, x).None?
    ensures var (t, reply) := RunToCompletion(c, s, jobId, x, now);
            && Good(c, t)
            && IsOver(s.jobs[jobId].core.log, jobId, now, t, reply)
  {
    hide Good, Drive, IsOver;
    RemainingBounded(c, s, jobId);
    DriveEnds(c, s, jobId, x, now, MAXIMUM_FRAMES + 1);
  }
}
