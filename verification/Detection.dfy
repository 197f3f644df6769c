/**
 Temporal confirmation: a person is reported once per job, at the first frame that ends a run of
 `minimumFrames` consecutive frames at or above the confidence threshold.
 */
module Detection {
  // Confidences are reals. The event id is a function of the job and the first and last frame of the
  // confirmed run.

  import opened Sequences
  import opened Options

  datatype Frame = Frame(frameId: string, observedAt: int, confidence: Option<real>)

  datatype Event = Event(
    eventId: string, jobId: string, confidence: real, frameCount: nat, firstSeenAt: int, lastSeenAt: int)

  datatype Settings = Settings(threshold: real, minimumFrames: nat, eventIdOf: (string, string, string) -> string)

  predicate SettingsValid(s: Settings) {
    0.0 < s.threshold <= 1.0 && 2 <= s.minimumFrames <= 300
  }

  datatype Memory = Memory(runs: map<string, seq<Frame>>, emitted: set<string>)

  const NOTHING_OBSERVED := Memory(map[], {})

  predicate Above(s: Settings, f: Frame) {
    f.confidence.Some? && f.confidence.value >= s.threshold
  }

  function RunOf(m: Memory, jobId: string): seq<Frame> {
    if jobId in m.runs then m.runs[jobId] else []
  }

  function Lowest(frames: seq<Frame>): real
    requires frames != [] && forall f :: f in frames ==> f.confidence.Some?
  {
    var last := frames[|frames| - 1].confidence.value;
    if |frames| == 1 then last
    else
      var rest := Lowest(frames[..|frames| - 1]);
      if last < rest then last else rest
  }

  /** The event for a confirmed run. */
  function EventFor(s: Settings, jobId: string, confirmed: seq<Frame>): Event
    requires confirmed != [] && forall f :: f in confirmed ==> f.confidence.Some?
  {
    var first, last := confirmed[0], confirmed[|confirmed| - 1];
    Event(s.eventIdOf(jobId, first.frameId, last.frameId), jobId, Lowest(confirmed), |confirmed|, first.observedAt, last.observedAt)
  }

  /** All remembered runs consist of frames above the threshold. */
  ghost predicate RunsAbove(s: Settings, m: Memory) {
    forall j, f :: f in RunOf(m, j) ==> Above(s, f)
  }

  function Observe(s: Settings, m: Memory, jobId: string, f: Frame): (Memory, Option<Event>)
    requires SettingsValid(s) && RunsAbove(s, m)
  {
    if jobId in m.emitted then (m, None)
    else if !Above(s, f) then (m.(runs := m.runs[jobId := []]), None)
    else
      var run := RunOf(m, jobId) + [f];
      var after := m.(runs := m.runs[jobId := run]);
      if |run| < s.minimumFrames then (after, None)
      else
        AboveSuffix(s, m, jobId, f);
        AboveWindow(s, run, s.minimumFrames);
        (after.(emitted := m.emitted + {jobId}), Some(EventFor(s, jobId, run[|run| - s.minimumFrames..])))
  }

  lemma AboveSuffix(s: Settings, m: Memory, jobId: string, f: Frame)
    requires RunsAbove(s, m) && Above(s, f)
    ensures forall g :: g in RunOf(m, jobId) + [f] ==> Above(s, g)
  {}

  lemma AboveWindow(s: Settings, run: seq<Frame>, k: nat)
    requires k <= |run| && forall g :: g in run ==> Above(s, g)
    ensures forall g :: g in run[|run| - k..] ==> Above(s, g) && g.confidence.Some?
  {
    forall g | g in run[|run| - k..] ensures Above(s, g) {
      assert g in run;
    }
  }

  lemma ObserveKeepsRuns(s: Settings, m: Memory, jobId: string, f: Frame)
    requires SettingsValid(s) && RunsAbove(s, m)
    ensures RunsAbove(s, Observe(s, m, jobId, f).0)
  {
    var after := Observe(s, m, jobId, f).0;
    forall j, g | g in RunOf(after, j) ensures Above(s, g) {
      if j != jobId {
        assert RunOf(after, j) == RunOf(m, j);
      }
    }
  }

  class TemporalPersonConfirmer {
    const settings: Settings
    var runs: map<string, seq<Frame>>
    var emittedJobs: set<string>

    ghost function Value(): Memory
      reads this
    {
      Memory(runs, emittedJobs)
    }

    ghost predicate Valid()
      reads this
    {
      SettingsValid(settings) && RunsAbove(settings, Value())
    }

    constructor (settings: Settings)
      requires SettingsValid(settings)
      ensures Valid() && Value() == NOTHING_OBSERVED && this.settings == settings
    {
      this.settings := settings;
      runs, emittedJobs := map[], {};
    }

    method ObserveFrame(jobId: string, frame: Frame) returns (event: Option<Event>)
      requires Valid()
      modifies this
      ensures Valid()
      ensures (Value(), event) == Observe(settings, old(Value()), jobId, frame)
    {
      hide RunsAbove;
      ObserveKeepsRuns(settings, Value(), jobId, frame);
      if jobId in emittedJobs {
        return None;
      }
      if frame.confidence.None? || frame.confidence.value < settings.threshold {
        runs := runs[jobId := []];
        return None;
      }
      AboveSuffix(settings, Value(), jobId, frame);
      if jobId !in runs {
        runs := runs[jobId := []];
      }
      var run := runs[jobId] + [frame];
      runs := runs[jobId := run];
      assert runs == old(runs)[jobId := run];
      if |run| < settings.minimumFrames {
        return None;
      }
      var confirmed := run[|run| - settings.minimumFrames..];
      AboveWindow(settings, run, settings.minimumFrames);
      emittedJobs := emittedJobs + {jobId};
      return Some(EventFor(settings, jobId, confirmed));
    }
  }

  // ---- Any interleaving of jobs ----------------------------------------------------------------

  datatype Observation = Observation(jobId: string, frame: Frame)

  function ObserveAll(s: Settings, observations: seq<Observation>): (m: Memory)
    requires SettingsValid(s)
    ensures RunsAbove(s, m)
  {
    if observations == [] then NOTHING_OBSERVED
    else
      var before := ObserveAll(s, observations[..|observations| - 1]);
      var last := observations[|observations| - 1];
      ObserveKeepsRuns(s, before, last.jobId, last.frame);
      Observe(s, before, last.jobId, last.frame).0
  }

  /** The answer to the last of a sequence of observations. */
  function Answer(s: Settings, observations: seq<Observation>): Option<Event>
    requires SettingsValid(s) && observations != []
  {
    var last := observations[|observations| - 1];
    Observe(s, ObserveAll(s, observations[..|observations| - 1]), last.jobId, last.frame).1
  }

  function FramesOf(observations: seq<Observation>, jobId: string): seq<Frame> {
    if observations == [] then []
    else
      var last := observations[|observations| - 1];
      FramesOf(observations[..|observations| - 1], jobId) + (if last.jobId == jobId then [last.frame] else [])
  }

  /** The last `minimumFrames` frames are all at or above the threshold. */
  ghost predicate EndsConfirmedRun(s: Settings, frames: seq<Frame>) {
    && |frames| >= s.minimumFrames
    && forall i :: |frames| - s.minimumFrames <= i < |frames| ==> Above(s, frames[i])
  }

  /** Some earlier frame already ended a confirmed run. */
  ghost predicate ConfirmedBefore(s: Settings, frames: seq<Frame>) {
    exists n :: 0 <= n < |frames| && EndsConfirmedRun(s, frames[..n])
  }

  ghost predicate ConfirmedWithin(s: Settings, frames: seq<Frame>) {
    exists n :: 0 <= n <= |frames| && EndsConfirmedRun(s, frames[..n])
  }

  /** The run is the longest suffix of the job's frames above the threshold. */
  ghost predicate RunIsSuffix(s: Settings, frames: seq<Frame>, run: seq<Frame>) {
    && |run| <= |frames| && run == frames[|frames| - |run|..]
    && (forall f :: f in run ==> Above(s, f))
    && (|run| < |frames| ==> !Above(s, frames[|frames| - |run| - 1]))
  }

  ghost predicate MemoryFits(s: Settings, m: Memory, frames: seq<Frame>, jobId: string) {
    && (jobId in m.emitted <==> ConfirmedWithin(s, frames))
    && (jobId !in m.emitted ==> RunIsSuffix(s, frames, RunOf(m, jobId)))
  }

  lemma SuffixConfirms(s: Settings, frames: seq<Frame>, run: seq<Frame>)
    requires RunIsSuffix(s, frames, run) && s.minimumFrames >= 1
    ensures EndsConfirmedRun(s, frames) <==> |run| >= s.minimumFrames
  {
    if |run| >= s.minimumFrames {
      forall i | |frames| - s.minimumFrames <= i < |frames| ensures Above(s, frames[i]) {
        assert frames[i] == run[i - (|frames| - |run|)];
      }
    }
  }

  lemma SuffixGrows(s: Settings, frames: seq<Frame>, run: seq<Frame>, f: Frame)
    requires RunIsSuffix(s, frames, run)
    ensures RunIsSuffix(s, frames + [f], if Above(s, f) then run + [f] else [])
  {}

  /** Confirmation within a longer sequence: before its last frame, or right there. */
  lemma ConfirmedLater(s: Settings, frames: seq<Frame>, f: Frame)
    ensures ConfirmedWithin(s, frames + [f]) <==> ConfirmedWithin(s, frames) || EndsConfirmedRun(s, frames + [f])
    ensures ConfirmedBefore(s, frames + [f]) <==> ConfirmedWithin(s, frames)
  {
    hide EndsConfirmedRun;
    var more := frames + [f];
    assert more[..|more|] == more;
    assert forall n :: 0 <= n <= |frames| ==> more[..n] == frames[..n];
    if ConfirmedWithin(s, frames) {
      var n :| 0 <= n <= |frames| && EndsConfirmedRun(s, frames[..n]);
      assert EndsConfirmedRun(s, more[..n]);
    }
  }

  lemma StepFits(s: Settings, m: Memory, frames: seq<Frame>, jobId: string, f: Frame)
    requires SettingsValid(s) && RunsAbove(s, m) && MemoryFits(s, m, frames, jobId)
    ensures MemoryFits(s, Observe(s, m, jobId, f).0, frames + [f], jobId)
  {
    hide EndsConfirmedRun, RunsAbove, RunIsSuffix, EventFor, ConfirmedWithin;
    ConfirmedLater(s, frames, f);
    if jobId !in m.emitted {
      var run := if Above(s, f) then RunOf(m, jobId) + [f] else [];
      SuffixGrows(s, frames, RunOf(m, jobId), f);
      SuffixConfirms(s, frames + [f], run);
      assert RunOf(Observe(s, m, jobId, f).0, jobId) == run;
    }
  }

  lemma OtherJobFits(s: Settings, m: Memory, frames: seq<Frame>, jobId: string, other: string, f: Frame)
    requires SettingsValid(s) && RunsAbove(s, m) && MemoryFits(s, m, frames, jobId) && other != jobId
    ensures MemoryFits(s, Observe(s, m, other, f).0, frames, jobId)
  {
    hide EndsConfirmedRun, RunsAbove, RunIsSuffix, EventFor;
  }

  lemma {:induction false} ObserveAllFits(s: Settings, observations: seq<Observation>, jobId: string)
    requires SettingsValid(s)
    ensures MemoryFits(s, ObserveAll(s, observations), FramesOf(observations, jobId), jobId)
  {
    if observations != [] {
      hide MemoryFits, Observe;
      var front, last := observations[..|observations| - 1], observations[|observations| - 1];
      ObserveAllFits(s, front, jobId);
      if last.jobId == jobId {
        StepFits(s, ObserveAll(s, front), FramesOf(front, jobId), jobId, last.frame);
      } else {
        OtherJobFits(s, ObserveAll(s, front), FramesOf(front, jobId), jobId, last.jobId, last.frame);
        assert FramesOf(observations, jobId) == FramesOf(front, jobId);
      }
    } else {
      assert !EndsConfirmedRun(s, []) && FramesOf(observations, jobId) == [];
    }
  }

  /** Whatever jobs are interleaved, an observation yields an event exactly when the job's own
      frames end a confirmed run for the first time; the event then describes that run, with the
      lowest confidence in it. */
  lemma EventExactlyAtFirstConfirmation(s: Settings, observations: seq<Observation>)
    requires SettingsValid(s) && observations != []
    ensures var jobId := observations[|observations| - 1].jobId;
            var frames := FramesOf(observations, jobId);
            && (Answer(s, observations).Some? <==> EndsConfirmedRun(s, frames) && !ConfirmedBefore(s, frames))
            && (Answer(s, observations).Some? ==>
                  && (forall f :: f in frames[|frames| - s.minimumFrames..] ==> f.confidence.Some?)
                  && Answer(s, observations).value == EventFor(s, jobId, frames[|frames| - s.minimumFrames..]))
  {
    hide Observe, ObserveAll, EventFor, EndsConfirmedRun, ConfirmedWithin, ConfirmedBefore, MemoryFits, RunsAbove;
    var front, last := observations[..|observations| - 1], observations[|observations| - 1];
    var jobId := last.jobId;
    var before := FramesOf(front, jobId);
    assert FramesOf(observations, jobId) == before + [last.frame];
    ObserveAllFits(s, front, jobId);
    ConfirmedLater(s, before, last.frame);
    ObservedEvent(s, ObserveAll(s, front), before, jobId, last.frame);
  }

  lemma ObservedEvent(s: Settings, m: Memory, frames: seq<Frame>, jobId: string, f: Frame)
    requires SettingsValid(s) && RunsAbove(s, m) && MemoryFits(s, m, frames, jobId)
    ensures var more, event := frames + [f], Observe(s, m, jobId, f).1;
            && (event.Some? <==> EndsConfirmedRun(s, more) && !ConfirmedWithin(s, frames))
            && (event.Some? ==>
                  && (forall g :: g in more[|more| - s.minimumFrames..] ==> g.confidence.Some?)
                  && event.value == EventFor(s, jobId, more[|more| - s.minimumFrames..]))
  {
    hide RunsAbove, EndsConfirmedRun, RunIsSuffix, ConfirmedWithin, EventFor;
    var more := frames + [f];
    if jobId !in m.emitted {
      var run := if Above(s, f) then RunOf(m, jobId) + [f] else [];
      SuffixGrows(s, frames, RunOf(m, jobId), f);
      SuffixConfirms(s, more, run);
      SuffixWindow(s, more, run);
      if |run| >= s.minimumFrames {
        forall g | g in more[|more| - s.minimumFrames..] ensures g.confidence.Some? {
          assert Above(s, g);
        }
      }
    }
  }

  lemma SuffixWindow(s: Settings, frames: seq<Frame>, run: seq<Frame>)
    requires RunIsSuffix(s, frames, run)
    ensures |run| <= |frames|
    ensures |run| >= s.minimumFrames ==> run[|run| - s.minimumFrames..] == frames[|frames| - s.minimumFrames..]
    ensures |run| >= s.minimumFrames ==> forall f :: f in frames[|frames| - s.minimumFrames..] ==> Above(s, f)
  {
    if |run| >= s.minimumFrames {
      var w := run[|run| - s.minimumFrames..];
      forall f | f in w ensures Above(s, f) {
        assert f in run;
      }
    }
  }

  /** The reported confidence is one of the run's and none is lower. */
  lemma {:induction false} LowestIsMinimum(frames: seq<Frame>)
    requires frames != [] && forall f :: f in frames ==> f.confidence.Some?
    ensures exists f :: f in frames && f.confidence.value == Lowest(frames)
    ensures forall f :: f in frames ==> Lowest(frames) <= f.confidence.value
  {
    var n := |frames| - 1;
    FrontAndLast(frames);
    if n > 0 {
      var front, last := frames[..n], frames[n];
      LowestIsMinimum(front);
      LowestOfTwo(front, last);
      var g: Frame :| g in front && g.confidence.value == Lowest(front);
      assert g in frames && last in frames;
      forall f | f in frames ensures Lowest(frames) <= f.confidence.value {
        assert f in front || f == last;
      }
    } else {
      assert frames[0] in frames;
    }
  }

  lemma LowestOfTwo(front: seq<Frame>, last: Frame)
    requires front != [] && last.confidence.Some? && forall f :: f in front ==> f.confidence.Some?
    ensures forall f :: f in front + [last] ==> f.confidence.Some?
    ensures Lowest(front + [last]) ==
            if last.confidence.value < Lowest(front) then last.confidence.value else Lowest(front)
  {
    assert (front + [last])[..|front|] == front;
  }

  /** A job is reported at most once. */
  lemma {:induction false} AtMostOneEvent(s: Settings, observations: seq<Observation>, n: nat)
    requires SettingsValid(s) && 0 < n < |observations|
    requires Answer(s, observations[..n]).Some?
    requires observations[n - 1].jobId == observations[|observations| - 1].jobId
    ensures Answer(s, observations).None?
  {
    var jobId := observations[n - 1].jobId;
    assert observations[..n][..n - 1] == observations[..n - 1];
    assert jobId in ObserveAll(s, observations[..n]).emitted;
    assert observations[..|observations| - 1][..n] == observations[..n];
    EmittedStays(s, observations[..|observations| - 1], n, jobId);
  }

  lemma {:induction false} EmittedStays(s: Settings, observations: seq<Observation>, n: nat, jobId: string)
    requires SettingsValid(s) && n <= |observations| && jobId in ObserveAll(s, observations[..n]).emitted
    ensures jobId in ObserveAll(s, observations).emitted
    decreases |observations|
  {
    hide RunsAbove;
    if n < |observations| {
      var front := observations[..|observations| - 1];
      assert front[..n] == observations[..n];
      EmittedStays(s, front, n, jobId);
    } else {
      assert observations[..n] == observations;
    }
  }

  /** The `minimumFrames` frames before position `k` all have a confidence, and none is below the threshold. */
  ghost predicate ConfirmedAt(s: Settings, frames: seq<Frame>, k: nat) {
    && s.minimumFrames <= k <= |frames|
    && forall i :: k - s.minimumFrames <= i < k ==> frames[i].confidence.Some? && frames[i].confidence.value >= s.threshold
  }

  lemma EndsAt(s: Settings, frames: seq<Frame>, k: nat)
    requires k <= |frames|
    ensures EndsConfirmedRun(s, frames[..k]) <==> ConfirmedAt(s, frames, k)
  {
    if EndsConfirmedRun(s, frames[..k]) {
      forall i | k - s.minimumFrames <= i < k ensures Above(s, frames[i]) {
        assert frames[..k][i] == frames[i];
      }
    }
  }

  /** The event in full: it is given at the first position where the job's frames are confirmed, names the
      first and the last frame of that run, counts it, and reports its lowest confidence. */
  lemma EventTells(s: Settings, observations: seq<Observation>)
    requires SettingsValid(s) && observations != []
    ensures var jobId := observations[|observations| - 1].jobId;
            var frames, n := FramesOf(observations, jobId), s.minimumFrames;
            && (Answer(s, observations).Some? <==>
                  ConfirmedAt(s, frames, |frames|) && forall k :: 0 <= k < |frames| ==> !ConfirmedAt(s, frames, k))
            && (Answer(s, observations).Some? ==>
                  var e, first, last := Answer(s, observations).value, frames[|frames| - n], frames[|frames| - 1];
                  && e.jobId == jobId && e.frameCount == n && e.eventId == s.eventIdOf(jobId, first.frameId, last.frameId)
                  && e.firstSeenAt == first.observedAt && e.lastSeenAt == last.observedAt
                  && (forall i :: |frames| - n <= i < |frames| ==> frames[i].confidence.Some? && e.confidence <= frames[i].confidence.value)
                  && exists i :: |frames| - n <= i < |frames| && frames[i].confidence == Some(e.confidence))
  {
    hide Observe, ObserveAll, ConfirmedAt, EndsConfirmedRun, Lowest, FramesOf, Answer;
    var frames, n := FramesOf(observations, observations[|observations| - 1].jobId), s.minimumFrames;
    EventExactlyAtFirstConfirmation(s, observations);
    assert frames[..|frames|] == frames;
    forall k | 0 <= k <= |frames| ensures EndsConfirmedRun(s, frames[..k]) <==> ConfirmedAt(s, frames, k) {
      EndsAt(s, frames, k);
    }
    if Answer(s, observations).Some? {
      WindowTells(s, frames);
    }
  }

  lemma WindowTells(s: Settings, frames: seq<Frame>)
    requires SettingsValid(s) && ConfirmedAt(s, frames, |frames|)
    ensures var window := frames[|frames| - s.minimumFrames..];
            && |window| == s.minimumFrames && window[0] == frames[|frames| - s.minimumFrames]
            && window[|window| - 1] == frames[|frames| - 1] && (forall f :: f in window ==> f.confidence.Some?)
            && (forall i :: |frames| - s.minimumFrames <= i < |frames| ==>
                  frames[i].confidence.Some? && Lowest(window) <= frames[i].confidence.value)
            && exists i :: |frames| - s.minimumFrames <= i < |frames| && frames[i].confidence == Some(Lowest(window))
  {
    hide Lowest;
    var at := |frames| - s.minimumFrames;
    var window := frames[at..];
    LowestIsMinimum(window);
    forall i | at <= i < |frames| ensures Lowest(window) <= frames[i].confidence.value {
      assert window[i - at] == frames[i];
    }
    var g :| g in window && g.confidence.value == Lowest(window);
    var j :| 0 <= j < |window| && window[j] == g;
    assert frames[at + j] == g;
  }
}
