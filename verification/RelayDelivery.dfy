/**
 What a peer gets over any run, said from the history of accepted frames alone: which frames a pull
 lists, and which frame an acknowledgement settles.
 */
module RelayDelivery {
  import opened Sequences
  import opened Relay
  import opened RelayInvariants
  import opened RelayQueues
  import opened RelayHistory
  import opened RelayGuarantees
  import opened RelayReceipts

  /** The frames that wait for `d`: accepted, neither acknowledged nor discarded, and not yet expired. */
  function Waiting(l: Ledger, d: string, now: int): set<Frame> {
    set f | f in l.accepted && f.destination == d && f !in l.acknowledged && f !in l.expired && now < f.expiresAt
  }

  /** `f` was accepted before `g`. */
  ghost predicate Before(accepted: seq<Frame>, f: Frame, g: Frame) {
    exists m, n :: 0 <= m < n < |accepted| && accepted[m] == f && accepted[n] == g
  }

  ghost predicate InOrder(accepted: seq<Frame>, q: seq<Frame>) {
    forall i, j :: 0 <= i < j < |q| ==> Before(accepted, q[i], q[j])
  }

  /** The peer is an enabled endpoint under its own organization and role. */
  predicate IsEndpoint(c: Config, peer: Peer) {
    && peer.authenticated && peer.endpointId in c.endpoints
    && var e := c.endpoints[peer.endpointId];
       e.enabled && e.organizationId == peer.organizationId && e.role == peer.role
  }

  predicate MayReceive(c: Config, peer: Peer) {
    IsEndpoint(c, peer) && (c.lane == Control ==> peer.role == EdgeRole)
  }

  lemma {:induction false} UnexpiredKeepsOrder(q: seq<Frame>, now: int, accepted: seq<Frame>)
    requires InOrder(accepted, q)
    ensures InOrder(accepted, Unexpired(q, now))
  {
    hide Before;
    if q != [] {
      var front, last := q[..|q| - 1], q[|q| - 1];
      UnexpiredKeepsOrder(front, now, accepted);
      var kept := Unexpired(front, now);
      forall i | 0 <= i < |kept| ensures Before(accepted, kept[i], last) {
        UnexpiredMembers(front, now, kept[i]);
        var k :| 0 <= k < |front| && front[k] == kept[i];
        assert Before(accepted, q[k], q[|q| - 1]);
      }
    }
  }

  lemma LiveInOrder(accepted: seq<Frame>, settled: set<Frame>, d: string)
    ensures InOrder(accepted, Live(accepted, settled, d))
  {
    var q := Live(accepted, settled, d);
    forall i, j | 0 <= i < j < |q| ensures Before(accepted, q[i], q[j]) {
      var m, n := LiveKeepsOrder(accepted, settled, d, i, j);
    }
  }

  /** Among pairwise different frames, one cannot be both before and after another. */
  lemma BeforeIsStrict(accepted: seq<Frame>, f: Frame, g: Frame)
    requires NoDuplicates(accepted) && Before(accepted, f, g)
    ensures f != g && !Before(accepted, g, f)
  {}

  /** What is left of a queue once its expired frames are gone: the waiting frames, each once, in order of acceptance. */
  lemma QueueIsWaiting(c: Config, ops: seq<Operation>, d: string, now: int)
    requires WellFormed(c)
    ensures var l := Run(c, ops);
            var q := Unexpired(QueueOf(l.state, d), now);
            && (forall f :: f in q <==> f in Waiting(l, d, now))
            && InOrder(l.accepted, q) && NoDuplicates(l.accepted) && |q| == |Waiting(l, d, now)|
            && QueueOf(DiscardExpired(l.state, d, now), d) == q
  {
    hide Invariant, SequencesRecorded, ReceiptsAreRecent, AllRouted, Live, Run, ReceiptsMatch, Before, InOrder, Unexpired,
         DiscardExpired, IdsFarApart;
    RunKeepsAll(c, ops);
    var l := Run(c, ops);
    DistinctWhenRecorded(l);
    LiveInOrder(l.accepted, Settled(l), d);
    UnexpiredKeepsOrder(QueueOf(l.state, d), now, l.accepted);
    DiscardKeeps(c, l.state, d, now);
    var q := Unexpired(QueueOf(l.state, d), now);
    forall f ensures f in q <==> f in Waiting(l, d, now) {
      UnexpiredMembers(QueueOf(l.state, d), now, f);
      LiveMembers(l.accepted, Settled(l), d, f);
    }
    OrderedHasNoDuplicates(l.accepted, q);
    CountedOnce(q, Waiting(l, d, now));
  }

  lemma OrderedHasNoDuplicates(accepted: seq<Frame>, q: seq<Frame>)
    requires NoDuplicates(accepted) && InOrder(accepted, q)
    ensures NoDuplicates(q)
  {
    hide Before;
    forall i, j | 0 <= i < j < |q| ensures q[i] != q[j] {
      BeforeIsStrict(accepted, q[i], q[j]);
    }
  }

  lemma {:induction false} CountedOnce(q: seq<Frame>, frames: set<Frame>)
    requires NoDuplicates(q) && forall f :: f in q <==> f in frames
    ensures |q| == |frames|
  {
    if q == [] {
      assert frames == {};
    } else {
      var front, last := q[..|q| - 1], q[|q| - 1];
      assert q == front + [last];
      CountedOnce(front, frames - {last});
    }
  }

  /** When a pull is answered. */
  lemma PullAnsweredExactlyWhen(c: Config, s: State, peer: Peer, now: int, limit: int)
    ensures Pull(c, s, peer, now, limit).1.Ok? <==> MayReceive(c, peer) && 1 <= limit <= (if c.lane == Ordinary then 16 else 8)
  {}

  /** The limits of the two lanes that the results on runs are about. */
  lemma LaneLimits()
    ensures MaximumQueuedFrames(Ordinary) == 64 && MaximumQueuedBytes(Ordinary) == 262_144 && MaximumReceipts(Ordinary) == 1_024
    ensures MaximumQueuedFrames(Control) == 16 && MaximumQueuedBytes(Control) == 32_768 && MaximumReceipts(Control) == 512
  {}

  /** A pull that is answered lists the frames waiting for the peer that were accepted first, as many
      as the limit allows, in order of acceptance. */
  lemma PullListsOldest(c: Config, ops: seq<Operation>, peer: Peer, now: int, limit: int)
    requires WellFormed(c) && Pull(c, Run(c, ops).state, peer, now, limit).1.Ok?
    ensures var l := Run(c, ops);
            var pulled, waiting := Pull(c, l.state, peer, now, limit).1.value, Waiting(l, peer.endpointId, now);
            && |pulled| == (if limit <= |waiting| then limit else |waiting|)
            && (forall f :: f in pulled ==> f in waiting)
            && InOrder(l.accepted, pulled)
            && (forall f, g :: f in waiting && g in pulled && Before(l.accepted, f, g) ==> f in pulled)
  {
    hide Run, Before, Unexpired, DiscardExpired, InOrder, Waiting;
    var l := Run(c, ops);
    var q := Unexpired(QueueOf(l.state, peer.endpointId), now);
    QueueIsWaiting(c, ops, peer.endpointId, now);
    PullAnsweredExactlyWhen(c, l.state, peer, now, limit);
    PulledIsPrefix(c, l.state, peer, now, limit);
    PrefixIsOldest(l.accepted, q, if limit <= |q| then limit else |q|);
  }

  lemma PulledIsPrefix(c: Config, s: State, peer: Peer, now: int, limit: int)
    requires WellFormed(c) && Pull(c, s, peer, now, limit).1.Ok?
    ensures var q := QueueOf(DiscardExpired(s, peer.endpointId, now), peer.endpointId);
            limit >= 1 && Pull(c, s, peer, now, limit).1.value == q[..if limit <= |q| then limit else |q|]
  {
    hide DiscardExpired, QueueOf;
  }

  lemma PrefixIsOldest(accepted: seq<Frame>, q: seq<Frame>, n: nat)
    requires NoDuplicates(accepted) && InOrder(accepted, q) && n <= |q|
    ensures InOrder(accepted, q[..n])
    ensures forall f, g :: f in q && g in q[..n] && Before(accepted, f, g) ==> f in q[..n]
  {
    hide Before;
    forall f, g | f in q && g in q[..n] && Before(accepted, f, g) ensures f in q[..n] {
      var i :| 0 <= i < |q| && q[i] == f;
      var j :| 0 <= j < n && q[j] == g;
      BeforeIsStrict(accepted, f, g);
    }
  }

  /** In particular a peer that pulls one frame gets the earliest accepted one that waits for it. */
  lemma PullOneGetsEarliest(c: Config, ops: seq<Operation>, peer: Peer, now: int, first: Frame)
    requires WellFormed(c) && MayReceive(c, peer)
    requires var l := Run(c, ops);
             && first in Waiting(l, peer.endpointId, now)
             && forall f :: f in Waiting(l, peer.endpointId, now) && f != first ==> Before(l.accepted, first, f)
    ensures Pull(c, Run(c, ops).state, peer, now, 1).1 == Ok([first])
  {
    hide Run, Pull, Before, Waiting;
    PullAnsweredExactlyWhen(c, Run(c, ops).state, peer, now, 1);
    PullListsOldest(c, ops, peer, now, 1);
    var pulled := Pull(c, Run(c, ops).state, peer, now, 1).1.value;
    assert pulled == [pulled[0]];
    assert pulled[0] in pulled;
    assert pulled[0] == first || Before(Run(c, ops).accepted, first, pulled[0]);
  }

  /** `f` is the earliest accepted frame with this id that waits for `d`. */
  ghost predicate EarliestWithId(l: Ledger, d: string, now: int, frameId: string, f: Frame) {
    && f in Waiting(l, d, now) && f.frameId == frameId
    && forall g :: g in Waiting(l, d, now) && g.frameId == frameId && g != f ==> Before(l.accepted, f, g)
  }

  /** An acknowledgement succeeds exactly when a frame with the id waits for a peer that may receive. It
      settles the earliest such frame, and no other; a refusal settles none. */
  lemma AcknowledgedExactlyWhen(c: Config, ops: seq<Operation>, frameId: string, peer: Peer, now: int)
    requires WellFormed(c)
    ensures var l, d := Run(c, ops), peer.endpointId;
            var outcome, after := Acknowledge(c, l.state, frameId, peer, now).1, Step(c, l, AcknowledgeOp(frameId, peer, now));
            && (outcome.Ok? <==> MayReceive(c, peer) && exists f :: f in Waiting(l, d, now) && f.frameId == frameId)
            && (outcome.Ok? ==> outcome.value == Receipt(frameId, true, d))
            && (outcome.Rejected? ==> after.acknowledged == l.acknowledged)
            && (outcome.Ok? ==> exists f :: EarliestWithId(l, d, now, frameId, f) && after.acknowledged == l.acknowledged + {f})
  {
    hide Run, Before, Unexpired, DiscardExpired, Waiting, InOrder, Settle, Discarded;
    var l := Run(c, ops);
    var q := Unexpired(QueueOf(l.state, peer.endpointId), now);
    QueueIsWaiting(c, ops, peer.endpointId, now);
    var i := IndexOfId(q, frameId, 0);
    if i < |q| {
      FirstWithIdIsEarliest(l, q, peer.endpointId, now, frameId, i);
    }
  }

  lemma FirstWithIdIsEarliest(l: Ledger, q: seq<Frame>, d: string, now: int, frameId: string, i: nat)
    requires InOrder(l.accepted, q) && forall f :: f in q <==> f in Waiting(l, d, now)
    requires i < |q| && q[i].frameId == frameId && forall k :: 0 <= k < i ==> q[k].frameId != frameId
    ensures EarliestWithId(l, d, now, frameId, q[i])
  {
    hide Before, Waiting;
  }

  // ---- What is admitted ------------------------------------------------------------------------

  /** Within the lane's sizes, as announced, and alive: not made too far ahead, not living too long. */
  predicate WithinLimits(lane: Lane, f: Frame, now: int) {
    && |f.json| <= (if lane == Ordinary then 65_536 else 8_192)
    && |f.payload| == f.declaredLength && |f.payload| <= (if lane == Ordinary then 32_768 else 2_048)
    && f.createdAt < f.expiresAt <= f.createdAt + (if lane == Ordinary then 120_000_000 else 30_000_000)
    && f.createdAt - 30_000_000 <= now < f.expiresAt
  }

  /** From the peer itself, to an enabled endpoint of its organization in the other role; on the control
      lane from a device to an edge. */
  predicate RoutedBy(c: Config, f: Frame, peer: Peer) {
    && IsEndpoint(c, peer) && f.source == peer.endpointId && f.organizationId == peer.organizationId
    && f.destination in c.endpoints
    && var d := c.endpoints[f.destination];
       && d.enabled && d.organizationId == peer.organizationId && d.role != peer.role
       && (c.lane == Control ==> peer.role == DeviceRole && d.role == EdgeRole)
  }

  /** What the relay admits before it looks at its queues. */
  lemma AdmittedExactlyWhen(c: Config, sub: Submission, peer: Peer, now: int)
    requires WellFormed(c)
    ensures Admit(c, sub, peer, now).Ok? <==>
              && sub.schemaValid && sub.base64Valid && sub.digestMatches
              && WithinLimits(c.lane, sub.frame, now) && RoutedBy(c, sub.frame, peer)
  {}

  /** What an admitted frame under a forgotten id is answered, from the history: an old sequence, a full
      destination, or a receipt for the queued frame. */
  lemma PublishAnswers(c: Config, ops: seq<Operation>, sub: Submission, peer: Peer, now: int)
    requires WellFormed(c) && Admit(c, sub, peer, now).Ok?
    requires IdIsForgotten(Run(c, ops).accepted, ReceiptKeyOf(sub.frame), MaximumReceipts(c.lane))
    ensures var l, f := Run(c, ops), sub.frame;
            var queued := Live(l.accepted, l.acknowledged + l.expired, f.destination);
            Publish(c, l.state, sub, peer, now).1 ==
              if f.sequence <= LatestSequence(l.accepted, KeyOf(f)) then Rejected(SequenceReplayed)
              else if |queued| >= (if c.lane == Ordinary then 64 else 16) then Rejected(QueueFull)
              else if TotalBytes(queued) + |f.payload| > (if c.lane == Ordinary then 262_144 else 32_768) then Rejected(BytesFull)
              else Ok(Receipt(f.frameId, false, f.destination))
  {
    hide Run, Admit, SequencesRecorded, ReceiptsMatch, AllRouted, IdsFarApart, IdIsForgotten, Live, LatestSequence, Enqueue;
    RunKeepsAll(c, ops);
    var l := Run(c, ops);
    SequencesFollow(c, ops, KeyOf(sub.frame));
    RemembersExactlyRecent(c, l, ReceiptKeyOf(sub.frame));
    assert Counted(c, l.state, sub.frame.destination);
  }
}
