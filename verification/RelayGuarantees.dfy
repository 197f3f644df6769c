/**
 What the relay promises over every run, whatever the calls and however often receipts have been
 evicted, on both lanes: no replay, conservation, order, limits, receipts and isolation.
 */
module RelayGuarantees {
  import opened Sequences
  import opened Relay
  import opened RelayInvariants
  import opened RelayQueues
  import opened RelayHistory

  /** All invariants of the steps hold in every state that a run reaches. */
  lemma {:induction false} RunKeepsAll(c: Config, ops: seq<Operation>)
    requires WellFormed(c)
    ensures var l := Run(c, ops);
            && Invariant(c, l.state) && SequencesRecorded(l) && QueuesAreLive(l)
            && ReceiptsAreRecent(c, l) && ReceiptsMatch(c, l) && AllRouted(c, l) && IdsFarApart(c, l.accepted)
  {
    if ops == [] {
      EmptyInvariant(c);
    } else {
      hide QueuesCounted, ReceiptsBounded, SequencesRecorded, QueuesAreLive, ReceiptsAreRecent, ReceiptsMatch, AllRouted, IdsFarApart, Step;
      var before, op := Run(c, ops[..|ops| - 1]), ops[|ops| - 1];
      RunKeepsAll(c, ops[..|ops| - 1]);
      StepInvariant(c, before, op);
      StepSequences(c, before, op);
      StepReceipts(c, before, op);
      StepReceiptsMatch(c, before, op);
      StepIds(c, before, op);
      StepRouting(c, before, op);
      DistinctWhenRecorded(before);
      DistinctWhenRecorded(Step(c, before, op));
      StepQueues(c, before, op);
    }
  }

  lemma DistinctWhenRecorded(l: Ledger)
    requires SequencesRecorded(l)
    ensures NoDuplicates(l.accepted)
  {
    IncreasingIsDistinct(l.accepted);
  }

  /** No frame is enqueued twice in any run: frames of one session are accepted in strictly
      increasing sequence, even after their receipts have been evicted. */
  lemma NoFrameEnqueuedTwice(c: Config, ops: seq<Operation>)
    requires WellFormed(c)
    ensures var accepted := Run(c, ops).accepted;
            && NoDuplicates(accepted)
            && forall i, j :: 0 <= i < j < |accepted| && KeyOf(accepted[i]) == KeyOf(accepted[j])
                 ==> accepted[i].sequence < accepted[j].sequence
  {
    RunKeepsAll(c, ops);
    DistinctWhenRecorded(Run(c, ops));
  }

  /** Offering an accepted frame again, in whatever text, or any frame of its source and session that
      is not above it in sequence, never enqueues it, at any later point of the run. */
  lemma ReplayNeverAccepted(c: Config, ops: seq<Operation>, i: nat, sub: Submission, peer: Peer, now: int)
    requires WellFormed(c) && i < |Run(c, ops).accepted|
    requires KeyOf(sub.frame) == KeyOf(Run(c, ops).accepted[i]) && sub.frame.sequence <= Run(c, ops).accepted[i].sequence
    ensures !Accepts(c, Run(c, ops).state, sub, peer, now)
    ensures forall d :: QueueOf(Publish(c, Run(c, ops).state, sub, peer, now).0, d) == QueueOf(Run(c, ops).state, d)
  {
    hide Invariant, QueuesAreLive, ReceiptsAreRecent, AllRouted, Admit, Publish;
    RunKeepsAll(c, ops);
    var l := Run(c, ops);
    assert l.accepted[i].sequence <= LastSequence(l.state, KeyOf(l.accepted[i]));
    RejectionKeeps(c, l.state, sub, peer, now);
  }

  function For(frames: seq<Frame>, d: string): set<Frame> {
    set f | f in frames && f.destination == d
  }

  /** Conservation and order: for every destination, the accepted frames are the disjoint union of
      those still queued, those acknowledged and those discarded as expired, and the queue holds
      its share in order of acceptance. */
  lemma FramesAreConserved(c: Config, ops: seq<Operation>, d: string)
    requires WellFormed(c)
    ensures var l := Run(c, ops);
            var queued := set f | f in QueueOf(l.state, d);
            && For(l.accepted, d) == queued + (For(l.accepted, d) * l.acknowledged) + (For(l.accepted, d) * l.expired)
            && queued !! l.acknowledged && queued !! l.expired && l.acknowledged !! l.expired
            && QueueOf(l.state, d) == Live(l.accepted, l.acknowledged + l.expired, d)
            && (forall f :: f in l.acknowledged + l.expired ==> f in l.accepted)
  {
    hide Invariant, SequencesRecorded, ReceiptsAreRecent, AllRouted, Live, Run, ReceiptsMatch;
    RunKeepsAll(c, ops);
    var l := Run(c, ops);
    var queued := set f | f in QueueOf(l.state, d);
    forall f ensures f in queued <==> f in For(l.accepted, d) && f !in Settled(l) {
      LiveMembers(l.accepted, Settled(l), d, f);
    }
  }

  /** First in, first out: what is ahead in a queue was accepted earlier. */
  lemma QueuesAreFifo(c: Config, ops: seq<Operation>, d: string, i: nat, j: nat)
    requires WellFormed(c) && i < j < |QueueOf(Run(c, ops).state, d)|
    ensures var l := Run(c, ops);
            exists m, n :: 0 <= m < n < |l.accepted|
              && l.accepted[m] == QueueOf(l.state, d)[i] && l.accepted[n] == QueueOf(l.state, d)[j]
  {
    hide Invariant, SequencesRecorded, ReceiptsAreRecent, AllRouted, Live, Run, ReceiptsMatch;
    RunKeepsAll(c, ops);
    var l := Run(c, ops);
    var m, n := LiveKeepsOrder(l.accepted, Settled(l), d, i, j);
  }

  /** Byte counters equal their queues and both limits hold, always. */
  lemma LimitsAlwaysHold(c: Config, ops: seq<Operation>, d: string)
    requires WellFormed(c)
    ensures var s := Run(c, ops).state;
            && BytesOf(s, d) == TotalBytes(QueueOf(s, d)) <= MaximumQueuedBytes(c.lane)
            && |QueueOf(s, d)| <= MaximumQueuedFrames(c.lane)
  {
    hide SequencesRecorded, QueuesAreLive, ReceiptsAreRecent, AllRouted, Run, ReceiptsMatch;
    RunKeepsAll(c, ops);
    assert Counted(c, Run(c, ops).state, d);
  }

  /** The receipt table is duplicate-free, has the keys of its eviction order, and covers exactly
      the most recent accepted frames: 1024 of them, or 512 on the control lane. */
  lemma ReceiptsCoverRecentFrames(c: Config, ops: seq<Operation>)
    requires WellFormed(c)
    ensures var l := Run(c, ops);
            && NoDuplicates(l.state.receiptOrder)
            && |l.state.receiptOrder| <= MaximumReceipts(c.lane)
            && (forall k :: k in l.state.receipts <==> k in l.state.receiptOrder)
            && l.state.receiptOrder == Latest(ReceiptKeys(l.accepted), MaximumReceipts(c.lane))
  {
    hide SequencesRecorded, QueuesAreLive, AllRouted, QueuesCounted, Run;
    RunKeepsAll(c, ops);
  }

  /** Frame ids are not unique for ever, since receipts are evicted; this is how far apart equal
      ids must be. */
  lemma EqualIdsAreFarApart(c: Config, ops: seq<Operation>, i: nat, j: nat)
    requires WellFormed(c) && i < j < |Run(c, ops).accepted|
    requires ReceiptKeyOf(Run(c, ops).accepted[i]) == ReceiptKeyOf(Run(c, ops).accepted[j])
    ensures j - i > MaximumReceipts(c.lane)
  {
    hide Invariant, SequencesRecorded, QueuesAreLive, ReceiptsAreRecent, ReceiptsMatch, AllRouted, Run;
    RunKeepsAll(c, ops);
  }

  /** Publishing is idempotent while the receipt is remembered: an accepted frame among the most
      recent ones, in the same text, gets its receipt again; any other text under the same id in that
      organization is refused, provided the digest tells the two apart. Nothing changes either way. */
  lemma RememberedFrames(c: Config, ops: seq<Operation>, i: nat, sub: Submission, peer: Peer, now: int)
    requires WellFormed(c)
    requires var l := Run(c, ops);
             && i < |l.accepted| && |l.accepted| - i <= MaximumReceipts(c.lane)
             && Admit(c, sub, peer, now).Ok? && ReceiptKeyOf(sub.frame) == ReceiptKeyOf(l.accepted[i])
    ensures var l := Run(c, ops);
            var (after, outcome) := Publish(c, l.state, sub, peer, now);
            && after == l.state
            && ReceiptKeyOf(sub.frame) in l.state.receipts
            && l.state.receipts[ReceiptKeyOf(sub.frame)].1.frameId == sub.frame.frameId
            && outcome == if c.digest(sub.frame.json) == c.digest(l.accepted[i].json)
                          then Ok(l.state.receipts[ReceiptKeyOf(sub.frame)].1)
                          else Rejected(FrameIdReused)
  {
    hide SequencesRecorded, QueuesAreLive, AllRouted, QueuesCounted, Run, Admit;
    RunKeepsAll(c, ops);
    var l := Run(c, ops);
    assert ReceiptMatches(c, l.state, l.accepted[i]);
  }

  /** Isolation: a peer only ever pulls live frames addressed to it, from an endpoint of its own
      organization in the other role. */
  lemma PulledFramesBelongToPeer(c: Config, ops: seq<Operation>, peer: Peer, now: int, limit: int, f: Frame)
    requires WellFormed(c)
    requires var pulled := Pull(c, Run(c, ops).state, peer, now, limit).1; pulled.Ok? && f in pulled.value
    ensures f in Run(c, ops).accepted && f !in Run(c, ops).acknowledged && f !in Run(c, ops).expired
    ensures f.destination == peer.endpointId && f.organizationId == peer.organizationId && now < f.expiresAt
    ensures Routed(c, f)
  {
    hide SequencesRecorded, ReceiptsAreRecent, Invariant, Run, Live, DiscardExpired;
    RunKeepsAll(c, ops);
    var l := Run(c, ops);
    var d := peer.endpointId;
    DiscardKeeps(c, l.state, d, now);
    UnexpiredMembers(QueueOf(l.state, d), now, f);
    LiveMembers(l.accepted, Settled(l), d, f);
  }
}
