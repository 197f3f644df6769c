/**
 Runs of the relay with their history. A ledger remembers, beside the state, every accepted frame in
 order and which frames have been acknowledged or discarded as expired. Every step keeps:

 - accepted sequences strictly increase within a (source, session);
 - every queue is exactly the accepted frames of its destination, in order of acceptance, that
   have been neither acknowledged nor discarded;
 - the receipt cache is exactly the most recent accepted frames;
 - accepted frames are routed, and equal ids are far apart.

 What follows for whole runs is in `RelayGuarantees` and `RelayReceipts`.
 */
module RelayHistory {
  import opened Sequences
  import opened Relay
  import opened RelayInvariants
  import opened RelayQueues

  datatype Operation =
    | PublishOp(sub: Submission, peer: Peer, now: int)
    | PullOp(peer: Peer, now: int, limit: int)
    | AcknowledgeOp(frameId: string, peer: Peer, now: int)

  ghost predicate WellFormed(c: Config) {
    forall k :: k in c.endpoints ==> c.endpoints[k].endpointId == k
  }

  datatype Ledger = Ledger(state: State, accepted: seq<Frame>, acknowledged: set<Frame>, expired: set<Frame>)

  const START := Ledger(EMPTY, [], {}, {})

  function Settled(l: Ledger): set<Frame> {
    l.acknowledged + l.expired
  }

  function ExpiredIn(q: seq<Frame>, now: int): set<Frame> {
    set f | f in q && now >= f.expiresAt
  }

  /** The frames a call by this peer discards before doing anything else. */
  function Discarded(s: State, d: string, now: int): set<Frame> {
    ExpiredIn(QueueOf(s, d), now)
  }

  function Step(c: Config, l: Ledger, op: Operation): Ledger {
    match op
    case PublishOp(sub, peer, now) =>
      var after := l.(state := Publish(c, l.state, sub, peer, now).0);
      if Accepts(c, l.state, sub, peer, now) then after.(accepted := l.accepted + [sub.frame]) else after
    case PullOp(peer, now, limit) =>
      var (after, outcome) := Pull(c, l.state, peer, now, limit);
      if outcome.Ok? then
        l.(state := after, expired := l.expired + Discarded(l.state, peer.endpointId, now))
      else l.(state := after)
    case AcknowledgeOp(frameId, peer, now) =>
      var (after, outcome) := Acknowledge(c, l.state, frameId, peer, now);
      if outcome.Rejected? && outcome.reason != NotQueuedForPeer then l.(state := after)
      else
        var discarded := Discarded(l.state, peer.endpointId, now);
        var q := Unexpired(QueueOf(l.state, peer.endpointId), now);
        var i := IndexOfId(q, frameId, 0);
        l.(state := after,
           expired := l.expired + discarded,
           acknowledged := if i < |q| then l.acknowledged + {q[i]} else l.acknowledged)
  }

  function Run(c: Config, ops: seq<Operation>): Ledger {
    if ops == [] then START else Step(c, Run(c, ops[..|ops| - 1]), ops[|ops| - 1])
  }

  // ---- Sequences -------------------------------------------------------------------------------

  ghost predicate Increasing(accepted: seq<Frame>) {
    forall i, j :: 0 <= i < j < |accepted| && KeyOf(accepted[i]) == KeyOf(accepted[j])
      ==> accepted[i].sequence < accepted[j].sequence
  }

  ghost predicate SequencesRecorded(l: Ledger) {
    && Increasing(l.accepted)
    && forall i :: 0 <= i < |l.accepted| ==> l.accepted[i].sequence <= LastSequence(l.state, KeyOf(l.accepted[i]))
  }

  lemma LastSequenceAfter(c: Config, l: Ledger, op: Operation, key: SequenceKey)
    ensures var after := Step(c, l, op).state;
            LastSequence(after, key) ==
            if op.PublishOp? && Accepts(c, l.state, op.sub, op.peer, op.now) && key == KeyOf(op.sub.frame)
            then op.sub.frame.sequence else LastSequence(l.state, key)
  {
    hide Admit, RequirePeer, IndexOfId, RemoveFirst, QueueOf, BytesOf, Unexpired, TotalBytes, Discarded;
  }

  lemma StepSequences(c: Config, l: Ledger, op: Operation)
    requires SequencesRecorded(l)
    ensures SequencesRecorded(Step(c, l, op))
  {
    hide Publish, Pull, Acknowledge, LastSequence, KeyOf;
    var after := Step(c, l, op);
    forall i | 0 <= i < |after.accepted|
      ensures after.accepted[i].sequence <= LastSequence(after.state, KeyOf(after.accepted[i]))
    {
      LastSequenceAfter(c, l, op, KeyOf(after.accepted[i]));
    }
    if after.accepted != l.accepted {
      forall i | 0 <= i < |l.accepted| && KeyOf(l.accepted[i]) == KeyOf(op.sub.frame)
        ensures l.accepted[i].sequence < op.sub.frame.sequence
      {
        assert l.accepted[i].sequence <= LastSequence(l.state, KeyOf(l.accepted[i]));
      }
    }
  }

  lemma IncreasingIsDistinct(accepted: seq<Frame>)
    requires Increasing(accepted)
    ensures NoDuplicates(accepted)
  {}

  // ---- Queues ----------------------------------------------------------------------------------

  ghost predicate QueuesAreLive(l: Ledger) {
    && (forall d :: QueueOf(l.state, d) == Live(l.accepted, Settled(l), d))
    && (forall f :: f in Settled(l) ==> f in l.accepted)
    && l.acknowledged !! l.expired
  }

  lemma LastIsNew(accepted: seq<Frame>)
    requires accepted != [] && NoDuplicates(accepted)
    ensures accepted[|accepted| - 1] !in accepted[..|accepted| - 1]
  {}

  lemma PublishQueues(c: Config, l: Ledger, sub: Submission, peer: Peer, now: int)
    requires QueuesAreLive(l) && Invariant(c, l.state)
    requires NoDuplicates(Step(c, l, PublishOp(sub, peer, now)).accepted)
    ensures QueuesAreLive(Step(c, l, PublishOp(sub, peer, now)))
  {
    hide Admit, Invariant, Live;
    var f := sub.frame;
    var after := Step(c, l, PublishOp(sub, peer, now));
    if Accepts(c, l.state, sub, peer, now) {
      var n := |l.accepted|;
      assert after.accepted[n] == f && after.accepted[..n] == l.accepted;
      LastIsNew(after.accepted);
      forall d ensures QueueOf(after.state, d) == Live(after.accepted, Settled(after), d) {
        LiveLast(after.accepted, Settled(after), d);
      }
    } else {
      RejectionKeeps(c, l.state, sub, peer, now);
    }
  }

  /** Discarding the expired frames of one destination. */
  lemma DiscardQueues(c: Config, l: Ledger, d: string, now: int)
    requires QueuesAreLive(l) && Invariant(c, l.state)
    ensures QueuesAreLive(l.(state := DiscardExpired(l.state, d, now),
                             expired := l.expired + Discarded(l.state, d, now)))
  {
    hide Invariant, DiscardExpired, Live;
    var gone := Discarded(l.state, d, now);
    var after := l.(state := DiscardExpired(l.state, d, now), expired := l.expired + gone);
    DiscardKeeps(c, l.state, d, now);
    assert Settled(after) == Settled(l) + gone;
    forall f | f in gone ensures f in l.accepted && f.destination == d && f !in Settled(l) {
      LiveMembers(l.accepted, Settled(l), d, f);
    }
    forall e ensures QueueOf(after.state, e) == Live(after.accepted, Settled(after), e) {
      LiveWithout(l.accepted, Settled(l), gone, e);
      var q := QueueOf(l.state, e);
      if e == d {
        UnexpiredIsWithout(q, now, gone);
      } else {
        forall f | f in q ensures f !in gone {
          LiveMembers(l.accepted, Settled(l), e, f);
        }
        WithoutNothing(q, gone);
      }
    }
  }

  /** Acknowledging one queued frame. */
  lemma SettleQueues(l: Ledger, d: string, f: Frame, key: ReceiptKey, receipt: Receipt)
    requires QueuesAreLive(l) && NoDuplicates(l.accepted) && f in QueueOf(l.state, d)
    ensures QueuesAreLive(l.(state := Settle(l.state, d, f, key, receipt), acknowledged := l.acknowledged + {f}))
  {
    hide Live;
    var after := l.(state := Settle(l.state, d, f, key, receipt), acknowledged := l.acknowledged + {f});
    assert Settled(after) == Settled(l) + {f};
    LiveMembers(l.accepted, Settled(l), d, f);
    LiveDistinct(l.accepted, Settled(l), d);
    RemoveFirstIsWithout(QueueOf(l.state, d), f);
    forall e ensures QueueOf(after.state, e) == Live(after.accepted, Settled(after), e) {
      LiveWithout(l.accepted, Settled(l), {f}, e);
      if e != d {
        LiveMembers(l.accepted, Settled(l), e, f);
        WithoutNothing(QueueOf(l.state, e), {f});
      }
    }
  }

  lemma PullQueues(c: Config, l: Ledger, peer: Peer, now: int, limit: int)
    requires WellFormed(c) && QueuesAreLive(l) && Invariant(c, l.state)
    ensures QueuesAreLive(Step(c, l, PullOp(peer, now, limit)))
  {
    hide Invariant, QueuesAreLive, DiscardExpired;
    DiscardQueues(c, l, peer.endpointId, now);
  }

  lemma AcknowledgeQueues(c: Config, l: Ledger, frameId: string, peer: Peer, now: int)
    requires WellFormed(c) && QueuesAreLive(l) && Invariant(c, l.state) && NoDuplicates(l.accepted)
    ensures QueuesAreLive(Step(c, l, AcknowledgeOp(frameId, peer, now)))
  {
    hide Invariant, QueuesAreLive, NoDuplicates, DiscardExpired, Settle, Unexpired;
    var d := peer.endpointId;
    DiscardQueues(c, l, d, now);
    DiscardKeeps(c, l.state, d, now);
    var cleaned := l.(state := DiscardExpired(l.state, d, now), expired := l.expired + Discarded(l.state, d, now));
    var q := QueueOf(cleaned.state, d);
    var i := IndexOfId(q, frameId, 0);
    if i < |q| {
      SettleQueues(cleaned, d, q[i], (peer.organizationId, frameId), Receipt(frameId, true, d));
    }
  }

  lemma StepQueues(c: Config, l: Ledger, op: Operation)
    requires WellFormed(c) && QueuesAreLive(l) && Invariant(c, l.state)
    requires NoDuplicates(Step(c, l, op).accepted) && NoDuplicates(l.accepted)
    ensures QueuesAreLive(Step(c, l, op))
  {
    hide Invariant, QueuesAreLive, NoDuplicates, Step;
    match op
    case PublishOp(sub, peer, now) => PublishQueues(c, l, sub, peer, now);
    case PullOp(peer, now, limit) => PullQueues(c, l, peer, now, limit);
    case AcknowledgeOp(frameId, peer, now) => AcknowledgeQueues(c, l, frameId, peer, now);
  }

  // ---- Receipts --------------------------------------------------------------------------------

  function ReceiptKeys(accepted: seq<Frame>): (keys: seq<ReceiptKey>)
    ensures |keys| == |accepted|
  {
    if accepted == [] then [] else ReceiptKeys(accepted[..|accepted| - 1]) + [ReceiptKeyOf(accepted[|accepted| - 1])]
  }

  /** The eviction order is the keys of the most recently accepted frames. */
  ghost predicate ReceiptsAreRecent(c: Config, l: Ledger) {
    l.state.receiptOrder == Latest(ReceiptKeys(l.accepted), MaximumReceipts(c.lane))
  }

  lemma AcceptOrder(c: Config, l: Ledger, op: Operation)
    requires op.PublishOp? && Accepts(c, l.state, op.sub, op.peer, op.now)
    ensures var order, after := l.state.receiptOrder, Step(c, l, op);
            && after.accepted == l.accepted + [op.sub.frame]
            && after.state.receiptOrder ==
               (if |order| >= MaximumReceipts(c.lane) then order[1..] else order) + [ReceiptKeyOf(op.sub.frame)]
  {
    hide Admit, ReceiptKeyOf, KeyOf;
  }

  lemma StepReceipts(c: Config, l: Ledger, op: Operation)
    requires ReceiptsAreRecent(c, l)
    ensures ReceiptsAreRecent(c, Step(c, l, op))
  {
    hide Step, Accepts, Latest, ReceiptKeyOf;
    var after := Step(c, l, op);
    if op.PublishOp? && Accepts(c, l.state, op.sub, op.peer, op.now) {
      AcceptOrder(c, l, op);
      assert after.accepted[..|l.accepted|] == l.accepted;
      assert ReceiptKeys(after.accepted) == ReceiptKeys(l.accepted) + [ReceiptKeyOf(op.sub.frame)];
      LatestAppend(ReceiptKeys(l.accepted), ReceiptKeyOf(op.sub.frame), MaximumReceipts(c.lane));
    } else {
      SameOrder(c, l, op);
    }
  }

  /** Every remembered receipt carries the digest and id of the frame it was given for. */
  ghost predicate ReceiptsMatch(c: Config, l: Ledger) {
    && |l.state.receiptOrder| <= |l.accepted|
    && forall i :: |l.accepted| - |l.state.receiptOrder| <= i < |l.accepted| ==> ReceiptMatches(c, l.state, l.accepted[i])
  }

  ghost predicate ReceiptMatches(c: Config, s: State, f: Frame) {
    && ReceiptKeyOf(f) in s.receipts
    && s.receipts[ReceiptKeyOf(f)].0 == c.digest(f.json)
    && s.receipts[ReceiptKeyOf(f)].1.frameId == f.frameId
  }

  /** The window as positions: the `j`th remembered key belongs to the `j`th of the last frames. */
  lemma {:induction false} ReceiptKeyAt(accepted: seq<Frame>, i: nat)
    requires i < |accepted|
    ensures ReceiptKeys(accepted)[i] == ReceiptKeyOf(accepted[i])
  {
    if i < |accepted| - 1 {
      ReceiptKeyAt(accepted[..|accepted| - 1], i);
    }
  }

  lemma OtherReceiptsKept(c: Config, l: Ledger, op: Operation, f: Frame)
    requires ReceiptMatches(c, l.state, f)
    requires op.PublishOp? && Accepts(c, l.state, op.sub, op.peer, op.now)
             ==> |l.state.receiptOrder| < MaximumReceipts(c.lane) || ReceiptKeyOf(f) != l.state.receiptOrder[0]
    ensures ReceiptMatches(c, Step(c, l, op).state, f)
  {
    hide Admit, RequirePeer, DiscardExpired, Discarded;
    if op.AcknowledgeOp? {
      SettledReceipt(c, l, op.frameId, op.peer, op.now, ReceiptKeyOf(f));
    }
    if op.PullOp? && RequirePeer(c, op.peer).Ok? {
      DiscardedReceipts(l.state, RequirePeer(c, op.peer).value.endpointId, op.now);
    }
  }

  lemma DiscardedReceipts(s: State, d: string, now: int)
    ensures DiscardExpired(s, d, now).receipts == s.receipts
    ensures DiscardExpired(s, d, now).receiptOrder == s.receiptOrder
  {}

  lemma SettledReceipt(c: Config, l: Ledger, frameId: string, peer: Peer, now: int, key: ReceiptKey)
    requires key in l.state.receipts && l.state.receipts[key].1.frameId == key.1
    ensures var after := Acknowledge(c, l.state, frameId, peer, now).0;
            && key in after.receipts && after.receipts[key].0 == l.state.receipts[key].0
            && after.receipts[key].1.frameId == key.1
  {
    hide RequirePeer, DiscardExpired;
    if RequirePeer(c, peer).Ok? {
      DiscardedReceipts(l.state, RequirePeer(c, peer).value.endpointId, now);
    }
  }

  lemma StepReceiptsMatch(c: Config, l: Ledger, op: Operation)
    requires WellFormed(c) && ReceiptsMatch(c, l) && ReceiptsAreRecent(c, l) && ReceiptsBounded(c, l.state)
    ensures ReceiptsMatch(c, Step(c, l, op))
  {
    hide Admit, RequirePeer, Pull, Acknowledge, ReceiptMatches, Latest, Enqueue;
    var after := Step(c, l, op);
    var size, n := |l.state.receiptOrder|, |l.accepted|;
    if op.PublishOp? && Accepts(c, l.state, op.sub, op.peer, op.now) {
      NewReceipt(c, l.state, op.sub.frame);
      forall i | |after.accepted| - |after.state.receiptOrder| <= i < |after.accepted|
        ensures ReceiptMatches(c, after.state, after.accepted[i])
      {
        if i < n {
          if size >= MaximumReceipts(c.lane) {
            OldestKey(c, l, i);
          }
          OtherReceiptsKept(c, l, op, l.accepted[i]);
        }
      }
    } else {
      SameOrder(c, l, op);
      forall i | n - size <= i < n ensures ReceiptMatches(c, after.state, after.accepted[i]) {
        OtherReceiptsKept(c, l, op, l.accepted[i]);
      }
    }
  }

  /** Two accepted frames of one organization share an id only when more than a whole cache of
      other frames was accepted between them. */
  ghost predicate IdsFarApart(c: Config, accepted: seq<Frame>) {
    forall i, j :: 0 <= i < j < |accepted| && ReceiptKeyOf(accepted[i]) == ReceiptKeyOf(accepted[j])
      ==> j - i > MaximumReceipts(c.lane)
  }

  lemma RecentKeysRemembered(c: Config, l: Ledger, i: nat)
    requires ReceiptsAreRecent(c, l) && ReceiptsBounded(c, l.state) && i < |l.accepted|
    ensures |l.accepted| - i <= MaximumReceipts(c.lane) ==> ReceiptKeyOf(l.accepted[i]) in l.state.receipts
  {
    hide ReceiptKeys, ReceiptKeyOf;
    ReceiptKeyAt(l.accepted, i);
    var base := |l.accepted| - |l.state.receiptOrder|;
    if i >= base {
      assert l.state.receiptOrder[i - base] == ReceiptKeys(l.accepted)[i];
    }
  }

  lemma StepIds(c: Config, l: Ledger, op: Operation)
    requires IdsFarApart(c, l.accepted) && ReceiptsAreRecent(c, l) && ReceiptsBounded(c, l.state)
    ensures IdsFarApart(c, Step(c, l, op).accepted)
  {
    hide Admit, RequirePeer, Pull, Acknowledge, Publish, ReceiptKeys, ReceiptKeyOf;
    if op.PublishOp? && Accepts(c, l.state, op.sub, op.peer, op.now) {
      forall i | 0 <= i < |l.accepted| && ReceiptKeyOf(l.accepted[i]) == ReceiptKeyOf(op.sub.frame)
        ensures |l.accepted| - i > MaximumReceipts(c.lane)
      {
        RecentKeysRemembered(c, l, i);
      }
    }
  }

  lemma SameOrder(c: Config, l: Ledger, op: Operation)
    requires !(op.PublishOp? && Accepts(c, l.state, op.sub, op.peer, op.now))
    ensures Step(c, l, op).state.receiptOrder == l.state.receiptOrder && Step(c, l, op).accepted == l.accepted
  {
    hide Admit, RequirePeer, DiscardExpired, Enqueue, RemoveFirst, IndexOfId;
    if RequirePeer(c, op.peer).Ok? && !op.PublishOp? {
      DiscardedReceipts(l.state, RequirePeer(c, op.peer).value.endpointId, op.now);
    }
  }

  lemma NewReceipt(c: Config, s: State, f: Frame)
    requires ReceiptsBounded(c, s)
    ensures ReceiptMatches(c, Enqueue(c, s, f), f)
    ensures |Enqueue(c, s, f).receiptOrder| == if |s.receiptOrder| >= MaximumReceipts(c.lane) then |s.receiptOrder| else |s.receiptOrder| + 1
  {}

  /** Of the remembered frames, only the oldest has the key that is about to be evicted. */
  lemma OldestKey(c: Config, l: Ledger, i: nat)
    requires ReceiptsAreRecent(c, l) && ReceiptsBounded(c, l.state)
    requires |l.state.receiptOrder| <= |l.accepted|
    requires |l.accepted| - |l.state.receiptOrder| < i < |l.accepted|
    ensures ReceiptKeyOf(l.accepted[i]) != l.state.receiptOrder[0]
  {
    var base := |l.accepted| - |l.state.receiptOrder|;
    ReceiptKeyAt(l.accepted, i);
    assert l.state.receiptOrder[i - base] == ReceiptKeys(l.accepted)[i];
  }

  // ---- Routing ---------------------------------------------------------------------------------

  /** A frame between two enabled endpoints of one organization with different roles. */
  ghost predicate Routed(c: Config, f: Frame) {
    && f.source in c.endpoints && f.destination in c.endpoints
    && c.endpoints[f.source].enabled && c.endpoints[f.destination].enabled
    && c.endpoints[f.source].organizationId == f.organizationId == c.endpoints[f.destination].organizationId
    && c.endpoints[f.source].role != c.endpoints[f.destination].role
    && (c.lane == Control ==> c.endpoints[f.source].role == DeviceRole)
    && |f.payload| <= MaximumPayloadBytes(c.lane)
  }

  lemma AdmittedIsRouted(c: Config, sub: Submission, peer: Peer, now: int)
    requires WellFormed(c) && Admit(c, sub, peer, now).Ok?
    ensures Routed(c, sub.frame) && sub.frame.source == peer.endpointId && now < sub.frame.expiresAt
  {}

  ghost predicate AllRouted(c: Config, l: Ledger) {
    forall f :: f in l.accepted ==> Routed(c, f)
  }

  lemma StepRouting(c: Config, l: Ledger, op: Operation)
    requires WellFormed(c) && AllRouted(c, l)
    ensures AllRouted(c, Step(c, l, op))
  {
    hide Routed, Publish, Pull, Acknowledge, Admit;
    if op.PublishOp? && Admit(c, op.sub, op.peer, op.now).Ok? {
      AdmittedIsRouted(c, op.sub, op.peer, op.now);
    }
  }

  // ---- The state -------------------------------------------------------------------------------

  lemma StepInvariant(c: Config, l: Ledger, op: Operation)
    requires Invariant(c, l.state)
    ensures Invariant(c, Step(c, l, op).state)
  {
    hide Invariant, Publish, Pull, Acknowledge, Accepts;
    match op
    case PublishOp(sub, peer, now) => PublishKeeps(c, l.state, sub, peer, now);
    case PullOp(peer, now, limit) => PullKeeps(c, l.state, peer, now, limit);
    case AcknowledgeOp(frameId, peer, now) => AcknowledgeKeeps(c, l.state, frameId, peer, now);
  }
}
