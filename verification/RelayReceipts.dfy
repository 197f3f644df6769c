/**
 What the bounded receipt table means over whole runs: exactly when a frame is accepted, ids that
 recur after eviction included, and which frame a remembered receipt speaks of.
 */
module RelayReceipts {
  import opened Options
  import opened Sequences
  import opened Relay
  import opened RelayInvariants
  import opened RelayQueues
  import opened RelayHistory
  import opened RelayGuarantees

  // ---- When a frame is accepted ----------------------------------------------------------------

  /** The latest sequence accepted under a source and session, zero before the first. */
  function LatestSequence(accepted: seq<Frame>, key: SequenceKey): int {
    if accepted == [] then 0
    else
      var last := accepted[|accepted| - 1];
      if KeyOf(last) == key then last.sequence else LatestSequence(accepted[..|accepted| - 1], key)
  }

  lemma {:induction false} SequencesFollow(c: Config, ops: seq<Operation>, key: SequenceKey)
    ensures LastSequence(Run(c, ops).state, key) == LatestSequence(Run(c, ops).accepted, key)
  {
    if ops != [] {
      hide Admit, RequirePeer, Publish, Pull, Acknowledge, LastSequence, Accepts;
      var before, op := Run(c, ops[..|ops| - 1]), ops[|ops| - 1];
      SequencesFollow(c, ops[..|ops| - 1], key);
      LastSequenceAfter(c, before, op, key);
      var after := Step(c, before, op);
      if after.accepted != before.accepted {
        assert after.accepted[..|before.accepted|] == before.accepted;
      }
    }
  }

  /** None of the latest `n` accepted frames was accepted under this organization and id. */
  ghost predicate IdIsForgotten(accepted: seq<Frame>, key: ReceiptKey, n: nat) {
    forall i :: 0 <= i < |accepted| && |accepted| - n <= i ==> ReceiptKeyOf(accepted[i]) != key
  }

  /** The destination's live frames leave room for one more frame of this length. */
  ghost predicate HasRoom(c: Config, l: Ledger, f: Frame) {
    var queued := Live(l.accepted, l.acknowledged + l.expired, f.destination);
    |queued| < MaximumQueuedFrames(c.lane) && TotalBytes(queued) + |f.payload| <= MaximumQueuedBytes(c.lane)
  }

  lemma RemembersExactlyRecent(c: Config, l: Ledger, key: ReceiptKey)
    requires ReceiptsAreRecent(c, l) && ReceiptsBounded(c, l.state)
    ensures key !in l.state.receipts <==> IdIsForgotten(l.accepted, key, MaximumReceipts(c.lane))
  {
    hide MaximumReceipts, ReceiptKeys, ReceiptKeyOf;
    forall i | 0 <= i < |l.accepted| && |l.accepted| - MaximumReceipts(c.lane) <= i
      ensures ReceiptKeyOf(l.accepted[i]) in l.state.receipts
    {
      RecentKeysRemembered(c, l, i);
    }
    if key in l.state.receipts {
      RememberedIsRecent(c, l, key);
    }
  }

  lemma RememberedIsRecent(c: Config, l: Ledger, key: ReceiptKey)
    requires ReceiptsAreRecent(c, l) && key in l.state.receiptOrder
    ensures exists i :: 0 <= i < |l.accepted| && |l.accepted| - MaximumReceipts(c.lane) <= i && ReceiptKeyOf(l.accepted[i]) == key
  {
    hide MaximumReceipts, ReceiptKeys, ReceiptKeyOf;
    var j :| 0 <= j < |l.state.receiptOrder| && l.state.receiptOrder[j] == key;
    var i := |l.accepted| - |l.state.receiptOrder| + j;
    ReceiptKeyAt(l.accepted, i);
    assert ReceiptKeys(l.accepted)[i] == l.state.receiptOrder[j];
  }

  /** Over any run, a publication is accepted exactly when it is admitted, its id is not among the
      latest accepted ones (1024, or 512 on the control lane), its sequence is above the latest one
      accepted for its source and session, and its destination has room. */
  lemma AcceptedExactlyWhen(c: Config, ops: seq<Operation>, sub: Submission, peer: Peer, now: int)
    requires WellFormed(c)
    ensures var l := Run(c, ops);
            Accepts(c, l.state, sub, peer, now) <==>
              && Admit(c, sub, peer, now).Ok?
              && IdIsForgotten(l.accepted, ReceiptKeyOf(sub.frame), MaximumReceipts(c.lane))
              && sub.frame.sequence > LatestSequence(l.accepted, KeyOf(sub.frame))
              && HasRoom(c, l, sub.frame)
  {
    hide Run, Admit, SequencesRecorded, ReceiptsMatch, AllRouted, IdsFarApart, IdIsForgotten, Live, LatestSequence;
    RunKeepsAll(c, ops);
    var l := Run(c, ops);
    SequencesFollow(c, ops, KeyOf(sub.frame));
    RemembersExactlyRecent(c, l, ReceiptKeyOf(sub.frame));
    assert Counted(c, l.state, sub.frame.destination);
  }

  /** So an id does recur: once a whole receipt table of other frames has been accepted, another
      admitted frame under it is enqueued, although the earlier one may still be queued. */
  lemma ForgottenIdRecurs(c: Config, ops: seq<Operation>, i: nat, sub: Submission, peer: Peer, now: int)
    requires WellFormed(c)
    requires var l := Run(c, ops);
             && i < |l.accepted| && ReceiptKeyOf(l.accepted[i]) == ReceiptKeyOf(sub.frame)
             && |l.accepted| - i > MaximumReceipts(c.lane)
             && (forall j :: i < j < |l.accepted| ==> ReceiptKeyOf(l.accepted[j]) != ReceiptKeyOf(sub.frame))
             && Admit(c, sub, peer, now).Ok? && HasRoom(c, l, sub.frame)
             && sub.frame.sequence > LatestSequence(l.accepted, KeyOf(sub.frame))
    ensures var l, after := Run(c, ops), Run(c, ops + [PublishOp(sub, peer, now)]);
            && after.accepted == l.accepted + [sub.frame]
            && ReceiptKeyOf(after.accepted[i]) == ReceiptKeyOf(after.accepted[|l.accepted|])
            && QueueOf(after.state, sub.frame.destination) == QueueOf(l.state, sub.frame.destination) + [sub.frame]
  {
    hide Admit, HasRoom, LatestSequence, ReceiptKeyOf, Live, Run, Accepts, Step;
    AcceptedExactlyWhen(c, ops, sub, peer, now);
    OneMoreCall(c, ops, PublishOp(sub, peer, now));
    AcceptedQueue(c, Run(c, ops), sub, peer, now);
  }

  lemma OneMoreCall(c: Config, ops: seq<Operation>, op: Operation)
    ensures Run(c, ops + [op]) == Step(c, Run(c, ops), op)
  {
    hide Step;
    assert (ops + [op])[..|ops|] == ops;
  }

  lemma AcceptedQueue(c: Config, l: Ledger, sub: Submission, peer: Peer, now: int)
    requires Accepts(c, l.state, sub, peer, now)
    ensures var after := Step(c, l, PublishOp(sub, peer, now));
            && after.accepted == l.accepted + [sub.frame]
            && QueueOf(after.state, sub.frame.destination) == QueueOf(l.state, sub.frame.destination) + [sub.frame]
  {
    hide Admit, ReceiptKeyOf, KeyOf, Remember;
    RememberKeepsQueues(c, l.state, sub.frame);
  }

  lemma RememberKeepsQueues(c: Config, s: State, f: Frame)
    ensures QueueOf(Enqueue(c, s, f), f.destination) == QueueOf(s, f.destination) + [f]
  {
    hide ReceiptKeyOf, KeyOf;
  }

  // ---- What a receipt says ---------------------------------------------------------------------

  /** The last thing that happened under a receipt key: a frame was accepted, or acknowledged. */
  datatype Touch = Touch(frame: Frame, acknowledged: bool)

  /** The frame that a call acknowledges. */
  function AcknowledgedBy(c: Config, l: Ledger, op: Operation): Option<Frame> {
    if op.AcknowledgeOp? && Acknowledge(c, l.state, op.frameId, op.peer, op.now).1.Ok? then
      var q := Unexpired(QueueOf(l.state, op.peer.endpointId), op.now);
      var i := IndexOfId(q, op.frameId, 0);
      if i < |q| then Some(q[i]) else None
    else None
  }

  /** The last touch after one more call. */
  function NextTouch(c: Config, l: Ledger, op: Operation, key: ReceiptKey, touch: Option<Touch>): Option<Touch> {
    var acknowledged := AcknowledgedBy(c, l, op);
    if op.PublishOp? && Accepts(c, l.state, op.sub, op.peer, op.now) && ReceiptKeyOf(op.sub.frame) == key
    then Some(Touch(op.sub.frame, false))
    else if acknowledged.Some? && ReceiptKeyOf(acknowledged.value) == key then Some(Touch(acknowledged.value, true))
    else touch
  }

  function LastTouch(c: Config, ops: seq<Operation>, key: ReceiptKey): Option<Touch> {
    if ops == [] then None
    else NextTouch(c, Run(c, ops[..|ops| - 1]), ops[|ops| - 1], key, LastTouch(c, ops[..|ops| - 1], key))
  }

  /** Acknowledging settles one live frame of the peer and rewrites the receipt under its key. */
  lemma AcknowledgedFacts(c: Config, l: Ledger, op: Operation)
    requires WellFormed(c) && Invariant(c, l.state) && QueuesAreLive(l) && AllRouted(c, l) && AcknowledgedBy(c, l, op).Some?
    ensures var f, after := AcknowledgedBy(c, l, op).value, Step(c, l, op);
            && f in l.accepted && f !in l.acknowledged && after.acknowledged == l.acknowledged + {f}
            && after.accepted == l.accepted
            && after.state.receipts ==
               (if ReceiptKeyOf(f) in l.state.receipts
                then l.state.receipts[ReceiptKeyOf(f) :=
                       (l.state.receipts[ReceiptKeyOf(f)].0, Receipt(f.frameId, true, f.destination))]
                else l.state.receipts)
  {
    hide Invariant, QueuesAreLive, AllRouted, DiscardExpired, Routed;
    var d := op.peer.endpointId;
    var q := Unexpired(QueueOf(l.state, d), op.now);
    var f := q[IndexOfId(q, op.frameId, 0)];
    PeerIsEndpoint(c, op.peer);
    DiscardKeeps(c, l.state, d, op.now);
    UnexpiredMembers(QueueOf(l.state, d), op.now, f);
    QueuedFrame(c, l, d, f);
  }

  lemma PeerIsEndpoint(c: Config, peer: Peer)
    requires WellFormed(c)
    ensures RequirePeer(c, peer).Ok? ==>
              && RequirePeer(c, peer).value.endpointId == peer.endpointId
              && peer.endpointId in c.endpoints && c.endpoints[peer.endpointId] == RequirePeer(c, peer).value
  {}

  lemma QueuedFrame(c: Config, l: Ledger, d: string, f: Frame)
    requires QueuesAreLive(l) && AllRouted(c, l) && f in QueueOf(l.state, d)
    ensures f in l.accepted && f !in l.acknowledged && f.destination == d
    ensures d in c.endpoints && c.endpoints[d].organizationId == f.organizationId
  {
    hide Live;
    LiveMembers(l.accepted, Settled(l), d, f);
    assert Routed(c, f);
  }

  lemma UntouchedReceipts(c: Config, l: Ledger, op: Operation)
    requires WellFormed(c) && Invariant(c, l.state) && AcknowledgedBy(c, l, op).None?
    requires !(op.PublishOp? && Accepts(c, l.state, op.sub, op.peer, op.now))
    ensures var after := Step(c, l, op);
            after.acknowledged == l.acknowledged && after.accepted == l.accepted && after.state.receipts == l.state.receipts
  {
    hide Admit, DiscardExpired, Invariant, Unexpired, TotalBytes, Discarded, BytesOf, RemoveFirst;
    PeerIsEndpoint(c, op.peer);
    if !op.PublishOp? {
      DiscardKeeps(c, l.state, op.peer.endpointId, op.now);
    }
  }

  /** Accepting a frame touches no receipt but its own and the one it evicts. */
  lemma AcceptedReceipts(c: Config, l: Ledger, op: Operation)
    requires ReceiptsBounded(c, l.state) && op.PublishOp? && Accepts(c, l.state, op.sub, op.peer, op.now)
    ensures var f, after := op.sub.frame, Step(c, l, op);
            && after.accepted == l.accepted + [f] && after.acknowledged == l.acknowledged
            && ReceiptKeyOf(f) in after.state.receipts
            && after.state.receipts[ReceiptKeyOf(f)].1 == Receipt(f.frameId, false, f.destination)
            && (forall key :: key in after.state.receipts && key != ReceiptKeyOf(f) ==>
                  key in l.state.receipts && after.state.receipts[key] == l.state.receipts[key])
  {
    hide Admit, ReceiptKeyOf;
  }

  /** The receipt under a key is that of its last touch, and says whether that frame is acknowledged. */
  ghost predicate TouchSound(c: Config, l: Ledger, key: ReceiptKey, touch: Option<Touch>) {
    && (key in l.state.receipts ==>
          touch.Some? && l.state.receipts[key].1 == Receipt(touch.value.frame.frameId, touch.value.acknowledged, touch.value.frame.destination))
    && (touch.Some? ==>
          && ReceiptKeyOf(touch.value.frame) == key && touch.value.frame in l.accepted
          && (touch.value.acknowledged <==> touch.value.frame in l.acknowledged))
  }

  lemma TouchAfterAcknowledge(c: Config, l: Ledger, op: Operation, key: ReceiptKey, touch: Option<Touch>)
    requires WellFormed(c) && Invariant(c, l.state) && QueuesAreLive(l) && AllRouted(c, l) && AcknowledgedBy(c, l, op).Some?
    requires TouchSound(c, l, key, touch)
    ensures TouchSound(c, Step(c, l, op), key, NextTouch(c, l, op, key, touch))
  {
    hide WellFormed, Invariant, QueuesAreLive, AllRouted, Step, Accepts, AcknowledgedBy, ReceiptKeyOf;
    OnlyOneCall(c, l, op);
    AcknowledgedFacts(c, l, op);
  }

  lemma TouchAfterAccept(c: Config, l: Ledger, op: Operation, key: ReceiptKey, touch: Option<Touch>)
    requires ReceiptsBounded(c, l.state) && op.PublishOp? && Accepts(c, l.state, op.sub, op.peer, op.now)
    requires TouchSound(c, l, key, touch) && op.sub.frame !in l.acknowledged
    ensures TouchSound(c, Step(c, l, op), key, NextTouch(c, l, op, key, touch))
  {
    hide ReceiptsBounded, Step, Accepts, ReceiptKeyOf;
    AcceptedReceipts(c, l, op);
  }

  lemma TouchAfterNothing(c: Config, l: Ledger, op: Operation, key: ReceiptKey, touch: Option<Touch>)
    requires WellFormed(c) && Invariant(c, l.state) && AcknowledgedBy(c, l, op).None?
    requires !(op.PublishOp? && Accepts(c, l.state, op.sub, op.peer, op.now))
    requires TouchSound(c, l, key, touch)
    ensures TouchSound(c, Step(c, l, op), key, NextTouch(c, l, op, key, touch))
  {
    hide WellFormed, Invariant, Step, Accepts, AcknowledgedBy, ReceiptKeyOf;
    UntouchedReceipts(c, l, op);
  }

  lemma {:induction false} RunTouches(c: Config, ops: seq<Operation>, key: ReceiptKey)
    requires WellFormed(c)
    ensures TouchSound(c, Run(c, ops), key, LastTouch(c, ops, key))
  {
    if ops != [] {
      hide WellFormed, Invariant, SequencesRecorded, QueuesAreLive, ReceiptsAreRecent, ReceiptsMatch, AllRouted, IdsFarApart,
           Step, Accepts, AcknowledgedBy, ReceiptKeyOf, TouchSound;
      var front, op := ops[..|ops| - 1], ops[|ops| - 1];
      var l := Run(c, front);
      RunTouches(c, front, key);
      RunKeepsAll(c, front);
      if AcknowledgedBy(c, l, op).Some? {
        TouchAfterAcknowledge(c, l, op, key, LastTouch(c, front, key));
      } else if op.PublishOp? && Accepts(c, l.state, op.sub, op.peer, op.now) {
        InvariantReceipts(c, l.state);
        NewIsUnacknowledged(c, ops);
        TouchAfterAccept(c, l, op, key, LastTouch(c, front, key));
      } else {
        TouchAfterNothing(c, l, op, key, LastTouch(c, front, key));
      }
    }
  }

  lemma InvariantReceipts(c: Config, s: State)
    requires Invariant(c, s)
    ensures ReceiptsBounded(c, s)
  {}

  lemma OnlyOneCall(c: Config, l: Ledger, op: Operation)
    requires AcknowledgedBy(c, l, op).Some?
    ensures !op.PublishOp?
  {}

  lemma NewIsUnacknowledged(c: Config, ops: seq<Operation>)
    requires WellFormed(c) && ops != []
    requires var l, op := Run(c, ops[..|ops| - 1]), ops[|ops| - 1];
             op.PublishOp? && Accepts(c, l.state, op.sub, op.peer, op.now)
    ensures var l, op := Run(c, ops[..|ops| - 1]), ops[|ops| - 1];
            op.sub.frame !in l.accepted && op.sub.frame !in l.acknowledged
  {
    hide Accepts, Run, Invariant, SequencesRecorded, ReceiptsAreRecent, ReceiptsMatch, AllRouted, IdsFarApart, Live;
    var front, op := ops[..|ops| - 1], ops[|ops| - 1];
    RunKeepsAll(c, front);
    if op.sub.frame in Run(c, front).accepted {
      var i :| 0 <= i < |Run(c, front).accepted| && Run(c, front).accepted[i] == op.sub.frame;
      ReplayNeverAccepted(c, front, i, op.sub, op.peer, op.now);
    }
  }

  /** Over any run, a remembered receipt speaks of the frame last touched under its organization and
      id: its destination, and acknowledged exactly if that frame is. */
  lemma ReceiptNamesLastTouched(c: Config, ops: seq<Operation>, key: ReceiptKey)
    requires WellFormed(c) && key in Run(c, ops).state.receipts
    ensures var l, touch := Run(c, ops), LastTouch(c, ops, key);
            && touch.Some? && touch.value.frame in l.accepted && ReceiptKeyOf(touch.value.frame) == key
            && l.state.receipts[key].1 ==
               Receipt(touch.value.frame.frameId, touch.value.frame in l.acknowledged, touch.value.frame.destination)
  {
    hide Run, LastTouch;
    RunTouches(c, ops, key);
  }

  /** For an accepted frame among the latest ones, then, the receipt names its own destination and
      state exactly when that frame was the last one touched, or the last one touched has the same
      destination and state. Otherwise an older frame under the same id was acknowledged after it. */
  lemma OwnReceiptExactlyWhen(c: Config, ops: seq<Operation>, i: nat)
    requires WellFormed(c)
    requires i < |Run(c, ops).accepted| && |Run(c, ops).accepted| - i <= MaximumReceipts(c.lane)
    ensures var l := Run(c, ops);
            var f := l.accepted[i];
            var touch := LastTouch(c, ops, ReceiptKeyOf(f));
            && ReceiptKeyOf(f) in l.state.receipts && touch.Some?
            && (l.state.receipts[ReceiptKeyOf(f)].1 == Receipt(f.frameId, f in l.acknowledged, f.destination) <==>
                  touch.value.frame == f
                  || (touch.value.frame.destination == f.destination
                      && (touch.value.frame in l.acknowledged <==> f in l.acknowledged)))
            && (touch.value.frame != f ==> touch.value.frame in l.acknowledged)
  {
    hide Run, LastTouch, Invariant, SequencesRecorded, QueuesAreLive, ReceiptsMatch, AllRouted;
    RunKeepsAll(c, ops);
    InvariantReceipts(c, Run(c, ops).state);
    RecentKeysRemembered(c, Run(c, ops), i);
    ReceiptNamesLastTouched(c, ops, ReceiptKeyOf(Run(c, ops).accepted[i]));
    LastTouchedOrLatest(c, ops, i);
  }

  /** While an accepted frame is among the latest ones, nothing but itself or an acknowledged frame is
      the last one touched under its key: no later frame can have been accepted under it. */
  lemma {:induction false} LastTouchedOrLatest(c: Config, ops: seq<Operation>, i: nat)
    requires WellFormed(c) && i < |Run(c, ops).accepted|
    requires |Run(c, ops).accepted| - i <= MaximumReceipts(c.lane)
    ensures var f := Run(c, ops).accepted[i];
            var touch := LastTouch(c, ops, ReceiptKeyOf(f));
            touch.Some? && (touch.value.frame != f ==> touch.value.frame in Run(c, ops).acknowledged)
  {
    hide WellFormed, Invariant, SequencesRecorded, QueuesAreLive, ReceiptsAreRecent, ReceiptsMatch, AllRouted, Step, Accepts,
         AcknowledgedBy, ReceiptKeyOf;
    var front, op := ops[..|ops| - 1], ops[|ops| - 1];
    var l, after := Run(c, front), Run(c, ops);
    RunKeepsAll(c, front);
    RunKeepsAll(c, ops);
    StepGrows(c, l, op);
    if AcknowledgedBy(c, l, op).Some? {
      AcknowledgedFacts(c, l, op);
    }
    if i < |l.accepted| {
      LastTouchedOrLatest(c, front, i);
      if op.PublishOp? && Accepts(c, l.state, op.sub, op.peer, op.now) {
        assert after.accepted[|l.accepted|] == op.sub.frame;
      }
    }
  }

  lemma StepGrows(c: Config, l: Ledger, op: Operation)
    ensures var after := Step(c, l, op);
            && after.accepted == (if op.PublishOp? && Accepts(c, l.state, op.sub, op.peer, op.now)
                                  then l.accepted + [op.sub.frame] else l.accepted)
            && l.acknowledged <= after.acknowledged
  {
    hide Publish, Accepts, Pull, Acknowledge;
  }
}
