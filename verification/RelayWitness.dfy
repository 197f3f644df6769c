/**
 A run in which a frame id recurs: one frame stays queued while as many others as the receipt table
 holds are published and acknowledged, one after the other, and then a new frame under the first id is
 enqueued beside it.
 */
module RelayWitness {
  import opened Sequences
  import opened Relay
  import opened RelayInvariants
  import opened RelayQueues
  import opened RelayHistory
  import opened RelayGuarantees
  import opened RelayReceipts

  /** The `k`th submission: an id that is `k` letters longer, the next sequence and some text that is not too long. */
  function Nth(sub: Submission, texts: nat -> string, k: nat): Submission {
    sub.(frame := sub.frame.(frameId := Longer(sub.frame.frameId, k), sequence := sub.frame.sequence + k, json := texts(k)))
  }

  function Receiver(c: Config, sub: Submission): Peer {
    var d := sub.frame.destination;
    if d in c.endpoints then Peer(d, c.endpoints[d].organizationId, c.endpoints[d].role, true)
    else Peer(d, "", EdgeRole, true)
  }

  function PublishNth(sub: Submission, texts: nat -> string, k: nat, peer: Peer, now: int): Operation {
    PublishOp(Nth(sub, texts, k), peer, now)
  }

  function AcknowledgeNth(c: Config, sub: Submission, k: nat, now: int): Operation {
    AcknowledgeOp(Longer(sub.frame.frameId, k), Receiver(c, sub), now)
  }

  /** The first frame, and then `n` frames that are published and acknowledged. */
  function Churn(c: Config, sub: Submission, texts: nat -> string, peer: Peer, now: int, n: nat): seq<Operation> {
    if n == 0 then [PublishNth(sub, texts, 0, peer, now)]
    else Churn(c, sub, texts, peer, now, n - 1) + [PublishNth(sub, texts, n, peer, now), AcknowledgeNth(c, sub, n, now)]
  }

  /** What the first frame must satisfy; everything else follows. */
  ghost predicate Suitable(c: Config, sub: Submission, texts: nat -> string, peer: Peer, now: int) {
    && WellFormed(c) && Admit(c, sub, peer, now).Ok? && sub.frame.sequence > 0
    && texts(0) == sub.frame.json && forall k: nat :: |texts(k)| <= MaximumFrameBytes(c.lane)
  }

  lemma NthIsAdmitted(c: Config, sub: Submission, texts: nat -> string, peer: Peer, now: int, k: nat)
    requires Suitable(c, sub, texts, peer, now)
    ensures Admit(c, Nth(sub, texts, k), peer, now).Ok? && Routed(c, Nth(sub, texts, k).frame)
    ensures now < sub.frame.expiresAt && |sub.frame.payload| <= MaximumPayloadBytes(c.lane)
  {
    AdmittedIsRouted(c, sub, peer, now);
    AdmittedIsRouted(c, Nth(sub, texts, k), peer, now);
  }

  lemma ReceiverIsPeer(c: Config, sub: Submission, texts: nat -> string, peer: Peer, now: int)
    requires Suitable(c, sub, texts, peer, now)
    ensures RequirePeer(c, Receiver(c, sub)).Ok? && RequirePeer(c, Receiver(c, sub)).value.endpointId == sub.frame.destination
    ensures c.lane == Control ==> RequirePeer(c, Receiver(c, sub)).value.role == EdgeRole
  {
    AdmittedIsRouted(c, sub, peer, now);
    RolesAreTwo(c.endpoints[sub.frame.source].role, c.endpoints[sub.frame.destination].role);
  }

  lemma RolesAreTwo(a: Role, b: Role)
    ensures a != b && a == DeviceRole ==> b == EdgeRole
  {}

  /** The ledger after `n` rounds: all frames accepted in order, and only the first one still queued. */
  ghost predicate AfterRounds(c: Config, l: Ledger, sub: Submission, texts: nat -> string, n: nat) {
    && |l.accepted| == n + 1
    && (forall k :: 0 <= k <= n ==> l.accepted[k] == Nth(sub, texts, k).frame)
    && QueueOf(l.state, sub.frame.destination) == [Nth(sub, texts, 0).frame]
  }

  lemma {:induction false} LatestOfRounds(l: Ledger, accepted: seq<Frame>, sub: Submission, texts: nat -> string, n: nat)
    requires |accepted| == n + 1 && forall k :: 0 <= k <= n ==> accepted[k] == Nth(sub, texts, k).frame
    ensures LatestSequence(accepted, KeyOf(sub.frame)) == sub.frame.sequence + n
  {}

  /** A next frame under an id that is not remembered is enqueued behind the first one. */
  lemma NextIsAccepted(c: Config, ops: seq<Operation>, sub: Submission, texts: nat -> string, peer: Peer, now: int, n: nat,
                       next: Submission)
    requires Suitable(c, sub, texts, peer, now) && AfterRounds(c, Run(c, ops), sub, texts, n)
    requires Admit(c, next, peer, now).Ok? && next.frame.sequence == sub.frame.sequence + n + 1
    requires KeyOf(next.frame) == KeyOf(sub.frame) && next.frame.destination == sub.frame.destination
    requires next.frame.payload == sub.frame.payload
    requires IdIsForgotten(Run(c, ops).accepted, ReceiptKeyOf(next.frame), MaximumReceipts(c.lane))
    ensures var l, after := Run(c, ops), Run(c, ops + [PublishOp(next, peer, now)]);
            && after.accepted == l.accepted + [next.frame]
            && QueueOf(after.state, sub.frame.destination) == [Nth(sub, texts, 0).frame, next.frame]
  {
    hide Run, Admit, Accepts, LatestSequence, Invariant, SequencesRecorded, ReceiptsAreRecent, ReceiptsMatch, AllRouted,
         IdsFarApart, Live, Step, ReceiptKeyOf, IdIsForgotten, KeyOf;
    var l := Run(c, ops);
    NthIsAdmitted(c, sub, texts, peer, now, 0);
    RunKeepsAll(c, ops);
    LatestOfRounds(l, l.accepted, sub, texts, n);
    RoomForTwo(c, Nth(sub, texts, 0).frame);
    AcceptedExactlyWhen(c, ops, next, peer, now);
    OneMoreCall(c, ops, PublishOp(next, peer, now));
    AcceptedQueue(c, l, next, peer, now);
  }

  lemma RoomForTwo(c: Config, f: Frame)
    requires |f.payload| <= MaximumPayloadBytes(c.lane)
    ensures TotalBytes([f]) == |f.payload| && TotalBytes([f]) + |f.payload| <= MaximumQueuedBytes(c.lane)
  {
    assert TotalBytes([]) == 0;
  }

  /** Acknowledging the second of two queued frames. */
  lemma SecondIsAcknowledged(c: Config, ops: seq<Operation>, sub: Submission, texts: nat -> string, peer: Peer, now: int, n: nat)
    requires Suitable(c, sub, texts, peer, now) && n > 0
    requires QueueOf(Run(c, ops).state, sub.frame.destination) == [Nth(sub, texts, 0).frame, Nth(sub, texts, n).frame]
    ensures var l, after := Run(c, ops), Run(c, ops + [AcknowledgeNth(c, sub, n, now)]);
            && after.accepted == l.accepted
            && QueueOf(after.state, sub.frame.destination) == [Nth(sub, texts, 0).frame]
  {
    hide Run, Admit, Invariant, SequencesRecorded, QueuesAreLive, ReceiptsAreRecent, ReceiptsMatch, AllRouted, IdsFarApart,
         RequirePeer, Longer, DiscardExpired, Settle, Unexpired, IndexOfId;
    var l, f, g := Run(c, ops), Nth(sub, texts, 0).frame, Nth(sub, texts, n).frame;
    NthIsAdmitted(c, sub, texts, peer, now, 0);
    ReceiverIsPeer(c, sub, texts, peer, now);
    RunKeepsAll(c, ops);
    OneMoreCall(c, ops, AcknowledgeNth(c, sub, n, now));
    DiscardKeeps(c, l.state, sub.frame.destination, now);
    BothUnexpired(f, g, now);
    LongerIsInjective(sub.frame.frameId, 0, n);
    SecondIsFound(f, g);
    SecondIsRemoved(DiscardExpired(l.state, sub.frame.destination, now), sub.frame.destination, f, g,
                    (RequirePeer(c, Receiver(c, sub)).value.organizationId, g.frameId),
                    Receipt(g.frameId, true, sub.frame.destination));
  }

  lemma BothUnexpired(f: Frame, g: Frame, now: int)
    requires now < f.expiresAt && now < g.expiresAt
    ensures Unexpired([f, g], now) == [f, g]
  {
    assert [f, g][..1] == [f] && [f][..0] == [];
    assert Unexpired([], now) == [];
    assert Unexpired([f], now) == [f];
  }

  lemma SecondIsFound(f: Frame, g: Frame)
    requires f.frameId != g.frameId
    ensures IndexOfId([f, g], g.frameId, 0) == 1
  {}

  lemma SecondIsRemoved(s: State, d: string, f: Frame, g: Frame, key: ReceiptKey, receipt: Receipt)
    requires QueueOf(s, d) == [f, g] && f != g
    ensures QueueOf(Settle(s, d, g, key, receipt), d) == [f]
  {
    assert [f, g][1..] == [g] && [g][1..] == [];
    assert RemoveFirst([g], g) == [];
    assert RemoveFirst([f, g], g) == [f] + RemoveFirst([g], g);
  }

  lemma NewIdIsForgotten(l: Ledger, sub: Submission, texts: nat -> string, n: nat, size: nat)
    requires |l.accepted| == n + 1 && forall k :: 0 <= k <= n ==> l.accepted[k] == Nth(sub, texts, k).frame
    ensures IdIsForgotten(l.accepted, ReceiptKeyOf(Nth(sub, texts, n + 1).frame), size)
  {
    hide Longer;
    forall i | 0 <= i <= n ensures Longer(sub.frame.frameId, i) != Longer(sub.frame.frameId, n + 1) {
      LongerIsInjective(sub.frame.frameId, i, n + 1);
    }
  }

  lemma {:induction false} RoundsRun(c: Config, sub: Submission, texts: nat -> string, peer: Peer, now: int, n: nat)
    requires Suitable(c, sub, texts, peer, now)
    ensures AfterRounds(c, Run(c, Churn(c, sub, texts, peer, now, n)), sub, texts, n)
  {
    hide Run, Admit, Longer, IdIsForgotten, ReceiptKeyOf;
    if n == 0 {
      FirstRound(c, sub, texts, peer, now);
    } else {
      var ops := Churn(c, sub, texts, peer, now, n - 1);
      RoundsRun(c, sub, texts, peer, now, n - 1);
      NthIsAdmitted(c, sub, texts, peer, now, n);
      NewIdIsForgotten(Run(c, ops), sub, texts, n - 1, MaximumReceipts(c.lane));
      NextIsAccepted(c, ops, sub, texts, peer, now, n - 1, Nth(sub, texts, n));
      var more := ops + [PublishNth(sub, texts, n, peer, now)];
      SecondIsAcknowledged(c, more, sub, texts, peer, now, n);
      assert more + [AcknowledgeNth(c, sub, n, now)] == Churn(c, sub, texts, peer, now, n);
    }
  }

  lemma FirstRound(c: Config, sub: Submission, texts: nat -> string, peer: Peer, now: int)
    requires Suitable(c, sub, texts, peer, now)
    ensures AfterRounds(c, Run(c, [PublishNth(sub, texts, 0, peer, now)]), sub, texts, 0)
  {
    hide Admit, Step, Accepts, Longer;
    var first := Nth(sub, texts, 0);
    NthIsAdmitted(c, sub, texts, peer, now, 0);
    OneMoreCall(c, [], PublishOp(first, peer, now));
    assert [] + [PublishOp(first, peer, now)] == [PublishNth(sub, texts, 0, peer, now)];
    NothingStandsInTheWay(c, first, peer, now);
    AcceptedQueue(c, START, first, peer, now);
  }

  lemma NothingStandsInTheWay(c: Config, sub: Submission, peer: Peer, now: int)
    requires Admit(c, sub, peer, now).Ok? && sub.frame.sequence > 0 && |sub.frame.payload| <= MaximumPayloadBytes(c.lane)
    ensures Accepts(c, START.state, sub, peer, now)
  {
    hide Admit;
  }

  /** Whatever frame is admitted, there is a run after which two frames under its id are queued for
      its destination. */
  lemma IdDoesRecur(c: Config, sub: Submission, texts: nat -> string, peer: Peer, now: int)
    requires Suitable(c, sub, texts, peer, now)
    ensures var n := MaximumReceipts(c.lane);
            var again := Nth(sub, texts, n + 1).(frame := Nth(sub, texts, n + 1).frame.(frameId := Nth(sub, texts, 0).frame.frameId));
            var after := Run(c, Churn(c, sub, texts, peer, now, n) + [PublishOp(again, peer, now)]);
            && QueueOf(after.state, sub.frame.destination) == [Nth(sub, texts, 0).frame, again.frame]
            && ReceiptKeyOf(Nth(sub, texts, 0).frame) == ReceiptKeyOf(again.frame)
            && Nth(sub, texts, 0).frame != again.frame
  {
    hide Run, Admit, Longer, IdIsForgotten, ReceiptKeyOf;
    var n := MaximumReceipts(c.lane);
    var ops := Churn(c, sub, texts, peer, now, n);
    var again := Nth(sub, texts, n + 1).(frame := Nth(sub, texts, n + 1).frame.(frameId := Nth(sub, texts, 0).frame.frameId));
    RoundsRun(c, sub, texts, peer, now, n);
    AgainIsAdmitted(c, sub, texts, peer, now, n + 1);
    FirstIdIsForgotten(Run(c, ops), sub, texts, n, again.frame);
    NextIsAccepted(c, ops, sub, texts, peer, now, n, again);
    SameReceiptKey(Nth(sub, texts, 0).frame, again.frame);
  }

  lemma SameReceiptKey(f: Frame, g: Frame)
    requires f.organizationId == g.organizationId && f.frameId == g.frameId
    ensures ReceiptKeyOf(f) == ReceiptKeyOf(g)
  {}

  lemma AgainIsAdmitted(c: Config, sub: Submission, texts: nat -> string, peer: Peer, now: int, k: nat)
    requires Suitable(c, sub, texts, peer, now)
    ensures Admit(c, Nth(sub, texts, k).(frame := Nth(sub, texts, k).frame.(frameId := Nth(sub, texts, 0).frame.frameId)), peer, now).Ok?
  {}

  /** After a whole table of others, the first id is no longer among the latest ones. */
  lemma FirstIdIsForgotten(l: Ledger, sub: Submission, texts: nat -> string, n: nat, again: Frame)
    requires |l.accepted| == n + 1 && forall k :: 0 <= k <= n ==> l.accepted[k] == Nth(sub, texts, k).frame
    requires again.frameId == Nth(sub, texts, 0).frame.frameId
    ensures IdIsForgotten(l.accepted, ReceiptKeyOf(again), n)
  {
    hide Longer;
    forall i | 0 < i <= n ensures Longer(sub.frame.frameId, i) != Longer(sub.frame.frameId, 0) {
      LongerIsInjective(sub.frame.frameId, i, 0);
    }
  }
}
