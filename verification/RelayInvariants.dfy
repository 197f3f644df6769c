/**
 What every call on the relay keeps: byte counters that equal their queues, both queue limits, and
 a receipt table that is exactly its duplicate-free eviction order.

 `Counted` is the part about one destination and `ReceiptsBounded` the part about the table, so that a
 call is only looked at where it changes something: publishing touches one queue and the table,
 pulling and acknowledging first discard what has expired in one queue. The limits and the size of the
 table are those of the lane, and nothing else depends on it.
 */
module RelayInvariants {
  import opened Sequences
  import opened Relay

  ghost predicate Counted(c: Config, s: State, d: string) {
    && BytesOf(s, d) == TotalBytes(QueueOf(s, d)) <= MaximumQueuedBytes(c.lane)
    && |QueueOf(s, d)| <= MaximumQueuedFrames(c.lane)
    && (QueueOf(s, d) != [] ==> d in s.queuedBytes)
  }

  ghost predicate QueuesCounted(c: Config, s: State) {
    forall d :: Counted(c, s, d)
  }

  ghost predicate ReceiptsBounded(c: Config, s: State) {
    && NoDuplicates(s.receiptOrder)
    && |s.receiptOrder| <= MaximumReceipts(c.lane)
    && (forall k :: k in s.receipts <==> k in s.receiptOrder)
  }

  ghost predicate Invariant(c: Config, s: State) {
    QueuesCounted(c, s) && ReceiptsBounded(c, s)
  }

  lemma EmptyInvariant(c: Config)
    ensures Invariant(c, EMPTY)
  {
    forall d ensures Counted(c, EMPTY, d) {}
  }

  // ---- Publishing ------------------------------------------------------------------------------

  lemma RememberKeeps(c: Config, s: State, key: ReceiptKey, digest: string, receipt: Receipt)
    requires ReceiptsBounded(c, s) && key !in s.receipts
    ensures ReceiptsBounded(c, Remember(c, s, key, digest, receipt))
  {
    var after := Remember(c, s, key, digest, receipt);
    var kept := if |s.receiptOrder| >= MaximumReceipts(c.lane) then s.receiptOrder[1..] else s.receiptOrder;
    assert after.receiptOrder == kept + [key];
    assert key !in s.receiptOrder;
    forall k ensures k in after.receipts <==> k in after.receiptOrder {
      if |s.receiptOrder| >= MaximumReceipts(c.lane) {
        assert s.receiptOrder == [s.receiptOrder[0]] + kept;
        assert s.receiptOrder[0] !in kept;
      }
    }
  }

  lemma TotalBytesAppend(q: seq<Frame>, f: Frame)
    ensures TotalBytes(q + [f]) == TotalBytes(q) + |f.payload|
  {
    assert (q + [f])[..|q|] == q;
  }

  lemma EnqueueKeepsCounts(c: Config, s: State, f: Frame)
    requires QueuesCounted(c, s)
    requires |QueueOf(s, f.destination)| < MaximumQueuedFrames(c.lane)
    requires BytesOf(s, f.destination) + |f.payload| <= MaximumQueuedBytes(c.lane)
    ensures QueuesCounted(c, Enqueue(c, s, f))
  {
    var after := Enqueue(c, s, f);
    forall d ensures Counted(c, after, d) {
      assert Counted(c, s, d);
      if d == f.destination {
        TotalBytesAppend(QueueOf(s, d), f);
        assert QueueOf(after, d) == QueueOf(s, d) + [f];
      } else {
        assert QueueOf(after, d) == QueueOf(s, d) && BytesOf(after, d) == BytesOf(s, d);
      }
    }
  }

  lemma PublishKeeps(c: Config, s: State, sub: Submission, peer: Peer, now: int)
    requires Invariant(c, s)
    ensures Invariant(c, Publish(c, s, sub, peer, now).0)
  {
    hide Admit, QueuesCounted, ReceiptsBounded, Enqueue;
    var f := sub.frame;
    var after := Publish(c, s, sub, peer, now).0;
    if Accepts(c, s, sub, peer, now) {
      EnqueueKeepsCounts(c, s, f);
      EnqueueKeepsReceipts(c, s, f);
    } else {
      RejectionKeeps(c, s, sub, peer, now);
    }
  }

  lemma EnqueueKeepsReceipts(c: Config, s: State, f: Frame)
    requires ReceiptsBounded(c, s) && ReceiptKeyOf(f) !in s.receipts
    ensures ReceiptsBounded(c, Enqueue(c, s, f))
  {
    hide ReceiptsBounded, Remember;
    var d := f.destination;
    var queued := s.(
      queues := s.queues[d := QueueOf(s, d) + [f]],
      queuedBytes := s.queuedBytes[d := BytesOf(s, d) + |f.payload|],
      lastSequences := s.lastSequences[KeyOf(f) := f.sequence]);
    assert ReceiptsBounded(c, queued) by { SameReceipts(c, s, queued); }
    RememberKeeps(c, queued, ReceiptKeyOf(f), c.digest(f.json), Receipt(f.frameId, false, d));
  }

  lemma SameReceipts(c: Config, s: State, t: State)
    requires ReceiptsBounded(c, s) && t.receipts == s.receipts && t.receiptOrder == s.receiptOrder
    ensures ReceiptsBounded(c, t)
  {}

  /** A call that accepts nothing leaves every queue, counter, receipt and sequence alone. */
  lemma RejectionKeeps(c: Config, s: State, sub: Submission, peer: Peer, now: int)
    requires Invariant(c, s) && !Accepts(c, s, sub, peer, now)
    ensures var after := Publish(c, s, sub, peer, now).0;
            && Invariant(c, after)
            && (forall d :: QueueOf(after, d) == QueueOf(s, d))
            && after.queuedBytes == s.queuedBytes && after.receipts == s.receipts
            && after.receiptOrder == s.receiptOrder && after.lastSequences == s.lastSequences
  {
    hide Admit, Invariant, Enqueue, QueueOf, BytesOf;
    SameQueues(c, s, s, sub.frame.destination);
    SameQueues(c, s, s.(queues := s.queues[sub.frame.destination := QueueOf(s, sub.frame.destination)]), sub.frame.destination);
  }

  /** Creating an empty queue for a destination changes nothing that can be observed. */
  lemma SameQueues(c: Config, s: State, t: State, d: string)
    requires Invariant(c, s)
    requires t == s || t == s.(queues := s.queues[d := QueueOf(s, d)])
    ensures Invariant(c, t) && forall e :: QueueOf(t, e) == QueueOf(s, e)
  {
    forall e ensures Counted(c, t, e) {
      assert Counted(c, s, e);
    }
  }

  lemma EnqueueAfterTouch(c: Config, s: State, f: Frame)
    ensures Enqueue(c, s.(queues := s.queues[f.destination := QueueOf(s, f.destination)]), f) == Enqueue(c, s, f)
  {
    hide Remember;
    var d := f.destination;
    var q := QueueOf(s, d);
    assert s.queues[d := q][d := q + [f]] == s.queues[d := q + [f]];
  }

  // ---- Discarding, pulling and acknowledging ---------------------------------------------------

  lemma {:induction false} UnexpiredShrinks(q: seq<Frame>, now: int)
    ensures |Unexpired(q, now)| <= |q|
    ensures |Unexpired(q, now)| == |q| ==> Unexpired(q, now) == q
  {
    if q != [] {
      UnexpiredShrinks(q[..|q| - 1], now);
      UnexpiredLast(q, now);
      FrontAndLast(q);
    }
  }

  lemma UnexpiredLast(q: seq<Frame>, now: int)
    requires q != []
    ensures var front, last := Unexpired(q[..|q| - 1], now), q[|q| - 1];
            Unexpired(q, now) == if now < last.expiresAt then front + [last] else front
  {
  }

  lemma {:induction false} UnexpiredBytes(q: seq<Frame>, now: int)
    ensures TotalBytes(Unexpired(q, now)) <= TotalBytes(q)
  {
    if q != [] {
      var n := |q| - 1;
      UnexpiredBytes(q[..n], now);
      UnexpiredLast(q, now);
      TotalBytesAppend(Unexpired(q[..n], now), q[n]);
    }
  }

  /** What discarding does to the state, whichever branch was taken. */
  lemma DiscardShape(s: State, d: string, now: int)
    requires BytesOf(s, d) == TotalBytes(QueueOf(s, d)) && (QueueOf(s, d) != [] ==> d in s.queuedBytes)
    ensures var after := DiscardExpired(s, d, now);
            && QueueOf(after, d) == Unexpired(QueueOf(s, d), now)
            && BytesOf(after, d) == TotalBytes(Unexpired(QueueOf(s, d), now))
            && (Unexpired(QueueOf(s, d), now) != [] ==> d in after.queuedBytes)
            && (forall e :: e != d ==>
                  QueueOf(after, e) == QueueOf(s, e) && BytesOf(after, e) == BytesOf(s, e)
                  && (e in s.queuedBytes <==> e in after.queuedBytes))
            && after.receipts == s.receipts && after.receiptOrder == s.receiptOrder
            && after.lastSequences == s.lastSequences
  {
    hide TotalBytes, Unexpired;
    UnexpiredShrinks(QueueOf(s, d), now);
  }

  /** After discarding, the queue is exactly its unexpired frames. */
  lemma DiscardKeeps(c: Config, s: State, d: string, now: int)
    requires Invariant(c, s)
    ensures var after := DiscardExpired(s, d, now);
            && Invariant(c, after)
            && QueueOf(after, d) == Unexpired(QueueOf(s, d), now)
            && (forall e :: e != d ==> QueueOf(after, e) == QueueOf(s, e))
            && after.receipts == s.receipts && after.receiptOrder == s.receiptOrder
            && after.lastSequences == s.lastSequences
  {
    hide DiscardExpired, TotalBytes, Unexpired, QueueOf, BytesOf;
    var after := DiscardExpired(s, d, now);
    assert Counted(c, s, d);
    DiscardShape(s, d, now);
    UnexpiredShrinks(QueueOf(s, d), now);
    UnexpiredBytes(QueueOf(s, d), now);
    forall e ensures Counted(c, after, e) {
      assert Counted(c, s, e);
    }
  }

  lemma {:induction false} RemoveFirstBytes(q: seq<Frame>, f: Frame)
    requires f in q
    ensures TotalBytes(RemoveFirst(q, f)) == TotalBytes(q) - |f.payload|
    ensures |RemoveFirst(q, f)| == |q| - 1
  {
    TotalBytesFront(q);
    if q[0] != f {
      RemoveFirstBytes(q[1..], f);
      TotalBytesFront([q[0]] + RemoveFirst(q[1..], f));
      assert ([q[0]] + RemoveFirst(q[1..], f))[1..] == RemoveFirst(q[1..], f);
    }
  }

  lemma {:induction false} TotalBytesFront(q: seq<Frame>)
    requires q != []
    ensures TotalBytes(q) == |q[0].payload| + TotalBytes(q[1..])
  {
    var n := |q| - 1;
    if n == 0 {
      assert q[..0] == [] && q[1..] == [];
    } else {
      TotalBytesFront(q[..n]);
      assert q[..n][1..] == q[1..][..n - 1];
      assert q[1..][|q[1..]| - 1] == q[n];
    }
  }

  lemma SettleKeeps(c: Config, s: State, d: string, f: Frame, key: ReceiptKey, receipt: Receipt)
    requires Invariant(c, s) && f in QueueOf(s, d)
    ensures Invariant(c, Settle(s, d, f, key, receipt))
  {
    var after := Settle(s, d, f, key, receipt);
    RemoveFirstBytes(QueueOf(s, d), f);
    assert after.receipts.Keys == s.receipts.Keys;
    forall e ensures Counted(c, after, e) {
      assert Counted(c, s, e);
    }
    forall k ensures k in after.receipts <==> k in after.receiptOrder {
      assert k in after.receipts <==> k in s.receipts;
    }
  }

  lemma PullKeeps(c: Config, s: State, peer: Peer, now: int, limit: int)
    requires Invariant(c, s)
    ensures Invariant(c, Pull(c, s, peer, now, limit).0)
  {
    hide RequirePeer, Invariant, DiscardExpired;
    if RequirePeer(c, peer).Ok? {
      DiscardKeeps(c, s, RequirePeer(c, peer).value.endpointId, now);
    }
  }

  lemma AcknowledgeKeeps(c: Config, s: State, frameId: string, peer: Peer, now: int)
    requires Invariant(c, s)
    ensures Invariant(c, Acknowledge(c, s, frameId, peer, now).0)
  {
    hide RequirePeer, Invariant, DiscardExpired, Settle;
    if RequirePeer(c, peer).Ok? {
      var endpoint := RequirePeer(c, peer).value;
      var d := endpoint.endpointId;
      DiscardKeeps(c, s, d, now);
      var after := DiscardExpired(s, d, now);
      var q := QueueOf(after, d);
      var i := IndexOfId(q, frameId, 0);
      if i < |q| {
        SettleKeeps(c, after, d, q[i], (endpoint.organizationId, frameId), Receipt(frameId, true, d));
      }
    }
  }
}
