/**
 The relay object: queues, byte counters, receipts and sequences are updated in place, and every
 method is proved to compute the corresponding step of `Relay`.

 `Value` gives the four tables and the eviction order of the receipts; a method's contract equates it,
 together with the outcome, with the function of that name applied to the value before the call.
 Whatever `RelayGuarantees` and `RelayReceipts` say of runs therefore holds of the object. The loop that
 discards expired frames and the one that finds the acknowledged frame are kept as loops, with
 invariants about the part of the queue already seen.
 */
module RelayService {
  import opened Relay
  import opened RelayInvariants

  class TomatoLinkRelay {
    const config: Config
    var queues: map<string, seq<Frame>>
    var queuedBytes: map<string, int>
    var receipts: map<ReceiptKey, (string, Receipt)>
    var receiptOrder: seq<ReceiptKey>
    var lastSequences: map<SequenceKey, int>

    ghost function Value(): State
      reads this
    {
      State(queues, queuedBytes, receipts, receiptOrder, lastSequences)
    }

    ghost predicate Valid()
      reads this
    {
      Invariant(config, Value())
    }

    constructor (config: Config)
      ensures Valid()
      ensures Value() == EMPTY && this.config == config
    {
      this.config := config;
      queues, queuedBytes, receipts, receiptOrder, lastSequences := map[], map[], map[], [], map[];
      new;
      EmptyInvariant(config);
    }

    method PublishFrame(sub: Submission, peer: Peer, now: int) returns (outcome: Outcome<Receipt>)
      requires Valid()
      modifies this
      ensures Valid()
      ensures (Value(), outcome) == Publish(config, old(Value()), sub, peer, now)
    {
      hide Admit, Invariant, Remember;
      PublishKeeps(config, Value(), sub, peer, now);
      var admitted := Admit(config, sub, peer, now);
      if admitted.Rejected? {
        return Rejected(admitted.reason);
      }
      var f := sub.frame;
      var receiptKey := ReceiptKeyOf(f);
      if receiptKey in receipts {
        if receipts[receiptKey].0 != config.digest(f.json) {
          return Rejected(FrameIdReused);
        }
        return Ok(receipts[receiptKey].1);
      }
      var sequenceKey := KeyOf(f);
      if f.sequence <= (if sequenceKey in lastSequences then lastSequences[sequenceKey] else 0) {
        return Rejected(SequenceReplayed);
      }
      if f.destination !in queues {
        queues := queues[f.destination := []];
      }
      var bytes := if f.destination in queuedBytes then queuedBytes[f.destination] else 0;
      assert queues == old(queues)[f.destination := QueueOf(old(Value()), f.destination)];
      if |queues[f.destination]| >= MaximumQueuedFrames(config.lane) {
        return Rejected(QueueFull);
      }
      if bytes + |f.payload| > MaximumQueuedBytes(config.lane) {
        return Rejected(BytesFull);
      }
      EnqueueFrame(f, bytes);
      EnqueueAfterTouch(config, old(Value()), f);
      return Ok(Receipt(f.frameId, false, f.destination));
    }

    method EnqueueFrame(f: Frame, bytes: int)
      requires f.destination in queues && bytes == BytesOf(Value(), f.destination)
      modifies this
      ensures Value() == Enqueue(config, old(Value()), f)
    {
      hide Remember;
      queues := queues[f.destination := queues[f.destination] + [f]];
      queuedBytes := queuedBytes[f.destination := bytes + |f.payload|];
      lastSequences := lastSequences[KeyOf(f) := f.sequence];
      RememberReceipt(ReceiptKeyOf(f), config.digest(f.json), Receipt(f.frameId, false, f.destination));
    }

    method RememberReceipt(key: ReceiptKey, digest: string, receipt: Receipt)
      modifies this`receipts, this`receiptOrder
      ensures Value() == Remember(config, old(Value()), key, digest, receipt)
    {
      if |receiptOrder| >= MaximumReceipts(config.lane) {
        var expiredKey := receiptOrder[0];
        receiptOrder := receiptOrder[1..];
        receipts := receipts - {expiredKey};
      }
      receiptOrder := receiptOrder + [key];
      receipts := receipts[key := (digest, receipt)];
    }

    method DiscardExpiredFrames(endpointId: string, now: int)
      modifies this`queues, this`queuedBytes
      ensures Value() == DiscardExpired(old(Value()), endpointId, now)
      ensures endpointId in queues
    {
      if endpointId !in queues {
        queues := queues[endpointId := []];
      }
      var queue := queues[endpointId];
      assert queue == QueueOf(old(Value()), endpointId);
      var retained: seq<Frame> := [];
      for i := 0 to |queue|
        invariant retained == Unexpired(queue[..i], now)
      {
        assert queue[..i + 1][..i] == queue[..i];
        if now < queue[i].expiresAt {
          retained := retained + [queue[i]];
        }
      }
      assert queue[..|queue|] == queue;
      if |retained| == |queue| {
        assert queues == old(queues)[endpointId := queue];
        return;
      }
      var total := 0;
      for i := 0 to |retained|
        invariant total == TotalBytes(retained[..i])
      {
        assert retained[..i + 1][..i] == retained[..i];
        total := total + |retained[i].payload|;
      }
      assert retained[..|retained|] == retained;
      queues := queues[endpointId := retained];
      queuedBytes := queuedBytes[endpointId := total];
      assert queues == old(queues)[endpointId := retained];
    }

    method PullFrames(peer: Peer, now: int, limit: int) returns (outcome: Outcome<seq<Frame>>)
      requires Valid()
      modifies this
      ensures Valid()
      ensures (Value(), outcome) == Pull(config, old(Value()), peer, now, limit)
    {
      hide RequirePeer, DiscardExpired, Invariant;
      PullKeeps(config, Value(), peer, now, limit);
      var required := RequirePeer(config, peer);
      if required.Rejected? {
        return Rejected(required.reason);
      }
      var endpoint := required.value;
      if config.lane == Control && endpoint.role != EdgeRole {
        return Rejected(PullRoleDenied);
      }
      if !(1 <= limit <= MaximumPull(config.lane)) {
        return Rejected(PullLimitInvalid);
      }
      DiscardExpiredFrames(endpoint.endpointId, now);
      var queue := queues[endpoint.endpointId];
      return Ok(if limit <= |queue| then queue[..limit] else queue);
    }

    method SettleFrame(d: string, item: Frame, receiptKey: ReceiptKey, receipt: Receipt)
      requires d in queues && d in queuedBytes
      modifies this
      ensures Value() == Settle(old(Value()), d, item, receiptKey, receipt)
    {
      queues := queues[d := RemoveFirst(queues[d], item)];
      queuedBytes := queuedBytes[d := queuedBytes[d] - |item.payload|];
      if receiptKey in receipts {
        receipts := receipts[receiptKey := (receipts[receiptKey].0, receipt)];
      }
    }

    method AcknowledgeFrame(frameId: string, peer: Peer, now: int) returns (outcome: Outcome<Receipt>)
      requires Valid()
      modifies this
      ensures Valid()
      ensures (Value(), outcome) == Acknowledge(config, old(Value()), frameId, peer, now)
    {
      hide RequirePeer, Invariant, DiscardExpired, Settle;
      AcknowledgeKeeps(config, Value(), frameId, peer, now);
      var required := RequirePeer(config, peer);
      if required.Rejected? {
        return Rejected(required.reason);
      }
      var endpoint := required.value;
      if config.lane == Control && endpoint.role != EdgeRole {
        return Rejected(AcknowledgeRoleDenied);
      }
      var d := endpoint.endpointId;
      DiscardKeeps(config, Value(), d, now);
      DiscardExpiredFrames(d, now);
      assert queues[d] != [] ==> d in queuedBytes by { BytesKnown(config, Value(), d); }
      var queue := queues[d];
      ghost var after := Value();
      var i := 0;
      while i < |queue|
        invariant i <= |queue|
        invariant IndexOfId(queue, frameId, i) == IndexOfId(queue, frameId, 0)
      {
        var item := queue[i];
        if item.frameId == frameId {
          var receipt := Receipt(frameId, true, d);
          SettleFrame(d, item, (endpoint.organizationId, frameId), receipt);
          return Ok(receipt);
        }
        i := i + 1;
      }
      return Rejected(NotQueuedForPeer);
    }
  }

  lemma BytesKnown(c: Config, s: State, d: string)
    requires Invariant(c, s)
    ensures QueueOf(s, d) != [] ==> d in s.queuedBytes
  {
    assert Counted(c, s, d);
  }
}
