/**
 The single-frame incremental decoder of the Python reference: chunks are appended to a bounded buffer
 until one complete frame is there; the first failure, success or cancellation is latched.
 */
module FrameDecoder {
  // `Feed` is the specification of one call on values; the class updates its fields in place and is
  // proved to compute it. Everything about whole deliveries is proved of the specification.

  import opened Options
  import opened Crc32
  import opened PairingFrame

  datatype State = State(buffer: seq<Byte>, complete: bool, terminal: Option<Reason>)

  datatype Outcome = NeedMore | Yields(frame: Frame) | Refused(reason: Reason)

  const FRESH := State([], false, None)

  function Refuse(reason: Reason): (State, Outcome) {
    (State([], false, Some(reason)), Refused(reason))
  }

  /** What the decoder says about the bytes received so far, whatever chunks they came in. */
  function Verdict(received: seq<Byte>): Outcome {
    if |received| > MAXIMUM_FRAME_BYTES then Refused(BufferOverflow)
    else if |received| < HEADER_BYTES then NeedMore
    else
      match DecodeHeader(received)
      case Rejected(reason) => Refused(reason)
      case Ok(header) =>
        var expected := HEADER_BYTES + header.payloadLength;
        if |received| < expected then NeedMore
        else if |received| > expected then Refused(LengthMismatch)
        else
          match Decode(received)
          case Rejected(reason) => Refused(reason)
          case Ok(frame) => Yields(frame)
  }

  /** One call of `feed`; `None` stands for an argument that is not a byte string. */
  function Feed(s: State, chunk: Option<seq<Byte>>): (State, Outcome) {
    if s.terminal.Some? then (s, Refused(s.terminal.value))
    else if s.complete then (s, Refused(AlreadyComplete))
    else if chunk.None? then Refuse(BytesRequired)
    else
      var received := s.buffer + chunk.value;
      match Verdict(received)
      case NeedMore => (State(received, false, None), NeedMore)
      case Yields(frame) => (State([], true, None), Yields(frame))
      case Refused(reason) => Refuse(reason)
  }

  function AfterCancel(s: State): State {
    State([], s.complete, if s.terminal.None? && !s.complete then Some(Cancelled) else s.terminal)
  }

  // ---- The class ------------------------------------------------------------------------------

  class LocalPairingFrameDecoder {
    var buffer: seq<Byte>
    var complete: bool
    var terminal: Option<Reason>

    ghost function Value(): State
      reads this
    {
      State(buffer, complete, terminal)
    }

    constructor ()
      ensures Value() == FRESH
    {
      buffer, complete, terminal := [], false, None;
    }

    method FeedChunk(chunk: Option<seq<Byte>>) returns (outcome: Outcome)
      requires |buffer| <= MAXIMUM_FRAME_BYTES
      modifies this
      ensures (Value(), outcome) == Feed(old(Value()), chunk)
      ensures |buffer| <= MAXIMUM_FRAME_BYTES
    {
      hide Decode, DecodeHeader;
      if terminal.Some? {
        return Refused(terminal.value);
      }
      if complete {
        return Refused(AlreadyComplete);
      }
      if chunk.None? {
        outcome := Reject(BytesRequired);
        return;
      }
      if |buffer| + |chunk.value| > MAXIMUM_FRAME_BYTES {
        outcome := Reject(BufferOverflow);
        return;
      }
      buffer := buffer + chunk.value;
      if |buffer| < HEADER_BYTES {
        return NeedMore;
      }
      var header := DecodeHeader(buffer);
      if header.Rejected? {
        outcome := Reject(header.reason);
        return;
      }
      var expected := HEADER_BYTES + header.value.payloadLength;
      if |buffer| < expected {
        return NeedMore;
      }
      if |buffer| > expected {
        outcome := Reject(LengthMismatch);
        return;
      }
      var decoded := Decode(buffer);
      if decoded.Rejected? {
        outcome := Reject(decoded.reason);
        return;
      }
      buffer := [];
      complete := true;
      return Yields(decoded.value);
    }

    method CancelDelivery()
      modifies this
      ensures Value() == AfterCancel(old(Value()))
    {
      if terminal.None? && !complete {
        terminal := Some(Cancelled);
      }
      buffer := [];
    }

    method Reject(reason: Reason) returns (outcome: Outcome)
      modifies this
      ensures buffer == [] && complete == old(complete) && terminal == Some(reason)
      ensures outcome == Refused(reason)
    {
      terminal := Some(reason);
      buffer := [];
      return Refused(reason);
    }
  }

  // ---- Whole deliveries -----------------------------------------------------------------------

  function Concat(chunks: seq<seq<Byte>>): seq<Byte> {
    if chunks == [] then [] else Concat(chunks[..|chunks| - 1]) + chunks[|chunks| - 1]
  }

  function FeedAll(s: State, chunks: seq<seq<Byte>>): State {
    if chunks == [] then s
    else Feed(FeedAll(s, chunks[..|chunks| - 1]), Some(chunks[|chunks| - 1])).0
  }

  /** The answer to the `i`th chunk of a delivery to a fresh decoder. */
  function Answer(chunks: seq<seq<Byte>>, i: nat): Outcome
    requires i < |chunks|
  {
    Feed(FeedAll(FRESH, chunks[..i]), Some(chunks[i])).1
  }

  lemma {:induction false} StillReceiving(chunks: seq<seq<Byte>>)
    requires forall i :: 0 <= i < |chunks| ==> Answer(chunks, i) == NeedMore
    ensures FeedAll(FRESH, chunks) == State(Concat(chunks), false, None)
  {
    hide Verdict;
    if chunks != [] {
      var n := |chunks| - 1;
      forall i | 0 <= i < n ensures Answer(chunks[..n], i) == NeedMore {
        assert chunks[..n][..i] == chunks[..i];
        assert Answer(chunks, i) == NeedMore;
      }
      StillReceiving(chunks[..n]);
      assert Answer(chunks, n) == NeedMore;
    }
  }

  /** How a delivery is cut into chunks does not matter: as long as more was asked for, the next
      answer depends only on the concatenation of everything received. */
  lemma AnswerIsVerdict(chunks: seq<seq<Byte>>, n: nat)
    requires n < |chunks|
    requires forall i :: 0 <= i < n ==> Answer(chunks, i) == NeedMore
    ensures Answer(chunks, n) == Verdict(Concat(chunks[..n + 1]))
  {
    hide Verdict, FeedAll;
    forall i | 0 <= i < n ensures Answer(chunks[..n], i) == NeedMore {
      assert chunks[..n][..i] == chunks[..i];
      assert Answer(chunks, i) == NeedMore;
    }
    StillReceiving(chunks[..n]);
    assert chunks[..n + 1][..n] == chunks[..n];
  }

  lemma {:induction false} ConcatPrefix(chunks: seq<seq<Byte>>, n: nat)
    requires n <= |chunks|
    ensures Concat(chunks[..n]) <= Concat(chunks)
    ensures n < |chunks| && chunks[|chunks| - 1] != [] ==> |Concat(chunks[..n])| < |Concat(chunks)|
  {
    if n == |chunks| {
      assert chunks[..n] == chunks;
    } else {
      var front := chunks[..|chunks| - 1];
      ConcatPrefix(front, n);
      assert front[..n] == chunks[..n];
    }
  }

  /** A header is judged by its own 20 bytes. */
  lemma HeaderIsPrefix(short: seq<Byte>, long: seq<Byte>)
    requires HEADER_BYTES <= |short| <= |long| && short <= long
    ensures DecodeHeader(short) == DecodeHeader(long)
  {
    hide Get16, Get32, GetWord;
    assert short[..4] == long[..4];
    assert forall k :: 0 <= k < |short| ==> short[k] == long[k];
  }

  lemma PrefixNeedsMore(frame: Frame, received: seq<Byte>)
    requires Valid(frame) && received < Encoded(frame)
    ensures Verdict(received) == NeedMore
  {
    hide Encoded, Checksum, Decode, DecodeHeader;
    HeaderFieldsOfEncoded(frame);
    if |received| >= HEADER_BYTES {
      HeaderIsPrefix(received, Encoded(frame));
    }
  }

  lemma WholeFrameYields(frame: Frame)
    requires Valid(frame)
    ensures Verdict(Encoded(frame)) == Yields(frame)
  {
    hide Encoded, Checksum, Decode, DecodeHeader;
    HeaderFieldsOfEncoded(frame);
    DecodeEncode(frame);
  }

  /** Incremental decoding equals one-shot decoding: a valid frame cut anywhere, with a non-empty
      last chunk, asks for more until the last chunk and then yields exactly the frame. */
  lemma {:induction false} FragmentsYieldFrame(frame: Frame, chunks: seq<seq<Byte>>, n: nat)
    requires Valid(frame) && n < |chunks|
    requires Concat(chunks) == Encoded(frame) && chunks[|chunks| - 1] != []
    ensures forall i :: 0 <= i < n ==> Answer(chunks, i) == NeedMore
    ensures Answer(chunks, n) == if n == |chunks| - 1 then Yields(frame) else NeedMore
  {
    hide Encoded, Answer, Verdict, Concat;
    if n > 0 {
      FragmentsYieldFrame(frame, chunks, n - 1);
      forall i | 0 <= i < n ensures Answer(chunks, i) == NeedMore {
        if i == n - 1 {
        }
      }
    }
    AnswerIsVerdict(chunks, n);
    ConcatPrefix(chunks, n + 1);
    if n == |chunks| - 1 {
      assert chunks[..n + 1] == chunks;
      WholeFrameYields(frame);
    } else {
      PrefixNeedsMore(frame, Concat(chunks[..n + 1]));
    }
  }

  // ---- Whole lives ----------------------------------------------------------------------------

  /** Everything a caller can do to a decoder, in any order. */
  datatype Call = FeedCall(chunk: Option<seq<Byte>>) | CancelCall

  function After(s: State, call: Call): State {
    match call
    case FeedCall(chunk) => Feed(s, chunk).0
    case CancelCall => AfterCancel(s)
  }

  function RunCalls(s: State, calls: seq<Call>): State {
    if calls == [] then s else After(RunCalls(s, calls[..|calls| - 1]), calls[|calls| - 1])
  }

  /** The answer that a feed gets at some point of a decoder's life. */
  function AnswerIn(calls: seq<Call>, n: nat): Outcome
    requires n < |calls| && calls[n].FeedCall?
  {
    Feed(RunCalls(FRESH, calls[..n]), calls[n].chunk).1
  }

  ghost predicate Latched(s: State) {
    s.complete || s.terminal.Some?
  }

  /** Once latched, whatever is called, every feed gets the same refusal. */
  lemma {:induction false} LatchedForever(s: State, calls: seq<Call>)
    requires Latched(s)
    ensures RunCalls(s, calls).complete == s.complete && RunCalls(s, calls).terminal == s.terminal
    ensures forall chunk: Option<seq<Byte>> ::
      Feed(RunCalls(s, calls), chunk).1 == Refused(if s.terminal.Some? then s.terminal.value else AlreadyComplete)
  {
    hide Verdict;
    if calls != [] {
      LatchedForever(s, calls[..|calls| - 1]);
    }
  }

  /** Any answer other than a request for more latches the decoder, and so does cancelling. */
  lemma AnswersLatch(s: State, call: Call)
    ensures call.FeedCall? && Feed(s, call.chunk).1 == NeedMore ==> !Latched(s) && !Latched(After(s, call))
    ensures !(call.FeedCall? && Feed(s, call.chunk).1 == NeedMore) ==> Latched(After(s, call))
  {
    hide Verdict;
  }

  /** A decoder that is not latched has only ever been fed byte chunks and asked for more. */
  lemma {:induction false} UnlatchedLife(calls: seq<Call>, chunks: seq<seq<Byte>>, i: nat)
    requires !Latched(RunCalls(FRESH, calls)) && |chunks| == |calls| && i < |calls|
    requires forall k :: 0 <= k < |calls| && calls[k].FeedCall? && calls[k].chunk.Some? ==> chunks[k] == calls[k].chunk.value
    ensures calls[i] == FeedCall(Some(chunks[i]))
    ensures Answer(chunks, i) == NeedMore && RunCalls(FRESH, calls) == FeedAll(FRESH, chunks)
  {
    hide Verdict;
    var n := |calls| - 1;
    var before := RunCalls(FRESH, calls[..n]);
    AnswersLatch(before, calls[n]);
    LatchedStays(before, calls[n]);
    if n > 0 {
      UnlatchedLife(calls[..n], chunks[..n], if i < n then i else 0);
    }
    if i < n {
      assert chunks[..n][..i] == chunks[..i];
    }
  }

  lemma LatchedStays(s: State, call: Call)
    ensures Latched(s) ==> Latched(After(s, call))
  {}

  /** The byte chunks call by call; a call without one counts as empty. */
  function ChunksOf(calls: seq<Call>): (chunks: seq<seq<Byte>>)
    ensures |chunks| == |calls|
    ensures forall k :: 0 <= k < |calls| && calls[k].FeedCall? && calls[k].chunk.Some? ==> chunks[k] == calls[k].chunk.value
  {
    seq(|calls|, k requires 0 <= k < |calls| =>
      if calls[k].FeedCall? && calls[k].chunk.Some? then calls[k].chunk.value else [])
  }

  /** Conversely, a feed that yields a frame, at whatever point of a decoder's life, means that the
      life so far consisted of byte chunks which together are exactly that frame's encoding. */
  lemma YieldedFrameDecodes(calls: seq<Call>, n: nat)
    requires n < |calls| && calls[n].FeedCall? && AnswerIn(calls, n).Yields?
    ensures forall i :: 0 <= i <= n ==> calls[i] == FeedCall(Some(ChunksOf(calls)[i]))
    ensures var received := Concat(ChunksOf(calls)[..n + 1]);
            && Decode(received) == Ok(AnswerIn(calls, n).frame)
            && Valid(AnswerIn(calls, n).frame) && received == Encoded(AnswerIn(calls, n).frame)
  {
    hide Decode, DecodeHeader, Concat, FeedAll, Encoded;
    var chunks := ChunksOf(calls);
    YieldMeansUnlatched(calls, n);
    forall i | 0 <= i < n ensures calls[i] == FeedCall(Some(chunks[i])) && Answer(chunks, i) == NeedMore {
      UnlatchedLife(calls[..n], chunks[..n], i);
      assert chunks[..n][..i] == chunks[..i];
    }
    SameAnswerInLife(calls, chunks, n);
    AnswerIsVerdict(chunks, n);
    EncodeDecode(Concat(chunks[..n + 1]));
  }

  lemma YieldMeansUnlatched(calls: seq<Call>, n: nat)
    requires n < |calls| && calls[n].FeedCall? && AnswerIn(calls, n).Yields?
    ensures !Latched(RunCalls(FRESH, calls[..n])) && calls[n].chunk.Some?
  {
    hide Verdict;
  }

  lemma SameAnswerInLife(calls: seq<Call>, chunks: seq<seq<Byte>>, n: nat)
    requires n < |calls| == |chunks| && !Latched(RunCalls(FRESH, calls[..n])) && calls[n] == FeedCall(Some(chunks[n]))
    requires forall k :: 0 <= k < |calls| && calls[k].FeedCall? && calls[k].chunk.Some? ==> chunks[k] == calls[k].chunk.value
    ensures AnswerIn(calls, n) == Answer(chunks, n)
  {
    hide Feed;
    if n > 0 {
      UnlatchedLife(calls[..n], chunks[..n], 0);
    }
  }

  /** At most one frame comes out of a decoder's life, cancelled or not. */
  lemma AtMostOneYield(calls: seq<Call>, m: nat, n: nat)
    requires m < n < |calls| && calls[m].FeedCall? && calls[n].FeedCall? && AnswerIn(calls, m).Yields?
    ensures AnswerIn(calls, n) == Refused(AlreadyComplete)
  {
    hide Verdict;
    RunSplits(FRESH, calls[..n], m + 1);
    assert calls[..n][..m + 1] == calls[..m + 1] && calls[..m + 1][..m] == calls[..m];
    LatchedForever(RunCalls(FRESH, calls[..m + 1]), calls[..n][m + 1..]);
  }

  lemma {:induction false} RunSplits(s: State, calls: seq<Call>, n: nat)
    requires n <= |calls|
    ensures RunCalls(s, calls) == RunCalls(RunCalls(s, calls[..n]), calls[n..])
    decreases |calls|
  {
    hide After;
    if n == |calls| {
      assert calls[..n] == calls;
    } else {
      var front := calls[..|calls| - 1];
      RunSplits(s, front, n);
      assert front[..n] == calls[..n] && calls[n..][..|calls| - n - 1] == front[n..];
    }
  }

  lemma VerdictBound(received: seq<Byte>)
    ensures |received| > MAXIMUM_FRAME_BYTES ==> Verdict(received) != NeedMore
  {}

  /** The buffer never holds more than one maximal frame. */
  lemma {:induction false} BufferBounded(s: State, calls: seq<Call>)
    requires |s.buffer| <= MAXIMUM_FRAME_BYTES
    ensures |RunCalls(s, calls).buffer| <= MAXIMUM_FRAME_BYTES
  {
    hide Verdict;
    if calls != [] {
      var n := |calls| - 1;
      BufferBounded(s, calls[..n]);
      if calls[n].FeedCall? && calls[n].chunk.Some? {
        VerdictBound(RunCalls(s, calls[..n]).buffer + calls[n].chunk.value);
      }
    }
  }
}
