/**
 Forward error correction of the simulated channel: extended Hamming(8,4), single error correction
 and double error detection, over whole padded bit streams.
 */
module Hamming84 {
  import opened Sequences
  import opened Options
  import opened SpectraBits

  datatype ErrorCorrection = NoCorrection | HammingCode

  datatype Decoded = Decoded(bits: seq<Bit>, corrected: nat, uncorrectable: nat)

  // ---- One block -------------------------------------------------------------------------------

  function Parity(bits: seq<Bit>): Bit {
    if bits == [] then false else Parity(bits[..|bits| - 1]) != bits[|bits| - 1]
  }

  method XorAll(bits: seq<Bit>) returns (parity: Bit)
    ensures parity == Parity(bits)
  {
    parity := false;
    for i := 0 to |bits|
      invariant parity == Parity(bits[..i])
    {
      assert bits[..i + 1][..i] == bits[..i];
      parity := parity != bits[i];
    }
    assert bits[..|bits|] == bits;
  }

  function FirstSeven(d: seq<Bit>): (s: seq<Bit>)
    requires |d| == 4
    ensures |s| == 7
  {
    var p1 := (d[0] != d[1]) != d[3];
    var p2 := (d[0] != d[2]) != d[3];
    var p4 := (d[1] != d[2]) != d[3];
    [p1, p2, d[0], p4, d[1], d[2], d[3]]
  }

  function EncodeBlock(d: seq<Bit>): (block: seq<Bit>)
    requires |d| == 4
    ensures |block| == 8
  {
    FirstSeven(d) + [Parity(FirstSeven(d))]
  }

  /** The code word: the data at positions 3, 5, 6 and 7, and even parity over the positions with each binary digit
      of the position set, and over the whole block. */
  lemma CodeWord(d: seq<Bit>)
    requires |d| == 4
    ensures var w := EncodeBlock(d);
            && w[2] == d[0] && w[4] == d[1] && w[5] == d[2] && w[6] == d[3]
            && Parity([w[0], w[2], w[4], w[6]]) == false
            && Parity([w[1], w[2], w[5], w[6]]) == false
            && Parity([w[3], w[4], w[5], w[6]]) == false
            && Parity(w) == false
  {
    var w := EncodeBlock(d);
    ParityOfFour(w[0], w[2], w[4], w[6]);
    ParityOfFour(w[1], w[2], w[5], w[6]);
    ParityOfFour(w[3], w[4], w[5], w[6]);
    hide FirstSeven;
    assert w[..7] == FirstSeven(d);
  }

  lemma ParityOfFour(a: Bit, b: Bit, c: Bit, d: Bit)
    ensures Parity([a, b, c, d]) == (((a != b) != c) != d)
  {
    assert [a, b, c, d][..3] == [a, b, c] && [a, b, c][..2] == [a, b] && [a, b][..1] == [a] && [a][..0] == [];
    assert Parity([a]) == a;
    assert Parity([a, b]) == (a != b);
    assert Parity([a, b, c]) == ((a != b) != c);
  }

  function Syndrome(block: seq<Bit>): (s: nat)
    requires |block| == 8
    ensures s < 8
  {
    (if ((block[0] != block[2]) != block[4]) != block[6] then 1 else 0)
    + (if ((block[1] != block[2]) != block[5]) != block[6] then 2 else 0)
    + (if ((block[3] != block[4]) != block[5]) != block[6] then 4 else 0)
  }

  /** The block after the correction the decoder decides on. */
  function Repaired(block: seq<Bit>): (r: seq<Bit>)
    requires |block| == 8
    ensures |r| == 8
  {
    var s := Syndrome(block);
    if !Parity(block) then block
    else if s != 0 then block[s - 1 := !block[s - 1]]
    else block[7 := !block[7]]
  }

  function DataOf(block: seq<Bit>): (d: seq<Bit>)
    requires |block| == 8
    ensures |d| == 4
  {
    [block[2], block[4], block[5], block[6]]
  }

  predicate Corrects(block: seq<Bit>)
    requires |block| == 8
  {
    Parity(block)
  }

  predicate GivesUp(block: seq<Bit>)
    requires |block| == 8
  {
    Syndrome(block) != 0 && !Parity(block)
  }

  lemma Parity8(b: seq<Bit>)
    requires |b| == 8
    ensures Parity(b) == (((((((b[0] != b[1]) != b[2]) != b[3]) != b[4]) != b[5]) != b[6]) != b[7])
  {
    ParityPrefix(b, 0); ParityPrefix(b, 1); ParityPrefix(b, 2); ParityPrefix(b, 3);
    ParityPrefix(b, 4); ParityPrefix(b, 5); ParityPrefix(b, 6); ParityPrefix(b, 7);
    assert b[..8] == b;
  }

  lemma ParityPrefix(b: seq<Bit>, i: nat)
    requires i < |b|
    ensures Parity(b[..i + 1]) == (Parity(b[..i]) != b[i])
    ensures Parity(b[..0]) == false
  {
    assert b[..i + 1][..i] == b[..i];
  }

  lemma Errors8(a: seq<Bit>, b: seq<Bit>)
    requires |a| == |b| == 8
    ensures BitErrors(a, b) ==
            Flipped(a[0], b[0]) + Flipped(a[1], b[1]) + Flipped(a[2], b[2]) + Flipped(a[3], b[3])
            + Flipped(a[4], b[4]) + Flipped(a[5], b[5]) + Flipped(a[6], b[6]) + Flipped(a[7], b[7])
  {
    hide TailErrors, Flipped, BitErrors;
    TailStep(a, b, 0); TailStep(a, b, 1); TailStep(a, b, 2); TailStep(a, b, 3);
    TailStep(a, b, 4); TailStep(a, b, 5); TailStep(a, b, 6); TailStep(a, b, 7);
    TailEnds(a, b);
  }

  function TailErrors(a: seq<Bit>, b: seq<Bit>, i: nat): nat
    requires i <= |a| == |b|
  {
    BitErrors(a[i..], b[i..])
  }

  lemma TailStep(a: seq<Bit>, b: seq<Bit>, i: nat)
    requires i < |a| == |b|
    ensures TailErrors(a, b, i) == Flipped(a[i], b[i]) + TailErrors(a, b, i + 1)
  {
    assert a[i..][1..] == a[i + 1..] && b[i..][1..] == b[i + 1..];
  }

  lemma TailEnds(a: seq<Bit>, b: seq<Bit>)
    requires |a| == |b|
    ensures TailErrors(a, b, 0) == BitErrors(a, b) && TailErrors(a, b, |a|) == 0
  {
    assert a[0..] == a && b[0..] == b;
  }

  /** A code block is one with zero syndrome and even parity. */
  lemma EncodedBlockIsClean(d: seq<Bit>)
    requires |d| == 4
    ensures Syndrome(EncodeBlock(d)) == 0 && !Parity(EncodeBlock(d)) && DataOf(EncodeBlock(d)) == d
  {
    hide Parity;
    var e := EncodeBlock(d);
    ParityPrefix(e, 7);
    assert e[..7] == FirstSeven(d) && e[..8] == e;
  }

  /** Even parity of the code block says how the received parity depends on the number of flips. */
  lemma ReceivedParity(d: seq<Bit>, r: seq<Bit>)
    requires |d| == 4 && |r| == 8
    ensures Parity(r) == (BitErrors(EncodeBlock(d), r) % 2 == 1)
  {
    hide Parity, EncodeBlock, BitErrors;
    var e := EncodeBlock(d);
    EncodedBlockIsClean(d);
    Parity8(e);
    Parity8(r);
    Errors8(e, r);
    ParityOfFlips(e, r);
  }

  lemma ParityOfFlips(e: seq<Bit>, r: seq<Bit>)
    requires |e| == |r| == 8
    ensures (((((((((e[0] != e[1]) != e[2]) != e[3]) != e[4]) != e[5]) != e[6]) != e[7])) !=
            (((((((r[0] != r[1]) != r[2]) != r[3]) != r[4]) != r[5]) != r[6]) != r[7])) ==
            ((Flipped(e[0], r[0]) + Flipped(e[1], r[1]) + Flipped(e[2], r[2]) + Flipped(e[3], r[3])
              + Flipped(e[4], r[4]) + Flipped(e[5], r[5]) + Flipped(e[6], r[6]) + Flipped(e[7], r[7])) % 2 == 1)
  {}

  /** A correct block is passed through; one flip is repaired; two flips are reported and never
      "repaired". */
  lemma BlockOutcome(d: seq<Bit>, r: seq<Bit>)
    requires |d| == 4 && |r| == 8
    ensures BitErrors(EncodeBlock(d), r) == 0 ==> DataOf(Repaired(r)) == d && !Corrects(r) && !GivesUp(r)
    ensures BitErrors(EncodeBlock(d), r) == 1 ==> DataOf(Repaired(r)) == d && Corrects(r) && !GivesUp(r)
    ensures BitErrors(EncodeBlock(d), r) == 2 ==> !Corrects(r) && GivesUp(r)
  {
    hide Parity, EncodeBlock, BitErrors, Syndrome;
    var e := EncodeBlock(d);
    EncodedBlockIsClean(d);
    ReceivedParity(d, r);
    Errors8(e, r);
    if BitErrors(e, r) == 0 {
      NoErrorsIsEqual(e, r);
    } else if BitErrors(e, r) == 1 {
      OneFlip(e, r);
    } else if BitErrors(e, r) == 2 {
      TwoFlips(e, r);
    }
  }

  /** One flip away from a clean block, the syndrome names the flipped position. */
  lemma OneFlip(e: seq<Bit>, r: seq<Bit>)
    requires |e| == |r| == 8 && Syndrome(e) == 0 && Parity(r)
    requires Flipped(e[0], r[0]) + Flipped(e[1], r[1]) + Flipped(e[2], r[2]) + Flipped(e[3], r[3])
             + Flipped(e[4], r[4]) + Flipped(e[5], r[5]) + Flipped(e[6], r[6]) + Flipped(e[7], r[7]) == 1
    ensures Repaired(r) == e
  {
    hide Parity, Syndrome;
    SyndromeNames(e, r);
  }

  /** The position that is named, and the bits around it. */
  lemma SyndromeNames(e: seq<Bit>, r: seq<Bit>)
    requires |e| == |r| == 8 && Syndrome(e) == 0
    requires Flipped(e[0], r[0]) + Flipped(e[1], r[1]) + Flipped(e[2], r[2]) + Flipped(e[3], r[3])
             + Flipped(e[4], r[4]) + Flipped(e[5], r[5]) + Flipped(e[6], r[6]) + Flipped(e[7], r[7]) == 1
    ensures var s := Syndrome(r);
            var at := if s == 0 then 7 else s - 1;
            r[at] == !e[at] && forall k :: 0 <= k < 8 && k != at ==> r[k] == e[k]
  {}

  lemma TwoFlips(e: seq<Bit>, r: seq<Bit>)
    requires |e| == |r| == 8 && Syndrome(e) == 0
    requires Flipped(e[0], r[0]) + Flipped(e[1], r[1]) + Flipped(e[2], r[2]) + Flipped(e[3], r[3])
             + Flipped(e[4], r[4]) + Flipped(e[5], r[5]) + Flipped(e[6], r[6]) + Flipped(e[7], r[7]) == 2
    ensures Syndrome(r) != 0
  {
    hide Parity;
  }

  /** Repair moves a block by one bit at most, and only when it counts a correction. */
  lemma RepairDistance(r: seq<Bit>)
    requires |r| == 8
    ensures BitErrors(r, Repaired(r)) == if Corrects(r) then 1 else 0
  {
    hide Parity, Syndrome, BitErrors;
    BitErrorsSelf(r);
    if Parity(r) {
      FlipAddsError(r, r, if Syndrome(r) != 0 then Syndrome(r) - 1 else 7);
    }
  }

  lemma DataErrors(a: seq<Bit>, b: seq<Bit>)
    requires |a| == |b| == 8
    ensures BitErrors(DataOf(a), DataOf(b)) <= BitErrors(a, b)
  {
    hide TailErrors, Flipped, BitErrors;
    Errors8(a, b);
    var c, d := DataOf(a), DataOf(b);
    TailStep(c, d, 0); TailStep(c, d, 1); TailStep(c, d, 2); TailStep(c, d, 3);
    TailEnds(c, d);
  }

  lemma BlockErrorBound(d: seq<Bit>, r: seq<Bit>)
    requires |d| == 4 && |r| == 8
    ensures BitErrors(d, DataOf(Repaired(r))) <= BitErrors(EncodeBlock(d), r) + (if Corrects(r) then 1 else 0)
  {
    hide Parity, EncodeBlock, Repaired, BitErrors, DataOf, Syndrome;
    EncodedBlockIsClean(d);
    RepairDistance(r);
    Triangle(EncodeBlock(d), r, Repaired(r));
    DataErrors(EncodeBlock(d), Repaired(r));
  }

  // ---- Whole streams ---------------------------------------------------------------------------

  function EncodeBlocks(data: seq<Bit>): (encoded: seq<Bit>)
    requires |data| % 4 == 0
    ensures |encoded| == 2 * |data|
  {
    if data == [] then [] else EncodeBlock(data[..4]) + EncodeBlocks(data[4..])
  }

  function DecodeBlocks(received: seq<Bit>): (decoded: Decoded)
    requires |received| % 8 == 0
    ensures 2 * |decoded.bits| == |received|
  {
    if received == [] then Decoded([], 0, 0)
    else
      var block := received[..8];
      var rest := DecodeBlocks(received[8..]);
      Decoded(
        DataOf(Repaired(block)) + rest.bits,
        (if Corrects(block) then 1 else 0) + rest.corrected,
        (if GivesUp(block) then 1 else 0) + rest.uncorrectable)
  }

  function PaddingFor(length: nat): (padding: nat)
    ensures padding < 4 && (length + padding) % 4 == 0
  {
    (4 - length % 4) % 4
  }

  function Padded(bits: seq<Bit>): (p: seq<Bit>)
    ensures |p| == |bits| + PaddingFor(|bits|)
  {
    bits + seq(PaddingFor(|bits|), i => false)
  }

  function Protect(bits: seq<Bit>, mode: ErrorCorrection): (r: (seq<Bit>, nat)) {
    match mode
    case NoCorrection => (bits, 0)
    case HammingCode => (EncodeBlocks(Padded(bits)), PaddingFor(|bits|))
  }

  /** Removing `padding` bits from the end; removing more than there are removes them all. */
  function Unpadded(bits: seq<Bit>, padding: nat): seq<Bit> {
    if padding <= |bits| then bits[..|bits| - padding] else []
  }

  /** `None` is the error for a length that is not a whole number of blocks. */
  function Unprotect(bits: seq<Bit>, mode: ErrorCorrection, padding: nat): Option<Decoded> {
    match mode
    case NoCorrection => Some(Decoded(bits, 0, 0))
    case HammingCode =>
      if |bits| % 8 != 0 then None
      else
        var decoded := DecodeBlocks(bits);
        Some(decoded.(bits := Unpadded(decoded.bits, padding)))
  }

  lemma EncodeNext(data: seq<Bit>, offset: nat, d1: Bit, d2: Bit, d3: Bit, d4: Bit)
    requires |data| % 4 == 0 && offset % 4 == 0 && offset + 4 <= |data|
    requires d1 == data[offset] && d2 == data[offset + 1] && d3 == data[offset + 2] && d4 == data[offset + 3]
    ensures EncodeBlocks(data[offset..]) == EncodeBlock([d1, d2, d3, d4]) + EncodeBlocks(data[offset + 4..])
  {
    hide EncodeBlock;
    var rest := data[offset..];
    assert rest[..4] == [d1, d2, d3, d4] && rest[4..] == data[offset + 4..];
  }

  lemma DecodeNext(rest: seq<Bit>)
    requires |rest| % 8 == 0 && rest != []
    ensures |rest| >= 8 && |rest[8..]| % 8 == 0
    ensures var block, tail := rest[..8], DecodeBlocks(rest[8..]);
            DecodeBlocks(rest) ==
            Decoded(DataOf(Repaired(block)) + tail.bits,
                    (if Corrects(block) then 1 else 0) + tail.corrected,
                    (if GivesUp(block) then 1 else 0) + tail.uncorrectable)
  {
    hide Repaired, DataOf, Corrects, GivesUp;
    WholeBlocks(|rest|);
  }

  lemma WholeBlocks(length: nat)
    requires length % 8 == 0 && length > 0
    ensures length >= 8 && (length - 8) % 8 == 0
  {}

  method ApplyErrorCorrection(bits: seq<Bit>, mode: ErrorCorrection) returns (encoded: seq<Bit>, padding: nat)
    ensures (encoded, padding) == Protect(bits, mode)
  {
    hide EncodeBlocks, Parity, PaddingFor;
    if mode == NoCorrection {
      return bits, 0;
    }
    padding := PaddingFor(|bits|);
    var padded := bits + seq(padding, i => false);
    assert padded == Padded(bits);
    encoded := EncodeAll(padded);
  }

  method EncodeAll(padded: seq<Bit>) returns (encoded: seq<Bit>)
    requires |padded| % 4 == 0
    ensures encoded == EncodeBlocks(padded)
  {
    hide EncodeBlocks, Parity, EncodeBlock;
    encoded := [];
    var offset := 0;
    assert padded[0..] == padded;
    while offset < |padded|
      invariant offset % 4 == 0 && offset <= |padded|
      invariant encoded + EncodeBlocks(padded[offset..]) == EncodeBlocks(padded)
    {
      var block := EncodeNibble(padded[offset], padded[offset + 1], padded[offset + 2], padded[offset + 3]);
      EncodeNext(padded, offset, padded[offset], padded[offset + 1], padded[offset + 2], padded[offset + 3]);
      AppendMoves(encoded, block, EncodeBlocks(padded[offset + 4..]));
      encoded := encoded + block;
      offset := offset + 4;
    }
    EncodeEnd(padded, offset);
    assert encoded + [] == encoded;
  }

  lemma EncodeEnd(data: seq<Bit>, offset: nat)
    requires |data| % 4 == 0 && offset == |data|
    ensures EncodeBlocks(data[offset..]) == []
  {}

  /** One turn of the encoding loop. */
  method EncodeNibble(d1: Bit, d2: Bit, d3: Bit, d4: Bit) returns (block: seq<Bit>)
    ensures block == EncodeBlock([d1, d2, d3, d4])
  {
    hide Parity;
    var p1 := (d1 != d2) != d4;
    var p2 := (d1 != d3) != d4;
    var p4 := (d2 != d3) != d4;
    var firstSeven := [p1, p2, d1, p4, d2, d3, d4];
    var p8 := XorAll(firstSeven);
    return firstSeven + [p8];
  }

  /** One turn of the decoding loop: the repaired block and what to add to the two counters. */
  method RepairBlock(received: seq<Bit>) returns (block: seq<Bit>, corrected: nat, uncorrectable: nat)
    requires |received| == 8
    ensures block == Repaired(received)
    ensures corrected == if Corrects(received) then 1 else 0
    ensures uncorrectable == if GivesUp(received) then 1 else 0
  {
    hide Parity;
    block, corrected, uncorrectable := received, 0, 0;
    var syndrome := Syndrome(block);
    var overallParity := XorAll(block);
    if syndrome != 0 && overallParity {
      block := block[syndrome - 1 := !block[syndrome - 1]];
      corrected := 1;
    } else if syndrome == 0 && overallParity {
      block := block[7 := !block[7]];
      corrected := 1;
    } else if syndrome != 0 && !overallParity {
      uncorrectable := 1;
    }
  }

  method RemoveErrorCorrection(bits: seq<Bit>, mode: ErrorCorrection, padding: nat) returns (r: Option<Decoded>)
    ensures r == Unprotect(bits, mode, padding)
  {
    hide DecodeBlocks, Unpadded;
    if mode == NoCorrection {
      return Some(Decoded(bits, 0, 0));
    }
    if |bits| % 8 != 0 {
      return None;
    }
    var decoded, corrected, uncorrectable := DecodeAll(bits);
    if padding != 0 {
      decoded := Unpadded(decoded, padding);
    } else {
      UnpaddedNothing(decoded);
    }
    return Some(Decoded(decoded, corrected, uncorrectable));
  }

  method DecodeAll(bits: seq<Bit>) returns (decoded: seq<Bit>, corrected: nat, uncorrectable: nat)
    requires |bits| % 8 == 0
    ensures Decoded(decoded, corrected, uncorrectable) == DecodeBlocks(bits)
  {
    hide DecodeBlocks, DataOf, Repaired, Corrects, GivesUp;
    decoded, corrected, uncorrectable := [], 0, 0;
    var offset := 0;
    ghost var whole, rest := DecodeBlocks(bits), bits;
    while offset < |bits|
      invariant offset <= |bits| && rest == bits[offset..] && |rest| % 8 == 0
      invariant decoded + DecodeBlocks(rest).bits == whole.bits
      invariant corrected + DecodeBlocks(rest).corrected == whole.corrected
      invariant uncorrectable + DecodeBlocks(rest).uncorrectable == whole.uncorrectable
    {
      DecodeNext(rest);
      assert bits[offset..offset + 8] == rest[..8];
      var block, fixed, lost := RepairBlock(bits[offset..offset + 8]);
      corrected := corrected + fixed;
      uncorrectable := uncorrectable + lost;
      AppendMoves(decoded, DataOf(block), DecodeBlocks(rest[8..]).bits);
      decoded := decoded + DataOf(block);
      offset := offset + 8;
      rest := rest[8..];
    }
    NothingDecoded();
    assert rest == [];
  }

  lemma NothingDecoded()
    ensures DecodeBlocks([]) == Decoded([], 0, 0)
  {}

  lemma UnpaddedNothing(bits: seq<Bit>)
    ensures Unpadded(bits, 0) == bits
  {}

  /** The number of blocks of `data` whose code word differs from the received one in `n` bits. */
  function BlocksWith(data: seq<Bit>, received: seq<Bit>, n: nat): nat
    requires |data| % 4 == 0 && |received| == 2 * |data|
  {
    if data == [] then 0
    else
      (if BitErrors(EncodeBlock(data[..4]), received[..8]) == n then 1 else 0)
      + BlocksWith(data[4..], received[8..], n)
  }

  /** Every block differs in at most `n` bits. */
  predicate BlocksWithin(data: seq<Bit>, received: seq<Bit>, n: nat)
    requires |data| % 4 == 0 && |received| == 2 * |data|
  {
    data == [] ||
    (BitErrors(EncodeBlock(data[..4]), received[..8]) <= n && BlocksWithin(data[4..], received[8..], n))
  }

  lemma BlockLength(data: seq<Bit>)
    requires |data| % 4 == 0 && data != []
    ensures |data| >= 4 && |data[4..]| % 4 == 0
  {}

  function Nibble(data: seq<Bit>, k: nat): (d: seq<Bit>)
    requires 4 * k + 4 <= |data|
    ensures |d| == 4
  {
    data[4 * k..4 * k + 4]
  }

  function Octet(received: seq<Bit>, k: nat): (d: seq<Bit>)
    requires 8 * k + 8 <= |received|
    ensures |d| == 8
  {
    received[8 * k..8 * k + 8]
  }

  /** Up to two flips per block: the counters are exactly the numbers of blocks hit once and hit
      twice. */
  lemma {:induction false} CountersAreExact(data: seq<Bit>, received: seq<Bit>)
    requires |data| % 4 == 0 && |received| == 2 * |data| && BlocksWithin(data, received, 2)
    ensures DecodeBlocks(received).corrected == BlocksWith(data, received, 1)
    ensures DecodeBlocks(received).uncorrectable == BlocksWith(data, received, 2)
  {
    hide BitErrors, EncodeBlock, Repaired, DataOf, Corrects, GivesUp;
    if data != [] {
      BlockLength(data);
      BlockOutcome(data[..4], received[..8]);
      CountersAreExact(data[4..], received[8..]);
    }
  }

  /** Blocks are decoded independently: whatever happens elsewhere in the stream, a block hit at
      most once comes out right. */
  lemma {:induction false} BlocksAreIndependent(data: seq<Bit>, received: seq<Bit>, k: nat)
    requires |data| % 4 == 0 && |received| == 2 * |data| && 4 * k < |data|
    requires BitErrors(EncodeBlock(Nibble(data, k)), Octet(received, k)) <= 1
    ensures Nibble(DecodeBlocks(received).bits, k) == Nibble(data, k)
  {
    hide BitErrors, EncodeBlock, Repaired, DataOf, Corrects, GivesUp, DecodeBlocks, Nibble, Octet;
    BlockLength(data);
    BlocksUnfold(received);
    NibbleAt(data, k);
    NibbleAt(DecodeBlocks(received).bits, k);
    OctetAt(received, k);
    if k == 0 {
      BlockOutcome(data[..4], received[..8]);
    } else {
      BlocksAreIndependent(data[4..], received[8..], k - 1);
    }
  }

  /** The first four bits and the rest of a decoded stream. */
  lemma BlocksUnfold(received: seq<Bit>)
    requires |received| % 8 == 0 && received != []
    ensures |received| >= 8 && |received[8..]| % 8 == 0 && |DecodeBlocks(received).bits| >= 4
    ensures DecodeBlocks(received).bits[..4] == DataOf(Repaired(received[..8]))
    ensures DecodeBlocks(received).bits[4..] == DecodeBlocks(received[8..]).bits
  {
    hide Repaired, DataOf, Corrects, GivesUp;
  }

  lemma NibbleAt(data: seq<Bit>, k: nat)
    requires 4 * k + 4 <= |data|
    ensures k == 0 ==> Nibble(data, k) == data[..4]
    ensures k > 0 ==> Nibble(data, k) == Nibble(data[4..], k - 1)
  {
    if k > 0 {
      SliceOfTail(data, 4, 4 * k, 4 * k + 4);
    }
  }

  lemma OctetAt(received: seq<Bit>, k: nat)
    requires 8 * k + 8 <= |received|
    ensures k == 0 ==> Octet(received, k) == received[..8]
    ensures k > 0 ==> Octet(received, k) == Octet(received[8..], k - 1)
  {
    if k > 0 {
      SliceOfTail(received, 8, 8 * k, 8 * k + 8);
    }
  }

  /** At most one flip per block: the stream is recovered. */
  lemma {:induction false} SingleErrorsAreRepaired(data: seq<Bit>, received: seq<Bit>)
    requires |data| % 4 == 0 && |received| == 2 * |data| && BlocksWithin(data, received, 1)
    ensures DecodeBlocks(received) == Decoded(data, BlocksWith(data, received, 1), 0)
  {
    hide BitErrors, EncodeBlock, Repaired, DataOf, Corrects, GivesUp;
    if data != [] {
      BlockLength(data);
      BlockOutcome(data[..4], received[..8]);
      SingleErrorsAreRepaired(data[4..], received[8..]);
      assert data == data[..4] + data[4..];
    }
  }

  /** The same for any bit string through padding and its removal. */
  lemma UnprotectRepairs(bits: seq<Bit>, received: seq<Bit>)
    requires |received| == 2 * |Padded(bits)| && BlocksWithin(Padded(bits), received, 1)
    ensures Unprotect(received, HammingCode, PaddingFor(|bits|)) ==
            Some(Decoded(bits, BlocksWith(Padded(bits), received, 1), 0))
  {
    hide DecodeBlocks, BlocksWith, BlocksWithin, Padded, PaddingFor, Unpadded;
    PaddedIsWhole(bits);
    SingleErrorsAreRepaired(Padded(bits), received);
    UnpaddedPadded(bits);
  }

  lemma PaddedIsWhole(bits: seq<Bit>)
    ensures |Padded(bits)| % 4 == 0 && 2 * |Padded(bits)| % 8 == 0
  {}

  lemma UnpaddedPadded(bits: seq<Bit>)
    ensures Unpadded(Padded(bits), PaddingFor(|bits|)) == bits
  {
    hide PaddingFor;
    assert Padded(bits)[..|bits|] == bits;
  }

  /** An undamaged code stream: nothing to correct. */
  lemma {:induction false} CleanStream(data: seq<Bit>)
    requires |data| % 4 == 0
    ensures BlocksWithin(data, EncodeBlocks(data), 0) && BlocksWithin(data, EncodeBlocks(data), 1)
    ensures BlocksWith(data, EncodeBlocks(data), 1) == 0
  {
    hide BitErrors, EncodeBlock;
    if data != [] {
      BlockLength(data);
      var e := EncodeBlocks(data);
      assert e[..8] == EncodeBlock(data[..4]) && e[8..] == EncodeBlocks(data[4..]);
      NoErrorsIsEqual(e[..8], e[..8]);
      CleanStream(data[4..]);
    }
  }

  /** For any damage at all, decoding adds at most one data error per correction it makes. */
  lemma {:induction false} DecodedErrorBound(data: seq<Bit>, received: seq<Bit>)
    requires |data| % 4 == 0 && |received| == 2 * |data|
    ensures BitErrors(data, DecodeBlocks(received).bits)
            <= BitErrors(EncodeBlocks(data), received) + DecodeBlocks(received).corrected
  {
    hide EncodeBlock, Repaired, DataOf, Corrects, GivesUp;
    if data != [] {
      BlockLength(data);
      var block := received[..8];
      BlockErrorBound(data[..4], block);
      DecodedErrorBound(data[4..], received[8..]);
      BitErrorsAppend(data[..4], data[4..], DataOf(Repaired(block)), DecodeBlocks(received[8..]).bits);
      BitErrorsAppend(EncodeBlock(data[..4]), EncodeBlocks(data[4..]), block, received[8..]);
      assert data == data[..4] + data[4..] && received == block + received[8..];
    }
  }
}
