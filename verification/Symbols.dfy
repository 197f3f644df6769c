/**
 Symbol modulation of the simulated channel and its nearest-symbol demodulation. Ties go to zero.
 */
module Symbols {
  import opened Sequences
  import opened Options
  import opened SpectraBits

  datatype Encoding = Ask | Manchester | Fsk | Pwm

  function SymbolSize(e: Encoding): (n: nat)
    ensures 1 <= n <= 4
  {
    match e
    case Ask => 1
    case Manchester => 2
    case Fsk => 4
    case Pwm => 4
  }

  function Symbol(e: Encoding, bit: Bit): (s: seq<Bit>)
    ensures |s| == SymbolSize(e)
  {
    match e
    case Ask => [bit]
    case Manchester => if bit then [true, false] else [false, true]
    case Fsk => if bit then [false, true, false, true] else [false, false, true, true]
    case Pwm => if bit then [true, true, true, false] else [true, false, false, false]
  }

  /** The symbols of zero and one, sample by sample. */
  lemma SymbolTable(bit: Bit)
    ensures Symbol(Ask, bit) == if bit then [true] else [false]
    ensures Symbol(Manchester, bit) == if bit then [true, false] else [false, true]
    ensures Symbol(Fsk, bit) == if bit then [false, true, false, true] else [false, false, true, true]
    ensures Symbol(Pwm, bit) == if bit then [true, true, true, false] else [true, false, false, false]
  {}

  // ---- Nearest symbol --------------------------------------------------------------------------

  function Nearest(zero: seq<Bit>, one: seq<Bit>, received: seq<Bit>): Bit {
    BitErrors(one, received) < BitErrors(zero, received)
  }

  /** Flips at positions where the two symbols differ; only these can change the decision. */
  function RelevantFlips(sent: seq<Bit>, other: seq<Bit>, received: seq<Bit>): nat
    requires |sent| == |other| == |received|
  {
    if sent == [] then 0
    else
      (if sent[0] != other[0] && received[0] != sent[0] then 1 else 0)
      + RelevantFlips(sent[1..], other[1..], received[1..])
  }

  /** The distance to the other symbol exceeds the distance to the sent one by d - 2f. */
  lemma {:induction false} DistanceGap(sent: seq<Bit>, other: seq<Bit>, received: seq<Bit>)
    requires |sent| == |other| == |received|
    ensures BitErrors(other, received) + 2 * RelevantFlips(sent, other, received)
            == BitErrors(sent, received) + BitErrors(sent, other)
  {
    if sent != [] {
      DistanceGap(sent[1..], other[1..], received[1..]);
    }
  }

  lemma {:induction false} BitErrorsSymmetric(a: seq<Bit>, b: seq<Bit>)
    ensures BitErrors(a, b) == BitErrors(b, a)
  {
    if a != [] && b != [] {
      BitErrorsSymmetric(a[1..], b[1..]);
    }
  }

  /** With symbols d apart and f relevant flips, a sent zero is recovered iff 2f <= d, and a sent
      one iff 2f < d. */
  lemma DecisionCriterion(e: Encoding, sent: Bit, received: seq<Bit>)
    requires |received| == SymbolSize(e)
    ensures var d := BitErrors(Symbol(e, false), Symbol(e, true));
            var f := RelevantFlips(Symbol(e, sent), Symbol(e, !sent), received);
            Nearest(Symbol(e, false), Symbol(e, true), received) == sent
            <==> if sent then 2 * f < d else 2 * f <= d
  {
    hide Symbol, BitErrors, RelevantFlips;
    DistanceGap(Symbol(e, sent), Symbol(e, !sent), received);
    BitErrorsSymmetric(Symbol(e, false), Symbol(e, true));
  }

  /** The four symbol pairs are 1, 2, 2 and 2 apart. */
  lemma SymbolDistances(e: Encoding)
    ensures BitErrors(Symbol(e, false), Symbol(e, true)) == if e == Ask then 1 else 2
  {
    var a, b := Symbol(e, false), Symbol(e, true);
    match e
    case Ask =>
    case Manchester =>
      assert BitErrors(a[1..], b[1..]) == 1;
    case _ =>
      assert BitErrors(a[3..], b[3..]) == Flipped(a[3], b[3]);
      assert a[2..][1..] == a[3..] && b[2..][1..] == b[3..];
      assert BitErrors(a[2..], b[2..]) == Flipped(a[2], b[2]) + Flipped(a[3], b[3]);
      assert a[1..][1..] == a[2..] && b[1..][1..] == b[2..];
      assert BitErrors(a[1..], b[1..]) == Flipped(a[1], b[1]) + Flipped(a[2], b[2]) + Flipped(a[3], b[3]);
  }

  // ---- Streams ---------------------------------------------------------------------------------

  function Modulated(bits: seq<Bit>, e: Encoding): (samples: seq<Bit>)
    ensures |samples| == |bits| * SymbolSize(e)
  {
    if bits == [] then [] else Symbol(e, bits[0]) + Modulated(bits[1..], e)
  }

  function Demodulated(samples: seq<Bit>, e: Encoding): (bits: seq<Bit>)
    requires |samples| % SymbolSize(e) == 0
    ensures |bits| * SymbolSize(e) == |samples|
  {
    if samples == [] then []
    else
      WholeSymbols(samples, e);
      [Nearest(Symbol(e, false), Symbol(e, true), samples[..SymbolSize(e)])]
      + Demodulated(samples[SymbolSize(e)..], e)
  }

  lemma WholeSymbols(samples: seq<Bit>, e: Encoding)
    requires |samples| % SymbolSize(e) == 0 && samples != []
    ensures |samples| >= SymbolSize(e) && |samples[SymbolSize(e)..]| % SymbolSize(e) == 0
  {}

  method Modulate(bits: seq<Bit>, e: Encoding) returns (output: seq<Bit>)
    ensures output == Modulated(bits, e)
  {
    hide Symbol;
    output := [];
    for i := 0 to |bits|
      invariant output + Modulated(bits[i..], e) == Modulated(bits, e)
    {
      assert bits[i..][1..] == bits[i + 1..];
      assert (output + Symbol(e, bits[i])) + Modulated(bits[i + 1..], e)
          == output + (Symbol(e, bits[i]) + Modulated(bits[i + 1..], e));
      output := output + Symbol(e, bits[i]);
    }
    assert output == output + Modulated(bits[|bits|..], e);
  }

  /** `None` is the error for a sample count that is not a whole number of symbols. */
  method Demodulate(samples: seq<Bit>, e: Encoding) returns (r: Option<seq<Bit>>)
    ensures r == if |samples| % SymbolSize(e) != 0 then None else Some(Demodulated(samples, e))
  {
    hide Symbol, Demodulated, BitErrors;
    var zero, one := Symbol(e, false), Symbol(e, true);
    var symbolSize := |zero|;
    if |samples| % symbolSize != 0 {
      return None;
    }
    var output: seq<Bit> := [];
    var offset := 0;
    assert samples[0..] == samples;
    while offset < |samples|
      invariant offset <= |samples| && |samples[offset..]| % SymbolSize(e) == 0
      invariant output + Demodulated(samples[offset..], e) == Demodulated(samples, e)
    {
      WholeSymbols(samples[offset..], e);
      DemodulateNext(samples, offset, e);
      var symbol := samples[offset..offset + symbolSize];
      var zeroDistance := BitErrors(zero, symbol);
      var oneDistance := BitErrors(one, symbol);
      var bit := oneDistance < zeroDistance;
      AppendMoves(output, [bit], Demodulated(samples[offset + symbolSize..], e));
      output := output + [bit];
      offset := offset + symbolSize;
    }
    DemodulateEnd(samples, offset, e);
    assert output == output + Demodulated(samples[offset..], e);
    return Some(output);
  }

  lemma DemodulateNext(samples: seq<Bit>, offset: nat, e: Encoding)
    requires offset < |samples| && |samples[offset..]| % SymbolSize(e) == 0
    ensures offset + SymbolSize(e) <= |samples| && |samples[offset + SymbolSize(e)..]| % SymbolSize(e) == 0
    ensures Demodulated(samples[offset..], e) ==
            [Nearest(Symbol(e, false), Symbol(e, true), samples[offset..offset + SymbolSize(e)])]
            + Demodulated(samples[offset + SymbolSize(e)..], e)
  {
    hide Symbol, Nearest;
    var rest := samples[offset..];
    WholeSymbols(rest, e);
    assert rest[..SymbolSize(e)] == samples[offset..offset + SymbolSize(e)];
    assert rest[SymbolSize(e)..] == samples[offset + SymbolSize(e)..];
  }

  lemma DemodulateEnd(samples: seq<Bit>, offset: nat, e: Encoding)
    requires offset == |samples|
    ensures |samples[offset..]| % SymbolSize(e) == 0 && Demodulated(samples[offset..], e) == []
  {}

  /** A demodulated bit is wrong only if some sample of its symbol was flipped. */
  lemma WrongBitNeedsFlip(e: Encoding, bit: Bit, received: seq<Bit>)
    requires |received| == SymbolSize(e)
    ensures Flipped(bit, Nearest(Symbol(e, false), Symbol(e, true), received)) <= BitErrors(Symbol(e, bit), received)
  {
    hide Symbol;
    NoErrorsIsEqual(Symbol(e, bit), received);
    if received == Symbol(e, bit) {
      NoErrorsIsEqual(Symbol(e, !bit), received);
      SymbolDistances(e);
      BitErrorsSelf(received);
    }
  }

  lemma ModulatedLength(bits: seq<Bit>, e: Encoding)
    ensures |Modulated(bits, e)| % SymbolSize(e) == 0
    ensures bits != [] ==> |Modulated(bits, e)| == SymbolSize(e) + |Modulated(bits[1..], e)|
  {
    Multiple(|bits|, SymbolSize(e));
  }

  lemma Multiple(n: nat, k: nat)
    requires 1 <= k <= 4
    ensures (n * k) % k == 0
  {
    if k == 2 {
      assert n * 2 % 2 == 0;
    } else if k == 3 {
      assert n * 3 % 3 == 0;
    } else if k == 4 {
      assert n * 4 % 4 == 0;
    }
  }

  lemma {:induction false} ModulatedAt(bits: seq<Bit>, e: Encoding, i: nat)
    requires i < |bits|
    ensures var at, n := i * SymbolSize(e), SymbolSize(e);
            at + n <= |Modulated(bits, e)| && Modulated(bits, e)[at..at + n] == Symbol(e, bits[i])
  {
    hide Symbol;
    var n := SymbolSize(e);
    NextSymbol(i, |bits|, n);
    if i > 0 {
      ModulatedAt(bits[1..], e, i - 1);
      SliceBehind(Symbol(e, bits[0]), Modulated(bits[1..], e), (i - 1) * n, (i - 1) * n + n);
      assert bits[1..][i - 1] == bits[i];
    }
  }

  lemma NextSymbol(i: nat, count: nat, n: nat)
    requires i < count
    ensures i * n + n <= count * n && (i > 0 ==> i * n == (i - 1) * n + n)
  {
    Times(i, 1, n);
    Times(i + 1, count - (i + 1), n);
    if i > 0 {
      Times(i - 1, 1, n);
    }
  }

  lemma Times(a: nat, b: nat, n: nat)
    ensures (a + b) * n == a * n + b * n && b * n >= 0
  {}

  lemma SliceBehind(head: seq<Bit>, rest: seq<Bit>, lo: nat, hi: nat)
    requires lo <= hi <= |rest|
    ensures (head + rest)[lo + |head|..hi + |head|] == rest[lo..hi]
  {}

  lemma {:induction false} DemodulatedAt(samples: seq<Bit>, e: Encoding, i: nat)
    requires |samples| % SymbolSize(e) == 0 && i < |Demodulated(samples, e)|
    ensures var at, n := i * SymbolSize(e), SymbolSize(e);
            at + n <= |samples|
            && Demodulated(samples, e)[i] == Nearest(Symbol(e, false), Symbol(e, true), samples[at..at + n])
  {
    hide Symbol, Nearest;
    var n := SymbolSize(e);
    NextSymbol(i, |Demodulated(samples, e)|, n);
    WholeSymbols(samples, e);
    if i > 0 {
      DemodulatedAt(samples[n..], e, i - 1);
      SliceBehind(samples[..n], samples[n..], (i - 1) * n, (i - 1) * n + n);
      assert samples == samples[..n] + samples[n..];
    }
  }

  /** Over a whole stream, bit errors after demodulation are at most the flipped samples. */
  lemma {:induction false} ChannelErrorBound(bits: seq<Bit>, received: seq<Bit>, e: Encoding)
    requires |received| == |Modulated(bits, e)| && |received| % SymbolSize(e) == 0
    ensures |Demodulated(received, e)| == |bits|
    ensures BitErrors(bits, Demodulated(received, e)) <= BitErrors(Modulated(bits, e), received)
  {
    hide Symbol;
    if bits != [] {
      var n := SymbolSize(e);
      ModulatedLength(bits, e);
      ModulatedLength(bits[1..], e);
      var first, rest := received[..n], received[n..];
      WrongBitNeedsFlip(e, bits[0], first);
      ChannelErrorBound(bits[1..], rest, e);
      BitErrorsAppend(Symbol(e, bits[0]), Modulated(bits[1..], e), first, rest);
      assert received == first + rest;
      var d := Demodulated(received, e);
      assert d[1..] == Demodulated(rest, e);
    } else {
      assert |received| == 0;
    }
  }

  /** Demodulation inverts modulation on every bit string, for every encoding. */
  lemma DemodulateModulate(bits: seq<Bit>, e: Encoding)
    ensures |Modulated(bits, e)| % SymbolSize(e) == 0
    ensures Demodulated(Modulated(bits, e), e) == bits
  {
    hide Modulated, Demodulated;
    ModulatedLength(bits, e);
    ChannelErrorBound(bits, Modulated(bits, e), e);
    BitErrorsSelf(Modulated(bits, e));
    NoErrorsIsEqual(bits, Demodulated(Modulated(bits, e), e));
  }
}
