/** Bit strings of the simulated signal channel: Hamming distance and big-endian integers. */
module SpectraBits {
  import opened Sequences

  type Bit = bool

  function Flipped(left: Bit, right: Bit): nat {
    if left != right then 1 else 0
  }

  /** Mismatches over the shared length, plus the difference in length. */
  function BitErrors(expected: seq<Bit>, actual: seq<Bit>): nat {
    if expected == [] then |actual|
    else if actual == [] then |expected|
    else Flipped(expected[0], actual[0]) + BitErrors(expected[1..], actual[1..])
  }

  lemma {:induction false} BitErrorsAppend(a: seq<Bit>, b: seq<Bit>, c: seq<Bit>, d: seq<Bit>)
    requires |a| == |c|
    ensures BitErrors(a + b, c + d) == BitErrors(a, c) + BitErrors(b, d)
  {
    if a == [] {
      assert a + b == b && c + d == d;
    } else {
      BitErrorsAppend(a[1..], b, c[1..], d);
      assert (a + b)[1..] == a[1..] + b && (c + d)[1..] == c[1..] + d;
    }
  }

  lemma {:induction false} BitErrorsSelf(a: seq<Bit>)
    ensures BitErrors(a, a) == 0
  {
    if a != [] {
      BitErrorsSelf(a[1..]);
    }
  }

  /** Distance zero is equality, for strings of any lengths. */
  lemma {:induction false} NoErrorsIsEqual(a: seq<Bit>, b: seq<Bit>)
    ensures BitErrors(a, b) == 0 <==> a == b
  {
    BitErrorsSelf(a);
    if a != [] && b != [] {
      NoErrorsIsEqual(a[1..], b[1..]);
      assert a == [a[0]] + a[1..] && b == [b[0]] + b[1..];
    }
  }

  lemma {:induction false} Triangle(a: seq<Bit>, b: seq<Bit>, c: seq<Bit>)
    requires |a| == |b| == |c|
    ensures BitErrors(a, c) <= BitErrors(a, b) + BitErrors(b, c)
  {
    if a != [] {
      Triangle(a[1..], b[1..], c[1..]);
    }
  }

  lemma {:induction false} BitErrorsAtMostLength(a: seq<Bit>, b: seq<Bit>)
    requires |a| == |b|
    ensures BitErrors(a, b) <= |a|
  {
    if a != [] {
      BitErrorsAtMostLength(a[1..], b[1..]);
    }
  }

  /** A slice has no more errors than the whole. */
  lemma SliceErrors(a: seq<Bit>, b: seq<Bit>, lo: nat, hi: nat)
    requires |a| == |b| && lo <= hi <= |a|
    ensures BitErrors(a[lo..hi], b[lo..hi]) <= BitErrors(a, b)
  {
    hide BitErrors;
    SplitInThree(a, lo, hi);
    SplitInThree(b, lo, hi);
    BitErrorsAppend(a[..lo], a[lo..hi] + a[hi..], b[..lo], b[lo..hi] + b[hi..]);
    BitErrorsAppend(a[lo..hi], a[hi..], b[lo..hi], b[hi..]);
  }

  /** Flipping a bit that was still right adds exactly one error. */
  lemma FlipAddsError(a: seq<Bit>, b: seq<Bit>, i: nat)
    requires |a| == |b| && i < |a| && a[i] == b[i]
    ensures BitErrors(a, b[i := !b[i]]) == BitErrors(a, b) + 1
  {
    hide BitErrors;
    var c := b[i := !b[i]];
    OneBitErrors(a[i], b[i]);
    OneBitErrors(a[i], c[i]);
    ErrorsAround(a, b, i);
    ErrorsAround(a, c, i);
    assert c[..i] == b[..i] && c[i + 1..] == b[i + 1..];
  }

  lemma OneBitErrors(x: Bit, y: Bit)
    ensures BitErrors([x], [y]) == Flipped(x, y)
  {
    assert BitErrors([], []) == 0;
  }

  lemma ErrorsAround(a: seq<Bit>, b: seq<Bit>, i: nat)
    requires |a| == |b| && i < |a|
    ensures BitErrors(a, b) == BitErrors(a[..i], b[..i]) + BitErrors([a[i]], [b[i]]) + BitErrors(a[i + 1..], b[i + 1..])
  {
    hide BitErrors;
    SplitInThree(a, i, i + 1);
    SplitInThree(b, i, i + 1);
    assert a[i..i + 1] == [a[i]] && b[i..i + 1] == [b[i]];
    BitErrorsAppend(a[..i], a[i..i + 1] + a[i + 1..], b[..i], b[i..i + 1] + b[i + 1..]);
    BitErrorsAppend(a[i..i + 1], a[i + 1..], b[i..i + 1], b[i + 1..]);
  }

  // ---- Integers --------------------------------------------------------------------------------

  function ShiftRight(value: nat, shift: nat): nat {
    if shift == 0 then value else ShiftRight(value / 2, shift - 1)
  }

  function Power2(n: nat): (p: nat)
    ensures p >= 1
  {
    if n == 0 then 1 else 2 * Power2(n - 1)
  }

  function IntToBits(value: nat, width: nat): (bits: seq<Bit>)
    ensures |bits| == width
  {
    seq(width, i requires 0 <= i < width => ShiftRight(value, width - 1 - i) % 2 == 1)
  }

  function Value(bits: seq<Bit>): nat {
    if bits == [] then 0 else 2 * Value(bits[..|bits| - 1]) + (if bits[|bits| - 1] then 1 else 0)
  }

  method BitsToInt(bits: seq<Bit>) returns (value: nat)
    ensures value == Value(bits)
  {
    value := 0;
    for i := 0 to |bits|
      invariant value == Value(bits[..i])
    {
      assert bits[..i + 1][..i] == bits[..i];
      value := value * 2 + (if bits[i] then 1 else 0);
    }
    assert bits[..|bits|] == bits;
  }

  lemma IntToBitsSplits(value: nat, width: nat)
    requires width > 0
    ensures IntToBits(value, width) == IntToBits(value / 2, width - 1) + [value % 2 == 1]
  {
    var bits, front := IntToBits(value, width), IntToBits(value / 2, width - 1);
    forall i | 0 <= i < width - 1 ensures bits[i] == front[i] {
      assert ShiftRight(value, width - 1 - i) == ShiftRight(value / 2, width - 1 - i - 1);
    }
    assert ShiftRight(value, 0) == value;
  }

  /** Writing a number in enough bits and reading it back. */
  lemma {:induction false} ValueOfIntToBits(value: nat, width: nat)
    requires value < Power2(width)
    ensures Value(IntToBits(value, width)) == value
  {
    if width > 0 {
      ValueOfIntToBits(value / 2, width - 1);
      IntToBitsSplits(value, width);
    }
  }

  lemma {:induction false} IntToBitsOfValue(bits: seq<Bit>)
    ensures IntToBits(Value(bits), |bits|) == bits
    ensures Value(bits) < Power2(|bits|)
  {
    if bits != [] {
      var n := |bits| - 1;
      IntToBitsOfValue(bits[..n]);
      var v := Value(bits);
      assert v / 2 == Value(bits[..n]);
      IntToBitsSplits(v, n + 1);
      assert bits == bits[..n] + [bits[n]];
    }
  }
}
