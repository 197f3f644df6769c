/**
 Deterministic noise of the simulated channel: a fixed percentage of samples is flipped at the
 positions `(offset + index * step) % length`, with a step coprime to the length.

 The two 64-bit words taken from a SHA-256 digest are parameters here.
 */
module Noise {
  import opened SpectraBits

  datatype Channel = AcousticFixture | OpticalFixture

  // ---- Greatest common divisors ----------------------------------------------------------------

  function Gcd(a: nat, b: nat): nat
    decreases b
  {
    if b == 0 then a else Gcd(b, a % b)
  }

  lemma GcdStep(a: nat, b: nat)
    requires b != 0
    ensures Gcd(a, b) == Gcd(b, a % b)
  {}

  lemma GcdWithZero(a: nat)
    ensures Gcd(a, 0) == a
  {}

  lemma GcdWithOne(n: nat)
    ensures Gcd(1, n) == 1
  {
    hide Gcd;
    GcdWithZero(1);
    if n > 0 {
      GcdStep(1, n);
      if n > 1 {
        GcdStep(n, 1);
      }
    }
  }

  /** Bezout's identity, with the coefficients. */
  lemma {:induction false} Bezout(a: nat, b: nat) returns (x: int, y: int)
    ensures a * x + b * y == Gcd(a, b)
    decreases b
  {
    if b == 0 {
      x, y := 1, 0;
    } else {
      var q, r := a / b, a % b;
      var u, v := Bezout(b, r);
      x, y := v, u - q * v;
      BezoutStep(a, b, q, r, u, v);
    }
  }

  lemma BezoutStep(a: int, b: int, q: int, r: int, u: int, v: int)
    requires a == b * q + r
    ensures a * v + b * (u - q * v) == b * u + r * v
  {
    assert a * v == (b * q + r) * v == b * q * v + r * v;
    assert b * (u - q * v) == b * u - b * (q * v);
    assert b * (q * v) == b * q * v;
  }

  /** Euclid's lemma: a multiple of n that is also a multiple of a step coprime to n comes from a
      multiple of n. */
  lemma EuclidsLemma(step: nat, n: nat, m: int, q: int) returns (t: int)
    requires Gcd(step, n) == 1 && m * step == n * q
    ensures m == n * t
  {
    hide Gcd;
    var x, y := Bezout(step, n);
    t := q * x + m * y;
    CombineMultiples(step, n, m, q, x, y);
  }

  lemma CombineMultiples(step: int, n: int, m: int, q: int, x: int, y: int)
    requires m * step == n * q && step * x + n * y == 1
    ensures m == n * (q * x + m * y)
  {
    calc {
      m;
      m * (step * x + n * y);
      { Distribute(m, step * x, n * y); }
      m * (step * x) + m * (n * y);
      { Reassociate(m, step, x); Reassociate(m, n, y); Reassociate(n, m, y); }
      (m * step) * x + n * (m * y);
      (n * q) * x + n * (m * y);
      { Reassociate(n, q, x); Distribute(n, q * x, m * y); }
      n * (q * x + m * y);
    }
  }

  lemma Distribute(a: int, b: int, c: int)
    ensures a * (b + c) == a * b + a * c
  {}

  lemma Reassociate(a: int, b: int, c: int)
    ensures a * (b * c) == (a * b) * c && a * b == b * a
  {}

  // ---- The stride ------------------------------------------------------------------------------

  /** The first candidate from `candidate` on, wrapping from the modulus to 1, coprime to it. */
  function FirstCoprime(candidate: nat, modulus: nat): (r: nat)
    requires 1 <= candidate && (candidate < modulus || candidate == 1)
    ensures Gcd(r, modulus) == 1 && 1 <= r && (r < modulus || r == 1)
    decreases if candidate == 1 then 0 else modulus - candidate
  {
    if Gcd(candidate, modulus) == 1 then candidate
    else
      GcdWithOne(modulus);
      FirstCoprime(if candidate + 1 == modulus then 1 else candidate + 1, modulus)
  }

  /** Reduction modulo the length, with zero replaced by one. */
  function Start(candidate: nat, modulus: nat): (r: nat)
    requires modulus >= 1
    ensures 1 <= r && (r < modulus || r == 1)
  {
    if candidate % modulus == 0 then 1 else candidate % modulus
  }

  method NextCoprime(candidate: nat, modulus: nat) returns (r: nat)
    requires modulus >= 1
    ensures Gcd(r, modulus) == 1 && 1 <= r && (r < modulus || r == 1)
    ensures r == FirstCoprime(Start(candidate, modulus), modulus)
  {
    r := Start(candidate, modulus);
    while Gcd(r, modulus) != 1
      invariant 1 <= r && (r < modulus || r == 1)
      invariant FirstCoprime(r, modulus) == FirstCoprime(Start(candidate, modulus), modulus)
      decreases if r == 1 then 0 else modulus - r
    {
      GcdWithOne(modulus);
      r := r + 1;
      if r == modulus {
        r := 1;
      }
    }
  }

  /** It is the least one: wrapping never happens, since the modulus minus one is coprime to it. */
  lemma {:induction false} FirstCoprimeIsLeast(candidate: nat, modulus: nat)
    requires 1 <= candidate && (candidate < modulus || candidate == 1)
    ensures candidate <= FirstCoprime(candidate, modulus)
    ensures forall k :: candidate <= k < FirstCoprime(candidate, modulus) ==> Gcd(k, modulus) != 1
    decreases modulus - candidate
  {
    hide Gcd;
    GcdWithOne(modulus);
    if Gcd(candidate, modulus) != 1 {
      PredecessorIsCoprime(modulus);
      FirstCoprimeIsLeast(candidate + 1, modulus);
    }
  }

  lemma PredecessorIsCoprime(n: nat)
    requires n > 1
    ensures Gcd(n - 1, n) == 1
  {
    hide Gcd;
    GcdStep(n - 1, n);
    if n == 2 {
      GcdWithOne(2);
    } else {
      GcdStep(n, n - 1);
      assert n % (n - 1) == 1;
      GcdStep(n - 1, 1);
      GcdWithZero(1);
    }
  }

  /** The least number from `from` on that is coprime to `n`. */
  ghost predicate LeastCoprime(from: nat, n: nat, r: nat) {
    from <= r && Gcd(r, n) == 1 && forall k :: from <= k < r ==> Gcd(k, n) != 1
  }

  /** The optical stride is the least coprime from the second word on, the acoustic one the least from
      three times the optical one on, each start reduced modulo the length, with zero replaced by one. */
  lemma StrideExactly(stepWord: nat, n: nat)
    requires n >= 1
    ensures var optical := Stride(stepWord, n, OpticalFixture);
            && LeastCoprime(if stepWord % n == 0 then 1 else stepWord % n, n, optical)
            && LeastCoprime(if 3 * optical % n == 0 then 1 else 3 * optical % n, n, Stride(stepWord, n, AcousticFixture))
  {
    hide Gcd, FirstCoprime;
    FirstCoprimeIsLeast(Start(stepWord, n), n);
    FirstCoprimeIsLeast(Start(Stride(stepWord, n, OpticalFixture) * 3, n), n);
  }

  /** Both channels end up with a stride between 1 and n - 1 that is coprime to n. */
  function Stride(stepWord: nat, n: nat, channel: Channel): (step: nat)
    requires n >= 1
    ensures Gcd(step, n) == 1 && 1 <= step && (step < n || n == 1)
  {
    var step := FirstCoprime(Start(stepWord, n), n);
    if channel == AcousticFixture then FirstCoprime(Start(step * 3, n), n) else step
  }

  // ---- Positions -------------------------------------------------------------------------------

  function Position(offset: nat, step: nat, n: nat, index: nat): (p: nat)
    requires n >= 1
    ensures p < n
  {
    (offset + index * step) % n
  }

  lemma EqualRemainders(a: nat, b: nat, n: nat)
    requires n >= 1 && a % n == b % n
    ensures b - a == n * (b / n - a / n)
  {
    assert a == n * (a / n) + a % n && b == n * (b / n) + b % n;
    assert n * (b / n - a / n) == n * (b / n) - n * (a / n);
  }

  /** No position is hit twice before the stride has gone all the way round. */
  lemma PositionsDistinct(offset: nat, step: nat, n: nat, i: nat, j: nat)
    requires n >= 1 && Gcd(step, n) == 1 && i < j < n
    ensures Position(offset, step, n, i) != Position(offset, step, n, j)
  {
    hide Gcd;
    var a, b := offset + i * step, offset + j * step;
    if a % n == b % n {
      EqualRemainders(a, b, n);
      assert (j - i) * step == b - a;
      var t := EuclidsLemma(step, n, j - i, b / n - a / n);
      NoMultipleBetween(j - i, n, t);
      assert false;
    }
  }

  lemma NoMultipleBetween(m: int, n: int, t: int)
    requires 0 < m < n
    ensures m != n * t
  {
    if t <= 0 {
      assert n * t <= 0;
    } else {
      assert n * t >= n;
    }
  }

  function Positions(offset: nat, step: nat, n: nat, count: nat): (s: set<nat>)
    requires n >= 1
    ensures forall p :: p in s ==> p < n
  {
    if count == 0 then {} else Positions(offset, step, n, count - 1) + {Position(offset, step, n, count - 1)}
  }

  lemma {:induction false} PositionsMembers(offset: nat, step: nat, n: nat, count: nat, p: nat)
    requires n >= 1
    ensures p in Positions(offset, step, n, count) <==>
            exists i: nat :: i < count && p == Position(offset, step, n, i)
  {
    hide Position;
    if count > 0 {
      PositionsMembers(offset, step, n, count - 1, p);
    }
  }

  /** Exactly `count` different positions. */
  lemma {:induction false} PositionsCount(offset: nat, step: nat, n: nat, count: nat)
    requires n >= 1 && Gcd(step, n) == 1 && count <= n
    ensures |Positions(offset, step, n, count)| == count
  {
    hide Position;
    if count > 0 {
      var last := count - 1;
      PositionsCount(offset, step, n, last);
      PositionsMembers(offset, step, n, last, Position(offset, step, n, last));
      if Position(offset, step, n, last) in Positions(offset, step, n, last) {
        var i: nat :| i < last && Position(offset, step, n, last) == Position(offset, step, n, i);
        PositionsDistinct(offset, step, n, i, last);
        assert false;
      }
    }
  }

  // ---- Flipping --------------------------------------------------------------------------------

  function FlipAt(samples: seq<Bit>, positions: set<nat>): (r: seq<Bit>)
    ensures |r| == |samples|
  {
    seq(|samples|, i requires 0 <= i < |samples| => samples[i] != (i in positions))
  }

  lemma FlipOneMore(samples: seq<Bit>, positions: set<nat>, p: nat)
    requires p < |samples| && p !in positions
    ensures FlipAt(samples, positions + {p}) ==
            FlipAt(samples, positions)[p := !FlipAt(samples, positions)[p]]
    ensures FlipAt(samples, positions)[p] == samples[p]
  {}

  /** Flipping at a set of positions makes exactly that many errors. */
  lemma {:induction false} FlipErrors(samples: seq<Bit>, positions: set<nat>)
    requires forall p :: p in positions ==> p < |samples|
    ensures BitErrors(samples, FlipAt(samples, positions)) == |positions|
    decreases |positions|
  {
    if positions == {} {
      assert FlipAt(samples, {}) == samples;
      BitErrorsSelf(samples);
    } else {
      var p :| p in positions;
      var fewer := positions - {p};
      assert fewer + {p} == positions;
      FlipErrors(samples, fewer);
      FlipOneMore(samples, fewer, p);
      FlipAddsError(samples, FlipAt(samples, fewer), p);
    }
  }

  function ErrorCount(length: nat, noisePercent: nat): nat {
    length * noisePercent / 100
  }

  function Injected(samples: seq<Bit>, noisePercent: nat, offsetWord: nat, stepWord: nat, channel: Channel)
    : (seq<Bit>, nat)
  {
    var count := ErrorCount(|samples|, noisePercent);
    if count == 0 then (samples, 0)
    else
      NonEmptyIfErrors(|samples|, noisePercent);
      var n := |samples|;
      var positions := Positions(offsetWord % n, Stride(stepWord, n, channel), n, count);
      (FlipAt(samples, positions), |positions|)
  }

  lemma NonEmptyIfErrors(length: nat, noisePercent: nat)
    ensures ErrorCount(length, noisePercent) != 0 ==> length != 0
    ensures noisePercent <= 100 ==> ErrorCount(length, noisePercent) <= length
  {
    assert length == 0 ==> length * noisePercent == 0;
    if noisePercent <= 100 {
      assert length * noisePercent <= length * 100;
    }
  }

  /** The set comprehension over the indices. */
  method PositionSet(offset: nat, step: nat, n: nat, count: nat) returns (positions: set<nat>)
    requires n >= 1
    ensures positions == Positions(offset, step, n, count)
  {
    hide Position, Positions;
    positions := set index | 0 <= index < count :: Position(offset, step, n, index);
    forall p: nat ensures p in positions <==> p in Positions(offset, step, n, count) {
      PositionsMembers(offset, step, n, count, p);
    }
  }

  /** The loop over the positions, in whatever order the set is traversed. */
  method FlipEach(samples: seq<Bit>, positions: set<nat>) returns (output: seq<Bit>)
    requires forall p :: p in positions ==> p < |samples|
    ensures output == FlipAt(samples, positions)
  {
    hide FlipAt;
    output := samples;
    var remaining := positions;
    NothingFlipped(samples);
    assert positions - remaining == {};
    while remaining != {}
      invariant remaining <= positions
      invariant output == FlipAt(samples, positions - remaining)
    {
      var position :| position in remaining;
      FlipOneMore(samples, positions - remaining, position);
      assert positions - (remaining - {position}) == (positions - remaining) + {position};
      output := output[position := !output[position]];
      remaining := remaining - {position};
    }
    assert positions - remaining == positions;
  }

  method InjectNoise(samples: seq<Bit>, noisePercent: nat, offsetWord: nat, stepWord: nat, channel: Channel)
    returns (output: seq<Bit>, injected: nat)
    ensures (output, injected) == Injected(samples, noisePercent, offsetWord, stepWord, channel)
  {
    hide Positions, Gcd, FlipAt, ErrorCount, Start;
    var errorCount := ErrorCount(|samples|, noisePercent);
    if errorCount == 0 {
      return samples, 0;
    }
    NonEmptyIfErrors(|samples|, noisePercent);
    var n := |samples|;
    var offset := offsetWord % n;
    var step := Start(stepWord, n);
    while Gcd(step, n) != 1
      invariant 1 <= step && (step < n || step == 1)
      invariant FirstCoprime(step, n) == FirstCoprime(Start(stepWord, n), n)
      decreases if step == 1 then 0 else n - step
    {
      GcdWithOne(n);
      step := step + 1;
      if step == n {
        step := 1;
      }
    }
    if channel == AcousticFixture {
      step := NextCoprime(step * 3, n);
    }
    var positions := PositionSet(offset, step, n, errorCount);
    output := FlipEach(samples, positions);
    injected := |positions|;
  }

  lemma NothingFlipped(samples: seq<Bit>)
    ensures FlipAt(samples, {}) == samples
  {}

  /** Exactly `length * noisePercent // 100` samples are flipped, on both channels, and that number
      is the one reported. */
  lemma NoiseFlipsExactly(samples: seq<Bit>, noisePercent: nat, offsetWord: nat, stepWord: nat, channel: Channel)
    requires noisePercent <= 100
    ensures var (output, injected) := Injected(samples, noisePercent, offsetWord, stepWord, channel);
            && |output| == |samples|
            && injected == ErrorCount(|samples|, noisePercent)
            && BitErrors(samples, output) == injected
  {
    hide Stride, FlipAt, BitErrors, ErrorCount;
    NonEmptyIfErrors(|samples|, noisePercent);
    var count, n := ErrorCount(|samples|, noisePercent), |samples|;
    if count == 0 {
      BitErrorsSelf(samples);
    } else {
      var step := Stride(stepWord, n, channel);
      PositionsCount(offsetWord % n, step, n, count);
      FlipErrors(samples, Positions(offsetWord % n, step, n, count));
    }
  }
}
