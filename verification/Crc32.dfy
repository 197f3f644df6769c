/**
 The reflected CRC-32 of section 8 of RFC 1952, as the pairing frame codecs compute it.
 */
module Crc32 {
  // The register is a `bv32` and the message a sequence of `bv8`. Three views of the same computation
  // are connected here: the byte-at-a-time fold of the implementation (`Update`), the bit-at-a-time
  // shift register (`Serial`), and, for at most 32 bits, a single xor followed by plain register steps
  // (`WindowIsXor`). Burst-error detection follows from the last one.

  type Byte = bv8

  const POLYNOMIAL: bv32 := 0xEDB88320
  const ALL_ONES: bv32 := 0xFFFFFFFF

  // ---- The register --------------------------------------------------------------------------

  /** Named so that proofs about whole messages can hide the bit-level meaning of xor. */
  function Xor(a: bv32, b: bv32): bv32 {
    a ^ b
  }

  /** One turn of the inner loop: shift right, and xor the polynomial in under an all-ones mask
      exactly when the bit shifted out was set. */
  function BitStep(crc: bv32): bv32 {
    Xor(crc >> 1, POLYNOMIAL & (0 - (crc & 1)))
  }

  function BitSteps(crc: bv32, n: nat): bv32 {
    if n == 0 then crc else BitStep(BitSteps(crc, n - 1))
  }

  function Widen(b: Byte): bv32 {
    b as bv32
  }

  function ByteStep(crc: bv32, b: Byte): bv32 {
    BitSteps(Xor(crc, Widen(b)), 8)
  }

  function Update(crc: bv32, input: seq<Byte>): bv32 {
    if input == [] then crc
    else ByteStep(Update(crc, input[..|input| - 1]), input[|input| - 1])
  }

  /** The checksum of a whole message: the register starts at all ones and is complemented. */
  function Checksum(input: seq<Byte>): bv32 {
    Xor(Update(ALL_ONES, input), ALL_ONES)
  }

  /** The C++ loop: `length` bytes of `input` starting at `start`, eight turns per byte. */
  method UpdateCrc32(initial: bv32, input: array<Byte>, start: nat, length: nat) returns (crc: bv32)
    requires start + length <= input.Length
    ensures crc == Update(initial, input[start..start + length])
  {
    hide Xor, Widen;
    crc := initial;
    for byteIndex := 0 to length
      invariant crc == Update(initial, input[start..start + byteIndex])
    {
      ghost var before := crc;
      var next := input[start + byteIndex];
      crc := Xor(crc, Widen(next));
      ghost var mixed := crc;
      for bitIndex := 0 to 8
        invariant crc == BitSteps(mixed, bitIndex)
      {
        var mask: bv32 := 0 - (crc & 1);
        crc := Xor(crc >> 1, POLYNOMIAL & mask);
      }
      ghost var done := input[start..start + byteIndex + 1];
      assert done[..|done| - 1] == input[start..start + byteIndex];
      assert crc == ByteStep(before, next);
    }
  }

  lemma {:induction false} UpdateAppend(crc: bv32, a: seq<Byte>, b: seq<Byte>)
    ensures Update(crc, a + b) == Update(Update(crc, a), b)
  {
    hide ByteStep;
    if b == [] {
      assert a + b == a;
    } else {
      UpdateAppend(crc, a, b[..|b| - 1]);
      assert (a + b)[..|a + b| - 1] == a + b[..|b| - 1];
    }
  }

  /** `zlib.crc32(data, value)`: a finished checksum is complemented back and continued. */
  function ZlibCrc32(data: seq<Byte>, value: bv32): bv32 {
    Xor(Update(Xor(value, ALL_ONES), data), ALL_ONES)
  }

  /** Chaining two calls checksums the concatenation. */
  lemma ChainedChecksum(first: seq<Byte>, second: seq<Byte>)
    ensures ZlibCrc32(second, ZlibCrc32(first, 0)) == Checksum(first + second)
  {
    hide Xor, Update;
    XorUnit(ALL_ONES);
    XorTwice(Update(ALL_ONES, first), ALL_ONES);
    UpdateAppend(ALL_ONES, first, second);
  }

  // ---- A register step is a linear bijection --------------------------------------------------

  lemma XorTwice(x: bv32, y: bv32)
    ensures Xor(Xor(x, y), y) == x
  {}

  lemma XorAssociative(x: bv32, y: bv32, z: bv32)
    ensures Xor(Xor(x, y), z) == Xor(x, Xor(y, z))
  {}

  lemma XorUnit(x: bv32)
    ensures Xor(x, 0) == x && Xor(0, x) == x
  {}

  lemma XorCancel(x: bv32, y: bv32, z: bv32)
    requires Xor(x, y) == Xor(x, z)
    ensures y == z
  {}

  lemma BitStepCases(c: bv32)
    ensures c & 1 == 0 || c & 1 == 1
    ensures c & 1 == 0 ==> BitStep(c) == c >> 1
    ensures c & 1 == 1 ==> BitStep(c) == (c >> 1) ^ POLYNOMIAL
  {
    if c & 1 == 0 {
      assert (c >> 1) ^ 0 == c >> 1;
    } else {
      assert c & 1 == 1;
      assert 0 - (c & 1) == ALL_ONES;
    }
  }

  lemma ShiftEven(c: bv32)
    requires c & 1 == 0
    ensures (c >> 1) & 0x80000000 == 0 && (c >> 1) << 1 == c
  {}

  lemma ShiftOdd(c: bv32)
    requires c & 1 == 1
    ensures ((c >> 1) ^ POLYNOMIAL) & 0x80000000 != 0 && ((c >> 1) << 1) | 1 == c
  {}

  /** The step run backwards. The polynomial's top bit tells which branch was taken. */
  function BitUnstep(crc: bv32): bv32 {
    if crc & 0x80000000 != 0 then ((crc ^ POLYNOMIAL) << 1) | 1 else crc << 1
  }

  lemma BitStepInvertible(c: bv32)
    ensures BitUnstep(BitStep(c)) == c
  {
    BitStepCases(c);
    if c & 1 == 0 {
      ShiftEven(c);
    } else {
      ShiftOdd(c);
      XorTwice(c >> 1, POLYNOMIAL);
    }
  }

  lemma UnstepEven(c: bv32)
    requires c & 0x80000000 == 0
    ensures (c << 1) & 1 == 0 && (c << 1) >> 1 == c
  {}

  lemma UnstepOdd(c: bv32)
    requires c & 0x80000000 != 0
    ensures (((c ^ POLYNOMIAL) << 1) | 1) & 1 == 1 && (((c ^ POLYNOMIAL) << 1) | 1) >> 1 == c ^ POLYNOMIAL
  {}

  lemma BitUnstepInvertible(c: bv32)
    ensures BitStep(BitUnstep(c)) == c
  {
    BitStepCases(BitUnstep(c));
    if c & 0x80000000 == 0 {
      UnstepEven(c);
    } else {
      UnstepOdd(c);
      XorTwice(c, POLYNOMIAL);
    }
  }

  lemma BitStepLinear(a: bv32, b: bv32)
    ensures BitStep(Xor(a, b)) == Xor(BitStep(a), BitStep(b))
  {
    hide BitStep;
    BitStepCases(a);
    BitStepCases(b);
    BitStepCases(a ^ b);
    assert (a ^ b) >> 1 == (a >> 1) ^ (b >> 1);
    assert (a ^ b) & 1 == (a & 1) ^ (b & 1);
  }

  lemma {:induction false} BitStepsInjective(a: bv32, b: bv32, n: nat)
    requires BitSteps(a, n) == BitSteps(b, n)
    ensures a == b
  {
    hide BitStep, BitUnstep;
    if n > 0 {
      BitStepInvertible(BitSteps(a, n - 1));
      BitStepInvertible(BitSteps(b, n - 1));
      BitStepsInjective(a, b, n - 1);
    }
  }

  lemma {:induction false} BitStepsLinear(a: bv32, b: bv32, n: nat)
    ensures BitSteps(Xor(a, b), n) == Xor(BitSteps(a, n), BitSteps(b, n))
  {
    hide BitStep, Xor;
    if n > 0 {
      BitStepsLinear(a, b, n - 1);
      BitStepLinear(BitSteps(a, n - 1), BitSteps(b, n - 1));
    }
  }

  // ---- The bit-serial view --------------------------------------------------------------------

  /** A bit position as a shift amount. */
  function Amount(k: nat): bv32 {
    if k == 0 then 0 else Amount(k - 1) + 1
  }

  lemma {:induction false} AmountInRange(k: nat)
    requires k < 32
    ensures Amount(k) as int == k && Amount(k) < 32
  {
    if k > 0 {
      AmountInRange(k - 1);
      Successor(Amount(k - 1));
    }
  }

  lemma Successor(a: bv32)
    requires a as int < 31
    ensures (a + 1) as int == a as int + 1 && a < 31
  {}

  function Unit(k: nat): bv32
    requires k < 32
  {
    AmountInRange(k);
    1 << Amount(k)
  }

  function BitAt(b: bool, k: nat): bv32
    requires k < 32
  {
    if b then Unit(k) else 0
  }

  /** The shift register fed one message bit at a time. */
  function Serial(crc: bv32, bits: seq<bool>): bv32 {
    if bits == [] then crc
    else BitStep(Xor(Serial(crc, bits[..|bits| - 1]), BitAt(bits[|bits| - 1], 0)))
  }

  /** Least significant bit first, the order in which the register consumes a byte. */
  function ByteBits(b: Byte): (bits: seq<bool>)
    ensures |bits| == 8
  {
    [b & 1 != 0, b & 2 != 0, b & 4 != 0, b & 8 != 0,
     b & 16 != 0, b & 32 != 0, b & 64 != 0, b & 128 != 0]
  }

  function MessageBits(input: seq<Byte>): (bits: seq<bool>)
    ensures |bits| == 8 * |input|
  {
    if input == [] then []
    else MessageBits(input[..|input| - 1]) + ByteBits(input[|input| - 1])
  }

  /** At most 32 bits packed into a word, the first bit lowest. */
  function Pack(bits: seq<bool>): bv32
    requires |bits| <= 32
  {
    if bits == [] then 0
    else Xor(Pack(bits[..|bits| - 1]), BitAt(bits[|bits| - 1], |bits| - 1))
  }

  lemma UnitStep(b: bool, k: nat)
    requires 1 <= k < 32
    ensures BitStep(BitAt(b, k)) == BitAt(b, k - 1)
  {
    hide BitStep;
    BitStepCases(BitAt(b, k));
    UnitShift(k);
  }

  lemma UnitShift(k: nat)
    requires 1 <= k < 32
    ensures Unit(k) & 1 == 0 && Unit(k) >> 1 == Unit(k - 1)
  {
    AmountInRange(k - 1);
    Successor(Amount(k - 1));
    ShiftedUnit(Amount(k - 1));
  }

  lemma ShiftedUnit(a: bv32)
    requires a < 31
    ensures ((1 as bv32) << (a + 1)) & 1 == 0 && ((1 as bv32) << (a + 1)) >> 1 == (1 as bv32) << a
  {}

  lemma {:induction false} UnitSteps(b: bool, k: nat, n: nat)
    requires n <= k < 32
    ensures BitSteps(BitAt(b, k), n) == BitAt(b, k - n)
  {
    hide BitStep, BitAt;
    if n > 0 {
      UnitSteps(b, k, n - 1);
      UnitStep(b, k - n + 1);
    }
  }

  /** Feeding up to 32 bits is one xor of the packed bits followed by as many plain steps. */
  lemma {:induction false} WindowIsXor(crc: bv32, bits: seq<bool>)
    requires |bits| <= 32
    ensures Serial(crc, bits) == BitSteps(Xor(crc, Pack(bits)), |bits|)
  {
    hide BitStep, Xor, BitAt;
    if bits == [] {
      XorUnit(crc);
    } else {
      var n := |bits| - 1;
      var front, last := bits[..n], bits[n];
      WindowIsXor(crc, front);
      UnitSteps(last, n, n);
      BitStepsLinear(Xor(crc, Pack(front)), BitAt(last, n), n);
      XorAssociative(crc, Pack(front), BitAt(last, n));
    }
  }

  /** All bits from position `n` up. */
  function HighMask(n: nat): bv32
    requires n <= 32
  {
    if n == 32 then 0 else (AmountInRange(n); ALL_ONES << Amount(n))
  }

  predicate Below(w: bv32, n: nat)
    requires n <= 32
  {
    w & HighMask(n) == 0
  }

  lemma AndOverXor(x: bv32, y: bv32, m: bv32)
    ensures Xor(x, y) & m == Xor(x & m, y & m)
  {}

  lemma MaskFacts(a: bv32)
    requires a < 32
    ensures ((1 as bv32) << a) & ((0xFFFFFFFF as bv32) << a) != 0
    ensures a < 31 ==> ((1 as bv32) << a) & ((0xFFFFFFFF as bv32) << (a + 1)) == 0
    ensures a < 31 ==> ((0xFFFFFFFF as bv32) << a) & ((0xFFFFFFFF as bv32) << (a + 1)) == (0xFFFFFFFF as bv32) << (a + 1)
  {}

  lemma BitBelowNext(b: bool, n: nat)
    requires n < 32
    ensures Below(BitAt(b, n), n + 1)
  {
    AmountInRange(n);
    if n < 31 {
      Successor(Amount(n));
      MaskFacts(Amount(n));
    }
  }

  lemma BitNotBelow(n: nat)
    requires n < 32
    ensures !Below(BitAt(true, n), n)
  {
    AmountInRange(n);
    MaskFacts(Amount(n));
  }

  lemma MasksShrink(n: nat)
    requires n < 32
    ensures HighMask(n + 1) == HighMask(n) & HighMask(n + 1)
  {
    AmountInRange(n);
    if n < 31 {
      Successor(Amount(n));
      MaskFacts(Amount(n));
    }
  }

  lemma BelowNext(w: bv32, n: nat)
    requires n < 32 && Below(w, n)
    ensures Below(w, n + 1)
  {
    hide HighMask;
    MasksShrink(n);
    AndAssociative(w, HighMask(n), HighMask(n + 1));
  }

  lemma AndAssociative(x: bv32, y: bv32, z: bv32)
    ensures x & (y & z) == (x & y) & z && 0 & z == 0
  {}

  lemma BelowGrows(w: bv32, b: bool, n: nat)
    requires n < 32 && Below(w, n)
    ensures Below(Xor(w, BitAt(b, n)), n + 1)
  {
    hide HighMask, BitAt;
    BelowNext(w, n);
    BitBelowNext(b, n);
    AndOverXor(w, BitAt(b, n), HighMask(n + 1));
  }

  lemma TopBitShows(w: bv32, n: nat)
    requires n < 32 && Below(w, n)
    ensures !Below(Xor(w, BitAt(true, n)), n)
  {
    hide HighMask, BitAt;
    BitNotBelow(n);
    AndOverXor(w, BitAt(true, n), HighMask(n));
    XorUnit(BitAt(true, n) & HighMask(n));
  }

  lemma {:induction false} PackBelow(bits: seq<bool>)
    requires |bits| <= 32
    ensures Below(Pack(bits), |bits|)
  {
    hide Xor, BitAt;
    if bits == [] {
    } else {
      PackBelow(bits[..|bits| - 1]);
      BelowGrows(Pack(bits[..|bits| - 1]), bits[|bits| - 1], |bits| - 1);
    }
  }

  lemma {:induction false} PackInjective(a: seq<bool>, b: seq<bool>)
    requires |a| == |b| <= 32 && Pack(a) == Pack(b)
    ensures a == b
  {
    hide Xor, BitAt, Below;
    if a != [] {
      var n := |a| - 1;
      var p, q := Pack(a[..n]), Pack(b[..n]);
      PackBelow(a[..n]);
      PackBelow(b[..n]);
      LastBitsAgree(p, a[n], q, b[n], n);
      PackInjective(a[..n], b[..n]);
      assert a == a[..n] + [a[n]] && b == b[..n] + [b[n]];
    }
  }

  lemma LastBitsAgree(p: bv32, x: bool, q: bv32, y: bool, n: nat)
    requires n < 32 && Below(p, n) && Below(q, n)
    requires Xor(p, BitAt(x, n)) == Xor(q, BitAt(y, n))
    ensures x == y && p == q
  {
    hide Xor, Below;
    XorUnit(p);
    XorUnit(q);
    if x != y {
      if x { TopBitShows(p, n); } else { TopBitShows(q, n); }
      assert false;
    }
    XorTwice(p, BitAt(x, n));
    XorTwice(q, BitAt(x, n));
  }

  // ---- The byte loop is the bit-serial register -----------------------------------------------

  lemma PackPrefix(bits: seq<bool>, k: nat)
    requires k < |bits| <= 32
    ensures Pack(bits[..k + 1]) == Xor(Pack(bits[..k]), BitAt(bits[k], k))
  {
    assert bits[..k + 1][..k] == bits[..k];
  }

  /** A number or nothing. */
  function Pick(b: bool, value: bv32): bv32 {
    if b then value else 0
  }

  lemma UnitDoubles(k: nat, value: bv32)
    requires k < 31 && Unit(k) == value && value < 0x8000_0000
    ensures Unit(k + 1) == value << 1
  {
    UnitShift(k + 1);
    hide Unit;
    ShiftBack(Unit(k + 1), value);
  }

  lemma ShiftBack(u: bv32, v: bv32)
    requires u & 1 == 0 && u >> 1 == v
    ensures u == v << 1
  {}

  lemma UnitValues()
    ensures Unit(0) == 1 && Unit(1) == 2 && Unit(2) == 4 && Unit(3) == 8
    ensures Unit(4) == 16 && Unit(5) == 32 && Unit(6) == 64 && Unit(7) == 128
  {
    UnitZero();
    hide Unit;
    UnitDoubles(0, 1);
    UnitDoubles(1, 2);
    UnitDoubles(2, 4);
    UnitDoubles(3, 8);
    UnitDoubles(4, 16);
    UnitDoubles(5, 32);
    UnitDoubles(6, 64);
  }

  lemma UnitZero()
    ensures Unit(0) == 1
  {}

  lemma BitIsPick(b: bool, k: nat, value: bv32)
    requires k < 32 && Unit(k) == value
    ensures BitAt(b, k) == Pick(b, value)
  {
    hide Unit;
  }

  /** The bits of a byte under a mask, as a word. */
  function Masked(b: Byte, mask: Byte): bv32 {
    (b & mask) as bv32
  }

  lemma FirstTwoBits(b: Byte)
    ensures Xor(Pick(b & 1 != 0, 1), Pick(b & 2 != 0, 2)) == Masked(b, 3)
  {}

  lemma ThirdBit(b: Byte)
    ensures Xor(Masked(b, 3), Pick(b & 4 != 0, 4)) == Masked(b, 7)
  {}

  lemma FourthBit(b: Byte)
    ensures Xor(Masked(b, 7), Pick(b & 8 != 0, 8)) == Masked(b, 15)
  {}

  lemma FifthBit(b: Byte)
    ensures Xor(Masked(b, 15), Pick(b & 16 != 0, 16)) == Masked(b, 31)
  {}

  lemma SixthBit(b: Byte)
    ensures Xor(Masked(b, 31), Pick(b & 32 != 0, 32)) == Masked(b, 63)
  {}

  lemma SeventhBit(b: Byte)
    ensures Xor(Masked(b, 63), Pick(b & 64 != 0, 64)) == Masked(b, 127)
  {}

  lemma LastBit(b: Byte)
    ensures Xor(Masked(b, 127), Pick(b & 128 != 0, 128)) == Widen(b)
  {}

  /** A byte is the sum of its weights, one bit at a time. */
  lemma ByteIsItsWeights(b: Byte)
    ensures Widen(b) ==
            Xor(Xor(Xor(Xor(Xor(Xor(Xor(Pick(b & 1 != 0, 1), Pick(b & 2 != 0, 2)),
              Pick(b & 4 != 0, 4)), Pick(b & 8 != 0, 8)), Pick(b & 16 != 0, 16)),
              Pick(b & 32 != 0, 32)), Pick(b & 64 != 0, 64)), Pick(b & 128 != 0, 128))
  {
    hide Xor, Widen, Pick, Masked;
    FirstTwoBits(b);
    ThirdBit(b);
    FourthBit(b);
    FifthBit(b);
    SixthBit(b);
    SeventhBit(b);
    LastBit(b);
  }

  lemma ByteIsItsBits(b: Byte)
    ensures Widen(b) ==
            Xor(Xor(Xor(Xor(Xor(Xor(Xor(BitAt(b & 1 != 0, 0), BitAt(b & 2 != 0, 1)),
              BitAt(b & 4 != 0, 2)), BitAt(b & 8 != 0, 3)), BitAt(b & 16 != 0, 4)),
              BitAt(b & 32 != 0, 5)), BitAt(b & 64 != 0, 6)), BitAt(b & 128 != 0, 7))
  {
    hide Xor, BitAt, Pick, Widen, Unit;
    UnitValues();
    ByteIsItsWeights(b);
    BitIsPick(b & 1 != 0, 0, 1);
    BitIsPick(b & 2 != 0, 1, 2);
    BitIsPick(b & 4 != 0, 2, 4);
    BitIsPick(b & 8 != 0, 3, 8);
    BitIsPick(b & 16 != 0, 4, 16);
    BitIsPick(b & 32 != 0, 5, 32);
    BitIsPick(b & 64 != 0, 6, 64);
    BitIsPick(b & 128 != 0, 7, 128);
  }

  lemma PackByteBits(b: Byte)
    ensures Pack(ByteBits(b)) == Widen(b)
  {
    hide BitAt, Widen, Pack, Xor;
    var bits := ByteBits(b);
    PackPrefix(bits, 0);
    PackPrefix(bits, 1);
    PackPrefix(bits, 2);
    PackPrefix(bits, 3);
    PackPrefix(bits, 4);
    PackPrefix(bits, 5);
    PackPrefix(bits, 6);
    PackPrefix(bits, 7);
    assert bits[..8] == bits;
    assert Pack(bits[..0]) == 0 by { PackEmpty(); }
    XorUnit(BitAt(bits[0], 0));
    ByteIsItsBits(b);
  }

  lemma PackEmpty()
    ensures Pack([]) == 0
  {}

  lemma ByteStepIsSerial(crc: bv32, b: Byte)
    ensures ByteStep(crc, b) == Serial(crc, ByteBits(b))
  {
    hide Xor, Widen, Serial, ByteBits;
    WindowIsXor(crc, ByteBits(b));
    PackByteBits(b);
  }

  lemma {:induction false} SerialAppend(crc: bv32, a: seq<bool>, b: seq<bool>)
    ensures Serial(crc, a + b) == Serial(Serial(crc, a), b)
  {
    hide BitStep, BitAt, Xor;
    if b == [] {
      assert a + b == a;
    } else {
      SerialAppend(crc, a, b[..|b| - 1]);
      assert (a + b)[..|a + b| - 1] == a + b[..|b| - 1];
    }
  }

  lemma {:induction false} UpdateIsSerial(crc: bv32, input: seq<Byte>)
    ensures Update(crc, input) == Serial(crc, MessageBits(input))
  {
    hide ByteStep, ByteBits, BitStep, BitAt, Xor;
    if input != [] {
      var n := |input| - 1;
      UpdateIsSerial(crc, input[..n]);
      ByteStepIsSerial(Update(crc, input[..n]), input[n]);
      SerialAppend(crc, MessageBits(input[..n]), ByteBits(input[n]));
    }
  }

  // ---- Error detection ------------------------------------------------------------------------

  lemma {:induction false} SerialInjective(a: bv32, b: bv32, bits: seq<bool>)
    requires Serial(a, bits) == Serial(b, bits)
    ensures a == b
  {
    hide BitStep, BitAt, Xor, BitUnstep;
    if bits != [] {
      var n := |bits| - 1;
      var p, q := Serial(a, bits[..n]), Serial(b, bits[..n]);
      BitStepInvertible(Xor(p, BitAt(bits[n], 0)));
      BitStepInvertible(Xor(q, BitAt(bits[n], 0)));
      XorTwice(p, BitAt(bits[n], 0));
      XorTwice(q, BitAt(bits[n], 0));
      SerialInjective(a, b, bits[..n]);
    }
  }

  /** Two different windows of at most 32 bits leave the register in different states, whatever
      came before and whatever follows. */
  lemma WindowChangesRegister(crc: bv32, head: seq<bool>, v: seq<bool>, w: seq<bool>, tail: seq<bool>)
    requires |v| == |w| <= 32 && v != w
    ensures Serial(crc, head + v + tail) != Serial(crc, head + w + tail)
  {
    hide Serial, Pack, Xor, BitSteps;
    var c := Serial(crc, head);
    SerialAppend(crc, head + v, tail);
    SerialAppend(crc, head + w, tail);
    SerialAppend(crc, head, v);
    SerialAppend(crc, head, w);
    if Serial(crc, head + v + tail) == Serial(crc, head + w + tail) {
      SerialInjective(Serial(c, v), Serial(c, w), tail);
      WindowIsXor(c, v);
      WindowIsXor(c, w);
      BitStepsInjective(Xor(c, Pack(v)), Xor(c, Pack(w)), |v|);
      XorCancel(c, Pack(v), Pack(w));
      PackInjective(v, w);
      assert false;
    }
  }

  lemma ByteBitsInjective(a: Byte, b: Byte)
    requires ByteBits(a) == ByteBits(b)
    ensures a == b
  {
    hide Widen, ByteBits;
    PackByteBits(a);
    PackByteBits(b);
    assert Widen(a) == Widen(b);
    WidenInjective(a, b);
  }

  lemma WidenInjective(a: Byte, b: Byte)
    requires Widen(a) == Widen(b)
    ensures a == b
  {}

  lemma {:induction false} MessageBitsAt(input: seq<Byte>, i: nat)
    requires i < 8 * |input|
    ensures MessageBits(input)[i] == ByteBits(input[i / 8])[i % 8]
  {
    hide ByteBits;
    var n := |input| - 1;
    if i < 8 * n {
      MessageBitsAt(input[..n], i);
    }
  }

  lemma MessageBitsInjective(a: seq<Byte>, b: seq<Byte>)
    requires |a| == |b| && MessageBits(a) == MessageBits(b)
    ensures a == b
  {
    hide ByteBits, MessageBits;
    forall k | 0 <= k < |a| ensures a[k] == b[k] {
      forall j | 0 <= j < 8 ensures ByteBits(a[k])[j] == ByteBits(b[k])[j] {
        MessageBitsAt(a, 8 * k + j);
        MessageBitsAt(b, 8 * k + j);
      }
      ByteBitsInjective(a[k], b[k]);
    }
  }

  /** Every bit in which `a` and `b` differ lies in the 32-bit window starting at `low`. */
  ghost predicate DifferWithin32(a: seq<Byte>, b: seq<Byte>, low: nat)
  {
    && |a| == |b|
    && forall i :: 0 <= i < 8 * |a| && MessageBits(a)[i] != MessageBits(b)[i] ==> low <= i < low + 32
  }

  /** A burst of at most 32 bits, at any bit offset, always changes the checksum. */
  lemma ChecksumDetectsBurst(a: seq<Byte>, b: seq<Byte>, low: nat)
    requires a != b && DifferWithin32(a, b, low)
    ensures Checksum(a) != Checksum(b)
  {
    hide Update, Serial, Xor, MessageBits;
    var p, q := MessageBits(a), MessageBits(b);
    if p == q {
      MessageBitsInjective(a, b);
      assert false;
    }
    var lo := if low <= |p| then low else |p|;
    var hi := if lo + 32 <= |p| then lo + 32 else |p|;
    assert p[..lo] == q[..lo] && p[hi..] == q[hi..];
    assert p == p[..lo] + p[lo..hi] + p[hi..];
    assert q == p[..lo] + q[lo..hi] + p[hi..];
    WindowChangesRegister(ALL_ONES, p[..lo], p[lo..hi], q[lo..hi], p[hi..]);
    UpdateIsSerial(ALL_ONES, a);
    UpdateIsSerial(ALL_ONES, b);
    XorTwice(Update(ALL_ONES, a), ALL_ONES);
    XorTwice(Update(ALL_ONES, b), ALL_ONES);
  }

  /** In particular, changing any bytes among four consecutive ones does. */
  lemma ChecksumDetectsFourBytes(a: seq<Byte>, b: seq<Byte>, at: nat)
    requires |a| == |b| && a != b
    requires forall k :: 0 <= k < |a| && a[k] != b[k] ==> at <= k < at + 4
    ensures Checksum(a) != Checksum(b)
  {
    hide MessageBits, ByteBits, Checksum;
    forall i | 0 <= i < 8 * |a| && MessageBits(a)[i] != MessageBits(b)[i]
      ensures 8 * at <= i < 8 * at + 32
    {
      MessageBitsAt(a, i);
      MessageBitsAt(b, i);
    }
    ChecksumDetectsBurst(a, b, 8 * at);
  }
}
