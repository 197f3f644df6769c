/**
 What a report of the simulated channel says, position by position: each counter is the size of a set of
 positions, each flag a statement about the recovered frame.
 */
module SpectraReport {
  import opened Sequences
  import opened SpectraBits
  import opened Crc32
  import opened SpectraChannel
  import Hamming84
  import Noise
  import Symbols

  function Wrong(sent: seq<Bit>, arrived: seq<Bit>): set<nat>
    requires |sent| == |arrived|
  {
    set i | 0 <= i < |sent| && sent[i] != arrived[i]
  }

  /** Over equal lengths the error count is the number of positions that differ. */
  lemma {:induction false} ErrorsArePositions(sent: seq<Bit>, arrived: seq<Bit>)
    requires |sent| == |arrived|
    ensures BitErrors(sent, arrived) == |Wrong(sent, arrived)|
  {
    if sent != [] {
      hide BitErrors, Wrong;
      var n := |sent| - 1;
      ErrorsArePositions(sent[..n], arrived[..n]);
      FrontAndLast(sent);
      FrontAndLast(arrived);
      BitErrorsAppend(sent[..n], [sent[n]], arrived[..n], [arrived[n]]);
      OneBitErrors(sent[n], arrived[n]);
      OneMorePosition(sent, arrived);
    }
  }

  lemma OneMorePosition(sent: seq<Bit>, arrived: seq<Bit>)
    requires |sent| == |arrived| > 0
    ensures var n := |sent| - 1; |Wrong(sent, arrived)| == |Wrong(sent[..n], arrived[..n])| + Flipped(sent[n], arrived[n])
  {
    var n := |sent| - 1;
    var fewer := Wrong(sent[..n], arrived[..n]);
    assert n !in fewer;
    if sent[n] != arrived[n] {
      assert Wrong(sent, arrived) == fewer + {n};
    } else {
      assert Wrong(sent, arrived) == fewer;
    }
  }

  // ---- The frame -------------------------------------------------------------------------------

  /** The frame: the synchronization word 0xDDAA, the payload length, the payload and its checksum. */
  lemma FrameLayout(payload: seq<Bit>)
    requires |payload| < 0x1_0000_0000
    ensures var f, n := Frame(payload), |payload|;
            && |f| == n + 80
            && Value(f[..16]) == 0xDDAA && Value(f[16..48]) == n && f[48..48 + n] == payload
            && Value(f[48 + n..]) == PayloadCrc(payload)
  {
    hide PayloadCrc, IntToBits;
    var f, n := Frame(payload), |payload|;
    assert f[..16] == IntToBits(PREAMBLE, PREAMBLE_BITS);
    assert f[16..48] == IntToBits(n, LENGTH_BITS);
    assert f[48 + n..] == IntToBits(PayloadCrc(payload), CRC_BITS);
    Power32();
    assert Power2(16) == 0x1_0000 by { assert Power2(8) == 0x100; }
    ValueOfIntToBits(PREAMBLE, 16);
    ValueOfIntToBits(n, 32);
    ValueOfIntToBits(PayloadCrc(payload), 32);
  }

  // ---- The report ------------------------------------------------------------------------------

  /** The bits that went into the modulator. */
  function Encoded(s: Settings, payload: seq<Bit>): seq<Bit> {
    Hamming84.Protect(Frame(payload), s.mode).0
  }

  /** The payload as it was recovered. */
  function RecoveredPayload(s: Settings, payload: seq<Bit>): (bits: seq<Bit>)
    ensures |bits| == |payload|
  {
    Recovered(s, payload).bits[48..48 + |payload|]
  }

  lemma EncodedLength(s: Settings, payload: seq<Bit>)
    ensures |Encoded(s, payload)| == if s.mode == Hamming84.NoCorrection then |payload| + 80 else 8 * ((|payload| + 83) / 4)
    ensures |Transmitted(s, payload)| == |Encoded(s, payload)| * (match s.encoding case Ask => 1 case Manchester => 2 case _ => 4)
  {
    hide Frame, Hamming84.Padded;
  }

  /** Every counter of the report is a number of positions. */
  lemma ReportCounts(s: Settings, payload: seq<Bit>)
    requires 0 <= s.noisePercent <= MAXIMUM_NOISE_PERCENT
    ensures |Received(s, payload).0| == |Transmitted(s, payload)| && |Arrived(s, payload)| == |Encoded(s, payload)|
    ensures var r := Simulation(s, payload);
            && r.sampleCount == |payload|
            && r.encodedBitCount == |Encoded(s, payload)|
            && r.transmittedSampleCount == |Transmitted(s, payload)|
            && r.injectedSampleErrors == |Wrong(Transmitted(s, payload), Received(s, payload).0)|
            && r.channelBitErrors == |Wrong(Encoded(s, payload), Arrived(s, payload))|
            && r.bitErrors == |Wrong(payload, RecoveredPayload(s, payload))|
  {
    hide Frame, BitErrors, Arrived, Noise.Injected, Hamming84.Protect, Recovered, Wrong, SyncOk, ChecksumOk, Transmitted;
    ReceivedShape(s, payload);
    ArrivedShape(s, payload);
    Noise.NoiseFlipsExactly(Transmitted(s, payload), s.noisePercent, s.offsetWord, s.stepWord, s.channel);
    ErrorsArePositions(Transmitted(s, payload), Received(s, payload).0);
    ErrorsArePositions(Encoded(s, payload), Arrived(s, payload));
    ErrorsArePositions(payload, RecoveredPayload(s, payload));
  }

  /** The synchronization flag says that the first 48 bits of the frame came through; the checksum flag
      says that the recovered frame is the frame of the recovered payload. */
  lemma ReportFlags(s: Settings, payload: seq<Bit>)
    requires |payload| < 0x1_0000_0000
    ensures var r, frame, recovered := Simulation(s, payload), Frame(payload), Recovered(s, payload).bits;
            && (r.frameSyncOk <==> forall i :: 0 <= i < 48 ==> recovered[i] == frame[i])
            && (r.checksumOk <==> recovered == Frame(RecoveredPayload(s, payload)))
  {
    hide Recovered, PayloadCrc, IntToBits, BitErrors, Value, Transmitted, Received, Arrived, Hamming84.Protect;
    SyncedExactlyWhen(payload, Recovered(s, payload).bits);
    CheckedExactlyWhen(Recovered(s, payload).bits, |payload|);
  }

  lemma SyncedExactlyWhen(payload: seq<Bit>, recovered: seq<Bit>)
    requires |recovered| == |payload| + 80
    ensures SyncOk(recovered, |payload|) <==> forall i :: 0 <= i < 48 ==> recovered[i] == Frame(payload)[i]
  {
    hide PayloadCrc, IntToBits;
    var f := Frame(payload);
    assert f[..16] == IntToBits(PREAMBLE, PREAMBLE_BITS) && f[16..48] == IntToBits(|payload|, LENGTH_BITS);
    if forall i :: 0 <= i < 48 ==> recovered[i] == f[i] {
      assert recovered[..16] == f[..16] && recovered[16..48] == f[16..48];
    }
    if SyncOk(recovered, |payload|) {
      forall i | 0 <= i < 48 ensures recovered[i] == f[i] {
        assert if i < 16 then recovered[..16][i] == f[..16][i] else recovered[16..48][i - 16] == f[16..48][i - 16];
      }
    }
  }

  lemma CheckedExactlyWhen(recovered: seq<Bit>, n: nat)
    requires |recovered| == n + 80 && n < 0x1_0000_0000
    ensures ChecksumOk(recovered, n) <==> recovered == Frame(recovered[48..48 + n])
  {
    hide PayloadCrc, IntToBits, Value;
    var payload := recovered[48..48 + n];
    if ChecksumOk(recovered, n) {
      IntToBitsOfValue(recovered[48 + n..]);
      assert recovered == recovered[..16] + recovered[16..48] + payload + recovered[48 + n..];
    } else if recovered == Frame(payload) {
      IntactFrame(payload);
    }
  }

  // ---- Without the code: from flipped samples to the report --------------------------------------

  /** The sample positions that the noise flips: `count` steps from the offset, modulo the length. */
  ghost predicate Hit(s: Settings, n: nat, p: nat) {
    && n > 0 && 0 <= s.noisePercent
    && exists k: nat :: k < n * s.noisePercent / 100
         && p == Noise.Position(s.offsetWord % n, Noise.Stride(s.stepWord, n, s.channel), n, k)
  }

  lemma ReceivedIsFlipped(s: Settings, payload: seq<Bit>, p: nat)
    requires 0 <= s.noisePercent && p < |Transmitted(s, payload)|
    ensures |Received(s, payload).0| == |Transmitted(s, payload)|
    ensures Received(s, payload).0[p] != Transmitted(s, payload)[p] <==> Hit(s, |Transmitted(s, payload)|, p)
  {
    hide Transmitted, Noise.Stride, Noise.Position, Noise.Positions;
    ReceivedShape(s, payload);
    var n := |Transmitted(s, payload)|;
    Noise.PositionsMembers(s.offsetWord % n, Noise.Stride(s.stepWord, n, s.channel), n, Noise.ErrorCount(n, s.noisePercent), p);
  }

  /** Without the code a frame bit arrives wrong exactly when enough of its symbol's samples were flipped,
      among those that tell its symbol from the other one: half of them for a sent one, more for a zero. */
  lemma UncodedBitWrong(s: Settings, payload: seq<Bit>, i: nat)
    requires s.mode == Hamming84.NoCorrection && i < |payload| + 80
    ensures |Arrived(s, payload)| == |payload| + 80
    ensures var n, sent := Symbols.SymbolSize(s.encoding), Frame(payload)[i];
            && i * n + n <= |Received(s, payload).0|
            && var flips := Symbols.RelevantFlips(Symbols.Symbol(s.encoding, sent), Symbols.Symbol(s.encoding, !sent),
                                                  Received(s, payload).0[i * n..i * n + n]);
               var apart := if s.encoding == Symbols.Ask then 1 else 2;
               Arrived(s, payload)[i] != sent <==> if sent then 2 * flips >= apart else 2 * flips > apart
  {
    hide Frame, Transmitted, Received, Symbols.Demodulated, Symbols.Symbol, Symbols.RelevantFlips, Symbols.Nearest, BitErrors;
    ArrivedShape(s, payload);
    ReceivedShape(s, payload);
    Symbols.DemodulatedAt(Received(s, payload).0, s.encoding, i);
    var n := Symbols.SymbolSize(s.encoding);
    Symbols.DecisionCriterion(s.encoding, Frame(payload)[i], Received(s, payload).0[i * n..i * n + n]);
    Symbols.SymbolDistances(s.encoding);
  }

  /** With one sample per bit: exactly the hit positions arrive wrong. */
  lemma AskBitWrong(s: Settings, payload: seq<Bit>, i: nat)
    requires s.mode == Hamming84.NoCorrection && s.encoding == Symbols.Ask && 0 <= s.noisePercent && i < |payload| + 80
    ensures |Arrived(s, payload)| == |payload| + 80
    ensures Arrived(s, payload)[i] != Frame(payload)[i] <==> Hit(s, |payload| + 80, i)
  {
    hide Frame, Transmitted, Received, Arrived, Hit;
    UncodedBitWrong(s, payload, i);
    AskSample(s, payload, i);
    var sent, received := Frame(payload)[i], Received(s, payload).0[i];
    OneRelevantFlip(sent, received);
    ReceivedIsFlipped(s, payload, i);
  }

  lemma AskSample(s: Settings, payload: seq<Bit>, i: nat)
    requires s.mode == Hamming84.NoCorrection && s.encoding == Symbols.Ask && i < |payload| + 80
    ensures |Transmitted(s, payload)| == |payload| + 80 == |Received(s, payload).0|
    ensures Transmitted(s, payload)[i] == Frame(payload)[i]
    ensures Received(s, payload).0[i * 1..i * 1 + 1] == [Received(s, payload).0[i]]
  {
    hide Frame, Received, Symbols.Modulated;
    ReceivedShape(s, payload);
    Symbols.ModulatedAt(Frame(payload), Symbols.Ask, i);
  }

  lemma OneRelevantFlip(sent: Bit, received: Bit)
    ensures Symbols.RelevantFlips(Symbols.Symbol(Symbols.Ask, sent), Symbols.Symbol(Symbols.Ask, !sent), [received])
            == if sent != received then 1 else 0
  {
    assert Symbols.RelevantFlips([], [], []) == 0;
  }

  lemma {:induction false} SameSizeShifted(a: set<nat>, b: set<nat>, distance: nat)
    requires forall p: nat :: p in b <==> p >= distance && p - distance in a
    ensures |a| == |b|
  {
    if a == {} {
      assert b == {};
    } else {
      var i :| i in a;
      assert i + distance in b;
      SameSizeShifted(a - {i}, b - {i + distance}, distance);
    }
  }

  /** The positions below `n` that the noise flips, from `lo` on. */
  ghost function Hits(s: Settings, n: nat, lo: nat, hi: nat): set<nat> {
    set p: nat | lo <= p < hi && Hit(s, n, p)
  }

  /** With one sample per bit and no code the report counts noise positions: all of them as channel errors,
      those in the payload as bit errors, and synchronization is lost exactly by one among the first 48. */
  lemma AskReport(s: Settings, payload: seq<Bit>)
    requires s.mode == Hamming84.NoCorrection && s.encoding == Symbols.Ask
    requires 0 <= s.noisePercent <= MAXIMUM_NOISE_PERCENT && |payload| < 0x1_0000_0000
    ensures var r, n := Simulation(s, payload), |payload| + 80;
            && r.channelBitErrors == |Hits(s, n, 0, n)|
            && r.bitErrors == |Hits(s, n, 48, 48 + |payload|)|
            && (r.frameSyncOk <==> forall p: nat :: p < 48 ==> !Hit(s, n, p))
  {
    hide Frame, Transmitted, Received, Arrived, Hit, Simulation, Recovered, Wrong, Hits;
    ReportCounts(s, payload);
    ReportFlags(s, payload);
    AskRecovered(s, payload);
    forall i | 0 <= i < |payload| + 80 ensures Arrived(s, payload)[i] != Frame(payload)[i] <==> Hit(s, |payload| + 80, i) {
      AskBitWrong(s, payload, i);
    }
    AskChannelErrors(s, payload);
    AskPayloadErrors(s, payload);
    AskSync(s, Frame(payload), Arrived(s, payload));
  }

  lemma AskSync(s: Settings, frame: seq<Bit>, arrived: seq<Bit>)
    requires |frame| == |arrived| >= 80
    requires forall i :: 0 <= i < |frame| ==> (arrived[i] != frame[i] <==> Hit(s, |frame|, i))
    ensures (forall i :: 0 <= i < 48 ==> arrived[i] == frame[i]) <==> forall p: nat :: p < 48 ==> !Hit(s, |frame|, p)
  {
    hide Hit;
    if forall i :: 0 <= i < 48 ==> arrived[i] == frame[i] {
      forall p: nat | p < 48 ensures !Hit(s, |frame|, p) {
        assert arrived[p] == frame[p];
      }
    }
  }

  lemma AskRecovered(s: Settings, payload: seq<Bit>)
    requires s.mode == Hamming84.NoCorrection
    ensures |Arrived(s, payload)| == |payload| + 80 && Recovered(s, payload).bits == Arrived(s, payload)
    ensures Encoded(s, payload) == Frame(payload)
  {
    hide Frame, Transmitted, Received, Arrived;
    ArrivedShape(s, payload);
  }

  lemma AskChannelErrors(s: Settings, payload: seq<Bit>)
    requires s.mode == Hamming84.NoCorrection && |Arrived(s, payload)| == |payload| + 80
    requires forall i :: 0 <= i < |payload| + 80 ==> (Arrived(s, payload)[i] != Frame(payload)[i] <==> Hit(s, |payload| + 80, i))
    ensures Wrong(Frame(payload), Arrived(s, payload)) == Hits(s, |payload| + 80, 0, |payload| + 80)
  {
    hide Frame, Arrived, Hit;
  }

  lemma AskPayloadErrors(s: Settings, payload: seq<Bit>)
    requires s.mode == Hamming84.NoCorrection && |Arrived(s, payload)| == |payload| + 80
    requires forall i :: 0 <= i < |payload| + 80 ==> (Arrived(s, payload)[i] != Frame(payload)[i] <==> Hit(s, |payload| + 80, i))
    ensures |Wrong(payload, RecoveredPayload(s, payload))| == |Hits(s, |payload| + 80, 48, 48 + |payload|)|
  {
    hide Arrived, Hit, Frame, Recovered;
    var n := |payload| + 80;
    AskRecovered(s, payload);
    var wrong, hits := Wrong(payload, RecoveredPayload(s, payload)), Hits(s, n, 48, 48 + |payload|);
    forall p: nat ensures p in hits <==> p >= 48 && p - 48 in wrong {
      if 48 <= p < 48 + |payload| {
        PayloadBit(payload, p - 48);
        assert RecoveredPayload(s, payload)[p - 48] == Arrived(s, payload)[p];
      }
    }
    SameSizeShifted(wrong, hits, 48);
  }

  lemma PayloadBit(payload: seq<Bit>, i: nat)
    requires i < |payload|
    ensures Frame(payload)[48 + i] == payload[i]
  {
    hide PayloadCrc, IntToBits;
  }

  /** The numbers from `lo` up to `hi`. */
  function Range(lo: nat, hi: nat): (numbers: set<nat>)
    requires lo <= hi
    ensures |numbers| == hi - lo && forall p: nat :: p in numbers <==> lo <= p < hi
  {
    if lo == hi then {} else Range(lo, hi - 1) + {hi - 1}
  }

  /** For example eight payload bits at half noise from position 48 on, one step at a time: 44 of the 88
      samples are flipped, the whole payload among them, and the first four. */
  lemma EveryPayloadBitWrong(payload: seq<Bit>)
    requires |payload| == 8
    ensures var r := Simulation(Settings(Noise.OpticalFixture, Symbols.Ask, Hamming84.NoCorrection, 50, 48, 1), payload);
            r.bitErrors == 8 && r.channelBitErrors == 44 && !r.frameSyncOk
  {
    hide Simulation, Hit, Range, Frame;
    var s := Settings(Noise.OpticalFixture, Symbols.Ask, Hamming84.NoCorrection, 50, 48, 1);
    AskReport(s, payload);
    forall p: nat | p < 88 ensures Hit(s, 88, p) <==> p >= 48 || p < 4 {
      ExampleHits(s, p);
    }
    assert Hits(s, 88, 48, 56) == Range(48, 56);
    assert Hits(s, 88, 0, 88) == Range(0, 4) + Range(48, 88);
  }

  lemma ExampleHits(s: Settings, p: nat)
    requires s == Settings(Noise.OpticalFixture, Symbols.Ask, Hamming84.NoCorrection, 50, 48, 1) && p < 88
    ensures Hit(s, 88, p) <==> p >= 48 || p < 4
  {
    ExampleStride();
    hide Noise.Stride, Noise.Position;
    assert 88 * s.noisePercent / 100 == 44 && s.offsetWord % 88 == 48;
    if p >= 48 {
      ExamplePosition(p - 48);
    } else if p < 4 {
      ExamplePosition(p + 40);
    } else {
      forall k: nat | k < 44 ensures p != Noise.Position(48, 1, 88, k) {
        ExamplePosition(k);
      }
    }
  }

  lemma ExampleStride()
    ensures Noise.Stride(1, 88, Noise.OpticalFixture) == 1
  {
    hide Noise.Gcd;
    Noise.GcdWithOne(88);
  }

  lemma ExamplePosition(k: nat)
    requires k < 44
    ensures Noise.Position(48, 1, 88, k) == if k < 40 then 48 + k else k - 40
  {}

  /** Which inputs are simulated at all. */
  lemma SimulatedExactlyWhen(q: Request)
    ensures InputErrorOf(q).None? <==>
              && q.channel in {"acoustic_fixture", "optical_fixture"}
              && q.encoding in {"ask", "fsk", "manchester", "pwm"}
              && q.errorCorrection in {"none", "hamming84"}
              && 8 <= q.sampleCount <= 65_536 && 0 <= q.noisePercent <= 50 && 1 <= |q.seed| <= 256
    ensures InputErrorOf(q).None? ==>
              var s := SettingsOf(q);
              && (s.channel == Noise.AcousticFixture <==> q.channel == "acoustic_fixture")
              && (s.mode == Hamming84.HammingCode <==> q.errorCorrection == "hamming84")
              && q.encoding == (match s.encoding case Ask => "ask" case Fsk => "fsk" case Manchester => "manchester" case Pwm => "pwm")
              && s.noisePercent == q.noisePercent && s.offsetWord == q.offsetWord && s.stepWord == q.stepWord
  {}

  /** Packing puts the first bit of a byte highest: eleven bits fill one byte and start another. */
  lemma PackedWord()
    ensures PackedBits([true, true, false, true, true, true, false, true, true, false, true]) == [0xDD, 0xA0]
  {
    var bits := [true, true, false, true, true, true, false, true, true, false, true];
    hide OrBit;
    assert PartialByte(bits, 0, 2) == OrBit(OrBit(0, true, 0), true, 1);
    assert PartialByte(bits, 0, 4) == OrBit(OrBit(PartialByte(bits, 0, 2), false, 2), true, 3);
    assert PartialByte(bits, 0, 6) == OrBit(OrBit(PartialByte(bits, 0, 4), true, 4), true, 5);
    assert PartialByte(bits, 0, 8) == OrBit(OrBit(PartialByte(bits, 0, 6), false, 6), true, 7);
    assert PartialByte(bits, 1, 2) == OrBit(OrBit(0, true, 0), false, 1);
    assert PartialByte(bits, 1, 3) == OrBit(PartialByte(bits, 1, 2), true, 2);
    OrBits();
  }

  lemma OrBits()
    ensures OrBit(OrBit(0, true, 0), true, 1) == 0xC0
    ensures OrBit(OrBit(OrBit(OrBit(0xC0, false, 2), true, 3), true, 4), true, 5) == 0xDC
    ensures OrBit(OrBit(0xDC, false, 6), true, 7) == 0xDD
    ensures OrBit(OrBit(OrBit(0, true, 0), false, 1), true, 2) == 0xA0
  {}

  // ---- The payload fixture ---------------------------------------------------------------------

  /** The bit at place `i` of the stream. */
  function BitAt(digest: nat -> seq<Byte>, i: nat): Bit
    requires forall c: nat :: |digest(c)| == 32
  {
    BitsOfByte(digest(i / 256)[i % 256 / 8])[i % 8]
  }

  lemma {:induction false} StreamBit(digest: nat -> seq<Byte>, count: nat, i: nat)
    requires (forall c: nat :: |digest(c)| == 32) && i < 256 * count
    ensures |DigestStream(digest, count)| == 256 * count
    ensures DigestStream(digest, count)[i] == BitAt(digest, i)
  {
    hide BitsOfByte, BitsOfBytes, BitAt;
    DigestStreamGrows(digest, count, count);
    DigestStreamGrows(digest, count - 1, count);
    if i < 256 * (count - 1) {
      StreamBit(digest, count - 1, i);
    } else {
      LastDigestBit(digest, count - 1, i - 256 * (count - 1));
    }
  }

  lemma LastDigestBit(digest: nat -> seq<Byte>, last: nat, i: nat)
    requires (forall c: nat :: |digest(c)| == 32) && i < 256
    ensures BitsOfBytes(digest(last))[i] == BitAt(digest, 256 * last + i)
  {
    hide BitsOfByte, BitsOfBytes;
    BytesBit(digest(last), i);
    Places(last, i);
  }

  lemma Places(last: nat, i: nat)
    requires i < 256
    ensures (256 * last + i) / 256 == last && (256 * last + i) % 256 == i && (256 * last + i) % 8 == i % 8
  {
    Divides(256, last, i);
    Divides(8, i / 8, i % 8);
    Divides(8, 32 * last + i / 8, i % 8);
  }

  lemma Divides(d: nat, q: nat, r: nat)
    requires d > 0 && r < d && (d == 8 || d == 256)
    ensures (d * q + r) / d == q && (d * q + r) % d == r
  {
    var k := d * q + r;
    if d == 8 {
      assert k == 8 * (k / 8) + k % 8;
    } else {
      assert k == 256 * (k / 256) + k % 256;
    }
  }

  lemma {:induction false} BytesBit(bytes: seq<Byte>, i: nat)
    requires i < 8 * |bytes|
    ensures BitsOfBytes(bytes)[i] == BitsOfByte(bytes[i / 8])[i % 8]
  {
    hide BitsOfByte;
    var n := |bytes| - 1;
    if i < 8 * n {
      BytesBit(bytes[..n], i);
    }
  }

  /** Every payload bit comes from its place in the digests: digest `i / 256`, its byte, and in it the bit counted
      from the highest one down. */
  lemma FixtureBit(digest: nat -> seq<Byte>, n: nat, i: nat)
    requires (forall c: nat :: |digest(c)| == 32) && i < n
    ensures Fixture(digest, n)[i] <==> digest(i / 256)[i % 256 / 8] & BitMask(i % 8) != 0
  {
    hide BitsOfByte, DigestStream, BitMask;
    StreamBit(digest, n, i);
    EnoughDigests(digest, n, n);
    ByteBit(digest(i / 256)[i % 256 / 8], i % 8);
  }

  lemma ByteBit(b: Byte, k: nat)
    requires k < 8
    ensures BitsOfByte(b)[k] <==> b & BitMask(k) != 0
  {}

  /** The masks from the first bit of a byte to its last. */
  lemma MaskTable()
    ensures [BitMask(0), BitMask(1), BitMask(2), BitMask(3), BitMask(4), BitMask(5), BitMask(6), BitMask(7)]
            == [0x80, 0x40, 0x20, 0x10, 0x08, 0x04, 0x02, 0x01]
  {}
}
