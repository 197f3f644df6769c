/**
 The whole simulated signal channel: payload fixture, framing with preamble, length and CRC,
 optional error correction, modulation, noise, and the way back, with its error counters.
 */
module SpectraChannel {
  // SHA-256 stays outside: the payload digests and the two 64-bit noise words are parameters.

  import opened Options
  import opened SpectraBits
  import opened Crc32
  import Hamming84
  import Noise
  import Symbols

  const PREAMBLE := 0xDDAA
  const PREAMBLE_BITS := 16
  const LENGTH_BITS := 32
  const CRC_BITS := 32
  const MINIMUM_PAYLOAD_BITS := 8
  const MAXIMUM_PAYLOAD_BITS := 65_536
  const MAXIMUM_NOISE_PERCENT := 50

  datatype Settings = Settings(
    channel: Noise.Channel,
    encoding: Symbols.Encoding,
    mode: Hamming84.ErrorCorrection,
    noisePercent: int,
    offsetWord: nat,
    stepWord: nat)

  datatype SimulationResult = SimulationResult(
    sampleCount: nat,
    encodedBitCount: nat,
    transmittedSampleCount: nat,
    injectedSampleErrors: nat,
    channelBitErrors: nat,
    correctedErrors: nat,
    uncorrectableBlocks: nat,
    bitErrors: nat,
    frameSyncOk: bool,
    checksumOk: bool)

  // ---- The payload fixture ---------------------------------------------------------------------

  /** A byte's bits from the most significant down. */
  function BitsOfByte(b: Byte): (bits: seq<Bit>)
    ensures |bits| == 8
  {
    [b & 128 != 0, b & 64 != 0, b & 32 != 0, b & 16 != 0, b & 8 != 0, b & 4 != 0, b & 2 != 0, b & 1 != 0]
  }

  function BitsOfBytes(bytes: seq<Byte>): (bits: seq<Bit>)
    ensures |bits| == 8 * |bytes|
  {
    if bytes == [] then [] else BitsOfBytes(bytes[..|bytes| - 1]) + BitsOfByte(bytes[|bytes| - 1])
  }

  /** The bit stream of the first `count` digests. */
  function DigestStream(digest: nat -> seq<Byte>, count: nat): seq<Bit> {
    if count == 0 then [] else DigestStream(digest, count - 1) + BitsOfBytes(digest(count - 1))
  }

  lemma {:induction false} DigestStreamGrows(digest: nat -> seq<Byte>, k: nat, m: nat)
    requires forall c: nat :: |digest(c)| == 32
    requires k <= m
    ensures |DigestStream(digest, m)| == 256 * m
    ensures DigestStream(digest, k) <= DigestStream(digest, m)
  {
    hide BitsOfBytes;
    if m > 0 {
      if k < m {
        DigestStreamGrows(digest, k, m - 1);
      } else {
        DigestStreamGrows(digest, k - 1, m - 1);
      }
    }
  }

  /** The first `bitCount` bits of the digest stream. */
  function Fixture(digest: nat -> seq<Byte>, bitCount: nat): (payload: seq<Bit>)
    requires forall c: nat :: |digest(c)| == 32
    ensures |payload| == bitCount
  {
    DigestStreamGrows(digest, bitCount, bitCount);
    DigestStream(digest, bitCount)[..bitCount]
  }

  method FixtureBits(bitCount: nat, digest: nat -> seq<Byte>) returns (result: seq<Bit>)
    requires forall c: nat :: |digest(c)| == 32
    ensures result == Fixture(digest, bitCount)
  {
    hide BitsOfByte;
    var bits: seq<Bit> := [];
    var counter := 0;
    while |bits| < bitCount
      invariant bits == DigestStream(digest, counter) && |bits| == 256 * counter
    {
      var bytes := digest(counter);
      ghost var before := bits;
      for i := 0 to |bytes|
        invariant bits == before + BitsOfBytes(bytes[..i])
      {
        assert bytes[..i + 1][..i] == bytes[..i];
        bits := bits + BitsOfByte(bytes[i]);
      }
      assert bytes[..|bytes|] == bytes;
      counter := counter + 1;
    }
    result := bits[..bitCount];
    EnoughDigests(digest, bitCount, counter);
  }

  /** However many digests were drawn, the payload is the same. */
  lemma EnoughDigests(digest: nat -> seq<Byte>, bitCount: nat, enough: nat)
    requires forall c: nat :: |digest(c)| == 32
    requires bitCount <= 256 * enough
    ensures |DigestStream(digest, enough)| == 256 * enough
    ensures DigestStream(digest, enough)[..bitCount] == Fixture(digest, bitCount)
  {
    hide DigestStream;
    DigestStreamGrows(digest, enough, enough);
    DigestStreamGrows(digest, bitCount, bitCount);
    if enough <= bitCount {
      DigestStreamGrows(digest, enough, bitCount);
    } else {
      DigestStreamGrows(digest, bitCount, enough);
    }
  }

  // ---- The payload checksum --------------------------------------------------------------------

  function BitMask(k: nat): Byte
    requires k < 8
  {
    if k == 0 then 128 else if k == 1 then 64 else if k == 2 then 32 else if k == 3 then 16
    else if k == 4 then 8 else if k == 5 then 4 else if k == 6 then 2 else 1
  }

  function OrBit(b: Byte, bit: Bit, k: nat): Byte
    requires k < 8
  {
    b | (if bit then BitMask(k) else 0)
  }

  /** The `j`th output byte once the first `m` of its bits have been or-ed in. */
  function PartialByte(bits: seq<Bit>, j: nat, m: nat): Byte
    requires m <= 8 && 8 * j + m <= |bits|
  {
    if m == 0 then 0
    else OrBit(PartialByte(bits, j, m - 1), bits[8 * j + m - 1], m - 1)
  }

  function BitsInByte(length: nat, j: nat): (m: nat)
    requires 8 * j < length
    ensures 1 <= m <= 8 && 8 * j + m <= length
  {
    if 8 * j + 8 <= length then 8 else length - 8 * j
  }

  function PackedBits(bits: seq<Bit>): (bytes: seq<Byte>)
    ensures |bytes| == (|bits| + 7) / 8
  {
    seq((|bits| + 7) / 8, j requires 0 <= j < (|bits| + 7) / 8 => PartialByte(bits, j, BitsInByte(|bits|, j)))
  }

  method PackBits(bits: seq<Bit>) returns (bytes: seq<Byte>)
    ensures bytes == PackedBits(bits)
  {
    hide OrBit;
    var size := (|bits| + 7) / 8;
    var output := new Byte[size](i => 0);
    for index := 0 to |bits|
      invariant forall j :: 0 <= j < index / 8 ==> output[j] == PartialByte(bits, j, 8)
      invariant index / 8 < size ==> output[index / 8] == PartialByte(bits, index / 8, index % 8)
      invariant forall j :: index / 8 < j < size ==> output[j] == 0
    {
      var at, k := index / 8, index % 8;
      assert index == 8 * at + k;
      output[at] := OrBit(output[at], bits[index], k);
      assert output[at] == PartialByte(bits, at, k + 1);
      if k == 7 {
        assert (index + 1) / 8 == at + 1 && (index + 1) % 8 == 0;
      } else {
        assert (index + 1) / 8 == at && (index + 1) % 8 == k + 1;
      }
    }
    forall j | 0 <= j < size ensures output[j] == PackedBits(bits)[j] {
      if 8 * j + 8 <= |bits| {
        assert j < |bits| / 8;
      } else {
        assert j == |bits| / 8 && BitsInByte(|bits|, j) == |bits| % 8;
      }
    }
    bytes := output[..];
  }

  /** Four length bytes, then the packed payload. */
  function CrcInput(bits: seq<Bit>): seq<Byte> {
    PackedBits(IntToBits(|bits|, 32)) + PackedBits(bits)
  }

  function PayloadCrc(bits: seq<Bit>): (n: nat)
    ensures n < 0x1_0000_0000
  {
    Checksum(CrcInput(bits)) as int
  }

  // ---- The channel -----------------------------------------------------------------------------

  function Frame(payload: seq<Bit>): (frame: seq<Bit>)
    ensures |frame| == |payload| + 80
  {
    IntToBits(PREAMBLE, PREAMBLE_BITS) + IntToBits(|payload|, LENGTH_BITS) + payload
    + IntToBits(PayloadCrc(payload), CRC_BITS)
  }

  function Transmitted(s: Settings, payload: seq<Bit>): seq<Bit> {
    Symbols.Modulated(Hamming84.Protect(Frame(payload), s.mode).0, s.encoding)
  }

  /** Negative percentages are refused before any noise is injected. */
  function Percent(s: Settings): nat {
    if s.noisePercent < 0 then 0 else s.noisePercent
  }

  function Received(s: Settings, payload: seq<Bit>): (seq<Bit>, nat) {
    Noise.Injected(Transmitted(s, payload), Percent(s), s.offsetWord, s.stepWord, s.channel)
  }

  lemma ReceivedShape(s: Settings, payload: seq<Bit>)
    ensures |Received(s, payload).0| == |Transmitted(s, payload)|
    ensures |Received(s, payload).0| % Symbols.SymbolSize(s.encoding) == 0
  {
    hide Frame, Symbols.Modulated;
    Symbols.ModulatedLength(Hamming84.Protect(Frame(payload), s.mode).0, s.encoding);
  }

  /** The bits the demodulator hands to the error corrector. */
  function Arrived(s: Settings, payload: seq<Bit>): seq<Bit> {
    ReceivedShape(s, payload);
    Symbols.Demodulated(Received(s, payload).0, s.encoding)
  }

  lemma ArrivedShape(s: Settings, payload: seq<Bit>)
    ensures |Arrived(s, payload)| == |Hamming84.Protect(Frame(payload), s.mode).0|
    ensures s.mode == Hamming84.HammingCode ==> |Arrived(s, payload)| == 2 * |Hamming84.Padded(Frame(payload))|
    ensures BitErrors(Hamming84.Protect(Frame(payload), s.mode).0, Arrived(s, payload))
            <= BitErrors(Transmitted(s, payload), Received(s, payload).0)
  {
    hide Frame, Hamming84.Padded, BitErrors, Symbols.Modulated, Symbols.Demodulated, Noise.Injected;
    ReceivedShape(s, payload);
    Symbols.ChannelErrorBound(Hamming84.Protect(Frame(payload), s.mode).0, Received(s, payload).0, s.encoding);
  }

  lemma RecoveredShape(s: Settings, payload: seq<Bit>)
    ensures var d := Hamming84.Unprotect(Arrived(s, payload), s.mode, Hamming84.Protect(Frame(payload), s.mode).1);
            d.Some? && |d.value.bits| == |Frame(payload)|
  {
    hide Frame, Arrived, Hamming84.EncodeBlocks, Hamming84.DecodeBlocks, Hamming84.PaddingFor;
    ArrivedShape(s, payload);
  }

  /** The frame as it comes out of the error corrector, with its counters. */
  function Recovered(s: Settings, payload: seq<Bit>): (d: Hamming84.Decoded)
    ensures |d.bits| == |Frame(payload)|
  {
    RecoveredShape(s, payload);
    Hamming84.Unprotect(Arrived(s, payload), s.mode, Hamming84.Protect(Frame(payload), s.mode).1).value
  }

  function PayloadSlice(frame: seq<Bit>, n: nat): (bits: seq<Bit>)
    requires |frame| == n + 80
    ensures |bits| == n
  {
    frame[48..48 + n]
  }

  function SyncOk(frame: seq<Bit>, n: nat): bool
    requires |frame| == n + 80
  {
    frame[..16] == IntToBits(PREAMBLE, PREAMBLE_BITS) && frame[16..48] == IntToBits(n, LENGTH_BITS)
  }

  function ChecksumOk(frame: seq<Bit>, n: nat): bool
    requires |frame| == n + 80
  {
    SyncOk(frame, n) && Value(frame[48 + n..]) == PayloadCrc(PayloadSlice(frame, n))
  }

  function Simulation(s: Settings, payload: seq<Bit>): SimulationResult {
    var encoded := Hamming84.Protect(Frame(payload), s.mode).0;
    var decoded := Recovered(s, payload);
    SimulationResult(
      |payload|,
      |encoded|,
      |Transmitted(s, payload)|,
      Received(s, payload).1,
      BitErrors(encoded, Arrived(s, payload)),
      decoded.corrected,
      decoded.uncorrectable,
      BitErrors(payload, PayloadSlice(decoded.bits, |payload|)),
      SyncOk(decoded.bits, |payload|),
      ChecksumOk(decoded.bits, |payload|))
  }

  /** What a caller names; the two noise words follow from the seed, the channel and the length. */
  datatype Request = Request(
    channel: string,
    encoding: string,
    errorCorrection: string,
    sampleCount: int,
    noisePercent: int,
    seed: string,
    offsetWord: nat,
    stepWord: nat)

  datatype InputError =
    | UnsupportedChannel
    | UnsupportedEncoding
    | UnsupportedErrorCorrection
    | SampleCountOutsideBounds
    | NoisePercentOutsideBounds
    | InvalidSeed

  function ChannelNamed(name: string): Option<Noise.Channel> {
    if name == "acoustic_fixture" then Some(Noise.AcousticFixture)
    else if name == "optical_fixture" then Some(Noise.OpticalFixture)
    else None
  }

  function EncodingNamed(name: string): Option<Symbols.Encoding> {
    if name == "ask" then Some(Symbols.Ask)
    else if name == "fsk" then Some(Symbols.Fsk)
    else if name == "manchester" then Some(Symbols.Manchester)
    else if name == "pwm" then Some(Symbols.Pwm)
    else None
  }

  function ErrorCorrectionNamed(name: string): Option<Hamming84.ErrorCorrection> {
    if name == "none" then Some(Hamming84.NoCorrection)
    else if name == "hamming84" then Some(Hamming84.HammingCode)
    else None
  }

  /** The first rule that the inputs break. */
  function InputErrorOf(q: Request): Option<InputError> {
    if ChannelNamed(q.channel).None? then Some(UnsupportedChannel)
    else if EncodingNamed(q.encoding).None? then Some(UnsupportedEncoding)
    else if ErrorCorrectionNamed(q.errorCorrection).None? then Some(UnsupportedErrorCorrection)
    else if !(MINIMUM_PAYLOAD_BITS <= q.sampleCount <= MAXIMUM_PAYLOAD_BITS) then Some(SampleCountOutsideBounds)
    else if !(0 <= q.noisePercent <= MAXIMUM_NOISE_PERCENT) then Some(NoisePercentOutsideBounds)
    else if q.seed == [] || |q.seed| > 256 then Some(InvalidSeed)
    else None
  }

  function SettingsOf(q: Request): Settings
    requires InputErrorOf(q).None?
  {
    Settings(ChannelNamed(q.channel).value, EncodingNamed(q.encoding).value, ErrorCorrectionNamed(q.errorCorrection).value,
             q.noisePercent, q.offsetWord, q.stepWord)
  }

  datatype Reply = Simulated(result: SimulationResult) | Refused(error: InputError)

  /** `simulate_spectra_channel`: validated inputs, then the channel. */
  method SimulateSpectraChannel(q: Request, digest: nat -> seq<Byte>) returns (reply: Reply)
    requires forall c: nat :: |digest(c)| == 32
    ensures reply == if InputErrorOf(q).Some? then Refused(InputErrorOf(q).value)
                     else Simulated(Simulation(SettingsOf(q), Fixture(digest, q.sampleCount)))
  {
    hide Simulation;
    var error := InputErrorOf(q);
    if error.Some? {
      return Refused(error.value);
    }
    var result := RunChannel(SettingsOf(q), q.sampleCount, digest);
    return Simulated(result);
  }

  method RunChannel(s: Settings, sampleCount: int, digest: nat -> seq<Byte>) returns (r: SimulationResult)
    requires MINIMUM_PAYLOAD_BITS <= sampleCount <= MAXIMUM_PAYLOAD_BITS && 0 <= s.noisePercent <= MAXIMUM_NOISE_PERCENT
    requires forall c: nat :: |digest(c)| == 32
    ensures r == Simulation(s, Fixture(digest, sampleCount))
  {
    hide Symbols.Modulated, Symbols.Demodulated, Noise.Injected, Hamming84.Protect, Hamming84.Unprotect, PayloadCrc;
    var bits := FixtureBits(sampleCount, digest);
    ghost var payload := bits;
    var frame := IntToBits(PREAMBLE, PREAMBLE_BITS) + IntToBits(sampleCount, LENGTH_BITS) + bits
                 + IntToBits(PayloadCrc(bits), CRC_BITS);
    assert frame == Frame(payload);
    var encoded, padding := Hamming84.ApplyErrorCorrection(frame, s.mode);
    var transmitted := Symbols.Modulate(encoded, s.encoding);
    var received, injectedErrors := Noise.InjectNoise(transmitted, s.noisePercent, s.offsetWord, s.stepWord, s.channel);
    ReceivedShape(s, payload);
    var demodulated := Symbols.Demodulate(received, s.encoding);
    var channelBitErrors := BitErrors(encoded, demodulated.value);
    ArrivedShape(s, payload);
    RecoveredShape(s, payload);
    var decoded := Hamming84.RemoveErrorCorrection(demodulated.value, s.mode, padding);
    var recovered := decoded.value.bits;
    var recoveredPayload := recovered[48..48 + sampleCount];
    var recoveredCrc := BitsToInt(recovered[48 + sampleCount..80 + sampleCount]);
    assert recovered[48 + sampleCount..80 + sampleCount] == recovered[48 + sampleCount..];
    var frameSyncOk := recovered[..16] == IntToBits(PREAMBLE, PREAMBLE_BITS)
                       && recovered[16..48] == IntToBits(sampleCount, LENGTH_BITS);
    var payloadErrors := BitErrors(bits, recoveredPayload);
    var checksumOk := frameSyncOk && |recovered| >= 80 + sampleCount && recoveredCrc == PayloadCrc(recoveredPayload);
    r := SimulationResult(
      sampleCount, |encoded|, |transmitted|, injectedErrors, channelBitErrors,
      decoded.value.corrected, decoded.value.uncorrectable, payloadErrors, frameSyncOk, checksumOk);
  }

  // ---- End-to-end results ----------------------------------------------------------------------

  lemma IntactFrame(payload: seq<Bit>)
    requires |payload| < 0x1_0000_0000
    ensures PayloadSlice(Frame(payload), |payload|) == payload
    ensures SyncOk(Frame(payload), |payload|) && ChecksumOk(Frame(payload), |payload|)
  {
    hide PayloadCrc, IntToBits;
    var f, n := Frame(payload), |payload|;
    assert f[..16] == IntToBits(PREAMBLE, PREAMBLE_BITS);
    assert f[16..48] == IntToBits(n, LENGTH_BITS);
    assert f[48..48 + n] == payload;
    assert f[48 + n..] == IntToBits(PayloadCrc(payload), CRC_BITS);
    Power32();
    ValueOfIntToBits(PayloadCrc(payload), CRC_BITS);
  }

  lemma Power32()
    ensures Power2(32) == 0x1_0000_0000
  {
    assert Power2(8) == 0x100;
    assert Power2(16) == 0x1_0000;
    assert Power2(24) == 0x100_0000;
  }

  lemma CleanRecovery(s: Settings, payload: seq<Bit>)
    requires |payload| < 0x1_0000_0000
    requires Recovered(s, payload).bits == Frame(payload)
    ensures var r := Simulation(s, payload); r.bitErrors == 0 && r.frameSyncOk && r.checksumOk
  {
    hide Frame, Recovered, Arrived, Received, Transmitted, BitErrors;
    IntactFrame(payload);
    BitErrorsSelf(payload);
  }

  /** No noise, any encoding, either error-correction mode: the payload comes back untouched. */
  lemma ZeroNoiseRoundTrip(s: Settings, payload: seq<Bit>)
    requires |payload| < 0x1_0000_0000 && s.noisePercent == 0
    ensures Simulation(s, payload) ==
            SimulationResult(|payload|, |Hamming84.Protect(Frame(payload), s.mode).0|, |Transmitted(s, payload)|,
                             0, 0, 0, 0, 0, true, true)
  {
    hide Frame, BitErrors, Symbols.Modulated, Symbols.Demodulated, Hamming84.EncodeBlocks, Hamming84.DecodeBlocks;
    var encoded := Hamming84.Protect(Frame(payload), s.mode).0;
    assert Noise.ErrorCount(|Transmitted(s, payload)|, 0) == 0;
    Symbols.DemodulateModulate(encoded, s.encoding);
    assert Arrived(s, payload) == encoded;
    BitErrorsSelf(encoded);
    if s.mode == Hamming84.HammingCode {
      Hamming84.CleanStream(Hamming84.Padded(Frame(payload)));
      Hamming84.UnprotectRepairs(Frame(payload), encoded);
    }
    CleanRecovery(s, payload);
  }

  /** No code block arrives with more than `n` wrong bits. */
  predicate DamageWithin(s: Settings, payload: seq<Bit>, n: nat)
    requires s.mode == Hamming84.HammingCode
  {
    ArrivedShape(s, payload);
    Hamming84.BlocksWithin(Hamming84.Padded(Frame(payload)), Arrived(s, payload), n)
  }

  /** How many code blocks arrive with exactly `n` wrong bits. */
  function DamagedBlocks(s: Settings, payload: seq<Bit>, n: nat): nat
    requires s.mode == Hamming84.HammingCode
  {
    ArrivedShape(s, payload);
    Hamming84.BlocksWith(Hamming84.Padded(Frame(payload)), Arrived(s, payload), n)
  }

  /** With the code, at most one wrong bit per block after demodulation is repaired completely, and
      the correction counter is the number of damaged blocks. */
  lemma SingleErrorsRecovered(s: Settings, payload: seq<Bit>)
    requires |payload| < 0x1_0000_0000 && s.mode == Hamming84.HammingCode && DamageWithin(s, payload, 1)
    ensures var r := Simulation(s, payload);
            && r.bitErrors == 0 && r.frameSyncOk && r.checksumOk
            && r.correctedErrors == DamagedBlocks(s, payload, 1) && r.uncorrectableBlocks == 0
  {
    ArrivedShape(s, payload);
    hide Frame, Arrived, BitErrors, Hamming84.EncodeBlocks, Hamming84.DecodeBlocks, Transmitted, Received;
    Hamming84.UnprotectRepairs(Frame(payload), Arrived(s, payload));
    CleanRecovery(s, payload);
  }

  /** With up to two wrong bits per block, both counters are exact. */
  lemma CountersMatchDamage(s: Settings, payload: seq<Bit>)
    requires s.mode == Hamming84.HammingCode && DamageWithin(s, payload, 2)
    ensures Simulation(s, payload).correctedErrors == DamagedBlocks(s, payload, 1)
    ensures Simulation(s, payload).uncorrectableBlocks == DamagedBlocks(s, payload, 2)
  {
    ArrivedShape(s, payload);
    hide Frame, Arrived, BitErrors, Hamming84.EncodeBlocks, Hamming84.DecodeBlocks, Transmitted, Received;
    Hamming84.CountersAreExact(Hamming84.Padded(Frame(payload)), Arrived(s, payload));
  }

  lemma RecoveredErrors(s: Settings, payload: seq<Bit>)
    ensures BitErrors(Frame(payload), Recovered(s, payload).bits)
            <= BitErrors(Hamming84.Protect(Frame(payload), s.mode).0, Arrived(s, payload))
               + Recovered(s, payload).corrected
  {
    hide Frame, Arrived, BitErrors, Hamming84.EncodeBlocks, Hamming84.DecodeBlocks, Hamming84.Padded;
    ArrivedShape(s, payload);
    if s.mode == Hamming84.HammingCode {
      var frame := Frame(payload);
      var data := Hamming84.Padded(frame);
      var decoded := Hamming84.DecodeBlocks(Arrived(s, payload));
      Hamming84.DecodedErrorBound(data, Arrived(s, payload));
      SliceErrors(data, decoded.bits, 0, |frame|);
      PaddedPrefix(frame);
      assert decoded.bits[0..|frame|] == Hamming84.Unpadded(decoded.bits, Hamming84.PaddingFor(|frame|));
    }
  }

  lemma PaddedPrefix(bits: seq<Bit>)
    ensures Hamming84.Padded(bits)[0..|bits|] == bits
  {}

  /** For every noise level the counters are ordered: flipped samples are exactly the configured
      share, they bound wrong bits, and wrong payload bits are bounded by wrong channel bits plus
      the corrections made (which are none without the code). */
  lemma CountersAreOrdered(s: Settings, payload: seq<Bit>)
    requires 0 <= s.noisePercent <= MAXIMUM_NOISE_PERCENT
    ensures var r := Simulation(s, payload);
            && r.injectedSampleErrors == r.transmittedSampleCount * s.noisePercent / 100
            && r.channelBitErrors <= r.injectedSampleErrors
            && r.channelBitErrors <= r.encodedBitCount
            && r.bitErrors <= r.channelBitErrors + r.correctedErrors
            && r.bitErrors <= r.sampleCount
            && (s.mode == Hamming84.NoCorrection ==> r.correctedErrors == 0 && r.uncorrectableBlocks == 0)
  {
    hide Frame, BitErrors, Arrived, Noise.Injected, Hamming84.Protect;
    var frame, n := Frame(payload), |payload|;
    var decoded := Recovered(s, payload);
    Noise.NoiseFlipsExactly(Transmitted(s, payload), s.noisePercent, s.offsetWord, s.stepWord, s.channel);
    ArrivedShape(s, payload);
    BitErrorsAtMostLength(Hamming84.Protect(frame, s.mode).0, Arrived(s, payload));
    RecoveredErrors(s, payload);
    SliceErrors(frame, decoded.bits, 48, 48 + n);
    FramePayload(payload);
    BitErrorsAtMostLength(payload, PayloadSlice(decoded.bits, n));
  }

  lemma FramePayload(payload: seq<Bit>)
    ensures Frame(payload)[48..48 + |payload|] == payload
  {
    hide PayloadCrc, IntToBits;
  }

  // ---- What the checksum catches ---------------------------------------------------------------

  lemma {:induction false} PartialByteBit(bits: seq<Bit>, j: nat, m: nat, k: nat)
    requires m <= 8 && 8 * j + m <= |bits| && k < 8
    ensures PartialByte(bits, j, m) & BitMask(k) != 0 <==> k < m && bits[8 * j + k]
  {
    if m == 0 {
      assert (0 as Byte) & BitMask(k) == 0;
    } else {
      PartialByteBit(bits, j, m - 1, k);
      OrMask(PartialByte(bits, j, m - 1), m - 1, k);
    }
  }

  lemma OrMask(b: Byte, m: nat, k: nat)
    requires m < 8 && k < 8
    ensures (b | BitMask(m)) & BitMask(k) != 0 <==> b & BitMask(k) != 0 || m == k
    ensures b | 0 == b
  {}

  /** Packing is injective on strings of equal length, and a bit affects its own byte only. */
  lemma PackedDiffers(p: seq<Bit>, q: seq<Bit>, j: nat)
    requires |p| == |q| && 8 * j < |p|
    ensures PackedBits(p)[j] == PackedBits(q)[j]
            <==> forall i :: 8 * j <= i < 8 * j + BitsInByte(|p|, j) ==> p[i] == q[i]
  {
    hide BitMask, OrBit;
    var m := BitsInByte(|p|, j);
    if PackedBits(p)[j] == PackedBits(q)[j] {
      forall i | 8 * j <= i < 8 * j + m ensures p[i] == q[i] {
        PartialByteBit(p, j, m, i - 8 * j);
        PartialByteBit(q, j, m, i - 8 * j);
      }
    } else if forall i :: 8 * j <= i < 8 * j + m ==> p[i] == q[i] {
      SamePartialByte(p, q, j, m);
    }
  }

  lemma {:induction false} SamePartialByte(p: seq<Bit>, q: seq<Bit>, j: nat, m: nat)
    requires |p| == |q| && m <= 8 && 8 * j + m <= |p|
    requires forall i :: 8 * j <= i < 8 * j + m ==> p[i] == q[i]
    ensures PartialByte(p, j, m) == PartialByte(q, j, m)
  {
    hide OrBit;
    if m > 0 {
      SamePartialByte(p, q, j, m - 1);
    }
  }

  /** Payloads that differ only inside four consecutive bytes have different checksums. */
  lemma ShortErrorsChangeCrc(p: seq<Bit>, q: seq<Bit>, at: nat)
    requires |p| == |q| && p != q
    requires forall i :: 0 <= i < |p| && p[i] != q[i] ==> 8 * at <= i < 8 * at + 32
    ensures PayloadCrc(p) != PayloadCrc(q)
  {
    hide PackedBits, Checksum, BitsInByte, IntToBits;
    var a, b := CrcInput(p), CrcInput(q);
    var head := PackedBits(IntToBits(|p|, 32));
    forall k | 0 <= k < |a| && a[k] != b[k] ensures 4 + at <= k < 4 + at + 4 {
      PackedDiffers(p, q, k - 4);
    }
    var i :| 0 <= i < |p| && p[i] != q[i];
    var j := i / 8;
    InByte(|p|, i);
    PackedDiffers(p, q, j);
    assert a[4 + j] == PackedBits(p)[j] && b[4 + j] == PackedBits(q)[j];
    ChecksumDetectsFourBytes(a, b, 4 + at);
    WordsDiffer(Checksum(a), Checksum(b));
  }

  lemma InByte(length: nat, i: nat)
    requires i < length
    ensures 8 * (i / 8) <= i < 8 * (i / 8) + BitsInByte(length, i / 8)
  {}

  lemma WordsDiffer(a: bv32, b: bv32)
    requires a != b
    ensures a as int != b as int
  {
    assert (a as int) as bv32 == a && (b as int) as bv32 == b;
  }

  /** Surviving payload errors confined to four consecutive bytes are always flagged when the
      checksum field itself came through. */
  lemma ShortErrorsFlagged(s: Settings, payload: seq<Bit>, at: nat)
    requires |payload| < 0x1_0000_0000
    requires var decoded, n := Recovered(s, payload).bits, |payload|;
             && decoded[48 + n..] == Frame(payload)[48 + n..]
             && PayloadSlice(decoded, n) != payload
             && forall i :: 0 <= i < n && PayloadSlice(decoded, n)[i] != payload[i] ==> 8 * at <= i < 8 * at + 32
    ensures Simulation(s, payload).bitErrors > 0 && !Simulation(s, payload).checksumOk
  {
    hide Frame, Recovered, Arrived, Received, Transmitted, BitErrors, PayloadCrc;
    var decoded, n := Recovered(s, payload).bits, |payload|;
    IntactFrame(payload);
    ShortErrorsChangeCrc(payload, PayloadSlice(decoded, n), at);
    NoErrorsIsEqual(payload, PayloadSlice(decoded, n));
  }
}
