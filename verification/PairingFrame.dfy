/** The wire format of public local pairing messages, as the Python reference encodes and decodes it. */
module PairingFrame {
  // A 20-byte big-endian header (magic, version, type, flags, sequence, payload length, reserved,
  // CRC-32) is followed by at most 1024 payload bytes. Sequences and lengths are numbers; the checksum
  // is a `bv32`.

  import opened Crc32

  const VERSION: Byte := 1
  const MAGIC: seq<Byte> := [0x54, 0x53, 0x4C, 0x50]
  const HEADER_BYTES := 20
  const HEADER_WITHOUT_CRC_BYTES := 16
  const MAXIMUM_PAYLOAD_BYTES := 1024
  const MAXIMUM_FRAME_BYTES := HEADER_BYTES + MAXIMUM_PAYLOAD_BYTES

  datatype FrameType = Hello | Cancel

  datatype Reason =
    | BytesRequired
    | HeaderIncomplete
    | MagicInvalid
    | VersionUnsupported
    | TypeUnsupported
    | FlagsInvalid
    | SequenceInvalid
    | ReservedInvalid
    | PayloadTooLarge
    | LengthMismatch
    | HelloEmpty
    | CancelPayloadInvalid
    | ChecksumInvalid
    | BufferOverflow
    | AlreadyComplete
    | Cancelled

  datatype Result<+T> = Ok(value: T) | Rejected(reason: Reason)

  datatype Frame = Frame(frameType: FrameType, sequence: int, payload: seq<Byte>)

  datatype Header = Header(frameType: FrameType, sequence: nat, payloadLength: nat, checksum: bv32)

  // ---- Big-endian fields ----------------------------------------------------------------------

  function ByteOf(n: nat): Byte
    requires n < 256
  {
    n as bv8
  }

  function Number(b: Byte): (n: nat)
    ensures n < 256
  {
    b as int
  }

  lemma NumberSuccessor(b: Byte)
    requires b as int < 255
    ensures (b + 1) as int == b as int + 1
  {}

  lemma ByteOfNumber(b: Byte)
    ensures ByteOf(Number(b)) == b
  {}

  lemma {:induction false} NumberOfByte(n: nat)
    requires n < 256
    ensures Number(ByteOf(n)) == n
  {
    if n > 0 {
      NumberOfByte(n - 1);
      NumberSuccessor(ByteOf(n - 1));
      ByteOfNumber(ByteOf(n - 1) + 1);
    }
  }

  function Put16(n: nat): (s: seq<Byte>)
    requires n < 0x1_0000
    ensures |s| == 2
  {
    [ByteOf(n / 0x100), ByteOf(n % 0x100)]
  }

  function Get16(hi: Byte, lo: Byte): (n: nat)
    ensures n < 0x1_0000
  {
    0x100 * Number(hi) + Number(lo)
  }

  lemma Get16Put16(n: nat)
    requires n < 0x1_0000
    ensures Get16(Put16(n)[0], Put16(n)[1]) == n
  {
    hide ByteOf, Number;
    NumberOfByte(n / 0x100);
    NumberOfByte(n % 0x100);
  }

  lemma Put16Get16(hi: Byte, lo: Byte)
    ensures Put16(Get16(hi, lo)) == [hi, lo]
  {
    hide ByteOf, Number;
    var n := Get16(hi, lo);
    assert n / 0x100 == Number(hi) && n % 0x100 == Number(lo);
    ByteOfNumber(hi);
    ByteOfNumber(lo);
  }

  function Put32(n: nat): (s: seq<Byte>)
    requires n < 0x1_0000_0000
    ensures |s| == 4
  {
    Put16(n / 0x1_0000) + Put16(n % 0x1_0000)
  }

  function Get32(a: Byte, b: Byte, c: Byte, d: Byte): (n: nat)
    ensures n < 0x1_0000_0000
  {
    0x1_0000 * Get16(a, b) + Get16(c, d)
  }

  lemma Get32Put32(n: nat)
    requires n < 0x1_0000_0000
    ensures var s := Put32(n); Get32(s[0], s[1], s[2], s[3]) == n
  {
    hide ByteOf, Number, Put16, Get16;
    Get16Put16(n / 0x1_0000);
    Get16Put16(n % 0x1_0000);
  }

  lemma Put32Get32(a: Byte, b: Byte, c: Byte, d: Byte)
    ensures Put32(Get32(a, b, c, d)) == [a, b, c, d]
  {
    hide ByteOf, Number, Put16, Get16;
    var n := Get32(a, b, c, d);
    assert n / 0x1_0000 == Get16(a, b) && n % 0x1_0000 == Get16(c, d);
    Put16Get16(a, b);
    Put16Get16(c, d);
  }

  function PutWord(w: bv32): (s: seq<Byte>)
    ensures |s| == 4
  {
    [(w >> 24) as bv8, ((w >> 16) & 0xFF) as bv8, ((w >> 8) & 0xFF) as bv8, (w & 0xFF) as bv8]
  }

  function GetWord(a: Byte, b: Byte, c: Byte, d: Byte): bv32 {
    ((a as bv32) << 24) | ((b as bv32) << 16) | ((c as bv32) << 8) | (d as bv32)
  }

  lemma GetWordPutWord(w: bv32)
    ensures var s := PutWord(w); GetWord(s[0], s[1], s[2], s[3]) == w
  {}

  lemma PutWordGetWord(a: Byte, b: Byte, c: Byte, d: Byte)
    ensures PutWord(GetWord(a, b, c, d)) == [a, b, c, d]
  {}

  // ---- Encoding and decoding ------------------------------------------------------------------

  function TypeCode(t: FrameType): Byte {
    match t
    case Hello => 1
    case Cancel => 2
  }

  function ValidateFrame(frame: Frame): Result<()> {
    if !(1 <= frame.sequence <= 0xFFFF_FFFF) then Rejected(SequenceInvalid)
    else if |frame.payload| > MAXIMUM_PAYLOAD_BYTES then Rejected(PayloadTooLarge)
    else if frame.frameType == Hello && frame.payload == [] then Rejected(HelloEmpty)
    else if frame.frameType == Cancel && frame.payload != [] then Rejected(CancelPayloadInvalid)
    else Ok(())
  }

  predicate Valid(frame: Frame) {
    ValidateFrame(frame).Ok?
  }

  function HeaderWithoutCrc(frame: Frame): (s: seq<Byte>)
    requires Valid(frame)
    ensures |s| == HEADER_WITHOUT_CRC_BYTES
  {
    MAGIC + [VERSION, TypeCode(frame.frameType)] + Put16(0) + Put32(frame.sequence)
    + Put16(|frame.payload|) + Put16(0)
  }

  function Encoded(frame: Frame): seq<Byte>
    requires Valid(frame)
  {
    var header := HeaderWithoutCrc(frame);
    var checksum := ZlibCrc32(frame.payload, ZlibCrc32(header, 0));
    header + PutWord(checksum) + frame.payload
  }

  function Encode(frame: Frame): Result<seq<Byte>> {
    if ValidateFrame(frame).Rejected? then Rejected(ValidateFrame(frame).reason) else Ok(Encoded(frame))
  }

  function DecodeHeader(encoded: seq<Byte>): Result<Header> {
    if |encoded| < HEADER_BYTES then Rejected(HeaderIncomplete)
    else if encoded[..4] != MAGIC then Rejected(MagicInvalid)
    else if encoded[4] != VERSION then Rejected(VersionUnsupported)
    else if encoded[5] != 1 && encoded[5] != 2 then Rejected(TypeUnsupported)
    else if Get16(encoded[6], encoded[7]) != 0 then Rejected(FlagsInvalid)
    else if Get32(encoded[8], encoded[9], encoded[10], encoded[11]) == 0 then Rejected(SequenceInvalid)
    else if Get16(encoded[14], encoded[15]) != 0 then Rejected(ReservedInvalid)
    else if Get16(encoded[12], encoded[13]) > MAXIMUM_PAYLOAD_BYTES then Rejected(PayloadTooLarge)
    else Ok(HeaderFields(encoded))
  }

  function HeaderFields(encoded: seq<Byte>): Header
    requires |encoded| >= HEADER_BYTES
  {
    Header(
      if encoded[5] == 1 then Hello else Cancel,
      Get32(encoded[8], encoded[9], encoded[10], encoded[11]),
      Get16(encoded[12], encoded[13]),
      GetWord(encoded[16], encoded[17], encoded[18], encoded[19]))
  }

  function Decode(encoded: seq<Byte>): Result<Frame> {
    var decodedHeader := DecodeHeader(encoded);
    if decodedHeader.Rejected? then Rejected(decodedHeader.reason)
    else
      var header := decodedHeader.value;
      if |encoded| != HEADER_BYTES + header.payloadLength then Rejected(LengthMismatch)
      else
        var payload := encoded[HEADER_BYTES..];
        var frame := Frame(header.frameType, header.sequence, payload);
        if ValidateFrame(frame).Rejected? then Rejected(ValidateFrame(frame).reason)
        else if header.checksum != ZlibCrc32(payload, ZlibCrc32(encoded[..HEADER_BYTES - 4], 0)) then
          Rejected(ChecksumInvalid)
        else Ok(frame)
  }

  // ---- The format is a bijection --------------------------------------------------------------

  /** Where each field of an encoded frame lies. */
  lemma EncodedLayout(frame: Frame)
    requires Valid(frame)
    ensures var e := Encoded(frame);
            var n, s := |frame.payload|, frame.sequence as nat;
            && |e| == HEADER_BYTES + n
            && e[..16] == HeaderWithoutCrc(frame)
            && e[..4] == MAGIC && e[4] == VERSION && e[5] == TypeCode(frame.frameType)
            && e[6..8] == Put16(0) && e[8..12] == Put32(s) && e[12..14] == Put16(n) && e[14..16] == Put16(0)
            && e[16..20] == PutWord(Checksum(e[..16] + frame.payload))
            && e[20..] == frame.payload
  {
    hide ZlibCrc32, Checksum, PutWord, Put16, Put32;
    ChainedChecksum(HeaderWithoutCrc(frame), frame.payload);
    var h := HeaderWithoutCrc(frame);
    var e := Encoded(frame);
    assert e[..16] == h;
    assert e[..4] == h[..4] && e[6..8] == h[6..8] && e[8..12] == h[8..12] && e[12..14] == h[12..14] && e[14..16] == h[14..16];
  }

  lemma SliceBytes(e: seq<Byte>, i: nat, s: seq<Byte>)
    requires i + |s| <= |e| && e[i..i + |s|] == s
    ensures forall k :: 0 <= k < |s| ==> e[i + k] == s[k]
  {
    forall k | 0 <= k < |s| ensures e[i + k] == s[k] {
      assert e[i..i + |s|][k] == s[k];
    }
  }

  lemma HeaderFieldsOfEncoded(frame: Frame)
    requires Valid(frame)
    ensures var e := Encoded(frame);
            && |e| == HEADER_BYTES + |frame.payload|
            && DecodeHeader(e) == Ok(Header(frame.frameType, frame.sequence, |frame.payload|,
                                            Checksum(e[..16] + frame.payload)))
  {
    hide ZlibCrc32, Checksum, PutWord, GetWord, Put16, Get16, Put32, Get32, Encoded, HeaderWithoutCrc;
    EncodedLayout(frame);
    var e := Encoded(frame);
    SliceBytes(e, 6, Put16(0));
    SliceBytes(e, 8, Put32(frame.sequence));
    SliceBytes(e, 12, Put16(|frame.payload|));
    SliceBytes(e, 14, Put16(0));
    SliceBytes(e, 16, PutWord(Checksum(e[..16] + frame.payload)));
    Get16Put16(0);
    Get32Put32(frame.sequence);
    Get16Put16(|frame.payload|);
    GetWordPutWord(Checksum(e[..16] + frame.payload));
  }

  /** Decoding inverts encoding on every valid frame. */
  lemma DecodeEncode(frame: Frame)
    requires Valid(frame)
    ensures Decode(Encoded(frame)) == Ok(frame)
  {
    hide ZlibCrc32, Checksum, HeaderWithoutCrc, PutWord, DecodeHeader;
    HeaderFieldsOfEncoded(frame);
    EncodedLayout(frame);
    var e := Encoded(frame);
    ChainedChecksum(e[..16], frame.payload);
  }

  /** What acceptance says about the bytes, field by field. */
  lemma AcceptedLayout(y: seq<Byte>)
    requires Decode(y).Ok?
    ensures var f := Decode(y).value;
            && Valid(f) && |y| == HEADER_BYTES + |f.payload| && y[20..] == f.payload
            && y[..4] == MAGIC && y[4] == VERSION && y[5] == TypeCode(f.frameType)
            && Get16(y[6], y[7]) == 0 && Get16(y[14], y[15]) == 0
            && Get32(y[8], y[9], y[10], y[11]) == f.sequence
            && Get16(y[12], y[13]) == |f.payload|
            && GetWord(y[16], y[17], y[18], y[19]) == Checksum(y[..16] + f.payload)
  {
    hide ZlibCrc32, Checksum, GetWord, Get16, Get32;
    ChainedChecksum(y[..16], y[20..]);
  }

  /** Every accepted byte string is the encoding of the frame it decodes to. */
  lemma EncodeDecode(y: seq<Byte>)
    requires Decode(y).Ok?
    ensures Encode(Decode(y).value) == Ok(y)
  {
    hide ZlibCrc32, Checksum, GetWord, Get16, Get32, PutWord, Put16, Put32, Decode, HeaderWithoutCrc;
    AcceptedLayout(y);
    var f := Decode(y).value;
    Put16Get16(y[6], y[7]);
    Put16Get16(y[12], y[13]);
    Put16Get16(y[14], y[15]);
    Put32Get32(y[8], y[9], y[10], y[11]);
    PutWordGetWord(y[16], y[17], y[18], y[19]);
    assert HeaderWithoutCrc(f) == y[..16] by {
      assert HeaderWithoutCrc(f) == MAGIC + [VERSION, TypeCode(f.frameType)] + Put16(0) + Put32(f.sequence)
                                    + Put16(|f.payload|) + Put16(0) by { HeaderParts(f); }
      assert y[..16] == y[..4] + [y[4], y[5]] + [y[6], y[7]] + [y[8], y[9], y[10], y[11]]
                        + [y[12], y[13]] + [y[14], y[15]];
    }
    ChainedChecksum(y[..16], f.payload);
    assert y == y[..16] + [y[16], y[17], y[18], y[19]] + y[20..];
  }

  lemma HeaderParts(f: Frame)
    requires Valid(f)
    ensures HeaderWithoutCrc(f) == MAGIC + [VERSION, TypeCode(f.frameType)] + Put16(0) + Put32(f.sequence)
                                   + Put16(|f.payload|) + Put16(0)
  {}

  /** Hence the accepted strings and the valid frames are in one-to-one correspondence. */
  lemma FormatIsBijection(y: seq<Byte>, f: Frame)
    ensures Encode(f) == Ok(y) <==> Decode(y) == Ok(f)
  {
    hide Decode, HeaderWithoutCrc, ZlibCrc32;
    if Encode(f) == Ok(y) {
      DecodeEncode(f);
    }
    if Decode(y) == Ok(f) {
      EncodeDecode(y);
    }
  }

  // ---- Corruption -----------------------------------------------------------------------------

  /** The bytes the checksum covers: the first 16 header bytes and the payload. */
  function Covered(y: seq<Byte>): (s: seq<Byte>)
    requires |y| >= HEADER_BYTES
    ensures |s| == |y| - 4
  {
    y[..16] + y[20..]
  }

  /** `x` and `y` differ in at most 32 consecutive bits of the covered bytes and not in the
      checksum field, or only in the checksum field. */
  ghost predicate BurstOrChecksumDamage(x: seq<Byte>, y: seq<Byte>)
    requires |x| == |y| >= HEADER_BYTES
  {
    || Covered(x) == Covered(y)
    || (x[16..20] == y[16..20] && exists low: nat :: DifferWithin32(Covered(x), Covered(y), low))
  }

  /** A frame damaged by any burst of up to 32 bits, or anywhere inside its checksum, never
      decodes, whatever field the damage hit. */
  lemma DamagedFrameRejected(frame: Frame, y: seq<Byte>)
    requires Valid(frame)
    requires var x := Encoded(frame);
             |y| == |x| && |x| >= HEADER_BYTES && y != x && BurstOrChecksumDamage(x, y)
    ensures Decode(y).Rejected?
  {
    hide Encoded, Decode, Checksum, DifferWithin32, PutWord;
    var x := Encoded(frame);
    DecodeEncode(frame);
    StoredChecksum(x);
    StoredChecksum(y);
    SplitFrame(x);
    SplitFrame(y);
    if Covered(x) != Covered(y) {
      var low: nat :| DifferWithin32(Covered(x), Covered(y), low);
      ChecksumDetectsBurst(Covered(x), Covered(y), low);
      PutWordInjective(Checksum(Covered(x)), Checksum(Covered(y)));
    }
  }

  lemma StoredChecksum(y: seq<Byte>)
    requires |y| >= HEADER_BYTES
    ensures Decode(y).Ok? ==> y[16..20] == PutWord(Checksum(Covered(y)))
  {
    hide Decode, Checksum, GetWord, Get16, Get32, PutWord;
    if Decode(y).Ok? {
      AcceptedLayout(y);
      PutWordGetWord(y[16], y[17], y[18], y[19]);
    }
  }

  lemma PutWordInjective(a: bv32, b: bv32)
    ensures PutWord(a) == PutWord(b) ==> a == b
  {
    hide PutWord, GetWord;
    GetWordPutWord(a);
    GetWordPutWord(b);
  }

  lemma SplitFrame(x: seq<Byte>)
    requires |x| >= HEADER_BYTES
    ensures x == Covered(x)[..16] + x[16..20] + Covered(x)[16..]
  {}

  /** Changing a single byte anywhere: header, checksum or payload. */
  lemma AlteredByteRejected(frame: Frame, k: nat, b: Byte)
    requires Valid(frame) && k < |Encoded(frame)| && b != Encoded(frame)[k]
    ensures Decode(Encoded(frame)[k := b]).Rejected?
  {
    hide Encoded, Decode, MessageBits, HeaderWithoutCrc, Covered, DifferWithin32;
    EncodedLayout(frame);
    var x := Encoded(frame);
    var y := x[k := b];
    ReplacedByte(x, k, b);
    if !(16 <= k < 20) {
      BytesWithinWindow(Covered(x), Covered(y), if k < 16 then k else k - 4);
    }
    DamagedFrameRejected(frame, y);
  }

  /** What replacing one byte does to the parts of an encoded frame. */
  lemma ReplacedByte(x: seq<Byte>, k: nat, b: Byte)
    requires |x| >= HEADER_BYTES && k < |x|
    ensures var y := x[k := b];
            if 16 <= k < 20 then Covered(y) == Covered(x)
            else y[16..20] == x[16..20] && Covered(y) == Covered(x)[if k < 16 then k else k - 4 := b]
  {}

  /** Changing any of four consecutive payload bytes. */
  lemma AlteredPayloadRunRejected(frame: Frame, at: nat, run: seq<Byte>)
    requires Valid(frame) && |run| <= 4 && at + |run| <= |frame.payload|
    requires run != frame.payload[at..at + |run|]
    ensures var x := Encoded(frame);
            |x| == HEADER_BYTES + |frame.payload| &&
            Decode(x[..20 + at] + run + x[20 + at + |run|..]).Rejected?
  {
    hide Valid, Encoded, Decode, BurstOrChecksumDamage;
    EncodedPayload(frame);
    var x := Encoded(frame);
    PayloadSlice(x, frame.payload, at, |run|);
    ReplacedRun(x, at, run);
    DamagedFrameRejected(frame, x[..20 + at] + run + x[20 + at + |run|..]);
  }

  lemma EncodedPayload(frame: Frame)
    requires Valid(frame)
    ensures |Encoded(frame)| == HEADER_BYTES + |frame.payload| && Encoded(frame)[20..] == frame.payload
  {
    hide Encoded, HeaderWithoutCrc;
    EncodedLayout(frame);
  }

  lemma PayloadSlice(x: seq<Byte>, payload: seq<Byte>, at: nat, length: nat)
    requires |x| >= HEADER_BYTES && x[20..] == payload && at + length <= |payload|
    ensures x[20 + at..20 + at + length] == payload[at..at + length]
  {}

  /** What replacing payload bytes does to an encoded frame. */
  lemma ReplacedRun(x: seq<Byte>, at: nat, run: seq<Byte>)
    requires 20 + at + |run| <= |x| && run != x[20 + at..20 + at + |run|] && |run| <= 4
    ensures var y := x[..20 + at] + run + x[20 + at + |run|..];
            |y| == |x| && y != x && BurstOrChecksumDamage(x, y)
  {
    hide DifferWithin32;
    var y := x[..20 + at] + run + x[20 + at + |run|..];
    assert y[20 + at..20 + at + |run|] == run;
    forall k | 0 <= k < |Covered(x)| && Covered(x)[k] != Covered(y)[k] ensures 16 + at <= k < 16 + at + 4 {
      CoveredAt(x, k);
      CoveredAt(y, k);
    }
    BytesWithinWindow(Covered(x), Covered(y), 16 + at);
  }

  lemma CoveredAt(y: seq<Byte>, k: nat)
    requires |y| >= HEADER_BYTES && k < |y| - 4
    ensures Covered(y)[k] == y[if k < 16 then k else k + 4]
  {}

  lemma BytesWithinWindow(p: seq<Byte>, q: seq<Byte>, at: nat)
    requires |p| == |q|
    requires forall k :: 0 <= k < |p| && p[k] != q[k] ==> at <= k < at + 4
    ensures DifferWithin32(p, q, 8 * at)
  {
    hide MessageBits, ByteBits;
    forall i | 0 <= i < 8 * |p| && MessageBits(p)[i] != MessageBits(q)[i]
      ensures 8 * at <= i < 8 * at + 32
    {
      MessageBitsAt(p, i);
      MessageBitsAt(q, i);
    }
  }
}
