/**
 The firmware's allocation-free implementation of the same wire format: it writes into and reads from
 caller-owned byte arrays, and its incremental decoder owns one fixed 1044-byte array.
 */
module CppFrame {
  // Its methods are proved against the format module, so the two implementations agree byte for byte;
  // the only difference is the order of the last two header checks, and `DecodersAgree` says exactly
  // when that shows.

  import opened Options
  import opened Crc32
  import opened PairingFrame
  import opened FrameDecoder

  datatype Status = Success | MoreNeeded | InvalidArgument | OutputTooSmall | Because(reason: Reason)

  /** A status together with what the output pointer points to on success. */
  datatype Checked<+T> = Checked(status: Status, value: Option<T>)

  function CheckedOf<T>(r: Result<T>): Checked<T> {
    match r
    case Ok(value) => Checked(Success, Some(value))
    case Rejected(reason) => Checked(Because(reason), None)
  }

  // ---- Specification of the C++ checks --------------------------------------------------------

  function InspectHeader(encoded: seq<Byte>): Result<Header> {
    if |encoded| < HEADER_BYTES then Rejected(HeaderIncomplete)
    else if encoded[..4] != MAGIC then Rejected(MagicInvalid)
    else if encoded[4] != VERSION then Rejected(VersionUnsupported)
    else if encoded[5] != 1 && encoded[5] != 2 then Rejected(TypeUnsupported)
    else if Get16(encoded[6], encoded[7]) != 0 then Rejected(FlagsInvalid)
    else if Get32(encoded[8], encoded[9], encoded[10], encoded[11]) == 0 then Rejected(SequenceInvalid)
    else if Get16(encoded[12], encoded[13]) > MAXIMUM_PAYLOAD_BYTES then Rejected(PayloadTooLarge)
    else if Get16(encoded[14], encoded[15]) != 0 then Rejected(ReservedInvalid)
    else Ok(HeaderFields(encoded))
  }

  function ValidateShape(typeCode: Byte, sequence: nat, hasPayload: bool, payloadLength: nat): Status {
    if typeCode != 1 && typeCode != 2 then Because(TypeUnsupported)
    else if sequence == 0 then Because(SequenceInvalid)
    else if !hasPayload && payloadLength != 0 then InvalidArgument
    else if payloadLength > MAXIMUM_PAYLOAD_BYTES then Because(PayloadTooLarge)
    else if typeCode == 1 && payloadLength == 0 then Because(HelloEmpty)
    else if typeCode == 2 && payloadLength != 0 then Because(CancelPayloadInvalid)
    else Success
  }

  function FrameOf(typeCode: Byte, sequence: nat, payload: seq<Byte>): Frame {
    Frame(if typeCode == 1 then Hello else PairingFrame.Cancel, sequence, payload)
  }

  function DecodeBytes(encoded: seq<Byte>): Result<Frame> {
    match InspectHeader(encoded)
    case Rejected(reason) => Rejected(reason)
    case Ok(header) =>
      if |encoded| != HEADER_BYTES + header.payloadLength then Rejected(LengthMismatch)
      else
        match ValidateShape(TypeCode(header.frameType), header.sequence, true, header.payloadLength)
        case Because(reason) => Rejected(reason)
        case _ =>
          var payload := encoded[HEADER_BYTES..];
          if header.checksum != Checksum(encoded[..HEADER_WITHOUT_CRC_BYTES] + payload) then
            Rejected(ChecksumInvalid)
          else Ok(Frame(header.frameType, header.sequence, payload))
  }

  // ---- The two implementations against each other ----------------------------------------------

  /** A header that is right up to its sequence but wrong in both of its last two fields. */
  predicate LastTwoFieldsWrong(y: seq<Byte>) {
    && |y| >= HEADER_BYTES && y[..4] == MAGIC && y[4] == VERSION && (y[5] == 1 || y[5] == 2)
    && Get16(y[6], y[7]) == 0 && Get32(y[8], y[9], y[10], y[11]) != 0
    && Get16(y[14], y[15]) != 0 && Get16(y[12], y[13]) > MAXIMUM_PAYLOAD_BYTES
  }

  /** The firmware's shape check is the reference's frame check, on every frame there is. */
  lemma ShapeIsValidation(frame: Frame)
    requires 0 <= frame.sequence < 0x1_0000_0000
    ensures ValidateShape(TypeCode(frame.frameType), frame.sequence, true, |frame.payload|) ==
            match ValidateFrame(frame)
            case Ok(_) => Success
            case Rejected(reason) => Because(reason)
  {}

  lemma HeaderChecksAgree(y: seq<Byte>)
    ensures LastTwoFieldsWrong(y) ==>
              DecodeHeader(y) == Rejected(ReservedInvalid) && InspectHeader(y) == Rejected(PayloadTooLarge)
    ensures !LastTwoFieldsWrong(y) ==> InspectHeader(y) == DecodeHeader(y)
  {
    hide Get16, Get32, GetWord;
  }

  /** Both decoders accept the same strings as the same frames, and they give different reasons for
      exactly the strings whose header is wrong in both of its last two fields. */
  lemma DecodersAgree(y: seq<Byte>)
    ensures forall f: Frame :: DecodeBytes(y) == Ok(f) <==> Decode(y) == Ok(f)
    ensures DecodeBytes(y) != Decode(y) <==> LastTwoFieldsWrong(y)
  {
    hide Get16, Get32, GetWord, InspectHeader, DecodeHeader, LastTwoFieldsWrong, Checksum, ZlibCrc32, ValidateShape, ValidateFrame;
    HeaderChecksAgree(y);
    if DecodeHeader(y).Ok? && |y| == HEADER_BYTES + DecodeHeader(y).value.payloadLength {
      DecodedHeaderInRange(y);
      ShapeIsValidation(Frame(DecodeHeader(y).value.frameType, DecodeHeader(y).value.sequence, y[HEADER_BYTES..]));
      ChainedChecksum(y[..HEADER_WITHOUT_CRC_BYTES], y[HEADER_BYTES..]);
    }
  }

  lemma DecodedHeaderInRange(y: seq<Byte>)
    requires DecodeHeader(y).Ok?
    ensures 0 < DecodeHeader(y).value.sequence < 0x1_0000_0000
  {
    hide Get16, GetWord;
  }

  // ---- Writing ---------------------------------------------------------------------------------

  method WriteBigEndian16(output: array<Byte>, at: nat, value: nat)
    requires at + 2 <= output.Length && value < 0x1_0000
    modifies output
    ensures output[..at + 2] == old(output[..at]) + Put16(value)
    ensures forall k :: at + 2 <= k < output.Length ==> output[k] == old(output[k])
  {
    output[at] := ByteOf(value / 0x100);
    output[at + 1] := ByteOf(value % 0x100);
  }

  method WriteBigEndian32(output: array<Byte>, at: nat, value: nat)
    requires at + 4 <= output.Length && value < 0x1_0000_0000
    modifies output
    ensures output[..at + 4] == old(output[..at]) + Put32(value)
    ensures forall k :: at + 4 <= k < output.Length ==> output[k] == old(output[k])
  {
    hide ByteOf;
    output[at] := ByteOf(value / 0x1_0000 / 0x100);
    output[at + 1] := ByteOf(value / 0x1_0000 % 0x100);
    output[at + 2] := ByteOf(value % 0x1_0000 / 0x100);
    output[at + 3] := ByteOf(value % 0x1_0000 % 0x100);
  }

  method WriteWord(output: array<Byte>, at: nat, value: bv32)
    requires at + 4 <= output.Length
    modifies output
    ensures output[..at + 4] == old(output[..at]) + PutWord(value)
    ensures forall k :: at + 4 <= k < output.Length ==> output[k] == old(output[k])
  {
    output[at] := (value >> 24) as bv8;
    output[at + 1] := ((value >> 16) & 0xFF) as bv8;
    output[at + 2] := ((value >> 8) & 0xFF) as bv8;
    output[at + 3] := (value & 0xFF) as bv8;
  }

  method Copy(output: array<Byte>, at: nat, input: seq<Byte>)
    requires at + |input| <= output.Length
    modifies output
    ensures output[..at + |input|] == old(output[..at]) + input
    ensures forall k :: at + |input| <= k < output.Length ==> output[k] == old(output[k])
  {
    forall k | 0 <= k < |input| {
      output[at + k] := input[k];
    }
  }

  /** `checksum`: the register over the first 16 bytes of one array, then over part of another. */
  method ChecksumOf(header: array<Byte>, payload: array?<Byte>, start: nat, payloadLength: nat) returns (crc: bv32)
    requires header.Length >= HEADER_WITHOUT_CRC_BYTES && (payload == null ==> payloadLength == 0)
    requires payload != null ==> start + payloadLength <= payload.Length
    ensures crc == Checksum(header[..HEADER_WITHOUT_CRC_BYTES]
                            + (if payload == null then [] else payload[start..start + payloadLength]))
  {
    hide Xor, ByteStep;
    ghost var bytes := if payload == null then [] else payload[start..start + payloadLength];
    crc := UpdateCrc32(ALL_ONES, header, 0, HEADER_WITHOUT_CRC_BYTES);
    assert header[0..0 + HEADER_WITHOUT_CRC_BYTES] == header[..HEADER_WITHOUT_CRC_BYTES];
    if payloadLength != 0 {
      crc := UpdateCrc32(crc, payload, start, payloadLength);
    } else {
      assert bytes == [];
    }
    UpdateAppend(ALL_ONES, header[..HEADER_WITHOUT_CRC_BYTES], bytes);
    crc := Xor(crc, ALL_ONES);
  }

  /** The first 16 bytes of the output. */
  method WriteHeader(typeCode: Byte, sequence: nat, payloadLength: nat, output: array<Byte>)
    requires sequence < 0x1_0000_0000 && payloadLength < 0x1_0000 && output.Length >= HEADER_BYTES
    modifies output
    ensures output[..16] == MAGIC + [VERSION, typeCode] + Put16(0) + Put32(sequence) + Put16(payloadLength) + Put16(0)
    ensures forall k :: 16 <= k < output.Length ==> output[k] == old(output[k])
  {
    hide Put16, Put32;
    Copy(output, 0, MAGIC);
    ghost var first := output[..4];
    assert first == MAGIC;
    output[4] := VERSION;
    output[5] := typeCode;
    assert output[..4] == first;
    assert output[..6] == output[..4] + [VERSION, typeCode];
    WriteBigEndian16(output, 6, 0);
    WriteBigEndian32(output, 8, sequence);
    WriteBigEndian16(output, 12, payloadLength);
    WriteBigEndian16(output, 14, 0);
  }

  /** `encode`, with null pointers (`hasLength` tells whether there is a place for the length). For
      the two frame types it answers as the reference does: the encoding, or the reference's reason;
      only pointers, unknown types and capacity are its own. The output is untouched on failure and
      beyond the encoded length. */
  method EncodeInto(typeCode: Byte, sequence: nat, payload: array?<Byte>, payloadLength: nat,
                    output: array?<Byte>, outputCapacity: nat, hasLength: bool)
    returns (status: Status, outputLength: nat)
    requires sequence < 0x1_0000_0000
    requires payload != null ==> payloadLength <= payload.Length && payload != output
    requires output != null ==> outputCapacity <= output.Length
    modifies if output == null then {} else {output}
    ensures output == null || !hasLength ==> status == InvalidArgument
    ensures output != null && hasLength && typeCode != 1 && typeCode != 2 ==> status == Because(TypeUnsupported)
    ensures output != null && hasLength && (typeCode == 1 || typeCode == 2) && payload == null && payloadLength != 0 ==>
              status == if sequence == 0 then Because(SequenceInvalid) else InvalidArgument
    ensures output != null && hasLength && (typeCode == 1 || typeCode == 2) && (payload != null || payloadLength == 0) ==>
              match Encode(FrameOf(typeCode, sequence, Given(payload, payloadLength)))
              case Rejected(reason) => status == Because(reason)
              case Ok(encoded) =>
                if outputCapacity < |encoded| then status == OutputTooSmall
                else status == Success && outputLength == |encoded| && output[..outputLength] == encoded
    ensures status != Success ==> outputLength == 0
    ensures output != null ==> forall k :: outputLength <= k < output.Length ==> output[k] == old(output[k])
  {
    hide ValidateShape, Encoded, ValidateFrame;
    outputLength := 0;
    if output == null || !hasLength {
      return InvalidArgument, 0;
    }
    status := ValidateShape(typeCode, sequence, payload != null, payloadLength);
    ShapeOfGiven(typeCode, sequence, payload != null, payloadLength, Given(payload, payloadLength));
    if status != Success {
      return;
    }
    EncodedLength(FrameOf(typeCode, sequence, Given(payload, payloadLength)));
    var required := HEADER_BYTES + payloadLength;
    if outputCapacity < required {
      return OutputTooSmall, 0;
    }
    WriteFrame(typeCode, sequence, payload, payloadLength, output);
    return Success, required;
  }

  /** The checksum of the 16 bytes already there and of the payload, then the payload. */
  method WriteBody(payload: array?<Byte>, payloadLength: nat, output: array<Byte>)
    requires payload != null ==> payloadLength <= payload.Length && payload != output
    requires payload == null ==> payloadLength == 0
    requires HEADER_BYTES + payloadLength <= output.Length
    modifies output
    ensures output[..HEADER_BYTES + payloadLength] ==
            old(output[..16] + PutWord(Checksum(output[..16] + Given(payload, payloadLength))) + Given(payload, payloadLength))
    ensures forall k :: HEADER_BYTES + payloadLength <= k < output.Length ==> output[k] == old(output[k])
  {
    hide PutWord, Checksum;
    var crc := ChecksumOf(output, payload, 0, payloadLength);
    WriteWord(output, 16, crc);
    if payloadLength != 0 {
      Copy(output, HEADER_BYTES, payload[..payloadLength]);
    }
  }

  /** The writing part of `encode`, once everything is checked. */
  method WriteFrame(typeCode: Byte, sequence: nat, payload: array?<Byte>, payloadLength: nat, output: array<Byte>)
    requires payload != null ==> payloadLength <= payload.Length && payload != output
    requires payload == null ==> payloadLength == 0
    requires typeCode == 1 || typeCode == 2
    requires PairingFrame.Valid(FrameOf(typeCode, sequence, Given(payload, payloadLength)))
    requires HEADER_BYTES + payloadLength <= output.Length
    modifies output
    ensures output[..HEADER_BYTES + payloadLength] == Encoded(FrameOf(typeCode, sequence, old(Given(payload, payloadLength))))
    ensures forall k :: HEADER_BYTES + payloadLength <= k < output.Length ==> output[k] == old(output[k])
  {
    hide PutWord, Checksum, Encoded, HeaderWithoutCrc, Put16, Put32;
    ghost var bytes := Given(payload, payloadLength);
    ghost var frame := FrameOf(typeCode, sequence, bytes);
    var required := HEADER_BYTES + payloadLength;
    WriteHeader(typeCode, sequence, payloadLength, output);
    HeaderOf(typeCode, sequence, bytes);
    WriteBody(payload, payloadLength, output);
    EncodingFromParts(frame);
  }

  /** The payload behind a pointer and a length. */
  function Given(payload: array?<Byte>, payloadLength: nat): seq<Byte>
    requires payload != null ==> payloadLength <= payload.Length
    reads payload
  {
    if payload == null then [] else payload[..payloadLength]
  }

  /** What the shape check says, in the reference's terms. */
  lemma ShapeOfGiven(typeCode: Byte, sequence: nat, hasPayload: bool, payloadLength: nat, payload: seq<Byte>)
    requires sequence < 0x1_0000_0000 && if hasPayload then |payload| == payloadLength else payload == []
    ensures var shape := ValidateShape(typeCode, sequence, hasPayload, payloadLength);
            var valid := ValidateFrame(FrameOf(typeCode, sequence, payload));
            && (typeCode != 1 && typeCode != 2 ==> shape == Because(TypeUnsupported))
            && (typeCode == 1 || typeCode == 2 ==>
                  if hasPayload || payloadLength == 0
                  then shape == (if valid.Rejected? then Because(valid.reason) else Success)
                  else shape == if sequence == 0 then Because(SequenceInvalid) else InvalidArgument)
  {}

  lemma EncodedLength(frame: Frame)
    requires PairingFrame.Valid(frame)
    ensures |Encoded(frame)| == HEADER_BYTES + |frame.payload|
  {
    hide ZlibCrc32;
  }

  lemma HeaderOf(typeCode: Byte, sequence: nat, payload: seq<Byte>)
    requires (typeCode == 1 || typeCode == 2) && PairingFrame.Valid(FrameOf(typeCode, sequence, payload))
    ensures HeaderWithoutCrc(FrameOf(typeCode, sequence, payload)) ==
            MAGIC + [VERSION, typeCode] + Put16(0) + Put32(sequence) + Put16(|payload|) + Put16(0)
  {
    hide Put16, Put32;
  }

  lemma EncodingFromParts(f: Frame)
    requires PairingFrame.Valid(f)
    ensures Encoded(f) == HeaderWithoutCrc(f) + PutWord(Checksum(HeaderWithoutCrc(f) + f.payload)) + f.payload
  {
    hide PutWord, Checksum, ZlibCrc32, HeaderWithoutCrc;
    ChainedChecksum(HeaderWithoutCrc(f), f.payload);
  }

  // ---- Reading ---------------------------------------------------------------------------------

  /** `inspectHeader`; `hasHeader` tells whether there is a place for the header. */
  method InspectHeaderOf(encoded: array?<Byte>, encodedLength: nat, hasHeader: bool) returns (r: Checked<Header>)
    requires encoded != null ==> encodedLength <= encoded.Length
    ensures r == if encoded == null || !hasHeader then Checked(InvalidArgument, None)
                 else CheckedOf(InspectHeader(encoded[..encodedLength]))
  {
    hide Get16, Get32, GetWord;
    if encoded == null || !hasHeader {
      return Checked(InvalidArgument, None);
    }
    if encodedLength < HEADER_BYTES {
      return Checked(Because(HeaderIncomplete), None);
    }
    assert encoded[..encodedLength][..4] == encoded[..4];
    if encoded[..4] != MAGIC {
      return Checked(Because(MagicInvalid), None);
    }
    if encoded[4] != VERSION {
      return Checked(Because(VersionUnsupported), None);
    }
    if encoded[5] != 1 && encoded[5] != 2 {
      return Checked(Because(TypeUnsupported), None);
    }
    if Get16(encoded[6], encoded[7]) != 0 {
      return Checked(Because(FlagsInvalid), None);
    }
    var sequence := Get32(encoded[8], encoded[9], encoded[10], encoded[11]);
    if sequence == 0 {
      return Checked(Because(SequenceInvalid), None);
    }
    var payloadLength := Get16(encoded[12], encoded[13]);
    if payloadLength > MAXIMUM_PAYLOAD_BYTES {
      return Checked(Because(PayloadTooLarge), None);
    }
    if Get16(encoded[14], encoded[15]) != 0 {
      return Checked(Because(ReservedInvalid), None);
    }
    var checksum := GetWord(encoded[16], encoded[17], encoded[18], encoded[19]);
    var frameType := if encoded[5] == 1 then Hello else PairingFrame.Cancel;
    return Checked(Success, Some(Header(frameType, sequence, payloadLength, checksum)));
  }

  /** `decode`; `hasView` tells whether there is a place for the view. */
  method DecodeOf(encoded: array?<Byte>, encodedLength: nat, hasView: bool) returns (r: Checked<Frame>)
    requires encoded != null ==> encodedLength <= encoded.Length
    ensures r == if encoded == null || !hasView then Checked(InvalidArgument, None)
                 else CheckedOf(DecodeBytes(encoded[..encodedLength]))
  {
    hide InspectHeader, Checksum, ValidateShape;
    if encoded == null || !hasView {
      return Checked(InvalidArgument, None);
    }
    var inspected := InspectHeaderOf(encoded, encodedLength, true);
    if inspected.status != Success {
      return Checked(inspected.status, None);
    }
    var header := inspected.value.value;
    if encodedLength != HEADER_BYTES + header.payloadLength {
      return Checked(Because(LengthMismatch), None);
    }
    var shape := ValidateShape(TypeCode(header.frameType), header.sequence, true, header.payloadLength);
    ShapeStatus(TypeCode(header.frameType), header.sequence, header.payloadLength);
    if shape != Success {
      return Checked(shape, None);
    }
    var crc := ChecksumOf(encoded, encoded, HEADER_BYTES, header.payloadLength);
    ghost var whole := encoded[..encodedLength];
    assert whole[..16] == encoded[..16] && whole[20..] == encoded[20..encodedLength];
    if header.checksum != crc {
      return Checked(Because(ChecksumInvalid), None);
    }
    return Checked(Success, Some(Frame(header.frameType, header.sequence, encoded[HEADER_BYTES..encodedLength])));
  }

  lemma ShapeStatus(typeCode: Byte, sequence: nat, payloadLength: nat)
    ensures var shape := ValidateShape(typeCode, sequence, true, payloadLength); shape == Success || shape.Because?
  {}

  // ---- The incremental decoder -----------------------------------------------------------------

  datatype CppState = CppState(buffered: seq<Byte>, complete: bool, terminal: Option<Status>)

  function FedRefusal(status: Status): (CppState, Checked<Frame>) {
    (CppState([], false, Some(status)), Checked(status, None))
  }

  /** `feed`. Unlike the reference, the buffer keeps the frame's bytes once it is complete, because
      the returned view points into it. `None` is a null chunk with a non-zero length, or any
      chunk without a place for the view. */
  function CppFeed(s: CppState, chunk: Option<seq<Byte>>): (CppState, Checked<Frame>) {
    if s.terminal.Some? then (s, Checked(s.terminal.value, None))
    else if s.complete then (s, Checked(Because(AlreadyComplete), None))
    else if chunk.None? then FedRefusal(InvalidArgument)
    else if |s.buffered| + |chunk.value| > MAXIMUM_FRAME_BYTES then FedRefusal(Because(BufferOverflow))
    else
      var received := s.buffered + chunk.value;
      if |received| < HEADER_BYTES then (CppState(received, false, None), Checked(MoreNeeded, None))
      else
        match InspectHeader(received)
        case Rejected(reason) => FedRefusal(Because(reason))
        case Ok(header) =>
          var expected := HEADER_BYTES + header.payloadLength;
          if |received| < expected then (CppState(received, false, None), Checked(MoreNeeded, None))
          else if |received| > expected then FedRefusal(Because(LengthMismatch))
          else
            match DecodeBytes(received)
            case Rejected(reason) => FedRefusal(Because(reason))
            case Ok(frame) => (CppState(received, true, None), Checked(Success, Some(frame)))
  }

  function CppAfterCancel(s: CppState): CppState {
    CppState([], s.complete, if !s.complete && s.terminal.None? then Some(Because(Cancelled)) else s.terminal)
  }

  class Decoder {
    const buffer: array<Byte>
    var buffered: nat
    var complete: bool
    var terminal: Option<Status>

    ghost predicate Valid()
      reads this
    {
      buffer.Length == MAXIMUM_FRAME_BYTES && buffered <= MAXIMUM_FRAME_BYTES
    }

    ghost function Value(): CppState
      requires Valid()
      reads this, buffer
    {
      CppState(buffer[..buffered], complete, terminal)
    }

    constructor ()
      ensures Valid() && fresh(buffer) && Value() == CppState([], false, None)
    {
      buffer := new Byte[MAXIMUM_FRAME_BYTES](i => 0);
      buffered, complete, terminal := 0, false, None;
    }

    method Feed(chunk: array?<Byte>, chunkLength: nat, hasView: bool) returns (fed: Checked<Frame>)
      requires Valid() && (chunk != null ==> chunkLength <= chunk.Length) && chunk != buffer
      modifies this, buffer
      ensures Valid()
      ensures var bytes := if !hasView then None
                           else if chunk != null then Some(chunk[..chunkLength])
                           else if chunkLength == 0 then Some([]) else None;
              (Value(), fed) == CppFeed(old(Value()), bytes)
    {
      hide InspectHeader, DecodeBytes;
      if terminal.Some? {
        return Checked(terminal.value, None);
      }
      if complete {
        return Checked(Because(AlreadyComplete), None);
      }
      if (chunk == null && chunkLength != 0) || !hasView {
        fed := Reject(InvalidArgument);
        return;
      }
      if chunkLength > MAXIMUM_FRAME_BYTES - buffered {
        fed := Reject(Because(BufferOverflow));
        return;
      }
      ghost var received := buffer[..buffered] + (if chunk == null then [] else chunk[..chunkLength]);
      if chunkLength != 0 {
        Copy(buffer, buffered, chunk[..chunkLength]);
        buffered := buffered + chunkLength;
      }
      assert buffer[..buffered] == received;
      if buffered < HEADER_BYTES {
        return Checked(MoreNeeded, None);
      }
      var header := InspectHeaderOf(buffer, buffered, true);
      if header.status != Success {
        fed := Reject(header.status);
        return;
      }
      var expected := HEADER_BYTES + header.value.value.payloadLength;
      if buffered < expected {
        return Checked(MoreNeeded, None);
      }
      if buffered > expected {
        fed := Reject(Because(LengthMismatch));
        return;
      }
      var decoded := DecodeOf(buffer, buffered, true);
      if decoded.status != Success {
        fed := Reject(decoded.status);
        return;
      }
      complete := true;
      return decoded;
    }

    method Cancel()
      requires Valid()
      modifies this, buffer
      ensures Valid()
      ensures Value() == CppAfterCancel(old(Value()))
    {
      if !complete && terminal.None? {
        terminal := Some(Because(Cancelled));
      }
      ClearBuffer();
    }

    method Reject(status: Status) returns (fed: Checked<Frame>)
      requires Valid()
      modifies this, buffer
      ensures Valid() && Value() == CppState([], old(complete), Some(status)) && fed == Checked(status, None)
    {
      terminal := Some(status);
      ClearBuffer();
      return Checked(status, None);
    }

    method ClearBuffer()
      requires Valid()
      modifies this`buffered, buffer
      ensures Valid() && buffered == 0
      ensures forall k :: 0 <= k < buffer.Length ==> buffer[k] == 0
    {
      forall k | 0 <= k < buffer.Length {
        buffer[k] := 0;
      }
      buffered := 0;
    }
  }

  // ---- The two incremental decoders side by side -----------------------------------------------

  /** The same refusal, up to the one pair of reasons the header checks may swap, and up to what each
      language calls an argument that is not bytes. */
  predicate SameReason(cpp: Status, python: Reason) {
    || cpp == Because(python)
    || (cpp == Because(PayloadTooLarge) && python == ReservedInvalid)
    || (cpp == InvalidArgument && python == BytesRequired)
  }

  predicate SameAnswer(cpp: Checked<Frame>, python: Outcome) {
    match python
    case NeedMore => cpp == Checked(MoreNeeded, None)
    case Yields(frame) => cpp == Checked(Success, Some(frame))
    case Refused(reason) => cpp.value.None? && SameReason(cpp.status, reason)
  }

  /** Corresponding states: equal bytes while receiving, the same latch afterwards. */
  predicate Corresponds(cpp: CppState, python: State) {
    && cpp.complete == python.complete
    && cpp.terminal.Some? == python.terminal.Some?
    && (cpp.terminal.Some? ==> SameReason(cpp.terminal.value, python.terminal.value))
    && (!cpp.complete && cpp.terminal.None? ==> cpp.buffered == python.buffer)
  }

  function CppAfter(s: CppState, call: Call): CppState {
    match call
    case FeedCall(chunk) => CppFeed(s, chunk).0
    case CancelCall => CppAfterCancel(s)
  }

  function CppRunCalls(s: CppState, calls: seq<Call>): CppState {
    if calls == [] then s else CppAfter(CppRunCalls(s, calls[..|calls| - 1]), calls[|calls| - 1])
  }

  const CPP_FRESH := CppState([], false, None)

  lemma StepsCorrespond(cpp: CppState, python: State, call: Call)
    requires Corresponds(cpp, python)
    ensures Corresponds(CppAfter(cpp, call), After(python, call))
    ensures call.FeedCall? ==> SameAnswer(CppFeed(cpp, call.chunk).1, FrameDecoder.Feed(python, call.chunk).1)
  {
    hide Decode, DecodeBytes, InspectHeader, DecodeHeader, LastTwoFieldsWrong;
    if call.FeedCall? && call.chunk.Some? {
      var received := python.buffer + call.chunk.value;
      HeaderChecksAgree(received);
      DecodersAgree(received);
    }
  }

  /** Whatever is done to both, feeds of any kind and cancellations in any order, the firmware and the
      reference answer every feed alike. */
  lemma {:induction false} DecodersStayInStep(calls: seq<Call>)
    ensures Corresponds(CppRunCalls(CPP_FRESH, calls), RunCalls(FRESH, calls))
    ensures forall chunk: Option<seq<Byte>> ::
      SameAnswer(CppFeed(CppRunCalls(CPP_FRESH, calls), chunk).1, FrameDecoder.Feed(RunCalls(FRESH, calls), chunk).1)
  {
    hide CppFeed, FrameDecoder.Feed, CppAfter, After;
    if calls != [] {
      var n := |calls| - 1;
      DecodersStayInStep(calls[..n]);
      StepsCorrespond(CppRunCalls(CPP_FRESH, calls[..n]), RunCalls(FRESH, calls[..n]), calls[n]);
    }
    forall chunk: Option<seq<Byte>>
      ensures SameAnswer(CppFeed(CppRunCalls(CPP_FRESH, calls), chunk).1, FrameDecoder.Feed(RunCalls(FRESH, calls), chunk).1)
    {
      StepsCorrespond(CppRunCalls(CPP_FRESH, calls), RunCalls(FRESH, calls), FeedCall(chunk));
    }
  }

  /** So the firmware's decoder latches as the reference does, also after a cancellation: once it has
      refused, yielded or been cancelled, every later feed gets one and the same refusal. */
  lemma {:induction false} CppLatchedForever(s: CppState, calls: seq<Call>)
    requires s.complete || s.terminal.Some?
    ensures CppRunCalls(s, calls).complete == s.complete && CppRunCalls(s, calls).terminal == s.terminal
    ensures forall chunk: Option<seq<Byte>> ::
      CppFeed(CppRunCalls(s, calls), chunk).1
      == Checked(if s.terminal.Some? then s.terminal.value else Because(AlreadyComplete), None)
  {
    hide InspectHeader, DecodeBytes;
    if calls != [] {
      CppLatchedForever(s, calls[..|calls| - 1]);
    }
  }
}
