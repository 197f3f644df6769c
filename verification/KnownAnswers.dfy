/** Literal values: the CRC-32 check value and the published pairing frame. */
module KnownAnswers {
  import opened Crc32
  import opened PairingFrame

  // ---- The register on literal bytes -----------------------------------------------------------

  lemma EightTurns(crc: bv32, b: Byte)
    ensures ByteStep(crc, b) == BitStep(BitStep(BitStep(BitStep(BitStep(BitStep(BitStep(BitStep(Xor(crc, Widen(b))))))))))
  {
    hide BitStep, Xor, Widen;
    var x := Xor(crc, Widen(b));
    TwoTurns(x, 0);
    TwoTurns(x, 2);
    TwoTurns(x, 4);
    TwoTurns(x, 6);
  }

  lemma TwoTurns(x: bv32, n: nat)
    ensures BitSteps(x, n + 2) == BitStep(BitStep(BitSteps(x, n))) && BitSteps(x, 0) == x
  {
    hide BitStep;
    assert BitSteps(x, n + 1) == BitStep(BitSteps(x, n));
  }

  /** The register that started from `start` moves from `crc` to `next` over the byte at `k`. */
  lemma Moves(start: bv32, input: seq<Byte>, k: nat, crc: bv32, next: bv32)
    requires k < |input| && Update(start, input[..k]) == crc && ByteStep(crc, input[k]) == next
    ensures Update(start, input[..k + 1]) == next
  {
    hide ByteStep;
    assert input[..k + 1][..k] == input[..k];
  }

  lemma NothingRead(start: bv32, input: seq<Byte>)
    ensures Update(start, input[..0]) == start
  {}

  // ---- The check value -------------------------------------------------------------------------

  /** The characters 1 to 9. */
  const DIGITS: seq<Byte> := [0x31, 0x32, 0x33, 0x34, 0x35, 0x36, 0x37, 0x38, 0x39]

  lemma DigitsRegister()
    ensures Update(ALL_ONES, DIGITS) == 0x340BC6D9
  {
    hide Update, ByteStep, BitSteps;
    NothingRead(0xFFFFFFFF, DIGITS);
    EightTurns(0xFFFFFFFF, 0x31);
    Moves(0xFFFFFFFF, DIGITS, 0, 0xFFFFFFFF, 0x7C231048);
    EightTurns(0x7C231048, 0x32);
    Moves(0xFFFFFFFF, DIGITS, 1, 0x7C231048, 0xB0ACBB32);
    EightTurns(0xB0ACBB32, 0x33);
    Moves(0xFFFFFFFF, DIGITS, 2, 0xB0ACBB32, 0x77B79C2D);
    EightTurns(0x77B79C2D, 0x34);
    Moves(0xFFFFFFFF, DIGITS, 3, 0x77B79C2D, 0x641C1F5C);
    EightTurns(0x641C1F5C, 0x35);
    Moves(0xFFFFFFFF, DIGITS, 4, 0x641C1F5C, 0x340AC5E3);
    EightTurns(0x340AC5E3, 0x36);
    Moves(0xFFFFFFFF, DIGITS, 5, 0x340AC5E3, 0xF68D2C9E);
    EightTurns(0xF68D2C9E, 0x37);
    Moves(0xFFFFFFFF, DIGITS, 6, 0xF68D2C9E, 0xAFFC9660);
    EightTurns(0xAFFC9660, 0x38);
    Moves(0xFFFFFFFF, DIGITS, 7, 0xAFFC9660, 0x651F2550);
    EightTurns(0x651F2550, 0x39);
    Moves(0xFFFFFFFF, DIGITS, 8, 0x651F2550, 0x340BC6D9);
    assert DIGITS[..9] == DIGITS;
  }

  /** The check value of this CRC: 0xCBF43926 for the text 123456789. */
  lemma CheckValue()
    ensures Checksum(DIGITS) == 0xCBF43926
  {
    hide Update;
    DigitsRegister();
  }

  // ---- The published frame ---------------------------------------------------------------------

  /** Magic, version 1, type hello and flags; sequence 1, payload length 42 and the reserved field. */
  const START: seq<Byte> := [0x54, 0x53, 0x4C, 0x50, 0x01, 0x01, 0x00, 0x00]
  const FIELDS: seq<Byte> := [0x00, 0x00, 0x00, 0x01, 0x00, 0x2A, 0x00, 0x00]

  /** The text {"contract_version":1,"pairing_version":1} in pieces. */
  const TEXT_1: seq<Byte> := [0x7B, 0x22, 0x63, 0x6F, 0x6E, 0x74, 0x72, 0x61]
  const TEXT_2: seq<Byte> := [0x63, 0x74, 0x5F, 0x76, 0x65, 0x72, 0x73, 0x69]
  const TEXT_3: seq<Byte> := [0x6F, 0x6E, 0x22, 0x3A, 0x31, 0x2C, 0x22, 0x70]
  const TEXT_4: seq<Byte> := [0x61, 0x69, 0x72, 0x69, 0x6E, 0x67, 0x5F, 0x76]
  const TEXT_5: seq<Byte> := [0x65, 0x72, 0x73, 0x69, 0x6F, 0x6E, 0x22, 0x3A]
  const TEXT_6: seq<Byte> := [0x31, 0x7D]

  const PAYLOAD := TEXT_1 + TEXT_2 + TEXT_3 + TEXT_4 + TEXT_5 + TEXT_6

  const CHECKSUM: seq<Byte> := [0x35, 0xA1, 0xE0, 0xA1]

  lemma StartRegister()
    ensures Update(0xFFFFFFFF, START) == 0xA07B260E
  {
    hide Update, ByteStep, BitSteps;
    NothingRead(0xFFFFFFFF, START);
    EightTurns(0xFFFFFFFF, 0x54);
    Moves(0xFFFFFFFF, START, 0, 0xFFFFFFFF, 0x41FB859F);
    EightTurns(0x41FB859F, 0x53);
    Moves(0xFFFFFFFF, START, 1, 0x41FB859F, 0x9293751E);
    EightTurns(0x9293751E, 0x4C);
    Moves(0xFFFFFFFF, START, 2, 0x9293751E, 0x85F7A3AD);
    EightTurns(0x85F7A3AD, 0x50);
    Moves(0xFFFFFFFF, START, 3, 0x85F7A3AD, 0xC3897902);
    EightTurns(0xC3897902, 0x01);
    Moves(0xFFFFFFFF, START, 4, 0xC3897902, 0x99CAD8C3);
    EightTurns(0x99CAD8C3, 0x01);
    Moves(0xFFFFFFFF, START, 5, 0x99CAD8C3, 0x75F36944);
    EightTurns(0x75F36944, 0x00);
    Moves(0xFFFFFFFF, START, 6, 0x75F36944, 0x71C476E0);
    EightTurns(0x71C476E0, 0x00);
    Moves(0xFFFFFFFF, START, 7, 0x71C476E0, 0xA07B260E);
    assert START[..8] == START;
  }

  lemma FieldsRegister()
    ensures Update(0xA07B260E, FIELDS) == 0xA09F9686
  {
    hide Update, ByteStep, BitSteps;
    NothingRead(0xA07B260E, FIELDS);
    EightTurns(0xA07B260E, 0x00);
    Moves(0xA07B260E, FIELDS, 0, 0xA07B260E, 0xE7185621);
    EightTurns(0xE7185621, 0x00);
    Moves(0xA07B260E, FIELDS, 1, 0xE7185621, 0x4C8E0808);
    EightTurns(0x4C8E0808, 0x00);
    Moves(0xA07B260E, FIELDS, 2, 0x4C8E0808, 0x0E97063A);
    EightTurns(0x0E97063A, 0x01);
    Moves(0xA07B260E, FIELDS, 3, 0x0E97063A, 0xB1057E22);
    EightTurns(0xB1057E22, 0x00);
    Moves(0xA07B260E, FIELDS, 4, 0xB1057E22, 0xD5D1449A);
    EightTurns(0xD5D1449A, 0x2A);
    Moves(0xA07B260E, FIELDS, 5, 0xD5D1449A, 0xCBB462C8);
    EightTurns(0xCBB462C8, 0x00);
    Moves(0xA07B260E, FIELDS, 6, 0xCBB462C8, 0x9574FEE0);
    EightTurns(0x9574FEE0, 0x00);
    Moves(0xA07B260E, FIELDS, 7, 0x9574FEE0, 0xA09F9686);
    assert FIELDS[..8] == FIELDS;
  }

  lemma Text1Register()
    ensures Update(0xA09F9686, TEXT_1) == 0x16FCC646
  {
    hide Update, ByteStep, BitSteps;
    NothingRead(0xA09F9686, TEXT_1);
    EightTurns(0xA09F9686, 0x7B);
    Moves(0xA09F9686, TEXT_1, 0, 0xA09F9686, 0xC3AC1137);
    EightTurns(0xC3AC1137, 0x22);
    Moves(0xA09F9686, TEXT_1, 1, 0xC3AC1137, 0x6D1E48FA);
    EightTurns(0x6D1E48FA, 0x63);
    Moves(0xA09F9686, TEXT_1, 2, 0x6D1E48FA, 0x89BE35A8);
    EightTurns(0x89BE35A8, 0x6F);
    Moves(0xA09F9686, TEXT_1, 3, 0x89BE35A8, 0x0589E926);
    EightTurns(0x0589E926, 0x6E);
    Moves(0xA09F9686, TEXT_1, 4, 0x0589E926, 0x7802404B);
    EightTurns(0x7802404B, 0x74);
    Moves(0xA09F9686, TEXT_1, 5, 0x7802404B, 0xB61E2F7D);
    EightTurns(0xB61E2F7D, 0x72);
    Moves(0xA09F9686, TEXT_1, 6, 0xB61E2F7D, 0x900903BE);
    EightTurns(0x900903BE, 0x61);
    Moves(0xA09F9686, TEXT_1, 7, 0x900903BE, 0x16FCC646);
    assert TEXT_1[..8] == TEXT_1;
  }

  lemma Text2Register()
    ensures Update(0x16FCC646, TEXT_2) == 0x6B376E70
  {
    hide Update, ByteStep, BitSteps;
    NothingRead(0x16FCC646, TEXT_2);
    EightTurns(0x16FCC646, 0x63);
    Moves(0x16FCC646, TEXT_2, 0, 0x16FCC646, 0x4B122881);
    EightTurns(0x4B122881, 0x74);
    Moves(0x16FCC646, TEXT_2, 1, 0x4B122881, 0xCD9C14BB);
    EightTurns(0xCD9C14BB, 0x5F);
    Moves(0x16FCC646, TEXT_2, 2, 0xCD9C14BB, 0xA7AABA75);
    EightTurns(0xA7AABA75, 0x76);
    Moves(0x16FCC646, TEXT_2, 3, 0xA7AABA75, 0x99AEFB00);
    EightTurns(0x99AEFB00, 0x65);
    Moves(0x16FCC646, TEXT_2, 4, 0x99AEFB00, 0x3D413B2C);
    EightTurns(0x3D413B2C, 0x72);
    Moves(0x16FCC646, TEXT_2, 5, 0x3D413B2C, 0x8CEE3DC8);
    EightTurns(0x8CEE3DC8, 0x73);
    Moves(0x16FCC646, TEXT_2, 6, 0x8CEE3DC8, 0x5C3F8439);
    EightTurns(0x5C3F8439, 0x69);
    Moves(0x16FCC646, TEXT_2, 7, 0x5C3F8439, 0x6B376E70);
    assert TEXT_2[..8] == TEXT_2;
  }

  lemma Text3Register()
    ensures Update(0x6B376E70, TEXT_3) == 0x7D844188
  {
    hide Update, ByteStep, BitSteps;
    NothingRead(0x6B376E70, TEXT_3);
    EightTurns(0x6B376E70, 0x6F);
    Moves(0x6B376E70, TEXT_3, 0, 0x6B376E70, 0x8D633A9B);
    EightTurns(0x8D633A9B, 0x6E);
    Moves(0x6B376E70, TEXT_3, 1, 0x8D633A9B, 0xCD5A65A9);
    EightTurns(0xCD5A65A9, 0x22);
    Moves(0x6B376E70, TEXT_3, 2, 0xCD5A65A9, 0x7AA700CD);
    EightTurns(0x7AA700CD, 0x3A);
    Moves(0x6B376E70, TEXT_3, 3, 0x7AA700CD, 0x23A3C0BF);
    EightTurns(0x23A3C0BF, 0x31);
    Moves(0x6B376E70, TEXT_3, 4, 0x23A3C0BF, 0x0A230DE7);
    EightTurns(0x0A230DE7, 0x2C);
    Moves(0x6B376E70, TEXT_3, 5, 0x0A230DE7, 0x0CBC3835);
    EightTurns(0x0CBC3835, 0x22);
    Moves(0x6B376E70, TEXT_3, 6, 0x0CBC3835, 0x83DF39FF);
    EightTurns(0x83DF39FF, 0x70);
    Moves(0x6B376E70, TEXT_3, 7, 0x83DF39FF, 0x7D844188);
    assert TEXT_3[..8] == TEXT_3;
  }

  lemma Text4Register()
    ensures Update(0x7D844188, TEXT_4) == 0x24424AF0
  {
    hide Update, ByteStep, BitSteps;
    NothingRead(0x7D844188, TEXT_4);
    EightTurns(0x7D844188, 0x61);
    Moves(0x7D844188, TEXT_4, 0, 0x7D844188, 0xD9ABDE9D);
    EightTurns(0xD9ABDE9D, 0x69);
    Moves(0x7D844188, TEXT_4, 1, 0xD9ABDE9D, 0xBA099DDB);
    EightTurns(0xBA099DDB, 0x72);
    Moves(0x7D844188, TEXT_4, 2, 0xBA099DDB, 0xAFB012D1);
    EightTurns(0xAFB012D1, 0x69);
    Moves(0x7D844188, TEXT_4, 3, 0xAFB012D1, 0xC5158BAC);
    EightTurns(0xC5158BAC, 0x6E);
    Moves(0x7D844188, TEXT_4, 4, 0xC5158BAC, 0x75AFB617);
    EightTurns(0x75AFB617, 0x67);
    Moves(0x7D844188, TEXT_4, 5, 0x75AFB617, 0x5070DE8A);
    EightTurns(0x5070DE8A, 0x5F);
    Moves(0x7D844188, TEXT_4, 6, 0x5070DE8A, 0xF6E95685);
    EightTurns(0xF6E95685, 0x76);
    Moves(0x7D844188, TEXT_4, 7, 0xF6E95685, 0x24424AF0);
    assert TEXT_4[..8] == TEXT_4;
  }

  lemma Text5Register()
    ensures Update(0x24424AF0, TEXT_5) == 0xD31B87BD
  {
    hide Update, ByteStep, BitSteps;
    NothingRead(0x24424AF0, TEXT_5);
    EightTurns(0x24424AF0, 0x65);
    Moves(0x24424AF0, TEXT_5, 0, 0x24424AF0, 0x80412581);
    EightTurns(0x80412581, 0x72);
    Moves(0x24424AF0, TEXT_5, 1, 0x80412581, 0x2434E283);
    EightTurns(0x2434E283, 0x73);
    Moves(0x24424AF0, TEXT_5, 2, 0x2434E283, 0xBD99C6FE);
    EightTurns(0xBD99C6FE, 0x69);
    Moves(0x24424AF0, TEXT_5, 3, 0xBD99C6FE, 0x6ED69F21);
    EightTurns(0x6ED69F21, 0x6F);
    Moves(0x24424AF0, TEXT_5, 4, 0x6ED69F21, 0x910ABA08);
    EightTurns(0x910ABA08, 0x6E);
    Moves(0x24424AF0, TEXT_5, 5, 0x910ABA08, 0xA440CED7);
    EightTurns(0xA440CED7, 0x22);
    Moves(0x24424AF0, TEXT_5, 6, 0xA440CED7, 0xCD73465D);
    EightTurns(0xCD73465D, 0x3A);
    Moves(0x24424AF0, TEXT_5, 7, 0xCD73465D, 0xD31B87BD);
    assert TEXT_5[..8] == TEXT_5;
  }

  lemma Text6Register()
    ensures Update(0xD31B87BD, TEXT_6) == 0xCA5E1F5E
  {
    hide Update, ByteStep, BitSteps;
    NothingRead(0xD31B87BD, TEXT_6);
    EightTurns(0xD31B87BD, 0x31);
    Moves(0xD31B87BD, TEXT_6, 0, 0xD31B87BD, 0xE4DDD48C);
    EightTurns(0xE4DDD48C, 0x7D);
    Moves(0xD31B87BD, TEXT_6, 1, 0xE4DDD48C, 0xCA5E1F5E);
    assert TEXT_6[..2] == TEXT_6;
  }

  lemma CoveredRegister()
    ensures Update(ALL_ONES, START + FIELDS + PAYLOAD) == 0xCA5E1F5E
  {
    hide Update;
    StartRegister();
    FieldsRegister();
    Text1Register();
    Text2Register();
    Text3Register();
    Text4Register();
    Text5Register();
    Text6Register();
    UpdateAppend(ALL_ONES, START, FIELDS);
    var before := Update(ALL_ONES, START + FIELDS);
    UpdateAppend(ALL_ONES, START + FIELDS, PAYLOAD);
    UpdateAppend(before, TEXT_1, TEXT_2);
    UpdateAppend(before, TEXT_1 + TEXT_2, TEXT_3);
    UpdateAppend(before, TEXT_1 + TEXT_2 + TEXT_3, TEXT_4);
    UpdateAppend(before, TEXT_1 + TEXT_2 + TEXT_3 + TEXT_4, TEXT_5);
    UpdateAppend(before, TEXT_1 + TEXT_2 + TEXT_3 + TEXT_4 + TEXT_5, TEXT_6);
  }

  /** The published hello frame with sequence 1 is exactly these bytes, and they decode to it. */
  lemma PublishedFrame()
    ensures var frame := Frame(Hello, 1, PAYLOAD);
            && Valid(frame) && Encoded(frame) == START + FIELDS + CHECKSUM + PAYLOAD
            && Decode(START + FIELDS + CHECKSUM + PAYLOAD) == Ok(frame)
  {
    hide Update, HeaderWithoutCrc, Decode, PutWord, Put16, Put32;
    var frame := Frame(Hello, 1, PAYLOAD);
    CoveredRegister();
    PublishedHeader();
    PublishedChecksum();
    EncodedLayout(frame);
    DecodeEncode(frame);
    var e := Encoded(frame);
    assert e == e[..16] + e[16..20] + e[20..];
  }

  lemma PublishedHeader()
    ensures var frame := Frame(Hello, 1, PAYLOAD); Valid(frame) && HeaderWithoutCrc(frame) == START + FIELDS
  {
    assert Put16(42) == [0x00, 0x2A] && Put16(0) == [0x00, 0x00] && Put16(1) == [0x00, 0x01];
  }

  lemma PublishedChecksum()
    ensures PutWord(0x35A1E0A1) == CHECKSUM
  {}

  // ---- Valid frames ----------------------------------------------------------------------------

  /** Which frames there are. */
  lemma ValidExactlyWhen(frame: Frame)
    ensures Valid(frame) <==>
              && 1 <= frame.sequence <= 4_294_967_295 && |frame.payload| <= 1_024
              && (frame.frameType == Hello <==> frame.payload != [])
  {}

  /** A rejected string tells what was wrong with it. */
  lemma RejectionsTell(y: seq<Byte>)
    ensures Decode(y).Rejected? ==>
              match Decode(y).reason
              case HeaderIncomplete => |y| < 20
              case MagicInvalid => y[..4] != [0x54, 0x53, 0x4C, 0x50]
              case VersionUnsupported => y[4] != 1
              case TypeUnsupported => y[5] != 1 && y[5] != 2
              case FlagsInvalid => y[6] != 0 || y[7] != 0
              case SequenceInvalid => y[8] == 0 && y[9] == 0 && y[10] == 0 && y[11] == 0
              case ReservedInvalid => y[14] != 0 || y[15] != 0
              case PayloadTooLarge => Get16(y[12], y[13]) > 1_024
              case LengthMismatch => |y| != 20 + Get16(y[12], y[13])
              case HelloEmpty => y[5] == 1 && |y| == 20
              case CancelPayloadInvalid => y[5] == 2 && |y| > 20
              case ChecksumInvalid => y[16..20] != PutWord(Checksum(y[..16] + y[20..]))
              case _ => false
  {
    hide Get32, Get16, ZlibCrc32, Checksum, GetWord, PutWord;
    if |y| >= 20 {
      ChainedChecksum(y[..16], y[20..]);
      PutWordGetWord(y[16], y[17], y[18], y[19]);
      GetWordPutWord(Checksum(y[..16] + y[20..]));
      ZeroNumber(y[6], y[7], 0, 0);
      ZeroNumber(y[14], y[15], 0, 0);
      ZeroNumber(y[8], y[9], y[10], y[11]);
    }
  }

  lemma ZeroNumber(a: Byte, b: Byte, c: Byte, d: Byte)
    ensures Get16(a, b) == 0 <==> a == 0 && b == 0
    ensures Get32(a, b, c, d) == 0 <==> a == 0 && b == 0 && c == 0 && d == 0
  {
    hide Number;
    ZeroByte(a);
    ZeroByte(b);
    ZeroByte(c);
    ZeroByte(d);
  }

  lemma ZeroByte(b: Byte)
    ensures Number(b) == 0 <==> b == 0
  {
    ByteOfNumber(b);
  }
}
