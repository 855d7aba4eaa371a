/** Where each field of a request or reply stands in its datagram, byte by byte
    (software/dr47/protocol.py). */
module WaveWire {
  import opened Bytes
  import opened WaveProtocol

  /** The 24-byte header and the zero padding to the next multiple of eight. */
  predicate HeaderOnWire(raw: seq<byte>, magic: nat, version: nat, status: nat, opcode: int, seq_: int, size: nat) {
    && 24 + size <= |raw| < 24 + size + 8 && |raw| % 8 == 0
    && UintAt(raw, 0, 8) == magic
    && UintAt(raw, 8, 2) == version
    && UintAt(raw, 10, 2) == status
    && UintAt(raw, 12, 4) == opcode
    && UintAt(raw, 16, 4) == seq_
    && UintAt(raw, 20, 4) == size
    && forall i :: 24 + size <= i < |raw| ==> raw[i] == 0
  }

  // ----- Requests -----

  /** The datagram of a request. */
  predicate RequestOnWire(raw: seq<byte>, r: WaveRequest, seq_: int, crc: Crc) {
    match r
    case Begin(session, totalBytes, channelMask, totalBeats, loopCount, layout) =>
      && HeaderOnWire(raw, 0x5741564543545230, 1, 0, 1, seq_, 28) && |raw| == 56
      && UintAt(raw, 24, 4) == session
      && UintAt(raw, 28, 8) == totalBytes
      && UintAt(raw, 36, 1) == channelMask
      && UintAt(raw, 37, 1) == layout
      && UintAt(raw, 38, 2) == 0
      && UintAt(raw, 40, 4) == totalBeats
      && UintAt(raw, 44, 4) == loopCount
      && UintAt(raw, 48, 4) == 64
    case Data(session, packetSeq, byteOffset, payload) =>
      && HeaderOnWire(raw, 0x5741564543545230, 1, 0, 2, seq_, 24 + |payload|) && |raw| == 48 + |payload|
      && UintAt(raw, 24, 4) == session
      && UintAt(raw, 28, 4) == packetSeq
      && UintAt(raw, 32, 8) == byteOffset
      && UintAt(raw, 40, 4) == |payload|
      && UintAt(raw, 44, 4) == crc(payload) % 0x1_0000_0000
      && raw[48..] == payload
    case Command(opcode, session) =>
      && HeaderOnWire(raw, 0x5741564543545230, 1, 0, opcode, seq_, 4) && |raw| == 32
      && UintAt(raw, 24, 4) == session
  }

  /** The arguments that the packers accept. */
  predicate Packable(r: WaveRequest) {
    match r
    case Begin(session, totalBytes, channelMask, totalBeats, loopCount, layout) =>
      && 0 < session <= 0xFFFF_FFFF && 0 < channelMask <= 0xFF && 0 < loopCount <= 0xFFFF_FFFF
      && 0 < totalBeats <= 0x1FF_F000 && totalBytes == 256 * totalBeats && layout == 1
    case Data(session, packetSeq, byteOffset, payload) =>
      && 0 < session <= 0xFFFF_FFFF && 0 <= packetSeq <= 0xFFFF_FFFF
      && 0 <= byteOffset <= 0x1_0000_0000_0000_0000 - |payload| && byteOffset % 32 == 0
      && 32 <= |payload| <= 1408 && |payload| % 32 == 0
    case Command(opcode, session) =>
      3 <= opcode <= 8 && 0 <= session <= 0xFFFF_FFFF
  }

  lemma HeaderFromReads(raw: seq<byte>, magic: nat, opcode: nat, status: nat, version: nat, seq_: nat,
                        payload: seq<byte>)
    requires EnvelopeReads(raw, magic, opcode, status, version, seq_, payload)
    ensures HeaderOnWire(raw, magic, version, status, opcode, seq_, |payload|)
  {
    hide UnpackRecord, UintAt;
    HeaderFields(raw);
  }

  /** The three header words, field by field. */
  lemma HeaderFields(raw: seq<byte>)
    requires |raw| >= HEADER_BYTES == Size(ENVELOPE)
    ensures var header := UnpackRecord(ENVELOPE, raw[..HEADER_BYTES]);
            && header[0] == UintAt(raw, 0, 8) && header[1] == UintAt(raw, 8, 8) && header[2] == UintAt(raw, 16, 8)
            && header[1] % WORD16_RANGE == UintAt(raw, 8, 2)
            && header[1] / WORD16_RANGE % WORD16_RANGE == UintAt(raw, 10, 2)
            && header[1] / WORD_RANGE == UintAt(raw, 12, 4)
            && header[2] % WORD_RANGE == UintAt(raw, 16, 4)
            && header[2] / WORD_RANGE == UintAt(raw, 20, 4)
  {
    hide UnpackRecord, Size, UintAt, Offset;
    Offsets(ENVELOPE);
    assert raw[0..0 + Size(ENVELOPE)] == raw[..HEADER_BYTES];
    UnpackedUint(ENVELOPE, raw, 0, 0);
    UnpackedUint(ENVELOPE, raw, 0, 1);
    UnpackedUint(ENVELOPE, raw, 0, 2);
    WordHalves(raw, 8);
    WordHalves(raw, 16);
  }

  /** A 64-bit word split into 32 and 16 bits. */
  lemma WordHalves(raw: seq<byte>, at: nat)
    requires at + 8 <= |raw|
    ensures var word := UintAt(raw, at, 8);
            && word % WORD_RANGE == UintAt(raw, at, 4) && word / WORD_RANGE == UintAt(raw, at + 4, 4)
            && word % WORD16_RANGE == UintAt(raw, at, 2)
            && word / WORD16_RANGE % WORD16_RANGE == UintAt(raw, at + 2, 2)
  {
    var low, high := UintAt(raw, at, 2), UintAt(raw, at + 2, 2);
    assert UintAt(raw, at, 4) == low + WORD16_RANGE * high;
    SplitWord(low, high, UintAt(raw, at + 4, 4));
  }

  lemma SplitWord(low: nat, high: nat, top: nat)
    requires low < WORD16_RANGE && high < WORD16_RANGE
    ensures var half := low + WORD16_RANGE * high;
            var word := half + WORD_RANGE * top;
            && word % WORD_RANGE == half && word / WORD_RANGE == top
            && word % WORD16_RANGE == low && word / WORD16_RANGE % WORD16_RANGE == high
  {
  }

  /** The running offsets of the first fields of a format. */
  lemma Offsets(f: Format)
    ensures forall i :: 0 <= i < |f| ==> Offset(f, i + 1) == Offset(f, i) + f[i] <= Size(f)
    ensures Offset(f, 0) == 0
  {
    forall i | 0 <= i < |f|
      ensures Offset(f, i + 1) == Offset(f, i) + f[i] <= Size(f)
    {
      OffsetStep(f, i);
    }
  }

  lemma RequestOffsets()
    ensures Offset(BEGIN_FORMAT, 0) == 0 && Offset(BEGIN_FORMAT, 1) == 4 && Offset(BEGIN_FORMAT, 2) == 12
    ensures Offset(BEGIN_FORMAT, 3) == 13 && Offset(BEGIN_FORMAT, 4) == 14 && Offset(BEGIN_FORMAT, 5) == 16
    ensures Offset(BEGIN_FORMAT, 6) == 20 && Offset(BEGIN_FORMAT, 7) == 24
    ensures Offset(DATA_FORMAT, 0) == 0 && Offset(DATA_FORMAT, 1) == 4 && Offset(DATA_FORMAT, 2) == 8
    ensures Offset(DATA_FORMAT, 3) == 16 && Offset(DATA_FORMAT, 4) == 20
    ensures Offset(COMMAND_FORMAT, 0) == 0
  {
    hide Size, Offset;
    Offsets(BEGIN_FORMAT);
    Offsets(DATA_FORMAT);
    Offsets(COMMAND_FORMAT);
  }

  /** Each field of a record that starts at byte 24 of a datagram. */
  lemma RecordAt(raw: seq<byte>, format: Format, values: seq<nat>, rest: seq<byte>, i: nat)
    requires Fits(format, values) && i < |format| && format[i] in {1, 2, 4, 8}
    requires var body := PackRecord(format, values) + rest; |raw| >= 24 + |body| && raw[24..24 + |body|] == body
    ensures 24 + Offset(format, i) + format[i] <= |raw|
    ensures UintAt(raw, 24 + Offset(format, i), format[i]) == values[i]
  {
    hide PackRecord, UnpackRecord, UintAt, Offset, Size;
    var body := PackRecord(format, values) + rest;
    UnpackPrefix(format, values, rest);
    SliceOfSlice(raw, 24, 24 + |body|, 0, Size(format));
    assert body[0..Size(format)] == body[..Size(format)];
    UnpackedUint(format, raw, 24, i);
  }

  lemma RecordOnWire(raw: seq<byte>, r: WaveRequest, crc: Crc, i: nat)
    requires InRange(r) && i < |RequestFormat(r)|
    requires var body := RequestBody(r, crc); |raw| >= 24 + |body| && raw[24..24 + |body|] == body
    ensures var format := RequestFormat(r);
            && format[i] in {1, 2, 4, 8} && 24 + Offset(format, i) + format[i] <= |raw|
            && UintAt(raw, 24 + Offset(format, i), format[i]) == RequestValues(r, crc)[i]
  {
    hide PackRecord, UintAt, Offset, Size, InRange, RequestValues;
    RequestFits(r, crc);
    RecordAt(raw, RequestFormat(r), RequestValues(r, crc), if r.Data? then r.payload else [], i);
  }

  /** Every packed request has each field at its place, and is packed exactly
      when its arguments are in range. */
  lemma RequestLayout(r: WaveRequest, seq_: int, crc: Crc)
    ensures PackRequest(r, seq_, crc).Ok? <==> Packable(r) && 0 <= seq_ <= 0xFFFF_FFFF
    ensures PackRequest(r, seq_, crc).Ok? ==> RequestOnWire(PackRequest(r, seq_, crc).value, r, seq_, crc)
  {
    hide PackRecord, UnpackRecord, Size, Envelope, UintAt, Offset;
    PackableIsInRange(r);
    if PackRequest(r, seq_, crc).Ok? {
      var raw, body := PackRequest(r, seq_, crc).value, RequestBody(r, crc);
      RequestFits(r, crc);
      RequestFormatSizes();
      EnvelopeFields(WAVE_CTRL_MAGIC, r.Opcode(), 0, WAVE_PROTOCOL_VERSION, seq_, body);
      HeaderFromReads(raw, WAVE_CTRL_MAGIC, r.Opcode(), 0, WAVE_PROTOCOL_VERSION, seq_, body);
      BodyLayout(raw, r, seq_, crc);
    }
  }

  lemma PackableIsInRange(r: WaveRequest)
    ensures Packable(r) <==> InRange(r)
  {
  }

  lemma BodyLayout(raw: seq<byte>, r: WaveRequest, seq_: int, crc: Crc)
    requires InRange(r)
    requires var body := RequestBody(r, crc);
             && HeaderOnWire(raw, WAVE_CTRL_MAGIC, 1, 0, r.Opcode(), seq_, |body|)
             && raw[24..24 + |body|] == body
             && |body| == Size(RequestFormat(r)) + (if r.Data? then |r.payload| else 0)
    ensures RequestOnWire(raw, r, seq_, crc)
  {
    hide PackRecord, UnpackRecord, Size, UintAt, Offset;
    RequestFormatSizes();
    RequestOffsets();
    forall i | 0 <= i < |RequestFormat(r)|
      ensures var format := RequestFormat(r);
              && 24 + Offset(format, i) + format[i] <= |raw| && format[i] in {1, 2, 4, 8}
              && UintAt(raw, 24 + Offset(format, i), format[i]) == RequestValues(r, crc)[i]
    {
      RecordOnWire(raw, r, crc, i);
    }
    if r.Data? {
      DataTail(raw, r, crc);
    }
  }

  lemma DataTail(raw: seq<byte>, r: WaveRequest, crc: Crc)
    requires InRange(r) && r.Data? && |RequestBody(r, crc)| == 24 + |r.payload| && Size(DATA_FORMAT) == 24
    requires |raw| == 48 + |r.payload| && raw[24..48 + |r.payload|] == RequestBody(r, crc)
    ensures raw[48..] == r.payload
  {
    hide PackRecord, Size;
    assert raw[48..] == raw[24..48 + |r.payload|][24..];
  }

  // ----- Replies -----

  predicate EnvelopeWellFormed(raw: seq<byte>, validateVersion: bool) {
    && 24 <= |raw| && UintAt(raw, 0, 8) == 0x5741564552535030
    && (validateVersion ==> UintAt(raw, 8, 2) == 1)
    && (match UintAt(raw, 12, 4)
        case 2 => UintAt(raw, 20, 4) == 60 && |raw| == 88 && forall i :: 84 <= i < 88 ==> raw[i] == 0
        case 8 => UintAt(raw, 20, 4) == 80 && |raw| == 104
        case opcode =>
          && 1 <= opcode <= 7 && UintAt(raw, 20, 4) == 28 && |raw| == 56
          && forall i :: 52 <= i < 56 ==> raw[i] == 0)
  }

  predicate ReplyWellFormed(raw: seq<byte>, validateVersion: bool) {
    EnvelopeWellFormed(raw, validateVersion) && UintAt(raw, 28, 4) <= 8 && UintAt(raw, 32, 4) == UintAt(raw, 10, 2)
  }

  predicate StateOnWire(code: nat, state: PlayState) {
    match state
    case Idle => code == 0
    case Upload => code == 1
    case Ready => code == 2
    case Prefetch => code == 3
    case WaitTrigger => code == 4
    case Playing => code == 5
    case Draining => code == 6
    case Done => code == 7
    case Error => code == 8
  }

  predicate ExtensionOnWire(raw: seq<byte>, opcode: nat, extension: seq<nat>)
    requires |raw| >= 52
  {
    match opcode
    case 2 =>
      |raw| >= 84 && extension == [UintAt(raw, 52, 4), UintAt(raw, 56, 4), UintAt(raw, 60, 8), UintAt(raw, 68, 8),
                                   UintAt(raw, 76, 4), UintAt(raw, 80, 4)]
    case 8 =>
      && |raw| >= 104 && |extension| == 17
      && (forall i :: 0 <= i < 4 ==> extension[i] == UintAt(raw, 52 + 4 * i, 4))
      && (forall i :: 4 <= i < 12 ==> extension[i] == UintAt(raw, 68 + 2 * (i - 4), 2))
      && (forall i :: 12 <= i < 17 ==> extension[i] == UintAt(raw, 84 + 4 * (i - 12), 4))
    case _ => extension == []
  }

  predicate ReplyOnWire(raw: seq<byte>, r: Response)
    requires |raw| >= 56
  {
    && r.version == UintAt(raw, 8, 2)
    && r.status == UintAt(raw, 10, 2)
    && r.opcode == UintAt(raw, 12, 4)
    && r.seq_ == UintAt(raw, 16, 4)
    && r.session == UintAt(raw, 24, 4)
    && StateOnWire(UintAt(raw, 28, 4), r.state)
    && r.errorCode == UintAt(raw, 36, 4)
    && r.descriptor == UintAt(raw, 40, 4)
    && r.errorOffset == UintAt(raw, 44, 8)
    && ExtensionOnWire(raw, r.opcode, r.extension)
  }

  lemma ReplyOffsets()
    ensures Offset(COMMON_FORMAT, 0) == 0 && Offset(COMMON_FORMAT, 1) == 4 && Offset(COMMON_FORMAT, 2) == 8
    ensures Offset(COMMON_FORMAT, 3) == 12 && Offset(COMMON_FORMAT, 4) == 16 && Offset(COMMON_FORMAT, 5) == 20
    ensures Offset(DATA_EXTENSION, 0) == 0 && Offset(DATA_EXTENSION, 1) == 4 && Offset(DATA_EXTENSION, 2) == 8
    ensures Offset(DATA_EXTENSION, 3) == 16 && Offset(DATA_EXTENSION, 4) == 24 && Offset(DATA_EXTENSION, 5) == 28
  {
    hide Size, Offset;
    Offsets(COMMON_FORMAT);
    Offsets(DATA_EXTENSION);
  }

  lemma OffsetZero(f: Format)
    ensures Offset(f, 0) == 0
  {
  }

  lemma {:induction false} StatusOffset(i: nat)
    requires i < 17
    ensures Offset(STATUS_EXTENSION, i)
            == if i < 4 then 4 * i else if i < 12 then 16 + 2 * (i - 4) else 32 + 4 * (i - 12)
    ensures STATUS_EXTENSION[i] == if 4 <= i < 12 then 2 else 4
  {
    hide Size, Offset;
    if i == 0 {
      OffsetZero(STATUS_EXTENSION);
    } else {
      StatusOffset(i - 1);
      OffsetStep(STATUS_EXTENSION, i - 1);
    }
  }

  /** Each of the 17 STATUS fields, for a format with the widths of STATUS. */
  lemma StatusExtensionOnWire(raw: seq<byte>, format: Format)
    requires |raw| >= 104 && format == STATUS_EXTENSION && Size(format) == 52
    ensures ExtensionOnWire(raw, OP_STATUS, UnpackRecord(format, raw[52..104]))
  {
    hide UnpackRecord, UintAt, Offset, Size;
    var values := UnpackRecord(format, raw[52..104]);
    assert |format| == 17;
    forall i | 0 <= i < 17
      ensures values[i] == if i < 4 then UintAt(raw, 52 + 4 * i, 4)
                           else if i < 12 then UintAt(raw, 68 + 2 * (i - 4), 2)
                           else UintAt(raw, 84 + 4 * (i - 12), 4)
    {
      StatusOffset(i);
      UnpackedUint(format, raw, 52, i);
    }
  }

  lemma CommonOnWire(raw: seq<byte>)
    requires |raw| >= 52 && Size(COMMON_FORMAT) == 28
    ensures UnpackRecord(COMMON_FORMAT, raw[24..52])
            == [UintAt(raw, 24, 4), UintAt(raw, 28, 4), UintAt(raw, 32, 4), UintAt(raw, 36, 4), UintAt(raw, 40, 4),
                UintAt(raw, 44, 8)]
  {
    hide UnpackRecord, UintAt, Offset, Size;
    ReplyOffsets();
    UnpackedUint(COMMON_FORMAT, raw, 24, 0);
    UnpackedUint(COMMON_FORMAT, raw, 24, 1);
    UnpackedUint(COMMON_FORMAT, raw, 24, 2);
    UnpackedUint(COMMON_FORMAT, raw, 24, 3);
    UnpackedUint(COMMON_FORMAT, raw, 24, 4);
    UnpackedUint(COMMON_FORMAT, raw, 24, 5);
  }

  lemma DataExtensionOnWire(raw: seq<byte>)
    requires |raw| >= 84 && Size(DATA_EXTENSION) == 32
    ensures UnpackRecord(DATA_EXTENSION, raw[52..84])
            == [UintAt(raw, 52, 4), UintAt(raw, 56, 4), UintAt(raw, 60, 8), UintAt(raw, 68, 8), UintAt(raw, 76, 4),
                UintAt(raw, 80, 4)]
  {
    hide UnpackRecord, UintAt, Offset, Size;
    ReplyOffsets();
    UnpackedUint(DATA_EXTENSION, raw, 52, 0);
    UnpackedUint(DATA_EXTENSION, raw, 52, 1);
    UnpackedUint(DATA_EXTENSION, raw, 52, 2);
    UnpackedUint(DATA_EXTENSION, raw, 52, 3);
    UnpackedUint(DATA_EXTENSION, raw, 52, 4);
    UnpackedUint(DATA_EXTENSION, raw, 52, 5);
  }

  lemma ExtensionLayout(raw: seq<byte>, opcode: nat)
    requires |raw| >= 24 + PayloadBytes(opcode)
    ensures |raw| >= 52
    ensures ExtensionOnWire(raw, opcode, UnpackRecord(ExtensionFormat(opcode), raw[52..24 + PayloadBytes(opcode)]))
  {
    hide UintAt, Offset, Size;
    ReplyFormatSizes();
    if opcode == OP_DATA {
      DataExtensionOnWire(raw);
    } else if opcode == OP_STATUS {
      StatusExtensionOnWire(raw, STATUS_EXTENSION);
    } else {
      assert ExtensionFormat(opcode) == [];
    }
  }

  lemma PayloadLayout(raw: seq<byte>, version: nat, opcode: nat, flags: nat, seq_: nat)
    requires |raw| >= 24 + PayloadBytes(opcode)
    ensures |raw| >= 52
    ensures var parsed := ParsePayload(version, opcode, flags, seq_, raw[24..24 + PayloadBytes(opcode)]);
            && (parsed.Ok? <==> UintAt(raw, 28, 4) <= 8 && UintAt(raw, 32, 4) == flags)
            && parsed != Err(ProtocolVersionError)
            && (parsed.Ok? ==>
                  var r := parsed.value;
                  && r.version == version && r.opcode == opcode && r.status == flags && r.seq_ == seq_
                  && r.session == UintAt(raw, 24, 4)
                  && StateOnWire(UintAt(raw, 28, 4), r.state)
                  && r.errorCode == UintAt(raw, 36, 4)
                  && r.descriptor == UintAt(raw, 40, 4)
                  && r.errorOffset == UintAt(raw, 44, 8)
                  && r.extension == UnpackRecord(ExtensionFormat(opcode), raw[52..24 + PayloadBytes(opcode)]))
  {
    hide UnpackRecord, UintAt, Offset, Size;
    ReplyFormatSizes();
    CommonOnWire(raw);
    var payload := raw[24..24 + PayloadBytes(opcode)];
    assert payload[..28] == raw[24..52];
    assert payload[28..] == raw[52..24 + PayloadBytes(opcode)];
  }

  /** The envelope checks decide whether the payload is looked at. */
  lemma EnvelopeDecides(raw: seq<byte>, validateVersion: bool)
    ensures EnvelopeWellFormed(raw, validateVersion) ==> |raw| >= 24 + PayloadBytes(UintAt(raw, 12, 4))
    ensures ParseWaveResponse(raw, validateVersion) ==
            if EnvelopeWellFormed(raw, validateVersion) then
              ParsePayload(UintAt(raw, 8, 2), UintAt(raw, 12, 4), UintAt(raw, 10, 2), UintAt(raw, 16, 4),
                           raw[24..24 + PayloadBytes(UintAt(raw, 12, 4))])
            else if validateVersion && 24 <= |raw| && UintAt(raw, 0, 8) == 0x5741564552535030 && UintAt(raw, 8, 2) != 1
            then Err(ProtocolVersionError)
            else Err(ProtocolError)
  {
    hide UnpackRecord, UintAt, Offset, Size, ParsePayload;
    EnvelopeSize();
    ReplyFormatSizes();
    if |raw| >= 24 {
      HeaderFields(raw);
    }
  }

  /** A datagram is accepted exactly when it is well formed, and then each field
      of the reply is read at its place. */
  lemma ReplyLayout(raw: seq<byte>, validateVersion: bool)
    ensures ParseWaveResponse(raw, validateVersion).Ok? <==> ReplyWellFormed(raw, validateVersion)
    ensures ParseWaveResponse(raw, validateVersion).Ok? ==>
              ReplyOnWire(raw, ParseWaveResponse(raw, validateVersion).value)
    ensures ParseWaveResponse(raw, validateVersion) == Err(ProtocolVersionError) <==>
            validateVersion && 24 <= |raw| && UintAt(raw, 0, 8) == 0x5741564552535030 && UintAt(raw, 8, 2) != 1
  {
    hide UnpackRecord, UintAt, Offset, Size, ParsePayload, ParseWaveResponse, ExtensionOnWire, PayloadBytes;
    EnvelopeDecides(raw, validateVersion);
    if EnvelopeWellFormed(raw, validateVersion) {
      PayloadLayout(raw, UintAt(raw, 8, 2), UintAt(raw, 12, 4), UintAt(raw, 10, 2), UintAt(raw, 16, 4));
      ExtensionLayout(raw, UintAt(raw, 12, 4));
    }
  }
}
