/** The WAVECTR0 request and WAVERSP0 reply formats (software/dr47/protocol.py). */
module WaveProtocol {
  import opened Bytes

  const WAVE_CTRL_MAGIC: nat := 0x5741564543545230
  const WAVE_RESP_MAGIC: nat := 0x5741564552535030
  const WAVE_PROTOCOL_VERSION: nat := 1

  const OP_BEGIN: nat := 1
  const OP_DATA: nat := 2
  const OP_COMMIT: nat := 3
  const OP_PLAY: nat := 4
  const OP_PAUSE: nat := 5
  const OP_STOP: nat := 6
  const OP_ABORT: nat := 7
  const OP_STATUS: nat := 8

  const STATUS_OK: nat := 0
  const STATUS_BAD_REQUEST: nat := 2
  const STATUS_INCOMPLETE: nat := 4
  const STATUS_SEQUENCE: nat := 5
  const STATUS_OFFSET: nat := 6
  const STATUS_CRC: nat := 7

  const BYTE_RANGE: nat := 0x100
  const WORD16_RANGE: nat := 0x1_0000
  const WORD_RANGE: nat := 0x1_0000_0000
  const LONG_RANGE: nat := 0x1_0000_0000_0000_0000

  const BEAT_BYTES: nat := 32
  const DDR_BEAT_BYTES: nat := 64
  const CHANNELS: nat := 8
  const LANE_BYTES: nat := 8
  const DAC_FRAME_BYTES: nat := 8 * 32
  const HEADER_BYTES: nat := 24
  const UDP_MAX_PAYLOAD: nat := 1500 - 20 - 8
  const MAX_DATA_BYTES: nat := (UDP_MAX_PAYLOAD - HEADER_BYTES - HEADER_BYTES) / BEAT_BYTES * BEAT_BYTES
  /** DDR capacity: 8 GiB less the reserved top 1 MiB. */
  const DDR_MAX_INTERLEAVED_BYTES: nat := 0x2_0000_0000 - 0x10_0000

  datatype PlayState = Idle | Upload | Ready | Prefetch | WaitTrigger | Playing | Draining | Done | Error

  function StateCode(s: PlayState): (code: nat)
    ensures code < 9 && StateOf(code) == s
  {
    match s
    case Idle => 0
    case Upload => 1
    case Ready => 2
    case Prefetch => 3
    case WaitTrigger => 4
    case Playing => 5
    case Draining => 6
    case Done => 7
    case Error => 8
  }

  function StateOf(code: nat): PlayState
    requires code < 9
  {
    [Idle, Upload, Ready, Prefetch, WaitTrigger, Playing, Draining, Done, Error][code]
  }

  // ----- Requests -----

  datatype WaveRequest =
    | Begin(session: int, totalBytes: int, channelMask: int, totalBeats: int, loopCount: int, layout: int)
    | Data(session: int, packetSeq: int, byteOffset: int, payload: seq<byte>)
    | Command(opcode: int, session: int)
  {
    function Opcode(): int {
      match this
      case Begin(_, _, _, _, _, _) => OP_BEGIN
      case Data(_, _, _, _) => OP_DATA
      case Command(opcode, _) => opcode
    }
  }

  datatype RangeError = ParameterRangeError

  type Crc = seq<byte> -> nat

  /** The wire-integer check: no masking, an out-of-range value is an error. */
  predicate WaveUint(value: int, range: nat, nonzero: bool) {
    (if nonzero then 1 else 0) <= value < range
  }

  predicate BeginInRange(session: int, totalBytes: int, channelMask: int, totalBeats: int, loopCount: int,
                         layout: int) {
    && WaveUint(session, WORD_RANGE, true)
    && WaveUint(totalBytes, LONG_RANGE, true)
    && WaveUint(totalBeats, WORD_RANGE, true)
    && WaveUint(channelMask, BYTE_RANGE, true)
    && WaveUint(loopCount, WORD_RANGE, true)
    && WaveUint(layout, BYTE_RANGE, false)
    && totalBytes <= DDR_MAX_INTERLEAVED_BYTES
    && totalBytes == totalBeats * DAC_FRAME_BYTES
    && layout == 1
  }

  predicate DataInRange(session: int, packetSeq: int, byteOffset: int, payload: seq<byte>) {
    && WaveUint(session, WORD_RANGE, true)
    && WaveUint(packetSeq, WORD_RANGE, false)
    && WaveUint(byteOffset, LONG_RANGE, false)
    && 0 < |payload| <= MAX_DATA_BYTES
    && |payload| % BEAT_BYTES == 0
    && byteOffset % BEAT_BYTES == 0
    && byteOffset + |payload| <= LONG_RANGE
  }

  predicate CommandInRange(opcode: int, session: int) {
    OP_COMMIT <= opcode <= OP_STATUS && WaveUint(session, WORD_RANGE, false)
  }

  predicate InRange(r: WaveRequest) {
    match r
    case Begin(session, totalBytes, channelMask, totalBeats, loopCount, layout) =>
      BeginInRange(session, totalBytes, channelMask, totalBeats, loopCount, layout)
    case Data(session, packetSeq, byteOffset, payload) =>
      DataInRange(session, packetSeq, byteOffset, payload)
    case Command(opcode, session) =>
      CommandInRange(opcode, session)
  }

  const ENVELOPE: Format := [8, 8, 8]
  const BEGIN_FORMAT: Format := [4, 8, 1, 1, 2, 4, 4, 4]
  const DATA_FORMAT: Format := [4, 4, 8, 4, 4]
  const COMMAND_FORMAT: Format := [4]

  /** Bytes of zero padding up to the next 64-bit word. */
  function Padding(n: nat): (p: nat)
    ensures p < 8 && (n + p) % 8 == 0
  {
    (8 - n % 8) % 8
  }

  function Envelope(magic: nat, opcode: nat, status: nat, version: nat, seq_: nat, payload: seq<byte>): (raw: seq<byte>)
    ensures |raw| == Size(ENVELOPE) + |payload| + Padding(|payload|)
  {
    PackRecord(ENVELOPE, [magic,
                          opcode * WORD_RANGE + status * WORD16_RANGE + version,
                          |payload| * WORD_RANGE + seq_])
    + payload + Zeros(Padding(|payload|))
  }

  function RequestFormat(r: WaveRequest): Format {
    match r
    case Begin(_, _, _, _, _, _) => BEGIN_FORMAT
    case Data(_, _, _, _) => DATA_FORMAT
    case Command(_, _) => COMMAND_FORMAT
  }

  function RequestValues(r: WaveRequest, crc: Crc): (values: seq<nat>)
    requires InRange(r)
    ensures |values| == |RequestFormat(r)|
  {
    match r
    case Begin(session, totalBytes, channelMask, totalBeats, loopCount, layout) =>
      [session, totalBytes, channelMask, layout, 0, totalBeats, loopCount, DDR_BEAT_BYTES]
    case Data(session, packetSeq, byteOffset, payload) =>
      [session, packetSeq, byteOffset, |payload|, crc(payload) % WORD_RANGE]
    case Command(_, session) => [session]
  }

  function RequestBody(r: WaveRequest, crc: Crc): seq<byte>
    requires InRange(r)
  {
    PackRecord(RequestFormat(r), RequestValues(r, crc)) + if r.Data? then r.payload else []
  }

  function PackRequest(r: WaveRequest, seq_: int, crc: Crc): Result<seq<byte>, RangeError> {
    if InRange(r) && WaveUint(seq_, WORD_RANGE, false) then
      Ok(Envelope(WAVE_CTRL_MAGIC, r.Opcode(), 0, WAVE_PROTOCOL_VERSION, seq_, RequestBody(r, crc)))
    else
      Err(ParameterRangeError)
  }

  lemma EnvelopeSize()
    ensures Size(ENVELOPE) == HEADER_BYTES
  {
    SizeUnrolled(ENVELOPE);
  }

  lemma RequestFormatSizes()
    ensures Size(BEGIN_FORMAT) == 28 && Size(DATA_FORMAT) == 24 && Size(COMMAND_FORMAT) == 4
  {
    SizeUnrolled(BEGIN_FORMAT); SizeUnrolled(DATA_FORMAT); SizeUnrolled(COMMAND_FORMAT);
  }

  lemma StatusExtensionSize()
    ensures Size(STATUS_EXTENSION) == 52
  {
    hide Size;
    var a, b := [4, 4, 4, 4, 2, 2, 2, 2], [2, 2, 2, 2, 4, 4, 4, 4, 4];
    SizeUnrolled(a);
    SizeUnrolled(b);
    SizeAppend(a, b);
    assert STATUS_EXTENSION == a + b;
  }

  lemma {:induction false} SizeAppend(a: Format, b: Format)
    ensures Size(a + b) == Size(a) + Size(b)
  {
    if a == [] {
      assert a + b == b;
    } else {
      assert (a + b)[1..] == a[1..] + b;
      SizeAppend(a[1..], b);
    }
  }

  lemma ReplyFormatSizes()
    ensures Size(COMMON_FORMAT) == 28 && Size(DATA_EXTENSION) == 32 && Size(STATUS_EXTENSION) == 52 && Size([]) == 0
  {
    SizeUnrolled(COMMON_FORMAT); SizeUnrolled(DATA_EXTENSION);
    StatusExtensionSize();
  }

  lemma SizeUnrolled(f: Format)
    ensures |f| == 1 ==> Size(f) == f[0]
    ensures |f| == 3 ==> Size(f) == f[0] + f[1] + f[2]
    ensures |f| == 5 ==> Size(f) == f[0] + f[1] + f[2] + f[3] + f[4]
    ensures |f| == 6 ==> Size(f) == f[0] + f[1] + f[2] + f[3] + f[4] + f[5]
    ensures |f| == 8 ==> Size(f) == f[0] + f[1] + f[2] + f[3] + f[4] + f[5] + f[6] + f[7]
    ensures |f| == 9 ==> Size(f) == f[0] + f[1] + f[2] + f[3] + f[4] + f[5] + f[6] + f[7] + f[8]
  {
    if |f| > 0 {
      SizeTail(f, 0);
    }
  }

  lemma {:induction false} SizeTail(f: Format, i: nat)
    requires i <= |f|
    ensures i < |f| ==> Size(f[i..]) == f[i] + Size(f[i + 1..])
    ensures i == |f| ==> Size(f[i..]) == 0
    ensures forall k :: i <= k < |f| ==> Size(f[k..]) == f[k] + Size(f[k + 1..])
    ensures f[0..] == f
    decreases |f| - i
  {
    if i < |f| {
      assert f[i..][1..] == f[i + 1..];
      SizeTail(f, i + 1);
    }
  }

  // ----- Replies -----

  const COMMON_FORMAT: Format := [4, 4, 4, 4, 4, 8]
  /** ACK, next sequence, received bytes, first error offset, expected and actual CRC. */
  const DATA_EXTENSION: Format := [4, 4, 8, 8, 4, 4]
  const STATUS_EXTENSION: Format := [4, 4, 4, 4, 2, 2, 2, 2, 2, 2, 2, 2, 4, 4, 4, 4, 4]

  datatype Response = Response(
    version: nat, opcode: nat, seq_: nat, status: nat, session: nat, state: PlayState,
    errorCode: nat, descriptor: nat, errorOffset: nat, extension: seq<nat>)

  datatype ParseError = ProtocolError | ProtocolVersionError

  function ExtensionFormat(opcode: nat): Format {
    if opcode == OP_DATA then DATA_EXTENSION
    else if opcode == OP_STATUS then STATUS_EXTENSION
    else []
  }

  /** Payload bytes a reply with this opcode must carry. */
  function PayloadBytes(opcode: nat): nat {
    Size(COMMON_FORMAT) + Size(ExtensionFormat(opcode))
  }

  function ParseWaveResponse(raw: seq<byte>, validateVersion: bool): Result<Response, ParseError> {
    EnvelopeSize();
    if |raw| < HEADER_BYTES then Err(ProtocolError) else
    var header := UnpackRecord(ENVELOPE, raw[..HEADER_BYTES]);
    var version, opcode := header[1] % WORD16_RANGE, header[1] / WORD_RANGE;
    var size := header[2] / WORD_RANGE;
    if header[0] != WAVE_RESP_MAGIC then Err(ProtocolError)
    else if validateVersion && version != WAVE_PROTOCOL_VERSION then Err(ProtocolVersionError)
    else if !(OP_BEGIN <= opcode <= OP_STATUS) then Err(ProtocolError)
    else if size != PayloadBytes(opcode) then Err(ProtocolError)
    else if |raw| != HEADER_BYTES + size + Padding(size) then Err(ProtocolError)
    else if exists i :: HEADER_BYTES + size <= i < |raw| && raw[i] != 0 then Err(ProtocolError)
    else ParsePayload(version, opcode, header[1] / WORD16_RANGE % WORD16_RANGE, header[2] % WORD_RANGE,
                      raw[HEADER_BYTES..HEADER_BYTES + size])
  }

  function ParsePayload(version: nat, opcode: nat, flags: nat, seq_: nat,
                        payload: seq<byte>): Result<Response, ParseError>
    requires |payload| == PayloadBytes(opcode)
  {
    var common := UnpackRecord(COMMON_FORMAT, payload[..Size(COMMON_FORMAT)]);
    if common[1] >= 9 || common[2] != flags then Err(ProtocolError)
    else Ok(Response(version, opcode, seq_, common[2], common[0], StateOf(common[1]), common[3], common[4], common[5],
                     UnpackRecord(ExtensionFormat(opcode), payload[Size(COMMON_FORMAT)..])))
  }

  /** The replies that have a wire form. */
  predicate Encodable(r: Response) {
    && r.version < WORD16_RANGE && OP_BEGIN <= r.opcode <= OP_STATUS
    && r.seq_ < WORD_RANGE && r.status < WORD16_RANGE && r.session < WORD_RANGE
    && r.errorCode < WORD_RANGE && r.descriptor < WORD_RANGE && r.errorOffset < LONG_RANGE
    && Fits(ExtensionFormat(r.opcode), r.extension)
  }

  function CommonValues(r: Response): seq<nat> {
    [r.session, StateCode(r.state), r.status, r.errorCode, r.descriptor, r.errorOffset]
  }

  /** The encoder that the reply parser implies: the board's side of the wire. */
  function EncodeResponse(r: Response): seq<byte>
    requires Encodable(r)
  {
    Envelope(WAVE_RESP_MAGIC, r.opcode, r.status, r.version, r.seq_,
             PackRecord(COMMON_FORMAT, CommonValues(r)) + PackRecord(ExtensionFormat(r.opcode), r.extension))
  }

  /** The two packed header words split back into their fields. */
  lemma HeaderWordsSplit(opcode: nat, status: nat, version: nat, size: nat, seq_: nat)
    requires opcode < WORD_RANGE && status < WORD16_RANGE && version < WORD16_RANGE
    requires seq_ < WORD_RANGE && size < WORD_RANGE
    ensures var word := opcode * WORD_RANGE + status * WORD16_RANGE + version;
            && word < LONG_RANGE && word / WORD_RANGE == opcode
            && word / WORD16_RANGE % WORD16_RANGE == status && word % WORD16_RANGE == version
    ensures var word := size * WORD_RANGE + seq_;
            word < LONG_RANGE && word / WORD_RANGE == size && word % WORD_RANGE == seq_
  {
  }

  /** A record in front of other bytes is read back. */
  lemma UnpackPrefix(format: Format, values: seq<nat>, rest: seq<byte>)
    requires Fits(format, values)
    ensures var raw := PackRecord(format, values) + rest;
            raw[..Size(format)] == PackRecord(format, values)
            && UnpackRecord(format, raw[..Size(format)]) == values
            && raw[Size(format)..] == rest
  {
    UnpackPack(format, values);
    var raw := PackRecord(format, values) + rest;
    assert raw[..Size(format)] == PackRecord(format, values);
  }

  lemma EnvelopeFits(word0: nat, word1: nat, word2: nat)
    requires word0 < LONG_RANGE && word1 < LONG_RANGE && word2 < LONG_RANGE
    ensures Fits(ENVELOPE, [word0, word1, word2])
  {
    PowerConstants();
  }

  ghost predicate EnvelopeReads(raw: seq<byte>, magic: nat, opcode: nat, status: nat, version: nat, seq_: nat,
                                payload: seq<byte>)
  {
    && Size(ENVELOPE) == HEADER_BYTES <= |raw|
    && (var header := UnpackRecord(ENVELOPE, raw[..HEADER_BYTES]);
        && header[0] == magic
        && header[1] / WORD_RANGE == opcode
        && header[1] / WORD16_RANGE % WORD16_RANGE == status
        && header[1] % WORD16_RANGE == version
        && header[2] / WORD_RANGE == |payload|
        && header[2] % WORD_RANGE == seq_)
    && |raw| == HEADER_BYTES + |payload| + Padding(|payload|)
    && raw[HEADER_BYTES..HEADER_BYTES + |payload|] == payload
    && forall i :: HEADER_BYTES + |payload| <= i < |raw| ==> raw[i] == 0
  }

  lemma EnvelopeFields(magic: nat, opcode: nat, status: nat, version: nat, seq_: nat, payload: seq<byte>)
    requires magic < LONG_RANGE && opcode < WORD_RANGE && status < WORD16_RANGE && version < WORD16_RANGE
    requires seq_ < WORD_RANGE && |payload| < WORD_RANGE
    ensures EnvelopeReads(Envelope(magic, opcode, status, version, seq_, payload), magic, opcode, status, version,
                          seq_, payload)
  {
    hide PackRecord, UnpackRecord, Size;
    EnvelopeSize();
    HeaderWordsSplit(opcode, status, version, |payload|, seq_);
    var word1, word2 := opcode * WORD_RANGE + status * WORD16_RANGE + version, |payload| * WORD_RANGE + seq_;
    EnvelopeFits(magic, word1, word2);
    var rest := payload + Zeros(Padding(|payload|));
    UnpackPrefix(ENVELOPE, [magic, word1, word2], rest);
    assert Envelope(magic, opcode, status, version, seq_, payload)
            == PackRecord(ENVELOPE, [magic, word1, word2]) + rest;
  }

  lemma ParsePayloadOfCommon(r: Response)
    requires Encodable(r)
    ensures var common := PackRecord(COMMON_FORMAT, CommonValues(r));
            var payload := common + PackRecord(ExtensionFormat(r.opcode), r.extension);
            ParsePayload(r.version, r.opcode, r.status, r.seq_, payload) == Ok(r)
  {
    PowerConstants();
    var common := PackRecord(COMMON_FORMAT, CommonValues(r));
    var extension := PackRecord(ExtensionFormat(r.opcode), r.extension);
    assert (common + extension)[..Size(COMMON_FORMAT)] == common;
    assert (common + extension)[Size(COMMON_FORMAT)..] == extension;
    UnpackPack(COMMON_FORMAT, CommonValues(r));
    UnpackPack(ExtensionFormat(r.opcode), r.extension);
  }

  /** Every reply with a wire form survives the wire. */
  lemma ParseInvertsEncode(r: Response)
    requires Encodable(r) && r.version == WAVE_PROTOCOL_VERSION
    ensures ParseWaveResponse(EncodeResponse(r), true) == Ok(r)
  {
    hide PackRecord, UnpackRecord, Size, Envelope, ParsePayload, Zeros;
    ReplyFormatSizes();
    var payload := PackRecord(COMMON_FORMAT, CommonValues(r)) + PackRecord(ExtensionFormat(r.opcode), r.extension);
    EnvelopeFields(WAVE_RESP_MAGIC, r.opcode, r.status, r.version, r.seq_, payload);
    ParsePayloadOfCommon(r);
  }

  lemma EnvelopeWordsFit(head: seq<byte>)
    requires |head| == Size(ENVELOPE)
    ensures forall i :: 0 <= i < 3 ==> UnpackRecord(ENVELOPE, head)[i] < LONG_RANGE
  {
    PackUnpack(ENVELOPE, head);
    PowerConstants();
  }

  lemma EnvelopeOfFields(raw: seq<byte>)
    requires |raw| >= HEADER_BYTES == Size(ENVELOPE)
    requires var header := UnpackRecord(ENVELOPE, raw[..HEADER_BYTES]);
             var size := header[2] / WORD_RANGE;
             |raw| == HEADER_BYTES + size + Padding(size)
    requires var size := UnpackRecord(ENVELOPE, raw[..HEADER_BYTES])[2] / WORD_RANGE;
             forall i :: HEADER_BYTES + size <= i < |raw| ==> raw[i] == 0
    ensures var header := UnpackRecord(ENVELOPE, raw[..HEADER_BYTES]);
            var size := header[2] / WORD_RANGE;
            raw == Envelope(header[0], header[1] / WORD_RANGE, header[1] / WORD16_RANGE % WORD16_RANGE,
                            header[1] % WORD16_RANGE, header[2] % WORD_RANGE, raw[HEADER_BYTES..HEADER_BYTES + size])
  {
    hide UnpackRecord, PackRecord, Size;
    var head := raw[..HEADER_BYTES];
    EnvelopeSize();
    EnvelopeWordsFit(head);
    PackUnpack(ENVELOPE, head);
    var header := UnpackRecord(ENVELOPE, head);
    var size := header[2] / WORD_RANGE;
    assert header == [header[0],
                      header[1] / WORD_RANGE * WORD_RANGE
                      + header[1] / WORD16_RANGE % WORD16_RANGE * WORD16_RANGE + header[1] % WORD16_RANGE,
                      size * WORD_RANGE + header[2] % WORD_RANGE];
    assert raw == head + raw[HEADER_BYTES..HEADER_BYTES + size] + Zeros(Padding(size));
  }

  /** Every accepted datagram is the encoding of what was parsed from it. */
  lemma EncodeInvertsParse(raw: seq<byte>, validateVersion: bool)
    requires ParseWaveResponse(raw, validateVersion).Ok?
    ensures var r := ParseWaveResponse(raw, validateVersion).value;
            Encodable(r) && EncodeResponse(r) == raw && (validateVersion ==> r.version == WAVE_PROTOCOL_VERSION)
  {
    hide UnpackRecord, PackRecord, Size, Envelope, ParsePayload, Encodable;
    EnvelopeSize();
    EnvelopeOfFields(raw);
    var header := UnpackRecord(ENVELOPE, raw[..HEADER_BYTES]);
    var size, opcode := header[2] / WORD_RANGE, header[1] / WORD_RANGE;
    PayloadInverts(header[1] % WORD16_RANGE, opcode, header[1] / WORD16_RANGE % WORD16_RANGE, header[2] % WORD_RANGE,
                   raw[HEADER_BYTES..HEADER_BYTES + size]);
  }

  /** An accepted payload is the encoding of its fields. */
  lemma PayloadInverts(version: nat, opcode: nat, flags: nat, seq_: nat, payload: seq<byte>)
    requires |payload| == PayloadBytes(opcode) && ParsePayload(version, opcode, flags, seq_, payload).Ok?
    requires version < WORD16_RANGE && OP_BEGIN <= opcode <= OP_STATUS && flags < WORD16_RANGE && seq_ < WORD_RANGE
    ensures var r := ParsePayload(version, opcode, flags, seq_, payload).value;
            && Encodable(r) && r.version == version && r.opcode == opcode && r.status == flags && r.seq_ == seq_
            && PackRecord(COMMON_FORMAT, CommonValues(r)) + PackRecord(ExtensionFormat(opcode), r.extension) == payload
  {
    hide UnpackRecord, PackRecord, Size;
    ReplyFormatSizes();
    PowerConstants();
    var common, extension := payload[..Size(COMMON_FORMAT)], payload[Size(COMMON_FORMAT)..];
    PackUnpack(COMMON_FORMAT, common);
    PackUnpack(ExtensionFormat(opcode), extension);
    var values := UnpackRecord(COMMON_FORMAT, common);
    StateCodeOf(values[1]);
    assert CommonValues(ParsePayload(version, opcode, flags, seq_, payload).value) == values;
    assert payload == common + extension;
  }

  lemma StateCodeOf(code: nat)
    requires code < 9
    ensures StateCode(StateOf(code)) == code
  {
    assert code in {0, 1, 2, 3, 4, 5, 6, 7, 8};
  }

  /** A datagram is accepted exactly when some reply encodes to it. */
  lemma AcceptedIffEncoded(raw: seq<byte>)
    ensures ParseWaveResponse(raw, true).Ok? <==>
            exists r :: Encodable(r) && r.version == WAVE_PROTOCOL_VERSION && EncodeResponse(r) == raw
  {
    if ParseWaveResponse(raw, true).Ok? {
      EncodeInvertsParse(raw, true);
    }
    forall r | Encodable(r) && r.version == WAVE_PROTOCOL_VERSION && EncodeResponse(r) == raw
      ensures ParseWaveResponse(raw, true).Ok?
    {
      ParseInvertsEncode(r);
    }
  }

  // ----- A request's bytes determine the request -----

  lemma RequestFits(r: WaveRequest, crc: Crc)
    requires InRange(r)
    ensures Fits(RequestFormat(r), RequestValues(r, crc))
    ensures |RequestBody(r, crc)| == Size(RequestFormat(r)) + (if r.Data? then |r.payload| else 0)
    ensures 0 <= r.Opcode() < WORD_RANGE && |RequestBody(r, crc)| < WORD_RANGE
    ensures (r.Begin? <==> r.Opcode() == OP_BEGIN) && (r.Data? <==> r.Opcode() == OP_DATA)
  {
    hide PackRecord, Size;
    RequestFormatSizes();
    PowerConstants();
  }

  /** Two packets with the same bytes carry the same request and sequence number. */
  lemma PackRequestInjective(a: WaveRequest, seqA: int, b: WaveRequest, seqB: int, crc: Crc)
    requires PackRequest(a, seqA, crc).Ok?
    requires PackRequest(a, seqA, crc) == PackRequest(b, seqB, crc)
    ensures a == b && seqA == seqB
  {
    hide PackRecord, UnpackRecord, Size, Envelope, RequestValues, InRange;
    RequestFits(a, crc);
    RequestFits(b, crc);
    EnvelopeFields(WAVE_CTRL_MAGIC, a.Opcode(), 0, WAVE_PROTOCOL_VERSION, seqA, RequestBody(a, crc));
    EnvelopeFields(WAVE_CTRL_MAGIC, b.Opcode(), 0, WAVE_PROTOCOL_VERSION, seqB, RequestBody(b, crc));
    assert RequestBody(a, crc) == RequestBody(b, crc) && a.Opcode() == b.Opcode();
    var format := RequestFormat(a);
    assert format == RequestFormat(b);
    assert RequestBody(a, crc)[..Size(format)] == PackRecord(format, RequestValues(a, crc));
    assert RequestBody(b, crc)[..Size(format)] == PackRecord(format, RequestValues(b, crc));
    PackRecordInjective(format, RequestValues(a, crc), RequestValues(b, crc));
    assert a.Data? && b.Data? ==>
        RequestBody(a, crc)[Size(format)..] == a.payload && RequestBody(b, crc)[Size(format)..] == b.payload;
    ValuesDetermineRequest(a, b, crc);
  }

  lemma ValuesDetermineRequest(a: WaveRequest, b: WaveRequest, crc: Crc)
    requires InRange(a) && InRange(b) && a.Opcode() == b.Opcode()
    requires RequestValues(a, crc) == RequestValues(b, crc)
    requires a.Data? && b.Data? ==> a.payload == b.payload
    ensures a == b
  {
    var valuesA, valuesB := RequestValues(a, crc), RequestValues(b, crc);
    assert valuesA[0] == valuesB[0];
    if a.Data? {
      assert valuesA[1] == valuesB[1] && valuesA[2] == valuesB[2];
    } else if a.Begin? {
      assert valuesA[1] == valuesB[1] && valuesA[2] == valuesB[2] && valuesA[3] == valuesB[3];
      assert valuesA[5] == valuesB[5] && valuesA[6] == valuesB[6];
    }
  }
}
