/**
 Complete frames (src/protocol/frame_codec.cpp): construction within size limits, validation in the
 order of the source, and metadata.  The generated Protobuf code is a parameter; `ProtobufLaws`
 states what is relied on.
 */
module FrameCodec {
  import opened Common
  import opened FrameHeader

  const U32_MAX := 0xFFFF_FFFF
  const INT_MAX := 0x7FFF_FFFF
  const SIZE_T_MAX := 0xFFFF_FFFF_FFFF_FFFF

  const REQUEST: U8 := 1
  const RESPONSE: U8 := 2

  const OK: U8 := 0
  const INVALID_ARGUMENT: U8 := 2
  const RESOURCE_EXHAUSTED: U8 := 7
  const INTERNAL: U8 := 10
  const DATA_LOSS: U8 := 12

  /** The status codes the wire knows, success excepted. */
  const ERROR_CODES: set<int> := {2, 3, 4, 7, 8, 9, 10, 11, 12}

  datatype Status = Status(code: U8, message: Bytes)

  datatype Result<T> = Ok(value: T) | Err(status: Status)

  datatype Request = Request(requestId: U64, serviceName: Bytes, methodName: Bytes, payload: Bytes)

  datatype Response = Response(requestId: U64, status: Status, payload: Bytes)

  datatype ProtocolLimits = ProtocolLimits(maxMetadataSize: nat, maxPayloadSize: nat)

  datatype ProtocolError =
    | NoError | NeedMoreData | InvalidMagic | UnsupportedVersion | InvalidMessageType | FrameTooLarge | DecodeError

  datatype FrameView =
    | NoFrame(error: ProtocolError)
    | Frame(consumed: nat, header: FrameHeader, metadata: Bytes, payload: Bytes)

  datatype DecodeResult =
    DecodeResult(error: ProtocolError, consumed: nat, request: Option<Request>, response: Option<Response>)

  function Text(s: string): Bytes {
    seq(|s|, i requires 0 <= i < |s| => s[i] as int % 256)
  }

  // ----- Protobuf

  /** `wellFormed` is the UTF-8 check of string fields.  Serializing fails for messages too long for Protobuf. */
  datatype Protobuf = Protobuf(
    wellFormed: Bytes -> bool,
    serializeRequest: (Bytes, Bytes) -> Option<Bytes>,
    parseRequest: Bytes -> Option<(Bytes, Bytes)>,
    serializeResponse: (int, Bytes) -> Option<Bytes>,
    parseResponse: Bytes -> Option<(int, Bytes)>)

  ghost predicate ProtobufLaws(pb: Protobuf) {
    && (forall s, m :: pb.serializeRequest(s, m).Some? ==>
          pb.parseRequest(pb.serializeRequest(s, m).value) ==
            if pb.wellFormed(s) && pb.wellFormed(m) then Some((s, m)) else None)
    && (forall c, t :: pb.serializeResponse(c, t).Some? ==>
          pb.parseResponse(pb.serializeResponse(c, t).value) == if pb.wellFormed(t) then Some((c, t)) else None)
    && pb.parseResponse([]) == Some((0, []))
  }

  // ----- Encoding

  function MakeProtocolLimits(maxPayloadSize: nat): (r: Result<ProtocolLimits>)
    ensures r.Ok? <==> 0 < maxPayloadSize <= U32_MAX
    ensures r.Ok? ==> r.value.maxPayloadSize == maxPayloadSize && r.value.maxMetadataSize == 64 * 1024
  {
    if maxPayloadSize == 0 then
      Err(Status(INVALID_ARGUMENT, Text("protocol max_payload_size must be greater than 0")))
    else if maxPayloadSize > U32_MAX then
      Err(Status(INVALID_ARGUMENT, Text("protocol max_payload_size must fit in uint32")))
    else
      Ok(ProtocolLimits(64 * 1024, maxPayloadSize))
  }

  function FrameSize(metadataSize: nat, payloadSize: nat): nat {
    SIZE + metadataSize + payloadSize
  }

  function ValidateEncodedFrameSize(metadataSize: nat, payloadSize: nat, limits: ProtocolLimits): Status {
    if metadataSize > U32_MAX || metadataSize > limits.maxMetadataSize then
      Status(RESOURCE_EXHAUSTED, Text("protocol metadata exceeds configured limit"))
    else if payloadSize > U32_MAX || payloadSize > limits.maxPayloadSize then
      Status(RESOURCE_EXHAUSTED, Text("protocol payload exceeds configured limit"))
    else if FrameSize(metadataSize, payloadSize) > SIZE_T_MAX then
      Status(RESOURCE_EXHAUSTED, Text("protocol frame exceeds the addressable size"))
    else
      Status(OK, [])
  }

  predicate Fits(metadata: Bytes, payload: Bytes, limits: ProtocolLimits) {
    && |metadata| <= U32_MAX && |metadata| <= limits.maxMetadataSize
    && |payload| <= U32_MAX && |payload| <= limits.maxPayloadSize
  }

  /** A frame is produced exactly when both sections fit, in one buffer: prefix, metadata, payload. */
  method BuildFrame(little: bool, header: FrameHeader, metadata: Bytes, payload: Bytes, limits: ProtocolLimits)
    returns (r: Result<Bytes>)
    ensures r.Ok? <==> Fits(metadata, payload, limits)
    ensures r.Ok? ==> r.value == EncodeHeader(header) + metadata + payload
    ensures r.Err? ==>
              r.status == ValidateEncodedFrameSize(|metadata|, |payload|, limits) && r.status.code == RESOURCE_EXHAUSTED
  {
    var status := ValidateEncodedFrameSize(|metadata|, |payload|, limits);
    if status.code != OK { return Err(status); }
    var frame := new Byte[SIZE + |metadata| + |payload|];
    EncodeTo(little, header, frame);
    if metadata != [] { Memcpy(frame, SIZE, metadata); }
    assert frame[..SIZE + |metadata|] == EncodeHeader(header) + metadata;
    if payload != [] { Memcpy(frame, SIZE + |metadata|, payload); }
    assert frame[..] == EncodeHeader(header) + metadata + payload;
    r := Ok(frame[..]);
  }

  /** The prefix written for a message; sizes are cast to 32 bits before they are checked. */
  function HeaderFor(messageType: U8, requestId: U64, metadata: Bytes, payload: Bytes): FrameHeader {
    FrameHeader(MAGIC, VERSION, messageType, 0, |metadata| % 0x1_0000_0000, |payload| % 0x1_0000_0000, requestId)
  }

  /** The bytes of a complete frame. */
  function FrameBytes(messageType: U8, requestId: U64, metadata: Bytes, payload: Bytes): Bytes {
    EncodeHeader(HeaderFor(messageType, requestId, metadata, payload)) + metadata + payload
  }

  method EncodeRequest(little: bool, pb: Protobuf, request: Request, limits: ProtocolLimits) returns (r: Result<Bytes>)
    ensures r.Ok? <==> EncodesRequest(pb, request, limits)
    ensures r.Ok? ==> r.value == RequestFrame(pb, request)
  {
    var serialized := pb.serializeRequest(request.serviceName, request.methodName);
    if serialized.None? { return Err(Status(INTERNAL, Text("failed to encode request metadata"))); }
    var metadata := serialized.value;
    var header := HeaderFor(REQUEST, request.requestId, metadata, request.payload);
    r := BuildFrame(little, header, metadata, request.payload, limits);
  }

  predicate EncodesRequest(pb: Protobuf, request: Request, limits: ProtocolLimits) {
    && pb.serializeRequest(request.serviceName, request.methodName).Some?
    && Fits(pb.serializeRequest(request.serviceName, request.methodName).value, request.payload, limits)
  }

  function RequestFrame(pb: Protobuf, request: Request): Bytes
    requires pb.serializeRequest(request.serviceName, request.methodName).Some?
  {
    FrameBytes(REQUEST, request.requestId,
               pb.serializeRequest(request.serviceName, request.methodName).value, request.payload)
  }

  /** A serialization failure is not noticed here: it leaves the metadata empty. */
  function EncodeResponseMetadata(pb: Protobuf, status: Status): Bytes {
    if status.code == OK && status.message == [] then []
    else
      var serialized := pb.serializeResponse(status.code, status.message);
      if serialized.Some? then serialized.value else []
  }

  method EncodeResponse(little: bool, pb: Protobuf, response: Response, limits: ProtocolLimits)
    returns (r: Result<Bytes>)
    ensures r.Ok? <==> Fits(EncodeResponseMetadata(pb, response.status), response.payload, limits)
    ensures r.Ok? ==> r.value == ResponseFrame(pb, response)
  {
    var metadata := EncodeResponseMetadata(pb, response.status);
    var header := HeaderFor(RESPONSE, response.requestId, metadata, response.payload);
    r := BuildFrame(little, header, metadata, response.payload, limits);
  }

  function ResponseFrame(pb: Protobuf, response: Response): Bytes {
    FrameBytes(RESPONSE, response.requestId, EncodeResponseMetadata(pb, response.status), response.payload)
  }

  // ----- Decoding

  function ReadFrame(little: bool, buf: Bytes, limits: ProtocolLimits): FrameView {
    if |buf| < SIZE then NoFrame(NeedMoreData)
    else
      var decoded := Decode(little, buf[..SIZE]);
      if decoded.None? then NoFrame(InvalidMagic)
      else
        var h := decoded.value;
        if h.version != VERSION then NoFrame(UnsupportedVersion)
        else if h.metadataSize > limits.maxMetadataSize || h.payloadSize > limits.maxPayloadSize
                || FrameSize(h.metadataSize, h.payloadSize) > SIZE_T_MAX then
          NoFrame(FrameTooLarge)
        else if |buf| < FrameSize(h.metadataSize, h.payloadSize) then NoFrame(NeedMoreData)
        else
          var m := SIZE + h.metadataSize;
          Frame(m + h.payloadSize, h, buf[SIZE..m], buf[m..m + h.payloadSize])
  }

  function DecodeRequestEnvelope(pb: Protobuf, h: FrameHeader, metadata: Bytes, payload: Bytes): Option<Request> {
    if |metadata| > INT_MAX then None
    else
      var parsed := pb.parseRequest(metadata);
      if parsed.None? then None else Some(Request(h.requestId, parsed.value.0, parsed.value.1, payload))
  }

  /** The wire integer is cast to the 8-bit status code before it is examined. */
  function DecodeStatus(code: int, message: Bytes): Status {
    var c := code % 256;
    if c == OK then Status(OK, [])
    else if c in ERROR_CODES then Status(c, message)
    else Status(DATA_LOSS, Text("response contains an invalid RPC status code"))
  }

  function DecodeResponseEnvelope(pb: Protobuf, h: FrameHeader, metadata: Bytes, payload: Bytes): Option<Response> {
    if |metadata| > INT_MAX then None
    else
      var parsed := pb.parseResponse(metadata);
      if parsed.None? then None
      else Some(Response(h.requestId, DecodeStatus(parsed.value.0, parsed.value.1), payload))
  }

  function DecodeFrame(little: bool, pb: Protobuf, buf: Bytes, limits: ProtocolLimits): DecodeResult {
    var view := ReadFrame(little, buf, limits);
    if view.NoFrame? then DecodeResult(view.error, 0, None, None)
    else if view.header.messageType == REQUEST then
      var request := DecodeRequestEnvelope(pb, view.header, view.metadata, view.payload);
      DecodeResult(if request.None? then DecodeError else NoError, view.consumed, request, None)
    else if view.header.messageType == RESPONSE then
      var response := DecodeResponseEnvelope(pb, view.header, view.metadata, view.payload);
      DecodeResult(if response.None? then DecodeError else NoError, view.consumed, None, response)
    else
      DecodeResult(InvalidMessageType, view.consumed, None, None)
  }

  // ----- Frames and prefixes of frames

  /** The casts of the sizes lose nothing in a frame that is sent, and reading it back, whatever
      follows, gives its three sections. */
  lemma {:induction false} ReadFrameInverts(little: bool, messageType: U8, requestId: U64, metadata: Bytes,
      payload: Bytes, rest: Bytes, limits: ProtocolLimits)
    requires Fits(metadata, payload, limits)
    ensures
      var frame := FrameBytes(messageType, requestId, metadata, payload);
      ReadFrame(little, frame + rest, limits) ==
        Frame(|frame|, HeaderFor(messageType, requestId, metadata, payload), metadata, payload)
    ensures
      var h := HeaderFor(messageType, requestId, metadata, payload);
      h.metadataSize == |metadata| && h.payloadSize == |payload|
  {
    hide Decode, EncodeHeader;
    var h := HeaderFor(messageType, requestId, metadata, payload);
    var buf := FrameBytes(messageType, requestId, metadata, payload) + rest;
    DecodeInverts(little, h, []);
    assert EncodeHeader(h) + [] == EncodeHeader(h) == buf[..SIZE];
    assert buf[SIZE..SIZE + |metadata|] == metadata;
    assert buf[SIZE + |metadata|..SIZE + |metadata| + |payload|] == payload;
  }

  /** Any strict prefix of such a frame asks for more and consumes nothing. */
  lemma {:induction false} PrefixNeedsMore(little: bool, pb: Protobuf, messageType: U8, requestId: U64, metadata: Bytes,
      payload: Bytes, k: nat, limits: ProtocolLimits)
    requires Fits(metadata, payload, limits) && k < |FrameBytes(messageType, requestId, metadata, payload)|
    ensures DecodeFrame(little, pb, FrameBytes(messageType, requestId, metadata, payload)[..k], limits) ==
            DecodeResult(NeedMoreData, 0, None, None)
  {
    hide Decode, EncodeHeader;
    var frame := FrameBytes(messageType, requestId, metadata, payload);
    var h := HeaderFor(messageType, requestId, metadata, payload);
    if k >= SIZE {
      DecodeInverts(little, h, []);
      assert EncodeHeader(h) + [] == EncodeHeader(h) == frame[..k][..SIZE];
    }
  }

  /** Once decided, a verdict does not depend on the bytes that arrive later. */
  lemma {:induction false} VerdictIsStable(little: bool, pb: Protobuf, buf: Bytes, more: Bytes, limits: ProtocolLimits)
    requires DecodeFrame(little, pb, buf, limits).error != NeedMoreData
    ensures DecodeFrame(little, pb, buf + more, limits) == DecodeFrame(little, pb, buf, limits)
  {
    hide ReadFrame;
    FrameIsStable(little, buf, more, limits);
  }

  lemma {:induction false} FrameIsStable(little: bool, buf: Bytes, more: Bytes, limits: ProtocolLimits)
    requires ReadFrame(little, buf, limits) != NoFrame(NeedMoreData)
    ensures ReadFrame(little, buf + more, limits) == ReadFrame(little, buf, limits)
  {
    hide Decode;
    assert (buf + more)[..SIZE] == buf[..SIZE];
    var view := ReadFrame(little, buf, limits);
    if view.Frame? {
      var m := SIZE + view.header.metadataSize;
      assert (buf + more)[SIZE..m] == buf[SIZE..m];
      assert (buf + more)[m..m + view.header.payloadSize] == buf[m..m + view.header.payloadSize];
    }
  }

  /** Which verdict the raw bytes get: each error in the order in which it is looked for. */
  lemma {:induction false} VerdictOfBytes(little: bool, pb: Protobuf, buf: Bytes, limits: ProtocolLimits)
    requires |buf| >= SIZE
    ensures
      var error := DecodeFrame(little, pb, buf, limits).error;
      var magic := buf[..4] == [0x58, 0x52, 0x50, 0x43];
      var ours := magic && buf[4] == 1;
      var metadataSize, payloadSize := FromBig(buf[8..12]), FromBig(buf[12..16]);
      var fits := metadataSize <= limits.maxMetadataSize && payloadSize <= limits.maxPayloadSize;
      var complete := 24 + metadataSize + payloadSize <= |buf|;
      && (error == InvalidMagic <==> !magic)
      && (error == UnsupportedVersion <==> magic && buf[4] != 1)
      && (error == FrameTooLarge <==> ours && !fits)
      && (error == NeedMoreData <==> ours && fits && !complete)
      && (error == InvalidMessageType <==> ours && fits && complete && buf[5] != 1 && buf[5] != 2)
      && (error == NoError || error == DecodeError <==> ours && fits && complete && (buf[5] == 1 || buf[5] == 2))
  {
    hide Big, FromBig, Load, Load64;
    var prefix := buf[..SIZE];
    assert prefix[..4] == buf[..4] && prefix[8..12] == buf[8..12] && prefix[12..16] == buf[12..16];
    MagicBytes(buf[..4]);
  }

  lemma {:induction false} MagicBytes(s: Bytes)
    requires |s| == 4
    ensures FromBig(s) == MAGIC <==> s == [0x58, 0x52, 0x50, 0x43]
  {
    Powers();
    assert Big(4, MAGIC) == [0x58, 0x52, 0x50, 0x43] by {
      assert Big(1, 0x58) == [0x58] && Big(2, 0x5852) == [0x58, 0x52] && Big(3, 0x585250) == [0x58, 0x52, 0x50];
    }
    BigInverts(s);
    FromBigInverts(4, MAGIC);
  }

  /** Bytes are consumed exactly when a complete frame is established, and then at least a prefix and
      never more than there are; waiting for more bytes is bounded by the limits; success carries
      exactly one envelope. */
  lemma {:induction false} DecodeConsumes(little: bool, pb: Protobuf, buf: Bytes, limits: ProtocolLimits)
    ensures
      var d := DecodeFrame(little, pb, buf, limits);
      && (d.consumed == 0 <==> ReadFrame(little, buf, limits).NoFrame?)
      && (d.consumed > 0 ==> SIZE <= d.consumed <= |buf|)
      && (d.error == NeedMoreData ==> |buf| < SIZE + limits.maxMetadataSize + limits.maxPayloadSize)
      && (d.error == NoError <==> d.request.Some? || d.response.Some?)
      && !(d.request.Some? && d.response.Some?)
      && (d.error == NoError ==> d.consumed > 0)
  {
    hide Decode;
  }

  // ----- Round trips

  /** A request that was encoded decodes to itself, whatever follows it on the stream, exactly when
      its names are UTF-8 and its metadata is not too long for Protobuf; otherwise the frame is
      consumed and reported as undecodable. */
  lemma {:induction false} RequestRoundTrip(little: bool, pb: Protobuf, request: Request, rest: Bytes,
      limits: ProtocolLimits)
    requires ProtobufLaws(pb) && EncodesRequest(pb, request, limits)
    ensures
      var frame := RequestFrame(pb, request);
      var d := DecodeFrame(little, pb, frame + rest, limits);
      d == if Decodable(pb, request)
           then DecodeResult(NoError, |frame|, Some(request), None)
           else DecodeResult(DecodeError, |frame|, None, None)
  {
    hide Decode, EncodeHeader, ReadFrame;
    var metadata := pb.serializeRequest(request.serviceName, request.methodName).value;
    ReadFrameInverts(little, REQUEST, request.requestId, metadata, request.payload, rest, limits);
  }

  predicate Decodable(pb: Protobuf, request: Request)
    requires pb.serializeRequest(request.serviceName, request.methodName).Some?
  {
    && pb.wellFormed(request.serviceName) && pb.wellFormed(request.methodName)
    && |pb.serializeRequest(request.serviceName, request.methodName).value| <= INT_MAX
  }

  /** What the peer reads for a status that was sent: success loses its text, error codes are kept. */
  function SeenStatus(status: Status): Status {
    DecodeStatus(status.code, status.message)
  }

  /** The status travels in metadata that Protobuf produced, and not merely in empty metadata. */
  predicate Serialized(pb: Protobuf, status: Status) {
    status != Status(OK, []) && pb.serializeResponse(status.code, status.message).Some?
  }

  /** A response that was encoded, whatever follows it on the stream.  Without serialized metadata the
      peer reads success; otherwise it reads the status exactly when its text is UTF-8 and the
      metadata is not too long for Protobuf. */
  lemma {:induction false} ResponseRoundTrip(little: bool, pb: Protobuf, response: Response, rest: Bytes,
      limits: ProtocolLimits)
    requires ProtobufLaws(pb) && Fits(EncodeResponseMetadata(pb, response.status), response.payload, limits)
    ensures
      var frame := ResponseFrame(pb, response);
      var d := DecodeFrame(little, pb, frame + rest, limits);
      d == if !Serialized(pb, response.status)
           then DecodeResult(NoError, |frame|, None, Some(response.(status := Status(OK, []))))
           else if pb.wellFormed(response.status.message) && |EncodeResponseMetadata(pb, response.status)| <= INT_MAX
           then DecodeResult(NoError, |frame|, None, Some(response.(status := SeenStatus(response.status))))
           else DecodeResult(DecodeError, |frame|, None, None)
  {
    hide Decode, EncodeHeader, ReadFrame;
    var metadata := EncodeResponseMetadata(pb, response.status);
    ReadFrameInverts(little, RESPONSE, response.requestId, metadata, response.payload, rest, limits);
  }

  /** The status survives the trip exactly when it is an error code of the protocol or success without text. */
  lemma {:induction false} StatusSurvives(status: Status)
    ensures SeenStatus(status) == status <==>
              status == Status(0, []) || status.code in {2, 3, 4, 7, 8, 9, 10, 11, 12}
    ensures SeenStatus(status).code == OK <==> status.code == OK
  {
  }

  /** What a reader makes of any integer on the wire: only its lowest byte counts, success carries no text,
      the nine error codes keep theirs, and everything else is data loss. */
  lemma {:induction false} AnyWireCode(code: int, message: Bytes)
    ensures DecodeStatus(code, message) == DecodeStatus(code % 256, message)
    ensures code % 256 == 0 ==> DecodeStatus(code, message) == Status(0, [])
    ensures code % 256 in {2, 3, 4, 7, 8, 9, 10, 11, 12} ==> DecodeStatus(code, message) == Status(code % 256, message)
    ensures code % 256 !in {0, 2, 3, 4, 7, 8, 9, 10, 11, 12} ==>
              DecodeStatus(code, message) == Status(12, Text("response contains an invalid RPC status code"))
  {
  }

  /** Exactly when an encoded response is read as success: it is one and can be read, or its status
      could not be serialized.  In the second case even an error reads as success. */
  lemma {:induction false} ReadsAsSuccessExactlyWhen(little: bool, pb: Protobuf, response: Response, rest: Bytes,
      limits: ProtocolLimits)
    requires ProtobufLaws(pb) && Fits(EncodeResponseMetadata(pb, response.status), response.payload, limits)
    ensures
      var Status(code, message) := response.status;
      var d := DecodeFrame(little, pb, ResponseFrame(pb, response) + rest, limits);
      var metadata := EncodeResponseMetadata(pb, response.status);
      (d.response.Some? && d.response.value.status.code == OK) <==>
        || response.status == Status(OK, [])
        || pb.serializeResponse(code, message).None?
        || (code == OK && pb.wellFormed(message) && |metadata| <= INT_MAX)
  {
    hide DecodeFrame, ResponseFrame;
    ResponseRoundTrip(little, pb, response, rest, limits);
    StatusSurvives(response.status);
  }

  /** Whatever the error: if Protobuf cannot serialize it, the peer reads success. */
  lemma {:induction false} UnserializableErrorReadsAsSuccess(little: bool, pb: Protobuf, response: Response,
      rest: Bytes, limits: ProtocolLimits)
    requires ProtobufLaws(pb) && Fits([], response.payload, limits)
    requires pb.serializeResponse(response.status.code, response.status.message).None?
    ensures DecodeFrame(little, pb, ResponseFrame(pb, response) + rest, limits).response ==
            Some(response.(status := Status(OK, [])))
  {
    hide DecodeFrame, ResponseFrame;
    ResponseRoundTrip(little, pb, response, rest, limits);
  }

  /** A response keeps whether it is a success exactly when it can be read at all and is not an error
      that could not be serialized. */
  lemma {:induction false} SuccessIsPreservedExactlyWhen(little: bool, pb: Protobuf, response: Response, rest: Bytes,
      limits: ProtocolLimits)
    requires ProtobufLaws(pb) && Fits(EncodeResponseMetadata(pb, response.status), response.payload, limits)
    ensures
      var d := DecodeFrame(little, pb, ResponseFrame(pb, response) + rest, limits);
      var status := response.status;
      (d.response.Some? && (d.response.value.status.code == OK <==> status.code == OK)) <==>
        if Serialized(pb, status) then pb.wellFormed(status.message) && |EncodeResponseMetadata(pb, status)| <= INT_MAX
        else status.code == OK
  {
    hide DecodeFrame, ResponseFrame;
    ResponseRoundTrip(little, pb, response, rest, limits);
    StatusSurvives(response.status);
  }
}
