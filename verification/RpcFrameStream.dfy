/**
 Incremental request decoding over one connection's bytes (src/server/rpc_frame_stream.cpp): the
 buffer with its movable readable window, the batch of decoded requests and the feeding loop.
 */
module RpcFrameStream {
  import opened Common
  import opened FrameHeader
  import opened FrameCodec

  /** Byte storage whose consumed prefix is removed lazily.  `capacity` is the storage the string
      happens to have; how it grows is left open. */
  class ByteBuffer {
    var buffer: Bytes
    var readOffset: nat
    var capacity: nat

    ghost predicate Valid()
      reads this
    {
      |buffer| <= capacity && readOffset <= |buffer| && (readOffset == |buffer| ==> readOffset == 0)
    }

    function ReadableBytes(): Bytes
      requires readOffset <= |buffer|
      reads this
    {
      buffer[readOffset..]
    }

    constructor ()
      ensures Valid() && ReadableBytes() == []
    {
      buffer, readOffset, capacity := [], 0, 15;
    }

    method Append(bytes: Bytes)
      requires Valid()
      modifies this
      ensures Valid() && ReadableBytes() == old(ReadableBytes()) + bytes
    {
      if bytes == [] { return; }
      if |bytes| > capacity - |buffer| { Compact(); }
      buffer := buffer + bytes;
      capacity := *;
      if capacity < |buffer| { capacity := |buffer|; }
    }

    method Compact()
      requires Valid()
      modifies this
      ensures Valid() && ReadableBytes() == old(ReadableBytes()) && readOffset == 0
    {
      if readOffset == 0 { return; }
      buffer := buffer[readOffset..];
      readOffset := 0;
    }

    /** Consuming more than is readable would abort the process; callers show that they do not. */
    method Consume(n: nat)
      requires Valid() && n <= |ReadableBytes()|
      modifies this
      ensures Valid() && ReadableBytes() == old(ReadableBytes())[n..]
    {
      readOffset := readOffset + n;
      if readOffset == |buffer| {
        buffer := [];
        readOffset := 0;
      }
    }
  }

  /** The first request is kept apart from the others. */
  class RequestEnvelopeBatch {
    var first: Option<Request>
    var additional: seq<Request>

    ghost predicate Valid()
      reads this
    {
      first.None? ==> additional == []
    }

    function Requests(): seq<Request>
      reads this
    {
      (if first.None? then [] else [first.value]) + additional
    }

    constructor ()
      ensures Valid() && Requests() == []
    {
      first, additional := None, [];
    }

    method Push(request: Request)
      requires Valid()
      modifies this
      ensures Valid() && Requests() == old(Requests()) + [request]
    {
      if first.None? {
        first := Some(request);
      } else {
        additional := additional + [request];
      }
    }

    method Size() returns (n: nat)
      ensures n == |Requests()|
    {
      n := (if first.Some? then 1 else 0) + |additional|;
    }

    method At(index: nat) returns (request: Request)
      requires index < |Requests()|
      ensures request == Requests()[index]
    {
      if first.None? { return additional[index]; }
      if index == 0 { return first.value; }
      request := additional[index - 1];
    }

    /** Hands the requests over in decode order and stops after the first one that is refused. */
    method ConsumeEach(accepts: Request -> bool) returns (handed: seq<Request>, all: bool)
      requires Valid()
      ensures handed <= Requests() && (all <==> forall q :: q in Requests() ==> accepts(q))
      ensures all ==> handed == Requests()
      ensures !all ==> handed != [] && !accepts(handed[|handed| - 1])
      ensures forall i :: 0 <= i < |handed| - 1 ==> accepts(handed[i])
    {
      handed := [];
      if first.Some? {
        handed := [first.value];
        if !accepts(first.value) { return handed, false; }
      }
      ghost var start := handed;
      for i := 0 to |additional|
        invariant handed == start + additional[..i]
        invariant forall k :: 0 <= k < |handed| ==> accepts(handed[k])
      {
        handed := handed + [additional[i]];
        assert handed == start + additional[..i + 1];
        if !accepts(additional[i]) {
          assert Requests() == handed + additional[i + 1..];
          return handed, false;
        }
      }
      all := true;
      assert handed == Requests();
    }
  }

  // ----- What a stream of bytes means

  datatype Parsed = Parsed(requests: seq<Request>, rest: Bytes, closed: bool)

  datatype Decoder = Decoder(little: bool, pb: Protobuf, limits: ProtocolLimits)

  function DecodeNext(d: Decoder, bytes: Bytes): DecodeResult {
    DecodeFrame(d.little, d.pb, bytes, d.limits)
  }

  /** Requests in front of the first incomplete or bad frame. */
  function Parse(d: Decoder, bytes: Bytes): Parsed
    decreases |bytes|
  {
    if bytes == [] then Parsed([], [], false)
    else
      var decoded := DecodeNext(d, bytes);
      if decoded.error == NeedMoreData then Parsed([], bytes, false)
      else if decoded.error != NoError || decoded.request.None? then Parsed([], bytes, true)
      else
        DecodeConsumes(d.little, d.pb, bytes, d.limits);
        var tail := Parse(d, bytes[decoded.consumed..]);
        tail.(requests := [decoded.request.value] + tail.requests)
  }

  /** Parsing in two pieces: what the first piece settles stays, its unfinished rest is continued. */
  lemma {:induction false} ParseContinues(d: Decoder, a: Bytes, b: Bytes)
    ensures
      var p := Parse(d, a);
      var q := Parse(d, p.rest + b);
      var whole := Parse(d, a + b);
      if p.closed then whole.requests == p.requests && whole.closed
      else whole == q.(requests := p.requests + q.requests)
    decreases |a|
  {
    hide DecodeNext;
    if a == [] {
      assert a + b == b == [] + b;
    } else {
      var decoded := DecodeNext(d, a);
      if decoded.error != NeedMoreData {
        assert DecodeNext(d, a + b) == decoded by {
          NextIs(d, a);
          NextIs(d, a + b);
          VerdictIsStable(d.little, d.pb, a, b, d.limits);
        }
        if decoded.error == NoError && decoded.request.Some? {
          assert 0 < decoded.consumed <= |a| by { DecodeConsumes(d.little, d.pb, a, d.limits); NextIs(d, a); }
          var rest := a[decoded.consumed..];
          assert (a + b)[decoded.consumed..] == rest + b;
          ParseContinues(d, rest, b);
        }
      }
    }
  }

  lemma {:induction false} NextIs(d: Decoder, bytes: Bytes)
    ensures DecodeNext(d, bytes) == DecodeFrame(d.little, d.pb, bytes, d.limits)
  {
  }

  /** While the stream is open, the bytes waiting for the rest of their frame are bounded. */
  lemma {:induction false} RestIsBounded(d: Decoder, bytes: Bytes)
    ensures
      var p := Parse(d, bytes);
      !p.closed ==> p.rest == [] || |p.rest| < SIZE + d.limits.maxMetadataSize + d.limits.maxPayloadSize
    decreases |bytes|
  {
    hide DecodeFrame;
    if bytes != [] {
      DecodeConsumes(d.little, d.pb, bytes, d.limits);
      var decoded := DecodeNext(d, bytes);
      if decoded.error == NoError && decoded.request.Some? { RestIsBounded(d, bytes[decoded.consumed..]); }
    }
  }

  /** The first step of `Parse`. */
  lemma {:induction false} ParseOne(d: Decoder, bytes: Bytes)
    ensures
      var decoded := DecodeNext(d, bytes);
      if bytes == [] then Parse(d, bytes) == Parsed([], [], false)
      else if decoded.error == NeedMoreData then Parse(d, bytes) == Parsed([], bytes, false)
      else if decoded.error != NoError || decoded.request.None? then Parse(d, bytes) == Parsed([], bytes, true)
      else
        && 0 < decoded.consumed <= |bytes|
        && var tail := Parse(d, bytes[decoded.consumed..]);
           Parse(d, bytes) == tail.(requests := [decoded.request.value] + tail.requests)
  {
    hide DecodeFrame;
    DecodeConsumes(d.little, d.pb, bytes, d.limits);
  }

  /** `given` was decoded of what `all` says, and `unread` is still to be decoded unless closed. */
  ghost predicate StillToParse(d: Decoder, all: Parsed, given: seq<Request>, unread: Bytes, closed: bool) {
    if closed then all == Parsed(given, unread, true)
    else var p := Parse(d, unread); all == p.(requests := given + p.requests)
  }

  class RpcFrameStream {
    const decoder: Decoder
    const buffer: ByteBuffer
    var closed: bool

    ghost predicate Valid()
      reads this, buffer
    {
      buffer.Valid()
    }

    function Unread(): Bytes
      requires buffer.readOffset <= |buffer.buffer|
      reads buffer
    {
      buffer.ReadableBytes()
    }

    constructor (decoder: Decoder)
      ensures Valid() && fresh(buffer) && !closed && Unread() == [] && this.decoder == decoder
    {
      this.decoder := decoder;
      buffer := new ByteBuffer();
      closed := false;
    }

    /** A closed stream gives nothing; an open one gives what its unread bytes and the new ones mean. */
    method FeedBytes(bytes: Bytes) returns (requests: RequestEnvelopeBatch, isClosed: bool)
      requires Valid()
      modifies this, buffer
      ensures Valid() && fresh(requests) && requests.Valid() && isClosed == closed
      ensures old(closed) ==> closed && requests.Requests() == [] && Unread() == old(Unread())
      ensures !old(closed) ==> Parsed(requests.Requests(), Unread(), closed) == Parse(decoder, old(Unread()) + bytes)
    {
      if closed {
        requests := new RequestEnvelopeBatch();
        return requests, true;
      }
      buffer.Append(bytes);
      requests := DecodeAvailableRequests();
      isClosed := closed;
    }

    method DecodeAvailableRequests() returns (requests: RequestEnvelopeBatch)
      requires Valid() && !closed
      modifies this, buffer
      ensures Valid() && fresh(requests) && requests.Valid()
      ensures Parsed(requests.Requests(), Unread(), closed) == Parse(decoder, old(Unread()))
    {
      hide DecodeNext, Parse;
      requests := new RequestEnvelopeBatch();
      ghost var all := Parse(decoder, Unread());
      while |Unread()| != 0 && !closed
        invariant Valid() && fresh(requests) && requests.Valid()
        invariant StillToParse(decoder, all, requests.Requests(), Unread(), closed)
        decreases |Unread()|, if closed then 0 else 1
      {
        ParseOne(decoder, Unread());
        var decoded := DecodeNext(decoder, Unread());
        if decoded.error == NeedMoreData { return; }
        if decoded.error != NoError || decoded.request.None? {
          closed := true;
          return;
        }
        buffer.Consume(decoded.consumed);
        requests.Push(decoded.request.value);
      }
      ParseOne(decoder, Unread());
    }
  }

  // ----- Whole connections

  /** Feeding chunks one after the other: all requests given out, and the stream afterwards. */
  function Feed(d: Decoder, s: Parsed, chunks: seq<Bytes>): Parsed
    decreases |chunks|
  {
    if chunks == [] then s
    else if s.closed then Feed(d, s, chunks[1..])
    else
      var p := Parse(d, s.rest + chunks[0]);
      Feed(d, p.(requests := s.requests + p.requests), chunks[1..])
  }

  function Joined(chunks: seq<Bytes>): Bytes {
    if chunks == [] then [] else chunks[0] + Joined(chunks[1..])
  }

  /** The receive loop of a connection feeds its stream every chunk in turn. */
  method FeedEach(stream: RpcFrameStream, chunks: seq<Bytes>) returns (requests: seq<Request>)
    requires stream.Valid()
    modifies stream, stream.buffer
    ensures stream.Valid()
    ensures Parsed(requests, stream.Unread(), stream.closed) ==
            Feed(stream.decoder, Parsed([], old(stream.Unread()), old(stream.closed)), chunks)
  {
    hide Parse;
    requests := [];
    ghost var all := Feed(stream.decoder, Parsed([], stream.Unread(), stream.closed), chunks);
    for i := 0 to |chunks|
      invariant stream.Valid()
      invariant all == Feed(stream.decoder, Parsed(requests, stream.Unread(), stream.closed), chunks[i..])
    {
      assert chunks[i..][0] == chunks[i] && chunks[i..][1..] == chunks[i + 1..];
      ghost var was := Parsed(requests, stream.Unread(), stream.closed);
      var batch, closed := stream.FeedBytes(chunks[i]);
      if was.closed { assert requests + batch.Requests() == requests; }
      requests := requests + batch.Requests();
    }
  }

  lemma {:induction false} FeedClosed(d: Decoder, s: Parsed, chunks: seq<Bytes>)
    requires s.closed
    ensures Feed(d, s, chunks) == s
    decreases |chunks|
  {
    if chunks != [] { FeedClosed(d, s, chunks[1..]); }
  }

  lemma {:induction false} FeedIsParse(d: Decoder, s: Parsed, chunks: seq<Bytes>)
    requires !s.closed && Parse(d, s.rest) == Parsed([], s.rest, false)
    ensures
      var whole := Parse(d, s.rest + Joined(chunks));
      var fed := Feed(d, s, chunks);
      && fed.requests == s.requests + whole.requests && fed.closed == whole.closed
      && (!fed.closed ==> fed.rest == whole.rest)
    decreases |chunks|
  {
    hide DecodeNext;
    if chunks == [] {
      assert s.rest + [] == s.rest;
    } else {
      var p := Parse(d, s.rest + chunks[0]);
      var s' := p.(requests := s.requests + p.requests);
      ParseContinues(d, s.rest + chunks[0], Joined(chunks[1..]));
      assert s.rest + Joined(chunks) == s.rest + chunks[0] + Joined(chunks[1..]);
      if p.closed {
        FeedClosed(d, s', chunks[1..]);
      } else {
        RestIsUnfinished(d, s.rest + chunks[0]);
        FeedIsParse(d, s', chunks[1..]);
      }
    }
  }

  lemma {:induction false} RestIsUnfinished(d: Decoder, bytes: Bytes)
    requires !Parse(d, bytes).closed
    ensures Parse(d, Parse(d, bytes).rest) == Parsed([], Parse(d, bytes).rest, false)
    decreases |bytes|
  {
    hide DecodeFrame;
    if bytes != [] {
      DecodeConsumes(d.little, d.pb, bytes, d.limits);
      var decoded := DecodeNext(d, bytes);
      if decoded.error == NoError && decoded.request.Some? { RestIsUnfinished(d, bytes[decoded.consumed..]); }
    }
  }

  /** How TCP cuts the bytes does not matter: any two chunkings of the same bytes give the same
      requests, close the stream or not alike, and leave the same unfinished bytes. */
  lemma {:induction false} ChunkingDoesNotMatter(d: Decoder, chunks: seq<Bytes>, others: seq<Bytes>)
    requires Joined(chunks) == Joined(others)
    ensures
      var empty := Parsed([], [], false);
      var a, b := Feed(d, empty, chunks), Feed(d, empty, others);
      a.requests == b.requests && a.closed == b.closed && (!a.closed ==> a.rest == b.rest)
  {
    hide DecodeNext;
    FeedIsParse(d, Parsed([], [], false), chunks);
    FeedIsParse(d, Parsed([], [], false), others);
  }

  // ----- From client to server

  ghost predicate AllSendable(d: Decoder, requests: seq<Request>) {
    forall i :: 0 <= i < |requests| ==> EncodesRequest(d.pb, requests[i], d.limits) && Decodable(d.pb, requests[i])
  }

  function Encoded(d: Decoder, requests: seq<Request>): Bytes
    requires forall i :: 0 <= i < |requests| ==> EncodesRequest(d.pb, requests[i], d.limits)
  {
    if requests == [] then []
    else
      assert EncodesRequest(d.pb, requests[0], d.limits);
      RequestFrame(d.pb, requests[0]) + Encoded(d, requests[1..])
  }

  /** Encoded requests in front of any bytes decode to themselves, and the rest means what it means alone. */
  lemma {:induction false} EncodedThen(d: Decoder, requests: seq<Request>, tail: Bytes)
    requires ProtobufLaws(d.pb) && AllSendable(d, requests)
    ensures
      var p := Parse(d, tail);
      Parse(d, Encoded(d, requests) + tail) == p.(requests := requests + p.requests)
  {
    hide DecodeFrame, DecodeNext, RequestFrame, ProtobufLaws, Parse;
    if requests == [] {
      assert [] + tail == tail;
    } else {
      var frame, more := RequestFrame(d.pb, requests[0]), Encoded(d, requests[1..]);
      assert EncodesRequest(d.pb, requests[0], d.limits) && Decodable(d.pb, requests[0]);
      EncodedThen(d, requests[1..], tail);
      FirstThen(d, requests[0], more + tail);
      Regroup(frame, more, tail, requests, Parse(d, tail).requests);
    }
  }

  lemma {:induction false} Regroup(frame: Bytes, more: Bytes, tail: Bytes, requests: seq<Request>, others: seq<Request>)
    requires requests != []
    ensures frame + more + tail == frame + (more + tail)
    ensures [requests[0]] + (requests[1..] + others) == requests + others
  {
  }

  lemma {:induction false} FirstThen(d: Decoder, request: Request, rest: Bytes)
    requires ProtobufLaws(d.pb) && EncodesRequest(d.pb, request, d.limits) && Decodable(d.pb, request)
    ensures
      var p := Parse(d, rest);
      Parse(d, RequestFrame(d.pb, request) + rest) == p.(requests := [request] + p.requests)
  {
    hide DecodeFrame, RequestFrame, ProtobufLaws, Parse;
    var frame := RequestFrame(d.pb, request);
    RequestRoundTrip(d.little, d.pb, request, rest, d.limits);
    DecodeConsumes(d.little, d.pb, frame + rest, d.limits);
    ParseOne(d, frame + rest);
    assert (frame + rest)[|frame|..] == rest;
  }

  /** A bad frame, or a response, behind valid requests closes the stream after giving exactly those,
      however the bytes are cut. */
  lemma {:induction false} BadFrameCloses(d: Decoder, requests: seq<Request>, bad: Bytes, chunks: seq<Bytes>)
    requires ProtobufLaws(d.pb) && AllSendable(d, requests) && Joined(chunks) == Encoded(d, requests) + bad
    requires bad != [] && DecodeNext(d, bad).error != NeedMoreData
    requires DecodeNext(d, bad).error != NoError || DecodeNext(d, bad).response.Some?
    ensures
      var fed := Feed(d, Parsed([], [], false), chunks);
      fed.requests == requests && fed.closed
  {
    hide DecodeFrame, ProtobufLaws;
    DecodeConsumes(d.little, d.pb, bad, d.limits);
    EncodedThen(d, requests, bad);
    FeedIsParse(d, Parsed([], [], false), chunks);
    assert [] + Joined(chunks) == Joined(chunks);
  }

  /** Requests encoded one after the other and cut into chunks anywhere arrive as exactly those
      requests in that order, with nothing left over and the stream open. */
  lemma {:induction false} RequestsArrive(d: Decoder, requests: seq<Request>, chunks: seq<Bytes>)
    requires ProtobufLaws(d.pb) && AllSendable(d, requests) && Joined(chunks) == Encoded(d, requests)
    ensures Feed(d, Parsed([], [], false), chunks) == Parsed(requests, [], false)
  {
    hide DecodeNext, ProtobufLaws;
    EncodedThen(d, requests, []);
    FeedIsParse(d, Parsed([], [], false), chunks);
    assert [] + Joined(chunks) == Joined(chunks) == Encoded(d, requests) + [];
  }
}
