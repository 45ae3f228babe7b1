/**
 The length-prefixed codec of the JSON example and its handler, fed by the read
 loop. A body is opaque; `valid` says which bodies the JSON parser accepts.
 */
module JsonFraming {
  import opened Chunks
  import opened Codecs
  import opened Connections
  import opened Gfds
  import opened Sockets

  const HEAD_SIZE: nat := 4

  /** Which bodies parse, and how the value of a body is printed again. */
  type Parser = Bytes -> bool
  type Printer = Bytes -> Bytes

  function FromBigEndian(b: Bytes): (n: nat)
    requires |b| == HEAD_SIZE
    ensures n < U32
  {
    b[0] as nat * 0x100_0000 + b[1] as nat * 0x1_0000 + b[2] as nat * 0x100 + b[3] as nat
  }

  /** `put_u32(len as u32)`: the cast keeps the low 32 bits. */
  function PutU32(n: nat): (b: Bytes)
    ensures |b| == HEAD_SIZE
  {
    var m := n % U32;
    [(m / 0x100_0000) as Byte, (m / 0x1_0000 % 0x100) as Byte, (m / 0x100 % 0x100) as Byte, (m % 0x100) as Byte]
  }

  /** The header holds the length modulo 2^32. */
  lemma HeaderRoundTrip(n: nat)
    ensures FromBigEndian(PutU32(n)) == n % U32
  {
    var m := n % U32;
    assert m / 0x1_0000 == m / 0x100_0000 * 0x100 + m / 0x1_0000 % 0x100;
    assert m / 0x100 == m / 0x1_0000 * 0x100 + m / 0x100 % 0x100;
  }

  /** The number that digits to the base 256 stand for, the most significant first. */
  function Value(digits: Bytes): nat {
    if digits == [] then 0
    else
      var last := |digits| - 1;
      Value(digits[..last]) * 0x100 + digits[last] as nat
  }

  /** The header is written and read most significant byte first. */
  lemma HeaderIsBigEndian(header: Bytes, n: nat)
    requires |header| == HEAD_SIZE
    ensures FromBigEndian(header) == Value(header)
    ensures n < U32 ==> Value(PutU32(n)) == n
  {
    ValueOfFour(header);
    ValueOfFour(PutU32(n));
    HeaderRoundTrip(n);
  }

  lemma ValueOfFour(b: Bytes)
    requires |b| == HEAD_SIZE
    ensures Value(b) == FromBigEndian(b)
  {
    assert b[..3][..2] == b[..2] && b[..2][..1] == b[..1] && b[..1][..0] == [];
    assert Value(b[..1]) == b[0] as nat;
    assert Value(b[..2]) == b[0] as nat * 0x100 + b[1] as nat;
  }

  function JsonDecode(valid: Parser, src: Bytes): (r: DecodeStep)
    ensures r.taken <= |src|
    ensures if r.NeedMore? then r.taken == 0 else r.taken >= HEAD_SIZE
  {
    if |src| < HEAD_SIZE then NeedMore(0)
    else
      var len := FromBigEndian(src[..HEAD_SIZE]);
      if |src| < HEAD_SIZE + len then NeedMore(0)
      else
        var body := src[HEAD_SIZE..][..len];
        if valid(body) then Message(body, HEAD_SIZE + len) else Malformed(HEAD_SIZE + len)
  }

  function JsonEncode(body: Bytes): Bytes {
    PutU32(|body|) + body
  }

  /** A message is named by the body it was parsed from; sending it renders its value afresh. */
  function JsonCodec(valid: Parser, render: Printer): Codec {
    CodecFns([],
             (state: Bytes, src: Bytes) => (JsonDecode(valid, src), state),
             (state: Bytes, msg: Bytes) => (Some(JsonEncode(render(msg))), state))
  }

  function EncodeAll(bodies: seq<Bytes>): Bytes {
    if bodies == [] then [] else JsonEncode(bodies[0]) + EncodeAll(bodies[1..])
  }

  /** A frame survives the trip, whatever follows it, exactly when its length fits the header. */
  lemma FrameRoundTripIff(valid: Parser, body: Bytes, rest: Bytes)
    ensures JsonDecode(valid, JsonEncode(body) + rest) == Message(body, HEAD_SIZE + |body|)
            <==> |body| < U32 && valid(body)
  {
    var src := JsonEncode(body) + rest;
    assert src[..HEAD_SIZE] == PutU32(|body|);
    HeaderRoundTrip(|body|);
    if |body| < U32 {
      assert src[HEAD_SIZE..][..|body|] == body;
    }
  }

  /** A frame whose body does not parse is taken whole, header and body, and no more. */
  lemma RejectedFrame(valid: Parser, body: Bytes, rest: Bytes)
    requires |body| < U32 && !valid(body)
    ensures JsonDecode(valid, JsonEncode(body) + rest) == Malformed(HEAD_SIZE + |body|)
    ensures (JsonEncode(body) + rest)[HEAD_SIZE + |body|..] == rest
  {
    var src := JsonEncode(body) + rest;
    assert src[..HEAD_SIZE] == PutU32(|body|);
    HeaderRoundTrip(|body|);
    assert src[HEAD_SIZE..][..|body|] == body;
  }

  /** As long as part of a frame is missing the decoder waits, and takes nothing. */
  lemma PartOfFrameWaits(valid: Parser, body: Bytes, part: Bytes)
    requires |body| < U32 && part < JsonEncode(body)
    ensures JsonDecode(valid, part) == NeedMore(0)
  {
    if |part| >= HEAD_SIZE {
      assert part[..HEAD_SIZE] == JsonEncode(body)[..HEAD_SIZE] == PutU32(|body|);
      HeaderRoundTrip(|body|);
    }
  }

  /** More input never changes what a complete frame decodes to. */
  lemma DecodeIsStable(valid: Parser, src: Bytes, more: Bytes)
    requires !JsonDecode(valid, src).NeedMore?
    ensures JsonDecode(valid, src + more) == JsonDecode(valid, src)
    ensures (src + more)[JsonDecode(valid, src).taken..] == src[JsonDecode(valid, src).taken..] + more
  {
    var len := FromBigEndian(src[..HEAD_SIZE]);
    assert (src + more)[..HEAD_SIZE] == src[..HEAD_SIZE];
    assert (src + more)[HEAD_SIZE..][..len] == src[HEAD_SIZE..][..len];
  }

  /** The parseable messages of a byte stream, in order. */
  function Messages(valid: Parser, src: Bytes): seq<Bytes>
    decreases |src|
  {
    match JsonDecode(valid, src)
    case NeedMore(_) => []
    case Message(body, taken) => [body] + Messages(valid, src[taken..])
    case Malformed(taken) => Messages(valid, src[taken..])
  }

  /** What is left of the stream behind its last complete frame. */
  function Tail(valid: Parser, src: Bytes): Bytes
    decreases |src|
  {
    var step := JsonDecode(valid, src);
    if step.NeedMore? then src else Tail(valid, src[step.taken..])
  }

  /** No complete frame of the stream is rejected by the parser. */
  predicate WellFormed(valid: Parser, src: Bytes)
    decreases |src|
  {
    match JsonDecode(valid, src)
    case NeedMore(_) => true
    case Message(_, taken) => WellFormed(valid, src[taken..])
    case Malformed(_) => false
  }

  /** Reading a stream in two parts is reading it at once. */
  lemma {:induction false} MessagesAppend(valid: Parser, src: Bytes, more: Bytes)
    ensures Messages(valid, src + more) ==
            Messages(valid, src) + Messages(valid, Tail(valid, src) + more)
    ensures Tail(valid, src + more) == Tail(valid, Tail(valid, src) + more)
    ensures WellFormed(valid, src + more) <==>
            WellFormed(valid, src) && WellFormed(valid, Tail(valid, src) + more)
    decreases |src|
  {
    var step := JsonDecode(valid, src);
    if !step.NeedMore? {
      DecodeIsStable(valid, src, more);
      MessagesAppend(valid, src[step.taken..], more);
    }
  }

  /** Decoding inverts encoding a whole list of messages, and leaves nothing over. */
  lemma {:induction false} MessagesInvertEncodeAll(valid: Parser, bodies: seq<Bytes>)
    requires forall i :: 0 <= i < |bodies| ==> |bodies[i]| < U32 && valid(bodies[i])
    ensures Messages(valid, EncodeAll(bodies)) == bodies
    ensures Tail(valid, EncodeAll(bodies)) == [] && WellFormed(valid, EncodeAll(bodies))
  {
    if bodies != [] {
      var rest := EncodeAll(bodies[1..]);
      FrameRoundTripIff(valid, bodies[0], rest);
      MessagesInvertEncodeAll(valid, bodies[1..]);
      assert EncodeAll(bodies)[HEAD_SIZE + |bodies[0]|..] == rest;
    }
  }

  /** The bodies that parse, in order. */
  function Parseable(valid: Parser, bodies: seq<Bytes>): seq<Bytes> {
    if bodies == [] then []
    else (if valid(bodies[0]) then [bodies[0]] else []) + Parseable(valid, bodies[1..])
  }

  /**
   A stream of any frames, whole or cut off, holds the messages that parse: a rejected
   frame is skipped without a trace, and the cut-off one waits for the rest of it.
   */
  lemma {:induction false} RejectedAreSkipped(valid: Parser, bodies: seq<Bytes>, body: Bytes, part: Bytes)
    requires forall i :: 0 <= i < |bodies| ==> |bodies[i]| < U32
    requires |body| < U32 && part < JsonEncode(body)
    ensures Messages(valid, EncodeAll(bodies) + part) == Parseable(valid, bodies)
    ensures Tail(valid, EncodeAll(bodies) + part) == part
  {
    hide JsonDecode, JsonEncode;
    if bodies == [] {
      assert [] + part == part;
      PartOfFrameWaits(valid, body, part);
    } else {
      Assoc(JsonEncode(bodies[0]), EncodeAll(bodies[1..]), part);
      OneFrame(valid, bodies[0], EncodeAll(bodies[1..]) + part);
      RejectedAreSkipped(valid, bodies[1..], body, part);
    }
  }

  lemma OneFrame(valid: Parser, body: Bytes, rest: Bytes)
    requires |body| < U32
    ensures Messages(valid, JsonEncode(body) + rest) == (if valid(body) then [body] else []) + Messages(valid, rest)
    ensures Tail(valid, JsonEncode(body) + rest) == Tail(valid, rest)
  {
    if valid(body) {
      FrameRoundTripIff(valid, body, rest);
      assert (JsonEncode(body) + rest)[HEAD_SIZE + |body|..] == rest;
    } else {
      RejectedFrame(valid, body, rest);
    }
  }

  // ----- the handler -----

  /** The bodies as they are sent back. */
  function Rendered(render: Printer, bodies: seq<Bytes>): (r: seq<Bytes>)
    ensures |r| == |bodies| && forall i :: 0 <= i < |bodies| ==> r[i] == render(bodies[i])
  {
    seq(|bodies|, i requires 0 <= i < |bodies| => render(bodies[i]))
  }

  lemma RenderedAppend(render: Printer, bodies: seq<Bytes>, body: Bytes)
    ensures Rendered(render, bodies + [body]) == Rendered(render, bodies) + [render(body)]
  {
  }

  /** What one run of the handler's loop takes off the buffer: it stops at a rejected frame. */
  function Delivered(valid: Parser, src: Bytes): seq<Bytes>
    decreases |src|
  {
    match JsonDecode(valid, src)
    case Message(body, taken) => [body] + Delivered(valid, src[taken..])
    case _ => []
  }

  function Undelivered(valid: Parser, src: Bytes): (rest: Bytes)
    decreases |src|
  {
    match JsonDecode(valid, src)
    case NeedMore(_) => src
    case Message(_, taken) => Undelivered(valid, src[taken..])
    case Malformed(taken) => src[taken..]
  }

  /** Behind a rejected frame the stream goes on as if that had never been, for the next run of the handler. */
  lemma RejectedFrameIsDropped(valid: Parser, body: Bytes, rest: Bytes)
    requires |body| < U32 && !valid(body)
    ensures Delivered(valid, JsonEncode(body) + rest) == [] && Undelivered(valid, JsonEncode(body) + rest) == rest
    ensures Messages(valid, JsonEncode(body) + rest) == Messages(valid, rest)
  {
    RejectedFrame(valid, body, rest);
  }

  /** One run of the loop loses no message, and takes all of them when none is rejected. */
  lemma {:induction false} DeliveredConserves(valid: Parser, src: Bytes, more: Bytes)
    ensures Delivered(valid, src) + Messages(valid, Undelivered(valid, src) + more) ==
            Messages(valid, src + more)
    ensures WellFormed(valid, src) ==>
              Delivered(valid, src) == Messages(valid, src) && Undelivered(valid, src) == Tail(valid, src)
    decreases |src|
  {
    var step := JsonDecode(valid, src);
    if !step.NeedMore? {
      DecodeIsStable(valid, src, more);
      if step.Message? {
        DeliveredConserves(valid, src[step.taken..], more);
      }
    }
  }

  /** A connection that speaks this codec, with its books in order. */
  ghost predicate Speaks(conn: Connection, valid: Parser, render: Printer)
    reads conn
  {
    conn.Valid() && conn.socket.Some? && conn.codec == Some(JsonCodec(valid, render))
  }

  lemma CodecDecodes(valid: Parser, render: Printer, src: Bytes)
    ensures Decode(JsonCodec(valid, render), src) == JsonDecode(valid, src)
    ensures Decoded(JsonCodec(valid, render), src) == JsonCodec(valid, render)
  {
  }

  lemma CodecEncodes(valid: Parser, render: Printer, body: Bytes)
    ensures Encode(JsonCodec(valid, render), body) == Some(JsonEncode(render(body)))
    ensures Encoded(JsonCodec(valid, render), body) == JsonCodec(valid, render)
  {
  }

  /** `next_message` with this codec, on the first input segment only. */
  method NextJson(conn: Connection, ghost valid: Parser, ghost render: Printer) returns (r: Received)
    requires Speaks(conn, valid, render)
    modifies conn`inBuffer, conn`codec, conn`log
    ensures Speaks(conn, valid, render)
    ensures r == ReceivedOf(JsonDecode(valid, old(conn.InBytes())))
    ensures conn.InBytes() == old(conn.InBytes())[JsonDecode(valid, old(conn.InBytes())).taken..]
    ensures conn.log == old(conn.log).(consumed := conn.log.consumed)
  {
    hide JsonCodec, JsonDecode, Decode, Decoded, FrontOf, LeftOfFirst, LeftOfSecond;
    CodecDecodes(valid, render, conn.InBytes());
    assert conn.InBytes()[0..] == conn.InBytes();
    r := conn.NextMessage();
  }

  /** The socket will not fail. */
  predicate Healthy(sends: seq<SendTurn>) {
    forall i :: 0 <= i < |sends| ==> sends[i] != Fail
  }

  /** `send` with this codec; a failed send is reported and dropped. */
  method SendJson(conn: Connection, ghost valid: Parser, ghost render: Printer, body: Bytes) returns (sent: bool)
    requires Speaks(conn, valid, render)
    modifies conn`socket, conn`outBuffer, conn`codec, conn`log
    ensures Speaks(conn, valid, render) && conn.OnlySends()
    ensures conn.log == old(conn.log).(accepted := conn.log.accepted, wire := conn.log.wire)
    ensures sent ==> conn.log.accepted == old(conn.log).accepted + JsonEncode(render(body))
    ensures !sent ==> conn.log == old(conn.log)
    ensures Healthy(old(conn.socket).value.sends) ==> sent && Healthy(conn.socket.value.sends)
  {
    hide JsonCodec, JsonEncode, Encode, Encoded, PutOn;
    CodecEncodes(valid, render, body);
    PutKeepsOrder(PeerOf(conn), [JsonEncode(render(body))]);
    var r := conn.Send(body);
    sent := r.Sent?;
  }

  /** One turn of the handler's loop: decode a message and echo it. */
  method EchoOne(conn: Connection, ghost valid: Parser, ghost render: Printer) returns (r: Received, sent: bool)
    requires Speaks(conn, valid, render)
    modifies conn`inBuffer, conn`codec, conn`log, conn`socket, conn`outBuffer
    ensures Speaks(conn, valid, render) && conn.OnlySends()
    ensures r == ReceivedOf(JsonDecode(valid, old(conn.InBytes())))
    ensures conn.InBytes() == old(conn.InBytes())[JsonDecode(valid, old(conn.InBytes())).taken..]
    ensures conn.log.received == old(conn.log).received
    ensures !r.Got? ==> conn.log.accepted == old(conn.log).accepted
    ensures r.Got? && sent ==> conn.log.accepted == old(conn.log).accepted + JsonEncode(render(r.body))
    ensures Healthy(old(conn.socket).value.sends) ==> (r.Got? ==> sent) && Healthy(conn.socket.value.sends)
  {
    hide Healthy;
    sent := false;
    r := NextJson(conn, valid, render);
    if r.Got? {
      sent := SendJson(conn, valid, render, r.body);
    }
  }

  /** The handler: decode, echo, repeat. */
  method OnTraffic(conn: Connection, ghost valid: Parser, ghost render: Printer)
    returns (bodies: seq<Bytes>, allSent: bool)
    requires Speaks(conn, valid, render)
    modifies conn`inBuffer, conn`codec, conn`log, conn`socket, conn`outBuffer
    ensures Speaks(conn, valid, render) && conn.OnlySends()
    ensures bodies == Delivered(valid, old(conn.InBytes()))
    ensures conn.InBytes() == Undelivered(valid, old(conn.InBytes()))
    ensures conn.log.received == old(conn.log).received
    ensures allSent ==> conn.log.accepted == old(conn.log).accepted + EncodeAll(Rendered(render, bodies))
    ensures Healthy(old(conn.socket).value.sends) ==> allSent
  {
    hide JsonCodec, JsonDecode, JsonEncode, Delivered, Undelivered, EncodeAll, Rendered, Healthy;
    NothingEncoded(render);
    bodies, allSent := [], true;
    ghost var start, log := conn.InBytes(), conn.log;
    while true
      invariant Speaks(conn, valid, render) && conn.OnlySends()
      invariant conn.log.received == log.received
      invariant bodies + Delivered(valid, conn.InBytes()) == Delivered(valid, start)
      invariant Undelivered(valid, conn.InBytes()) == Undelivered(valid, start)
      invariant allSent ==> conn.log.accepted == log.accepted + EncodeAll(Rendered(render, bodies))
      invariant Healthy(old(conn.socket).value.sends) ==> allSent && Healthy(conn.socket.value.sends)
      decreases |conn.InBytes()|
    {
      LoopStep(valid, conn.InBytes(), bodies);
      var r, sent := EchoOne(conn, valid, render);
      if !r.Got? {
        break;
      }
      ghost var echoed := Rendered(render, bodies);
      RenderedAppend(render, bodies, r.body);
      EncodeAllAppend(echoed, render(r.body));
      Assoc(log.accepted, EncodeAll(echoed), JsonEncode(render(r.body)));
      allSent := allSent && sent;
      bodies := bodies + [r.body];
    }
  }

  lemma NothingEncoded(render: Printer)
    ensures EncodeAll(Rendered(render, [])) == []
  {
  }

  lemma LoopStep(valid: Parser, src: Bytes, bodies: seq<Bytes>)
    ensures var step := JsonDecode(valid, src);
            var rest := src[step.taken..];
            if step.Message? then
              && bodies + Delivered(valid, src) == bodies + [step.body] + Delivered(valid, rest)
              && Undelivered(valid, src) == Undelivered(valid, rest)
            else
              bodies + Delivered(valid, src) == bodies && Undelivered(valid, src) == rest
  {
    assert src[0..] == src;
  }

  lemma {:induction false} EncodeAllAppend(bodies: seq<Bytes>, body: Bytes)
    ensures EncodeAll(bodies + [body]) == EncodeAll(bodies) + JsonEncode(body)
  {
    var all := bodies + [body];
    if bodies == [] {
      assert all[1..] == [];
    } else {
      EncodeAllAppend(bodies[1..], body);
      assert all[1..] == bodies[1..] + [body];
      Assoc(JsonEncode(bodies[0]), EncodeAll(bodies[1..]), JsonEncode(body));
    }
  }

  // ----- a whole connection -----

  /** The first segment and all messages delivered, after some socket reads. */
  datatype Line = Line(buffered: Bytes, delivered: seq<Bytes>)

  /** One socket read: the handler works on what was buffered before, then the chunk is stashed. */
  function Feed(valid: Parser, chunks: seq<Bytes>): Line {
    if chunks == [] then Line([], [])
    else
      var last := |chunks| - 1;
      var before := Feed(valid, chunks[..last]);
      Line(Undelivered(valid, before.buffered) + chunks[last],
           before.delivered + Delivered(valid, before.buffered))
  }

  /** One socket read of `chunk`, handled and stashed. */
  method ServeOne(conn: Connection, ghost valid: Parser, ghost render: Printer, chunk: Bytes)
    returns (bodies: seq<Bytes>)
    requires Speaks(conn, valid, render) && conn.IoBytes() == []
    modifies conn`inBuffer, conn`ioBuffer, conn`codec, conn`log, conn`socket, conn`outBuffer
    ensures Speaks(conn, valid, render) && conn.ioBuffer == None
    ensures bodies == Delivered(valid, old(conn.InBytes()))
    ensures conn.InBytes() == Undelivered(valid, old(conn.InBytes())) + chunk
    ensures conn.log.received == old(conn.log).received + chunk
  {
    hide Delivered, Undelivered, JsonCodec, EncodeAll, Rendered, Concat;
    conn.Receive(chunk);
    var allSent;
    bodies, allSent := OnTraffic(conn, valid, render);
    ghost var left := conn.InBytes();
    conn.Stash();
    assert conn.InBytes() == left + chunk;
  }

  /** The read loop and the handler, over any list of chunks, keep to `Feed`. */
  method Serve(conn: Connection, ghost valid: Parser, ghost render: Printer, chunks: seq<Bytes>)
    returns (delivered: seq<Bytes>)
    requires Speaks(conn, valid, render) && conn.InBytes() == [] && conn.IoBytes() == []
    modifies conn`inBuffer, conn`ioBuffer, conn`codec, conn`log, conn`socket, conn`outBuffer
    ensures Speaks(conn, valid, render) && (chunks != [] ==> conn.ioBuffer == None)
    ensures Line(conn.InBytes(), delivered) == Feed(valid, chunks)
    ensures conn.log.received == old(conn.log).received + Concat(chunks)
  {
    delivered := [];
    ghost var received := conn.log.received;
    assert chunks[..0] == [] && received + [] == received;
    for i := 0 to |chunks|
      invariant Speaks(conn, valid, render) && conn.IoBytes() == []
      invariant i > 0 ==> conn.ioBuffer == None
      invariant Line(conn.InBytes(), delivered) == Feed(valid, chunks[..i])
      invariant conn.log.received == received + Concat(chunks[..i])
    {
      NextChunk(valid, chunks, i);
      Assoc(received, Concat(chunks[..i]), chunks[i]);
      var bodies := ServeOne(conn, valid, render, chunks[i]);
      delivered := delivered + bodies;
    }
    assert chunks[..|chunks|] == chunks;
  }

  lemma NextChunk(valid: Parser, chunks: seq<Bytes>, i: nat)
    requires i < |chunks|
    ensures Concat(chunks[..i + 1]) == Concat(chunks[..i]) + chunks[i]
    ensures var before := Feed(valid, chunks[..i]);
            Feed(valid, chunks[..i + 1]) ==
            Line(Undelivered(valid, before.buffered) + chunks[i],
                 before.delivered + Delivered(valid, before.buffered))
  {
    assert chunks[..i + 1][..i] == chunks[..i];
    LastChunk(chunks[..i + 1]);
  }

  /**
   Delivery does not depend on how the stream was cut, for any bytes at all:
   what was delivered and what is still decodable, now or later, is always the
   message list of the whole stream. Nothing is lost, repeated or reordered.
   */
  lemma {:induction false} DeliveryConserved(valid: Parser, chunks: seq<Bytes>, later: Bytes)
    ensures Feed(valid, chunks).delivered + Messages(valid, Feed(valid, chunks).buffered + later) ==
            Messages(valid, Concat(chunks) + later)
    decreases |chunks|
  {
    if chunks == [] {
      assert [] + later == later;
    } else {
      var last := |chunks| - 1;
      var before := Feed(valid, chunks[..last]);
      var chunk := chunks[last];
      DeliveryConserved(valid, chunks[..last], chunk + later);
      DeliveredConserves(valid, before.buffered, chunk + later);
      LastChunk(chunks);
      Assoc(Undelivered(valid, before.buffered), chunk, later);
      Assoc(Concat(chunks[..last]), chunk, later);
    }
  }

  lemma LastChunk(chunks: seq<Bytes>)
    requires chunks != []
    ensures Concat(chunks) == Concat(chunks[..|chunks| - 1]) + chunks[|chunks| - 1]
  {
    var last := |chunks| - 1;
    assert chunks == chunks[..last] + [chunks[last]];
    ConcatAppend(chunks[..last], [chunks[last]]);
    SingleChunk(chunks[last]);
  }

  /** Sending any messages, cut anyhow, delivers them in order up to what is still under way. */
  lemma EncodedMessagesArrive(valid: Parser, bodies: seq<Bytes>, chunks: seq<Bytes>, later: Bytes)
    requires forall i :: 0 <= i < |bodies| ==> |bodies[i]| < U32 && valid(bodies[i])
    requires Concat(chunks) + later == EncodeAll(bodies)
    ensures Feed(valid, chunks).delivered + Messages(valid, Feed(valid, chunks).buffered + later) == bodies
  {
    MessagesInvertEncodeAll(valid, bodies);
    DeliveryConserved(valid, chunks, later);
  }

  /**
   The handler runs before the chunk is stashed, so it is exactly one read late:
   after n reads it has delivered the messages of the first n - 1 chunks. What the
   last read completed waits for more traffic.
   */
  lemma {:induction false} DeliveryIsOneReadLate(valid: Parser, chunks: seq<Bytes>)
    requires chunks != [] && WellFormed(valid, Concat(chunks))
    ensures var n := |chunks| - 1;
            && Feed(valid, chunks).delivered == Messages(valid, Concat(chunks[..n]))
            && Feed(valid, chunks).buffered == Tail(valid, Concat(chunks[..n])) + chunks[n]
    decreases |chunks|
  {
    var n := |chunks| - 1;
    var early := chunks[..n];
    LastChunk(chunks);
    MessagesAppend(valid, Concat(early), chunks[n]);
    if early != [] {
      LastChunk(early);
      DeliveryIsOneReadLate(valid, early);
      LateStep(valid, Concat(early[..|early| - 1]), early[|early| - 1]);
    }
  }

  lemma LateStep(valid: Parser, before: Bytes, chunk: Bytes)
    requires WellFormed(valid, before + chunk)
    ensures var buffered := Tail(valid, before) + chunk;
            && Messages(valid, before) + Delivered(valid, buffered) == Messages(valid, before + chunk)
            && Undelivered(valid, buffered) == Tail(valid, before + chunk)
  {
    MessagesAppend(valid, before, chunk);
    DeliveredConserves(valid, Tail(valid, before) + chunk, []);
  }

  /** All complete messages are out after the last read exactly when that read completed none. */
  lemma AllDeliveredIff(valid: Parser, chunks: seq<Bytes>)
    requires chunks != [] && WellFormed(valid, Concat(chunks))
    ensures Feed(valid, chunks).delivered == Messages(valid, Concat(chunks)) <==>
            Messages(valid, Tail(valid, Concat(chunks[..|chunks| - 1])) + chunks[|chunks| - 1]) == []
  {
    DeliveryIsOneReadLate(valid, chunks);
    LastChunk(chunks);
    MessagesAppend(valid, Concat(chunks[..|chunks| - 1]), chunks[|chunks| - 1]);
  }

  /** A whole message that arrives in one read is not delivered by it. */
  lemma SingleReadDeliversNothing(valid: Parser, body: Bytes)
    requires |body| < U32 && valid(body)
    ensures Feed(valid, [JsonEncode(body)]).delivered == []
    ensures Messages(valid, Concat([JsonEncode(body)])) == [body]
  {
    var chunks := [JsonEncode(body)];
    assert chunks[..0] == [];
    SingleChunk(JsonEncode(body));
    assert EncodeAll([body]) == JsonEncode(body) + EncodeAll([body][1..]);
    MessagesInvertEncodeAll(valid, [body]);
  }
}
