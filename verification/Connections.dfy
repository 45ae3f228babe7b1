/**
 One client connection. Input sits in two segments, `inBuffer` then `ioBuffer`;
 output waits in a queue of chunks. The ghost streams say what has happened:
 every byte received was consumed or is buffered, and every byte accepted for
 output is on the wire, queued, or was thrown away by an abrupt close.
 */
module Connections {
  import opened Chunks
  import opened Codecs
  import opened Gfds
  import opened Sockets

  datatype Received = NoMessage | Got(body: Bytes) | DecodeError

  function ReceivedOf(step: DecodeStep): Received {
    match step
    case NeedMore(_) => NoMessage
    case Message(body, _) => Got(body)
    case Malformed(_) => DecodeError
  }

  datatype SendError = NoCodec | EncodeFailed | Io(error: IoError)

  datatype SendResult = Sent | NotSent(reason: SendError)

  /**
   The history of one registration: which creation it is, counted over all loops,
   and its byte streams. `aired` was on the wire when queued output was thrown
   away, `skipped` is what was thrown away, and `wire` went out since.
   */
  datatype Log = Log(serial: nat, received: Bytes, consumed: Bytes,
                     accepted: Bytes, aired: Bytes, skipped: Bytes, wire: Bytes) {
    /** Everything this registration ever put on the wire. */
    function OnWire(): Bytes {
      aired + wire
    }

    /** No output was thrown away yet. */
    predicate Intact() {
      aired == [] && skipped == []
    }

    predicate InputConserved(flat: Bytes) {
      received == consumed + flat
    }

    predicate OutputConserved(queue: seq<Bytes>) {
      accepted == aired + skipped + wire + Concat(queue)
    }
  }

  function NewLog(serial: nat): (log: Log)
    ensures log.InputConserved([]) && log.OutputConserved([]) && log.Intact()
  {
    Log(serial, [], [], [], [], [], [])
  }

  /** History only grows: nothing that happened to a stream is taken back. */
  predicate Grows(before: Log, after: Log) {
    && before.serial == after.serial
    && before.received <= after.received && before.consumed <= after.consumed
    && before.accepted <= after.accepted && before.OnWire() <= after.OnWire()
  }

  lemma GrowsItself(log: Log)
    ensures Grows(log, log)
  {
  }

  lemma DroppedGrows(log: Log, dropped: Log)
    requires log.aired == [] && dropped == log.(aired := log.wire, skipped := dropped.skipped, wire := [])
    ensures Grows(log, dropped)
  {
  }

  lemma GrowsOn(a: Log, b: Log, c: Log)
    requires Grows(a, b) && Grows(b, c)
    ensures Grows(a, c)
  {
  }

  /** What a write answers, and the books and the queue after it. */
  datatype Outcome = Outcome(r: IoResult, log: Log, queue: seq<Bytes>)

  /** A write of `bufs` with nothing queued, once the kernel has answered. */
  function Settled(log: Log, bufs: seq<Bytes>, kernel: IoResult): Outcome
    requires kernel.Ok? ==> kernel.n <= |Concat(bufs)|
  {
    var all := Concat(bufs);
    match kernel
    case Ok(n) =>
      Outcome(Ok(|all|), log.(accepted := log.accepted + all, wire := log.wire + all[..n]), Unsent(bufs, n))
    case Err(e) =>
      if e == WouldBlock || e == Interrupted then Outcome(Ok(|all|), log.(accepted := log.accepted + all), bufs)
      else Outcome(Err(e), log, [])
  }

  /** The outside of a connection: its handle, its socket, the output that waits, and its history. */
  datatype Peer = Peer(gfd: Gfd, socket: Option<Socket>, queue: seq<Bytes>, log: Log)

  /** A write of `bufs`: behind queued output they wait their turn, otherwise the kernel decides. */
  ghost function PutOn(p: Peer, bufs: seq<Bytes>): (r: (Peer, IoResult))
    requires p.socket.Some?
  {
    var all := Concat(bufs);
    if p.queue != [] then
      (p.(queue := p.queue + bufs, log := p.log.(accepted := p.log.accepted + all)), Ok(|all|))
    else
      var (after, kernel) := p.socket.value.Send(|all|);
      var o := Settled(p.log, bufs, kernel);
      (p.(socket := Some(after), queue := o.queue, log := o.log), o.r)
  }

  /** Output went from the front of the queue to the wire, and nothing else happened. */
  ghost predicate MovesOut(p: Peer, q: Peer) {
    && p.socket.Some? && q.socket.Some?
    && q == p.(socket := Some(p.socket.value.(sends := q.socket.value.sends)),
               queue := q.queue, log := p.log.(wire := q.log.wire))
    && p.log.wire <= q.log.wire && q.log.wire + Concat(q.queue) == p.log.wire + Concat(p.queue)
  }

  /** What `flush` makes of the outside of a connection. */
  ghost predicate Flushes(p: Peer, q: Peer) {
    && MovesOut(p, q)
    && exists r: IoResult :: (r.Ok? <==> q.queue == [])
                   && FlushEnds(r, p.socket.value.sends, q.socket.value.sends, Flushable(p.queue), Stuck(q.queue))
  }

  function Min(a: nat, b: nat): nat {
    if a <= b then a else b
  }

  /** The bytes of a segment that may not be there. */
  function BytesIn(segment: Option<Bytes>): Bytes {
    if segment.Some? then segment.value else []
  }

  /** The first k bytes of two segments were consumed: both moved on, nothing else did. */
  predicate Consumes(first: Option<Bytes>, second: Option<Bytes>, log: Log, k: nat,
                     first1: Option<Bytes>, second1: Option<Bytes>, log1: Log) {
    var a, b := BytesIn(first), BytesIn(second);
    && k <= |a| + |b|
    && BytesIn(first1) == LeftOfFirst(a, k) && BytesIn(second1) == LeftOfSecond(a, b, k)
    && log1 == log.(consumed := log.consumed + FrontOf(a, b, k))
    && second1.Some? == second.Some? && (b == [] ==> BytesIn(second1) == [])
  }

  /** The first k bytes of a stream in two segments. */
  function FrontOf(a: Bytes, b: Bytes, k: nat): (r: Bytes)
    requires k <= |a| + |b|
    ensures |r| == k
  {
    (a + b)[..k]
  }

  /** What is left of the first segment without them, and of the second. */
  function LeftOfFirst(a: Bytes, k: nat): Bytes {
    a[Min(k, |a|)..]
  }

  function LeftOfSecond(a: Bytes, b: Bytes, k: nat): Bytes
    requires k <= |a| + |b|
  {
    b[k - Min(k, |a|)..]
  }

  class Connection {
    var gfd: Gfd
    var socket: Option<Socket>
    var closed: bool
    var ioBuffer: Option<Bytes>
    var inBuffer: Option<Bytes>
    var outBuffer: Option<seq<Bytes>>
    var codec: Option<Codec>

    ghost var log: Log

    function InBytes(): Bytes
      reads this`inBuffer
    {
      BytesIn(inBuffer)
    }

    function IoBytes(): Bytes
      reads this`ioBuffer
    {
      BytesIn(ioBuffer)
    }

    /** The unread input as one stream. */
    function Flat(): Bytes
      reads this`inBuffer, this`ioBuffer
    {
      InBytes() + IoBytes()
    }

    function Queue(): seq<Bytes>
      reads this`outBuffer
    {
      if outBuffer.Some? then outBuffer.value else []
    }

    ghost predicate InputConserved()
      reads this`inBuffer, this`ioBuffer, this`log
    {
      log.InputConserved(Flat())
    }

    ghost predicate OutputConserved()
      reads this`outBuffer, this`log
    {
      log.OutputConserved(Queue())
    }

    ghost predicate Valid()
      reads this
    {
      !closed && InputConserved() && OutputConserved()
    }

    /** A registration to which nothing has happened yet. */
    ghost predicate Fresh(serial: nat)
      reads this
    {
      Valid() && Flat() == [] && Queue() == [] && log == NewLog(serial)
    }

    constructor (gfd: Gfd, socket: Socket, ghost serial: nat)
      ensures Fresh(serial)
      ensures this.gfd == gfd && this.socket == Some(socket) && codec == None
    {
      this.gfd := gfd;
      this.socket := Some(socket);
      closed := false;
      inBuffer, ioBuffer, outBuffer, codec := None, None, None, None;
      log := NewLog(serial);
    }

    /** A recycled connection is as good as a new one, whatever its last tenant left behind. */
    method Reset(gfd: Gfd, socket: Socket, ghost serial: nat)
      modifies this
      ensures Fresh(serial)
      ensures this.gfd == gfd && this.socket == Some(socket) && codec == None
    {
      this.gfd := gfd;
      this.socket := Some(socket);
      closed := false;
      codec := None;
      inBuffer := if inBuffer.Some? then Some([]) else None;
      ioBuffer := if ioBuffer.Some? then Some([]) else None;
      outBuffer := if outBuffer.Some? then Some([]) else None;
      log := NewLog(serial);
      assert Flat() == [];
    }

    // ----- input -----

    /** Looks at a prefix of the stream; no unwrap or slice can fail. */
    function Peek(n: Option<nat>): (r: Option<Bytes>)
      reads this`inBuffer, this`ioBuffer
      ensures r.None? <==> (n.Some? && n.value > |Flat()|) || (InBytes() == [] && ioBuffer.None?)
      ensures r.Some? ==> r.value == if n.Some? then Flat()[..n.value] else Flat()
    {
      var inLen, total := |InBytes()|, |InBytes()| + |IoBytes()|;
      if n.Some? && n.value > total then None
      else
        var actual := if n.Some? then n.value else total;
        if inLen == 0 then
          if ioBuffer.Some? then Some(ioBuffer.value[..actual]) else None
        else if actual <= inLen then Some(inBuffer.value[..actual])
        else Some(inBuffer.value + ioBuffer.value[..actual - inLen])
    }

    /** The first k bytes of the stream were consumed: both segments moved on, nothing else did. */
    twostate predicate Took(k: nat)
      reads this`inBuffer, this`ioBuffer, this`log
    {
      Consumes(old(inBuffer), old(ioBuffer), old(log), k, inBuffer, ioBuffer, log)
    }

    /** The first segment loses its front, and goes when it is empty. */
    method AdvanceIn(k: nat)
      requires inBuffer.Some? && k <= |InBytes()|
      modifies this`inBuffer
      ensures InBytes() == old(InBytes())[k..] && inBuffer != Some([])
    {
      inBuffer := Some(inBuffer.value[k..]);
      if inBuffer.value == [] {
        inBuffer := None;
      }
    }

    /** The second segment loses its front, and stays. */
    method AdvanceIo(k: nat)
      requires ioBuffer.Some? && k <= |IoBytes()|
      modifies this`ioBuffer
      ensures ioBuffer.Some? && IoBytes() == old(IoBytes())[k..]
    {
      ioBuffer := Some(ioBuffer.value[k..]);
    }

    /** Takes what `Peek` shows, and takes it from the front of the stream. */
    method NextContiguous(n: Option<nat>) returns (r: Option<Bytes>)
      requires InputConserved()
      modifies this`inBuffer, this`ioBuffer, this`log
      ensures r == old(Peek(n))
      ensures InputConserved()
      ensures r.Some? ==> Took(|r.value|)
      ensures r.None? ==> unchanged(this)
    {
      hide Peek, FrontOf, LeftOfFirst, LeftOfSecond;
      if n.Some? && n.value > |InBytes()| + |IoBytes()| {
        return None;
      }
      if |InBytes()| == 0 && ioBuffer.None? {
        return None;
      }
      var actual := if n.Some? then n.value else |InBytes()| + |IoBytes()|;
      FrontConserved(log, InBytes(), IoBytes(), actual);
      FrontIs(InBytes(), IoBytes(), actual);
      var data := TakeBoth(actual);
      log := log.(consumed := log.consumed + data);
      r := Some(data);
    }

    /** The front of both segments; one that is in a single segment is split off it. */
    method TakeBoth(actual: nat) returns (data: Bytes)
      requires actual <= |InBytes()| + |IoBytes()| && (InBytes() == [] ==> ioBuffer.Some?)
      modifies this`inBuffer, this`ioBuffer
      ensures data == FrontOf(old(InBytes()), old(IoBytes()), actual)
      ensures InBytes() == LeftOfFirst(old(InBytes()), actual)
      ensures IoBytes() == LeftOfSecond(old(InBytes()), old(IoBytes()), actual)
      ensures ioBuffer.Some? == old(ioBuffer).Some?
    {
      var inLen := |InBytes()|;
      FrontCases(InBytes(), IoBytes(), actual);
      if inLen == 0 {
        data := ioBuffer.value[..actual];
        AdvanceIo(actual);
      } else if actual <= inLen {
        data := inBuffer.value[..actual];
        inBuffer := Some(inBuffer.value[actual..]);
      } else {
        data := inBuffer.value + ioBuffer.value[..actual - inLen];
        inBuffer := None;
        AdvanceIo(actual - inLen);
      }
    }

    /** Takes a prefix as at most two non-empty pieces, without joining them. */
    method NextVectored(n: Option<nat>) returns (r: Option<seq<Bytes>>)
      requires InputConserved()
      modifies this`inBuffer, this`ioBuffer, this`log
      ensures r.Some? <==> n.None? || 0 < n.value <= old(|Flat()|)
      ensures InputConserved()
      ensures r.Some? ==> |r.value| <= 2 && forall i :: 0 <= i < |r.value| ==> r.value[i] != []
      ensures r.Some? ==> Took(|Concat(r.value)|)
      ensures r.Some? ==> Concat(r.value) == if n.Some? then old(Flat())[..n.value] else old(Flat())
      ensures r.Some? ==> inBuffer != Some([])
      ensures r.None? ==> unchanged(this)
    {
      hide Concat, Pieces, FrontOf, LeftOfFirst, LeftOfSecond;
      var inLen, total := |InBytes()|, |InBytes()| + |IoBytes()|;
      if n.Some? && (n.value > total || n.value == 0) {
        return None;
      }
      var wanted: nat := if n.Some? then n.value else total;
      FrontIs(InBytes(), IoBytes(), wanted);
      var first, second := TakeUpTo(wanted);
      PiecesConcat(first, second);
      r := Some(Pieces(first, second));
    }

    /** Both segments in turn give up to `limit` bytes. */
    method TakeUpTo(limit: nat) returns (first: Bytes, second: Bytes)
      requires InputConserved()
      modifies this`inBuffer, this`ioBuffer, this`log
      ensures |first| + |second| == Min(limit, |old(Flat())|)
      ensures first + second == FrontOf(old(InBytes()), old(IoBytes()), |first| + |second|)
      ensures |first| == limit ==> second == []
      ensures InputConserved() && Took(|first| + |second|)
      ensures inBuffer != Some([])
    {
      hide FrontOf, LeftOfFirst, LeftOfSecond;
      FrontConserved(log, InBytes(), IoBytes(), Min(limit, |InBytes()| + |IoBytes()|));
      first, second := SplitBoth(limit);
      log := log.(consumed := log.consumed + (first + second));
    }

    method SplitBoth(limit: nat) returns (first: Bytes, second: Bytes)
      modifies this`inBuffer, this`ioBuffer
      ensures |first| + |second| == Min(limit, old(|InBytes()| + |IoBytes()|))
      ensures first + second == FrontOf(old(InBytes()), old(IoBytes()), |first| + |second|)
      ensures InBytes() == LeftOfFirst(old(InBytes()), |first| + |second|)
      ensures IoBytes() == LeftOfSecond(old(InBytes()), old(IoBytes()), |first| + |second|)
      ensures |first| == limit ==> second == []
      ensures inBuffer != Some([]) && ioBuffer.Some? == old(ioBuffer).Some?
    {
      hide FrontOf;
      ghost var a, b := InBytes(), IoBytes();
      FrontCases(a, b, Min(limit, |a| + |b|));
      first := SplitIn(limit);
      second := SplitIo(limit - |first|);
    }

    /** The first segment gives up to `limit` bytes, and goes when it is empty. */
    method SplitIn(limit: nat) returns (data: Bytes)
      modifies this`inBuffer
      ensures data == old(InBytes())[..Min(limit, old(|InBytes()|))]
      ensures InBytes() == old(InBytes())[|data|..]
      ensures inBuffer != Some([])
    {
      data := [];
      if inBuffer.Some? {
        var len := Min(limit, |inBuffer.value|);
        if len > 0 {
          data := inBuffer.value[..len];
          inBuffer := Some(inBuffer.value[len..]);
        }
        if inBuffer.value == [] {
          inBuffer := None;
        }
      }
    }

    /** The second segment gives up to `limit` bytes, and stays. */
    method SplitIo(limit: nat) returns (data: Bytes)
      modifies this`ioBuffer
      ensures data == old(IoBytes())[..Min(limit, old(|IoBytes()|))]
      ensures IoBytes() == old(IoBytes())[|data|..]
      ensures ioBuffer.Some? == old(ioBuffer).Some?
    {
      data := [];
      if ioBuffer.Some? {
        var len := Min(limit, |ioBuffer.value|);
        if len > 0 {
          data := ioBuffer.value[..len];
          ioBuffer := Some(ioBuffer.value[len..]);
        }
      }
    }

    /** Drops a prefix: the stream moves on as if `NextContiguous` had been called. */
    method Discard(n: Option<nat>) returns (r: Option<nat>)
      requires InputConserved()
      modifies this`inBuffer, this`ioBuffer, this`log
      ensures r.Some? <==> old(Peek(n)).Some?
      ensures InputConserved()
      ensures r.Some? ==> r.value == (if n.Some? then n.value else old(|Flat()|)) && Took(r.value)
      ensures r.Some? && old(InBytes()) != [] ==> inBuffer != Some([])
      ensures r.None? ==> unchanged(this)
    {
      hide Peek, FrontOf, LeftOfFirst, LeftOfSecond;
      var inLen, total := |InBytes()|, |InBytes()| + |IoBytes()|;
      if n.Some? && n.value > total {
        return None;
      }
      if inLen == 0 && ioBuffer.None? {
        return None;
      }
      var actual := if n.Some? then n.value else total;
      ghost var dropped := FrontOf(InBytes(), IoBytes(), actual);
      FrontConserved(log, InBytes(), IoBytes(), actual);
      Advance(actual);
      log := log.(consumed := log.consumed + dropped);
      r := Some(actual);
    }

    /** Both segments in turn lose their front; an empty first one is not touched. */
    method Advance(actual: nat)
      requires actual <= |InBytes()| + |IoBytes()| && (InBytes() == [] ==> ioBuffer.Some?)
      modifies this`inBuffer, this`ioBuffer
      ensures InBytes() == LeftOfFirst(old(InBytes()), actual)
      ensures IoBytes() == LeftOfSecond(old(InBytes()), old(IoBytes()), actual)
      ensures ioBuffer.Some? == old(ioBuffer).Some?
      ensures old(InBytes()) != [] ==> inBuffer != Some([])
    {
      var inLen := |InBytes()|;
      if inLen == 0 {
        AdvanceIo(actual);
      } else if actual <= inLen {
        AdvanceIn(actual);
      } else {
        AdvanceIn(inLen);
        AdvanceIo(actual - inLen);
      }
    }

    /** Copies as much of the stream as fits into the caller's buffer. */
    method Read(buf: array<Byte>) returns (n: nat)
      requires InputConserved()
      modifies this`inBuffer, this`ioBuffer, this`log, buf
      ensures n == Min(buf.Length, old(|Flat()|))
      ensures buf[..] == FrontOf(old(InBytes()), old(IoBytes()), n) + old(buf[..])[n..]
      ensures InputConserved() && Took(n)
      ensures inBuffer != Some([])
    {
      hide FrontOf, LeftOfFirst, LeftOfSecond;
      var first, second := TakeUpTo(buf.Length);
      CopyPieces(buf, first, second);
      n := |first| + |second|;
    }

    /** Lets the codec take one message off the first segment; the second is not looked at. */
    method NextMessage() returns (r: Received)
      requires InputConserved()
      modifies this`inBuffer, this`codec, this`log
      ensures InputConserved()
      ensures old(codec).None? || old(inBuffer).None? ==> r == NoMessage && unchanged(this)
      ensures old(codec).Some? && old(inBuffer).Some? ==>
                var step := Decode(old(codec).value, old(InBytes()));
                && codec == Some(Decoded(old(codec).value, old(InBytes())))
                && Took(step.taken) && inBuffer.Some? && r == ReceivedOf(step)
                && (r == DecodeError <==> step.Malformed?) && (step.Message? ==> r == Got(step.body))
                && InBytes() == old(InBytes())[step.taken..]
    {
      if codec.Some? && inBuffer.Some? {
        var step := Decode(codec.value, inBuffer.value);
        FrontConserved(log, inBuffer.value, IoBytes(), step.taken);
        FrontCases(inBuffer.value, IoBytes(), step.taken);
        log := log.(consumed := log.consumed + inBuffer.value[..step.taken]);
        codec := Some(Decoded(codec.value, inBuffer.value));
        inBuffer := Some(inBuffer.value[step.taken..]);
        return ReceivedOf(step);
      }
      return NoMessage;
    }

    /** A socket read has filled the loop's buffer: its bytes become the second segment. */
    method Receive(data: Bytes)
      requires InputConserved() && IoBytes() == []
      modifies this`ioBuffer, this`log
      ensures InputConserved()
      ensures ioBuffer == Some(data) && log == old(log).(received := old(log).received + data)
    {
      ioBuffer := Some(data);
      log := log.(received := log.received + data);
    }

    /** What the handler left in the second segment joins the first. */
    method Stash()
      requires InputConserved()
      modifies this`inBuffer, this`ioBuffer
      ensures InputConserved()
      ensures ioBuffer == None && InBytes() == old(Flat())
    {
      if ioBuffer.Some? {
        var data := ioBuffer.value;
        ioBuffer := None;
        if data != [] {
          if inBuffer.Some? {
            inBuffer := Some(inBuffer.value + data);
          } else {
            inBuffer := Some(data);
          }
        }
      }
    }

    // ----- output -----

    /** Output leaves the receiving side of the socket and its registration alone. */
    twostate predicate OnlySends()
      reads this`socket
    {
      && old(socket).Some?
      && socket.Some?
      && socket.value == old(socket).value.(sends := socket.value.sends)
      && |socket.value.sends| <= |old(socket).value.sends|
    }

    /** Output operations touch the output side of the history only, and take nothing back. */
    twostate predicate OutputOnly()
      reads this`log
    {
      && log == old(log).(accepted := log.accepted, wire := log.wire)
      && old(log).accepted <= log.accepted && old(log).wire <= log.wire
    }

    /** One write to the socket of the first `data`; the kernel takes a prefix or refuses. */
    method SocketWrite(data: Bytes) returns (r: IoResult)
      requires socket.Some?
      modifies this`socket, this`log
      ensures OnlySends()
      ensures (socket.value, r) == old(socket).value.Send(|data|)
      ensures log == if r.Ok? then old(log).(wire := old(log).wire + data[..r.n]) else old(log)
    {
      var (after, result) := socket.value.Send(|data|);
      socket, r := Some(after), result;
      if r.Ok? {
        log := log.(wire := log.wire + data[..r.n]);
      }
    }

    /**
     What a write of `bufs` did. Behind a queue it waits its turn and the socket
     is left alone; else the kernel decides what is on the wire, what is kept,
     and whether the write fails.
     */
    twostate predicate Written(bufs: seq<Bytes>, r: IoResult)
      requires old(socket).Some?
      reads this
    {
      var put := PutOn(old(PeerOf(this)), bufs);
      PeerOf(this) == put.0 && r == put.1
    }

    /** Accepts a buffer whole, or reports a socket failure and accepts nothing. */
    method WriteBytes(buf: Bytes) returns (r: IoResult)
      requires OutputConserved() && socket.Some?
      modifies this`socket, this`outBuffer, this`log
      ensures OutputConserved() && OnlySends() && OutputOnly()
      ensures Written([buf], r)
      ensures r == Ok(|buf|) || r == Err(Failed)
    {
      SingleChunk(buf);
      if outBuffer.Some? && outBuffer.value != [] {
        Enqueue([buf]);
        return Ok(|buf|);
      }
      r := SocketWrite(buf);
      if r.Ok? {
        KeepTail(buf, r.n);
        return Ok(|buf|);
      } else if r == Err(WouldBlock) || r == Err(Interrupted) {
        Enqueue([buf]);
        return Ok(|buf|);
      }
    }

    /** `Write::write`: as `WriteBytes`, from a borrowed buffer. */
    method Write(buf: Bytes) returns (r: IoResult)
      requires OutputConserved() && socket.Some?
      modifies this`socket, this`outBuffer, this`log
      ensures OutputConserved() && OnlySends() && OutputOnly()
      ensures Written([buf], r)
      ensures r == Ok(|buf|) || r == Err(Failed)
    {
      SingleChunk(buf);
      if outBuffer.Some? && outBuffer.value != [] {
        Enqueue([buf]);
        return Ok(|buf|);
      }
      r := SocketWrite(buf);
      if r.Ok? {
        KeepTail(buf, r.n);
        return Ok(|buf|);
      } else if r == Err(WouldBlock) {
        Enqueue([buf]);
        return Ok(|buf|);
      } else if r == Err(Interrupted) {
        Enqueue([buf]);
        return Ok(|buf|);
      }
    }

    /** The first n bytes of the buffer are out; the rest starts the queue. */
    method KeepTail(buf: Bytes, n: nat)
      requires n <= |buf| && Queue() == []
      requires log.accepted + buf[..n] == log.aired + log.skipped + log.wire
      modifies this`outBuffer, this`log
      ensures OutputConserved() && Queue() == Unsent([buf], n)
      ensures log == old(log).(accepted := old(log).accepted + buf)
    {
      SingleChunk(buf);
      AcceptPieces(log, [buf], n);
      UnsentOne(buf, n);
      log := log.(accepted := log.accepted + buf);
      if n < |buf| {
        outBuffer := Some(Queue() + [buf[n..]]);
      }
    }

    /** The first n bytes of the buffers are out; what is cut off them starts the queue. */
    method KeepTails(bufs: seq<Bytes>, n: nat, unsent: seq<Bytes>)
      requires n <= |Concat(bufs)| && Queue() == []
      requires if n < |Concat(bufs)| then unsent == [] + Unsent(bufs, n) else unsent == []
      requires log.accepted + Concat(bufs)[..n] == log.aired + log.skipped + log.wire
      modifies this`outBuffer, this`log
      ensures OutputConserved() && Queue() == Unsent(bufs, n)
      ensures log == old(log).(accepted := old(log).accepted + Concat(bufs))
    {
      AcceptPieces(log, bufs, n);
      log := log.(accepted := log.accepted + Concat(bufs));
      if n < |Concat(bufs)| {
        outBuffer := Some(unsent);
      }
    }

    /** Queues chunks behind what is already waiting. */
    method Enqueue(bufs: seq<Bytes>)
      requires OutputConserved()
      modifies this`outBuffer, this`log
      ensures OutputConserved() && OutputOnly()
      ensures log == old(log).(accepted := old(log).accepted + Concat(bufs))
      ensures Queue() == old(Queue()) + bufs
    {
      ConcatAppend(Queue(), bufs);
      outBuffer := Some(Queue() + bufs);
      log := log.(accepted := log.accepted + Concat(bufs));
    }

    /** Accepts several buffers whole, keeping only the unsent tail of a short write. */
    method WriteVectoredBytes(bufs: seq<Bytes>) returns (r: IoResult)
      requires OutputConserved() && socket.Some?
      modifies this`socket, this`outBuffer, this`log
      ensures OutputConserved() && OnlySends() && OutputOnly()
      ensures if Concat(bufs) == [] then r == Ok(0) && unchanged(this) else Written(bufs, r)
      ensures r == Ok(|Concat(bufs)|) || r == Err(Failed)
    {
      hide Unsent, Concat;
      var total := |Concat(bufs)|;
      if total == 0 {
        return Ok(0);
      }
      if outBuffer.Some? && outBuffer.value != [] {
        Enqueue(bufs);
        return Ok(total);
      }
      r := SocketWrite(Concat(bufs));
      if r.Ok? {
        SentAhead(old(log), Concat(bufs)[..r.n]);
        var unsent: seq<Bytes> := [];
        if r.n < total {
          unsent := CloneUnsent(Queue(), bufs, r.n);
        }
        KeepTails(bufs, r.n, unsent);
        return Ok(total);
      } else if r == Err(WouldBlock) || r == Err(Interrupted) {
        Enqueue(bufs);
        return Ok(total);
      }
    }

    /** `Write::write_vectored`: the same from borrowed slices, with its own splitting loop. */
    method WriteVectored(bufs: seq<Bytes>) returns (r: IoResult)
      requires OutputConserved() && socket.Some?
      modifies this`socket, this`outBuffer, this`log
      ensures OutputConserved() && OnlySends() && OutputOnly()
      ensures if Concat(bufs) == [] then r == Ok(0) && unchanged(this) else Written(bufs, r)
      ensures r == Ok(|Concat(bufs)|) || r == Err(Failed)
    {
      hide Unsent, Concat;
      var total := |Concat(bufs)|;
      if total == 0 {
        return Ok(0);
      }
      if outBuffer.Some? && outBuffer.value != [] {
        Enqueue(bufs);
        return Ok(total);
      }
      r := SocketWrite(Concat(bufs));
      if r.Ok? {
        SentAhead(old(log), Concat(bufs)[..r.n]);
        var unsent: seq<Bytes> := [];
        if r.n < total {
          unsent := CopyUnsent(Queue(), bufs, r.n);
        }
        KeepTails(bufs, r.n, unsent);
        return Ok(total);
      } else if r == Err(WouldBlock) || r == Err(Interrupted) {
        Enqueue(bufs);
        return Ok(total);
      }
    }

    /** Encodes a message and accepts its bytes; without a codec nothing happens. */
    method Send(msg: Bytes) returns (r: SendResult)
      requires OutputConserved() && socket.Some?
      modifies this`socket, this`outBuffer, this`codec, this`log
      ensures OutputConserved() && OnlySends() && OutputOnly()
      ensures old(codec).None? <==> r == NotSent(NoCodec)
      ensures old(codec).Some? && Encode(old(codec).value, msg).None? <==> r == NotSent(EncodeFailed)
      ensures r == NotSent(NoCodec) || r == NotSent(EncodeFailed) ==> unchanged(this`socket, this`outBuffer, this`log)
      ensures codec == if old(codec).Some? then Some(Encoded(old(codec).value, msg)) else None
      ensures old(codec).Some? && Encode(old(codec).value, msg).Some? ==>
                var encoded := Encode(old(codec).value, msg).value;
                || (r == Sent && Written([encoded], Ok(|encoded|)))
                || (r == NotSent(Io(Failed)) && Written([encoded], Err(Failed)))
    {
      if codec.Some? {
        var encoded := Encode(codec.value, msg);
        codec := Some(Encoded(codec.value, msg));
        if encoded.None? {
          return NotSent(EncodeFailed);
        }
        var w := WriteBytes(encoded.value);
        return if w.Ok? then Sent else NotSent(Io(w.error));
      }
      return NotSent(NoCodec);
    }

    /** One vectored write of the front of the queue, with the bytes taken off it. */
    method WriteFront() returns (r: IoResult)
      requires OutputConserved() && socket.Some? && Queue() != []
      modifies this`socket, this`outBuffer, this`log
      ensures OutputConserved() && OnlySends() && outBuffer.Some?
      ensures OutputOnly()
      ensures r.Ok? ==> r.n <= |Concat(Window(old(Queue())))| && Queue() == Drained(old(Queue()), r.n)
      ensures r.Ok? ==> |Concat(Queue())| == |Concat(old(Queue()))| - r.n
      ensures r.Ok? ==> log == old(log).(wire := old(log).wire + Concat(old(Queue()))[..r.n])
      ensures r.Err? ==> unchanged(this`outBuffer, this`log) && r.error != WriteZero
      ensures r == Err(Interrupted) ==> |socket.value.sends| < |old(socket).value.sends|
      ensures WriteSays(r, old(socket).value.sends, socket.value.sends, Stuck(old(Queue())))
      ensures Stuck(old(Queue())) ==> !Flushable(old(Queue()))
      ensures r == Ok(0) ==> Queue() == old(Queue())
      ensures r.Ok? && r.n > 0 ==> (Flushable(Queue()) <==> Flushable(old(Queue())))
    {
      hide Flushable;
      ghost var before, sends, offer := log, socket.value.sends, Concat(Window(Queue()));
      WindowIsPrefix(Queue());
      r := SocketWrite(Concat(Window(outBuffer.value)));
      FlushableStep(Queue(), if r.Ok? then r.n else 0);
      SendSays(old(socket).value, |offer|, Stuck(Queue()));
      if r.Ok? {
        WrittenOffFront(before, outBuffer.value, r.n);
        var left := PopWritten(outBuffer.value, r.n);
        outBuffer := Some(left);
      }
    }

    /**
     Writes until the queue is empty or the socket refuses. Nothing is lost or
     reordered on any path, and what comes back says what the socket did last. A
     write counts as closure if the socket took nothing, or if a run of empty
     chunks offered it nothing: on a socket that keeps moving, flushing succeeds
     exactly when the queue is flushable.
     */
    method Flush() returns (r: IoResult)
      requires OutputConserved() && socket.Some?
      modifies this`socket, this`outBuffer, this`log
      ensures OutputConserved() && OnlySends()
      ensures OutputOnly()
      ensures old(log).wire <= log.wire && log.accepted == old(log).accepted
      ensures outBuffer.Some? == old(outBuffer.Some?) && (r.Ok? <==> Queue() == [])
      ensures Flushable(Queue()) <==> Flushable(old(Queue()))
      ensures FlushEnds(r, old(socket).value.sends, socket.value.sends, Flushable(old(Queue())), Stuck(Queue()))
    {
      hide Flushable, Moved, MovedUntil;
      NothingMoved(socket.value.sends);
      if outBuffer.None? {
        EmptyIsFlushable();
        return Ok(0);
      }
      while outBuffer.value != []
        invariant OutputConserved() && OnlySends() && outBuffer.Some?
        invariant old(log).wire <= log.wire && log == old(log).(wire := log.wire)
        invariant Flushable(Queue()) <==> Flushable(old(Queue()))
        invariant Moved(old(socket).value.sends, socket.value.sends)
        decreases |socket.value.sends|, |Concat(Queue())|
      {
        ghost var was, sends, queue := log.wire, socket.value.sends, Queue();
        var w := WriteFront();
        assert was <= log.wire;
        StillMoving(w, old(socket).value.sends, sends, socket.value.sends, Stuck(queue));
        match w {
          case Ok(n) =>
            if n == 0 {
              return Err(WriteZero);
            }
          case Err(e) =>
            if e != Interrupted {
              return Err(e);
            }
        }
      }
      EmptyIsFlushable();
      return Ok(0);
    }

    /** An abrupt close throws the queue away; the hole it leaves is remembered. */
    method DropOutput()
      requires OutputConserved() && log.Intact()
      modifies this`outBuffer, this`log
      ensures OutputConserved() && outBuffer == None
      ensures log == old(log).(aired := old(log).wire, skipped := Concat(old(Queue())), wire := [])
      ensures log.OnWire() == old(log).OnWire()
    {
      log := log.(aired := log.wire, skipped := Concat(Queue()), wire := []);
      outBuffer := None;
    }
  }

  ghost function PeerOf(c: Connection): Peer
    reads c
  {
    Peer(c.gfd, c.socket, c.Queue(), c.log)
  }

  /** Taking bytes off the front of two segments takes them off the joined stream. */
  lemma FrontConserved(log: Log, a: Bytes, b: Bytes, k: nat)
    requires k <= |a| + |b| && log.InputConserved(a + b)
    ensures log.(consumed := log.consumed + FrontOf(a, b, k)).InputConserved(LeftOfFirst(a, k) + LeftOfSecond(a, b, k))
    ensures b == [] ==> LeftOfSecond(a, b, k) == []
  {
    var front, left := FrontOf(a, b, k), LeftOfFirst(a, k) + LeftOfSecond(a, b, k);
    assert a + b == front + left;
    Assoc(log.consumed, front, left);
  }

  lemma FrontIs(a: Bytes, b: Bytes, k: nat)
    requires k <= |a| + |b|
    ensures FrontOf(a, b, k) == (a + b)[..k] && (k == |a| + |b| ==> FrontOf(a, b, k) == a + b)
  {
  }

  lemma RestIs(a: Bytes, b: Bytes, k: nat)
    requires k <= |a| + |b|
    ensures LeftOfFirst(a, k) + LeftOfSecond(a, b, k) == (a + b)[k..]
  {
  }

  /** The front as the two segments give it: each its part, one of which may be nothing or all. */
  lemma FrontCases(a: Bytes, b: Bytes, k: nat)
    requires k <= |a| + |b|
    ensures var j: nat := Min(k, |a|);
            && FrontOf(a, b, k) == a[..j] + b[..k - j]
            && (k == j ==> FrontOf(a, b, k) == a[..k])
            && (j == |a| ==> FrontOf(a, b, k) == a + b[..k - j])
            && (j == 0 ==> FrontOf(a, b, k) == b[..k - j])
    ensures a[0..] == a && a[|a|..] == [] && b[0..] == b
  {
  }

  /** The non-empty ones of two pieces. */
  function Pieces(x: Bytes, y: Bytes): seq<Bytes> {
    (if x == [] then [] else [x]) + (if y == [] then [] else [y])
  }

  lemma PiecesConcat(x: Bytes, y: Bytes)
    ensures Concat(Pieces(x, y)) == x + y
    ensures |Pieces(x, y)| <= 2 && forall i :: 0 <= i < |Pieces(x, y)| ==> Pieces(x, y)[i] != []
  {
    ConcatAppend(if x == [] then [] else [x], if y == [] then [] else [y]);
    assert x != [] ==> Concat([x]) == x;
    assert y != [] ==> Concat([y]) == y;
  }

  /** Copying x over the front of `was`, then y behind it unless nothing is left to copy. */
  lemma CopiedBehind(was: Bytes, x: Bytes, y: Bytes)
    requires |x| + |y| <= |was|
    ensures was[..0] + x + was[0 + |x|..] == x + was[|x|..]
    ensures |x + was[|x|..]| == |was|
    ensures (x + was[|x|..])[..|x|] + y + (x + was[|x|..])[|x| + |y|..] == x + y + was[|x| + |y|..]
    ensures y == [] ==> x + was[|x|..] == x + y + was[|x| + |y|..]
  {
  }

  /** `copy_from_slice` into part of a buffer. */
  method CopyFromSlice(buf: array<Byte>, at: nat, data: Bytes)
    requires at + |data| <= buf.Length
    modifies buf
    ensures buf[..] == old(buf[..])[..at] + data + old(buf[..])[at + |data|..]
  {
    forall i | 0 <= i < |data| {
      buf[at + i] := data[i];
    }
  }

  /** The pieces, one after the other, at the start of the buffer. */
  method CopyPieces(buf: array<Byte>, first: Bytes, second: Bytes)
    requires |first| + |second| <= buf.Length && (|first| == buf.Length ==> second == [])
    modifies buf
    ensures buf[..] == first + second + old(buf[..])[|first| + |second|..]
  {
    CopyFromSlice(buf, 0, first);
    if |first| < buf.Length {
      CopyFromSlice(buf, |first|, second);
    }
    CopiedBehind(old(buf[..]), first, second);
  }

  /** The splitting loop of `write_vectored_bytes`: whole chunks are cloned, a cut one is sliced. */
  method CloneUnsent(queue: seq<Bytes>, bufs: seq<Bytes>, n: nat) returns (r: seq<Bytes>)
    ensures r == queue + Unsent(bufs, n)
  {
    var written: nat := n;
    r := queue;
    for i := 0 to |bufs|
      invariant r + Unsent(bufs[i..], written) == queue + Unsent(bufs, n)
    {
      UnsentStep(r, bufs, i, written);
      var buf := bufs[i];
      if written >= |buf| {
        written := written - |buf|;
      } else if written > 0 {
        r := r + [buf[written..]];
        written := 0;
      } else {
        r := r + [buf];
      }
    }
  }

  /** The splitting loop of `write_vectored`: every remaining slice is copied from where it was cut. */
  method CopyUnsent(queue: seq<Bytes>, bufs: seq<Bytes>, n: nat) returns (r: seq<Bytes>)
    ensures r == queue + Unsent(bufs, n)
  {
    var written: nat := n;
    r := queue;
    for i := 0 to |bufs|
      invariant r + Unsent(bufs[i..], written) == queue + Unsent(bufs, n)
    {
      UnsentStep(r, bufs, i, written);
      var buf := bufs[i];
      if written >= |buf| {
        written := written - |buf|;
      } else {
        r := r + [buf[written..]];
        written := 0;
      }
    }
  }

  lemma UnsentStep(queue: seq<Bytes>, bufs: seq<Bytes>, i: nat, written: nat)
    requires i < |bufs|
    ensures bufs[i][0..] == bufs[i]
    ensures queue + Unsent(bufs[i..], written) ==
            if written >= |bufs[i]| then queue + Unsent(bufs[i + 1..], written - |bufs[i]|)
            else queue + [bufs[i][written..]] + Unsent(bufs[i + 1..], 0)
  {
    assert bufs[i..][1..] == bufs[i + 1..];
  }

  /** The loop that takes n written bytes off the front of the queue; its `break` is never reached. */
  method PopWritten(queue: seq<Bytes>, n: nat) returns (left: seq<Bytes>)
    requires n <= |Concat(queue)|
    ensures left == Drained(queue, n)
  {
    left := queue;
    var written: nat := n;
    while written > 0
      invariant written <= |Concat(left)|
      invariant Drained(left, written) == Drained(queue, n)
      decreases |left|, written
    {
      if left == [] {
        assert false;
        break;
      }
      var front := left[0];
      if |front| <= written {
        written := written - |front|;
        left := left[1..];
      } else {
        left := [front[written..]] + left[1..];
        written := 0;
      }
    }
  }

  /**
   Whatever the kernel does, the bytes of a write follow those on the wire and those
   that wait, or, if nothing waits and the socket fails, nothing has happened. A write
   behind queued output leaves the socket alone; one that is not goes out as far as the
   kernel takes it, all of it if the socket is willing.
   */
  lemma PutKeepsOrder(p: Peer, bufs: seq<Bytes>)
    requires p.socket.Some?
    ensures var (q, r) := PutOn(p, bufs);
            var all, sends := Concat(bufs), p.socket.value.sends;
            && (r.Err? <==> p.queue == [] && sends != [] && sends[0] == Fail)
            && (r.Err? ==> q.log == p.log && q.queue == [])
            && (r.Ok? ==> r.n == |all| && q.log == p.log.(accepted := p.log.accepted + all, wire := q.log.wire)
                          && q.log.wire + Concat(q.queue) == p.log.wire + Concat(p.queue) + all)
            && |q.log.wire| == |p.log.wire| + (
                 if p.queue != [] then 0
                 else if sends == [] then |all|
                 else if sends[0].Accept? then Min(sends[0].limit, |all|) else 0)
            && q.gfd == p.gfd && q.socket == (
                 if p.queue != [] || sends == [] then p.socket
                 else Some(p.socket.value.(sends := sends[1..])))
  {
    hide Unsent, Concat;
    var all := Concat(bufs);
    if p.queue != [] {
      ConcatAppend(p.queue, bufs);
      Assoc(p.log.wire, Concat(p.queue), all);
    } else {
      NothingWaits(p.log, bufs);
      var r := p.socket.value.Send(|all|).1;
      if r.Ok? {
        SplitKeepsOrder(p.log.wire, bufs, r.n);
      }
    }
  }

  lemma NothingWaits(log: Log, bufs: seq<Bytes>)
    ensures Concat([]) == [] && log.wire + [] == log.wire
    ensures log == log.(wire := log.wire)
  {
  }

  lemma SplitKeepsOrder(wire: Bytes, bufs: seq<Bytes>, n: nat)
    requires n <= |Concat(bufs)|
    ensures wire + Concat(bufs)[..n] + Concat(Unsent(bufs, n)) == wire + Concat(bufs)
  {
    hide Concat, Unsent;
    UnsentKeepsSuffix(bufs, n);
    var all := Concat(bufs);
    assert all == all[..n] + all[n..];
    Assoc(wire, all[..n], all[n..]);
  }

  /** With nothing queued, what goes out at once is accepted last. */
  lemma SentAhead(log: Log, sent: Bytes)
    requires log.OutputConserved([])
    ensures log.accepted + sent == log.aired + log.skipped + (log.wire + sent)
  {
    Assoc(log.aired + log.skipped, log.wire, sent);
  }

  /** Accepting all of `bufs` when its first n bytes are out already balances the books. */
  lemma AcceptPieces(log: Log, bufs: seq<Bytes>, n: nat)
    requires n <= |Concat(bufs)|
    requires log.accepted + Concat(bufs)[..n] == log.aired + log.skipped + log.wire
    ensures [] + Unsent(bufs, n) == Unsent(bufs, n)
    ensures n == |Concat(bufs)| ==> Unsent(bufs, n) == []
    ensures log.(accepted := log.accepted + Concat(bufs)).OutputConserved(Unsent(bufs, n))
  {
    UnsentKeepsSuffix(bufs, n);
    var all := Concat(bufs);
    assert all == all[..n] + all[n..];
    if n == |all| {
      UnsentAll(bufs);
      assert all[n..] == [];
    }
  }

  lemma WindowIsPrefix(queue: seq<Bytes>)
    ensures Concat(Window(queue)) <= Concat(queue)
  {
    var rest := queue[|Window(queue)|..];
    assert queue == Window(queue) + rest;
    ConcatAppend(Window(queue), rest);
  }

  /** Bytes that leave the queue for the wire stay in the same place of the accepted stream. */
  lemma WrittenOffFront(before: Log, queue: seq<Bytes>, n: nat)
    requires before.OutputConserved(queue) && n <= |Concat(Window(queue))|
    ensures n <= |Concat(queue)| && Concat(Window(queue))[..n] == Concat(queue)[..n]
    ensures |Concat(Drained(queue, n))| == |Concat(queue)| - n
    ensures before.(wire := before.wire + Concat(queue)[..n]).OutputConserved(Drained(queue, n))
  {
    hide Concat, Drained;
    WindowIsPrefix(queue);
    DrainedKeepsSuffix(queue, n);
    CutBehind(before.aired + before.skipped, before.wire, Concat(queue), n);
  }

  lemma CutBehind(front: Bytes, wire: Bytes, all: Bytes, n: nat)
    requires n <= |all|
    ensures front + wire + all == front + (wire + all[..n]) + all[n..]
  {
  }

  lemma SingleChunk(buf: Bytes)
    ensures Concat([buf]) == buf
  {
    assert Concat([buf]) == buf + Concat([buf][1..]);
  }

  lemma UnsentOne(buf: Bytes, n: nat)
    ensures Unsent([buf], n) == if n < |buf| then [buf[n..]] else []
  {
    assert [buf][1..] == [];
  }

  lemma {:induction false} UnsentAll(bufs: seq<Bytes>)
    ensures Unsent(bufs, |Concat(bufs)|) == []
  {
    if bufs != [] {
      UnsentAll(bufs[1..]);
    }
  }

  /** What one write says of the socket, and, if it offered nothing, of the queue. */
  predicate WriteSays(r: IoResult, before: seq<SendTurn>, after: seq<SendTurn>, stuck: bool) {
    match r
    case Ok(n) =>
      if n > 0 then Moved(before, after)
      else MovedUntil(before, Accept(0), after) || (Moved(before, after) && stuck)
    case Err(e) =>
      match e
      case WouldBlock => MovedUntil(before, Block, after)
      case Failed => MovedUntil(before, Fail, after)
      case Interrupted => Moved(before, after)
      case WriteZero => false
  }

  lemma HeadMoves(sends: seq<SendTurn>)
    requires sends != []
    ensures MovedUntil(sends, sends[0], sends[1..]) && (Moves(sends[0]) ==> Moved(sends, sends[1..]))
  {
    assert [sends[0]] + sends[1..] == sends;
  }

  lemma SendSays(s: Socket, offered: nat, stuck: bool)
    requires offered == 0 ==> stuck
    ensures var (after, r) := s.Send(offered); WriteSays(r, s.sends, after.sends, stuck)
  {
    hide Moved, MovedUntil;
    NothingMoved(s.sends);
    if s.sends != [] {
      HeadMoves(s.sends);
    }
  }

  lemma NothingMoved(sends: seq<SendTurn>)
    ensures Moved(sends, sends)
  {
  }

  lemma StillMoving(r: IoResult, start: seq<SendTurn>, before: seq<SendTurn>, after: seq<SendTurn>, stuck: bool)
    requires Moved(start, before) && WriteSays(r, before, after, stuck)
    ensures WriteSays(r, start, after, stuck)
  {
    if Moved(before, after) {
      MovedOn(start, before, after);
    }
    forall last: SendTurn | MovedUntil(before, last, after) ensures MovedUntil(start, last, after) {
      MovedOn(start, before, [last] + after);
    }
  }

  lemma EmptyIsFlushable()
    ensures Flushable([])
  {
  }

  /** What `flush` reports, and what it says of the socket and of the queue it found. */
  predicate FlushEnds(r: IoResult, before: seq<SendTurn>, after: seq<SendTurn>, flushable: bool, stuck: bool) {
    match r
    case Ok(_) => Moved(before, after) && flushable
    case Err(e) =>
      match e
      case WouldBlock => MovedUntil(before, Block, after)
      case Failed => MovedUntil(before, Fail, after)
      case WriteZero => MovedUntil(before, Accept(0), after) || (Moved(before, after) && !flushable && stuck)
      case Interrupted => false
  }

  /** The turn of the script that was taken last decides: it blocked, failed, took nothing, or else moved. */
  lemma HowAFlushEnds(r: IoResult, before: seq<SendTurn>, after: seq<SendTurn>, flushable: bool, stuck: bool)
    requires FlushEnds(r, before, after, flushable, stuck)
    ensures |after| <= |before|
    ensures |after| < |before| ==>
              var last := before[|before| - |after| - 1];
              && (last == Block ==> r == Err(WouldBlock)) && (last == Fail ==> r == Err(Failed))
              && (last == Accept(0) ==> r == Err(WriteZero))
    ensures |after| == |before| || Moves(before[|before| - |after| - 1]) ==>
              if flushable then r.Ok? else r == Err(WriteZero) && stuck
  {
    LastTurn(before, after);
  }

  lemma LastTurn(before: seq<SendTurn>, after: seq<SendTurn>)
    ensures Moved(before, after) && |after| < |before| ==> Moves(before[|before| - |after| - 1])
    ensures forall last: SendTurn :: MovedUntil(before, last, after) ==>
              |after| < |before| && before[|before| - |after| - 1] == last
  {
    forall last: SendTurn | MovedUntil(before, last, after)
      ensures |after| < |before| && before[|before| - |after| - 1] == last
    {
      assert before[|before| - |after| - 1..][0] == last;
    }
  }

  lemma FlushesAs(p: Peer, q: Peer, r: IoResult)
    requires p.socket.Some? && q.socket.Some? && p.log.wire <= q.log.wire
    requires q == p.(socket := Some(p.socket.value.(sends := q.socket.value.sends)),
                     queue := q.queue, log := p.log.(wire := q.log.wire))
    requires p.log.OutputConserved(p.queue) && q.log.OutputConserved(q.queue) && (r.Ok? <==> q.queue == [])
    requires FlushEnds(r, p.socket.value.sends, q.socket.value.sends, Flushable(p.queue), Stuck(q.queue))
    ensures Flushes(p, q)
  {
    hide FlushEnds, Concat, Flushable, Stuck;
    SameOutput(p.log, p.queue, q.log, q.queue);
  }

  /** What left the queue is what went on the wire. */
  lemma SameOutput(log: Log, queue: seq<Bytes>, after: Log, left: seq<Bytes>)
    requires log.OutputConserved(queue) && after.OutputConserved(left) && after == log.(wire := after.wire)
    ensures after.wire + Concat(left) == log.wire + Concat(queue)
  {
    var front := log.aired + log.skipped;
    Assoc(front, log.wire, Concat(queue));
    Assoc(front, after.wire, Concat(left));
    assert (front + (log.wire + Concat(queue)))[|front|..] == log.wire + Concat(queue);
    assert (front + (after.wire + Concat(left)))[|front|..] == after.wire + Concat(left);
  }

  /** A socket that never fails, never blocks and always takes something is flushed if and only if that can be done. */
  lemma MovingSocketFlushes(r: IoResult, before: seq<SendTurn>, after: seq<SendTurn>, flushable: bool, stuck: bool)
    requires FlushEnds(r, before, after, flushable, stuck) && forall i :: 0 <= i < |before| ==> Moves(before[i])
    ensures r.Ok? <==> flushable
    ensures r.Err? ==> r.error == WriteZero
  {
    forall last: SendTurn | MovedUntil(before, last, after) ensures Moves(last) {
      assert before[|before| - |after| - 1..][0] == last;
    }
  }

  /** A queue that ends in an empty chunk has a stop position there. */
  lemma EmptyLastIsUnflushable(queue: seq<Bytes>)
    requires queue != [] && queue[|queue| - 1] == []
    ensures !Flushable(queue)
  {
    assert StallsAt(queue, LastData(queue));
  }

  /**
   An empty write behind queued data is enough to make `flush` fail on a socket
   that is in perfect health and takes everything.
   */
  method EmptyWriteBreaksFlush(c: Connection) returns (r: IoResult)
    requires c.Valid() && c.socket.Some? && c.socket.value.sends == [] && c.Queue() != []
    modifies c`socket, c`outBuffer, c`log
    ensures r.Err? && c.Queue() != []
    ensures c.socket.Some? && c.socket.value.sends == []
  {
    var w := c.WriteBytes([]);
    EmptyLastIsUnflushable(c.Queue());
    r := c.Flush();
  }
}
