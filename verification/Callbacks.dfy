/**
 What the user's handlers may do: a callback makes any list of calls on its
 connection, each of which may send a command to the loop. `Does` says what one
 call makes of the connection and of the queues, `Did` what a whole callback does.
 */
module Callbacks {
  import opened Chunks
  import opened Codecs
  import opened Commands
  import opened Connections
  import opened Gfds
  import opened Sockets

  datatype Action = Continue | CloseConnection | ShutdownLoop

  /** The public operations of a connection, and sending a command to its loop. */
  datatype Op =
    | TakeContiguous(n: Option<nat>)
    | TakeVectored(n: Option<nat>)
    | DropInput(n: Option<nat>)
    | ReadInto(size: nat)
    | TakeMessage
    | PutBytes(buf: Bytes)
    | PutVectoredBytes(bufs: seq<Bytes>)
    | PutSlice(buf: Bytes)
    | PutSlices(bufs: seq<Bytes>)
    | SendMessage(msg: Bytes)
    | FlushOutput
    | CloseLater
    | UseCodec(codec: Codec)
    | Issue(command: Command)
  {
    predicate Reads() {
      TakeContiguous? || TakeVectored? || DropInput? || ReadInto? || TakeMessage?
    }

    predicate Puts() {
      PutBytes? || PutVectoredBytes? || PutSlice? || PutSlices?
    }

    predicate Writes() {
      Puts() || SendMessage? || FlushOutput?
    }

    /** The bytes handed over to be written. */
    function Given(): Bytes {
      match this
      case PutBytes(buf) => buf
      case PutSlice(buf) => buf
      case PutVectoredBytes(bufs) => Concat(bufs)
      case PutSlices(bufs) => Concat(bufs)
      case _ => []
    }
  }

  datatype HandlerTurn = HandlerTurn(ops: seq<Op>, action: Action)

  datatype Queues = Queues(urgent: seq<Command>, common: seq<Command>)

  /** The queues with one command more. */
  function Queued(q: Queues, command: Command): Queues {
    if GoesToCommon(command.Priority(), |q.urgent|) then q.(common := q.common + [command])
    else q.(urgent := q.urgent + [command])
  }

  /** A connection and its loop's queues, as a call finds and leaves them. */
  datatype Desk = Desk(peer: Peer, first: Option<Bytes>, second: Option<Bytes>, codec: Option<Codec>, queues: Queues) {
    function Wanted(n: Option<nat>): nat {
      if n.Some? then n.value else Unread()
    }

    function Unread(): nat {
      |BytesIn(first)| + |BytesIn(second)|
    }

    /** Enough bytes, and a buffer to take them from. */
    predicate Answers(n: Option<nat>) {
      Wanted(n) <= Unread() && (BytesIn(first) != [] || second.Some?)
    }
  }

  /** The first k bytes of the input were consumed, and nothing else happened. */
  ghost predicate Gives(s: Desk, k: nat, t: Desk) {
    && t == s.(first := t.first, second := t.second, peer := s.peer.(log := t.peer.log))
    && Consumes(s.first, s.second, s.peer.log, k, t.first, t.second, t.peer.log)
  }

  /** What one call does. */
  ghost predicate Does(op: Op, s: Desk, t: Desk)
    requires s.peer.socket.Some?
  {
    match op
    case TakeContiguous(n) => if s.Answers(n) then Gives(s, s.Wanted(n), t) else t == s
    case TakeVectored(n) => if n.None? || 0 < n.value <= s.Unread() then Gives(s, s.Wanted(n), t) else t == s
    case DropInput(n) => if s.Answers(n) then Gives(s, s.Wanted(n), t) else t == s
    case ReadInto(size) => Gives(s, Min(size, s.Unread()), t)
    case TakeMessage =>
      if s.codec.None? || s.first.None? then t == s
      else
        var codec, input := s.codec.value, s.first.value;
        && Gives(s.(codec := Some(Decoded(codec, input))), Decode(codec, input).taken, t)
        && t.first == Some(input[Decode(codec, input).taken..])
    case PutBytes(buf) => t == s.(peer := PutOn(s.peer, [buf]).0)
    case PutVectoredBytes(bufs) => t == if Concat(bufs) == [] then s else s.(peer := PutOn(s.peer, bufs).0)
    case PutSlice(buf) => t == s.(peer := PutOn(s.peer, [buf]).0)
    case PutSlices(bufs) => t == if Concat(bufs) == [] then s else s.(peer := PutOn(s.peer, bufs).0)
    case SendMessage(msg) =>
      if s.codec.None? then t == s
      else
        var encoded := Encode(s.codec.value, msg);
        t == s.(codec := Some(Encoded(s.codec.value, msg)),
                peer := if encoded.Some? then PutOn(s.peer, [encoded.value]).0 else s.peer)
    case FlushOutput => t == s.(peer := t.peer) && Flushes(s.peer, t.peer)
    case CloseLater => t == s.(queues := Queued(s.queues, Command.Close(s.peer.gfd.SlabIndex())))
    case UseCodec(codec) => t == s.(codec := Some(codec))
    case Issue(command) => t == s.(queues := Queued(s.queues, command))
  }

  /** One call after the other. */
  ghost predicate Did(ops: seq<Op>, s: Desk, t: Desk)
    decreases |ops|
  {
    if ops == [] then t == s
    else
      var last := |ops| - 1;
      exists m: Desk :: m.peer.socket.Some? && Did(ops[..last], s, m) && Does(ops[last], m, t)
  }

  lemma DidNothing(s: Desk)
    ensures Did([], s, s)
  {
  }

  lemma DidMore(ops: seq<Op>, op: Op, s: Desk, m: Desk, t: Desk)
    requires Did(ops, s, m) && m.peer.socket.Some? && Does(op, m, t)
    ensures Did(ops + [op], s, t)
  {
    hide Does;
    assert (ops + [op])[..|ops|] == ops;
  }

  lemma DidOne(op: Op, s: Desk, t: Desk)
    requires Did([op], s, t)
    ensures s.peer.socket.Some? && Does(op, s, t)
  {
    hide Does;
    assert [op][..0] == [];
  }

  /**
   The bytes that a call hands over are accepted whole and in order, behind all that
   was accepted before; or nothing waits and the socket fails, and they are not.
   */
  lemma GivenIsAccepted(op: Op, s: Desk, t: Desk)
    requires op.Puts() && s.peer.socket.Some? && Does(op, s, t)
    ensures t == s.(peer := t.peer) && t.peer.gfd == s.peer.gfd
    ensures var (was, now, sends) := (s.peer, t.peer, s.peer.socket.value.sends);
            || (&& now.log == was.log.(accepted := was.log.accepted + op.Given(), wire := now.log.wire)
                && now.log.wire + Concat(now.queue) == was.log.wire + Concat(was.queue) + op.Given())
            || (now.log == was.log && now.queue == was.queue == [] && sends != [] && sends[0] == Fail)
  {
    hide PutOn;
    match op
    case PutBytes(buf) =>
      SingleChunk(buf);
      PutKeepsOrder(s.peer, [buf]);
    case PutSlice(buf) =>
      SingleChunk(buf);
      PutKeepsOrder(s.peer, [buf]);
    case PutVectoredBytes(bufs) =>
      PutKeepsOrder(s.peer, bufs);
    case PutSlices(bufs) =>
      PutKeepsOrder(s.peer, bufs);
  }

  /**
   A reading call takes so many bytes off the front of the input, and nothing else: as
   many as were asked for if they are there, as many as there are if none were named or
   if a buffer is filled, and of messages what the codec takes off the first segment.
   */
  lemma ReadsTakeTheFront(op: Op, s: Desk, t: Desk)
    requires op.Reads() && s.peer.socket.Some? && Does(op, s, t)
    ensures var flat, left := BytesIn(s.first) + BytesIn(s.second), BytesIn(t.first) + BytesIn(t.second);
            var taken: int :=
              match op
              case TakeContiguous(n) => if n.None? then |flat| else if n.value <= |flat| then n.value else 0
              case DropInput(n) => if n.None? then |flat| else if n.value <= |flat| then n.value else 0
              case TakeVectored(n) => if n.None? then |flat| else if n.value <= |flat| then n.value else 0
              case ReadInto(size) => if size <= |flat| then size else |flat|
              case TakeMessage =>
                if s.codec.None? || s.first.None? then 0 else Decode(s.codec.value, s.first.value).taken
              case _ => 0;
            && 0 <= taken <= |flat| && left == flat[taken..]
            && t.peer == s.peer.(log := s.peer.log.(consumed := s.peer.log.consumed + flat[..taken]))
            && t.queues == s.queues && (t.codec == s.codec || op.TakeMessage?)
  {
    hide FrontOf, LeftOfFirst, LeftOfSecond;
    var a, b := BytesIn(s.first), BytesIn(s.second);
    assert (a + b)[0..] == a + b && s.peer.log.consumed + (a + b)[..0] == s.peer.log.consumed;
    forall k: nat | k <= |a| + |b|
      ensures FrontOf(a, b, k) == (a + b)[..k] && LeftOfFirst(a, k) + LeftOfSecond(a, b, k) == (a + b)[k..]
    {
      FrontIs(a, b, k);
      RestIs(a, b, k);
    }
  }

  /** A codec is installed, a message encoded and accepted unless the socket fails, the queue flushed if it can be. */
  lemma SendsAndFlushes(op: Op, s: Desk, t: Desk)
    requires s.peer.socket.Some? && Does(op, s, t)
    ensures op.UseCodec? ==> t == s.(codec := Some(op.codec))
    ensures op.SendMessage? && s.codec.None? ==> t == s
    ensures op.SendMessage? && s.codec.Some? ==>
              var encoded := Encode(s.codec.value, op.msg);
              && t == s.(codec := Some(Encoded(s.codec.value, op.msg)), peer := t.peer)
              && if encoded.None? then t.peer == s.peer
                 else
                   || t.peer.log.accepted == s.peer.log.accepted + encoded.value
                   || (s.peer.queue == [] && s.peer.socket.value.sends != [] && s.peer.socket.value.sends[0] == Fail)
    ensures op.FlushOutput? ==>
              && t == s.(peer := t.peer) && t.peer.log.accepted == s.peer.log.accepted
              && (s.peer.socket.value.sends == [] && Flushable(s.peer.queue) ==>
                    t.peer.queue == [] && t.peer.log.wire == s.peer.log.wire + Concat(s.peer.queue))
  {
    hide PutOn, Flushable, Stuck;
    if op.SendMessage? && s.codec.Some? {
      var encoded := Encode(s.codec.value, op.msg);
      if encoded.Some? {
        SingleChunk(encoded.value);
        PutKeepsOrder(s.peer, [encoded.value]);
      }
    }
    if op.FlushOutput? && s.peer.socket.value.sends == [] && Flushable(s.peer.queue) {
      var (was, now) := (s.peer, t.peer);
      var r: IoResult :|
        && (r.Ok? <==> now.queue == [])
        && FlushEnds(r, was.socket.value.sends, now.socket.value.sends, Flushable(was.queue), Stuck(now.queue));
      MovingSocketFlushes(r, was.socket.value.sends, now.socket.value.sends, true, Stuck(now.queue));
      assert Concat(now.queue) == [];
    }
  }

  /** A command that a call sends goes behind all others of its queue, and that is all the call does. */
  lemma SentIsQueued(op: Op, s: Desk, t: Desk)
    requires op.Issue? && s.peer.socket.Some? && Does(op, s, t)
    ensures t == s.(queues := t.queues)
    ensures var low := op.command.Nop? || op.command.Register? || op.command.Close? || op.command.Wake?;
            var overflows := low && |s.queues.urgent| >= 1024;
            && t.queues.urgent == s.queues.urgent + (if overflows then [] else [op.command])
            && t.queues.common == s.queues.common + (if overflows then [op.command] else [])
  {
    OverflowIff(op.command, |s.queues.urgent|);
  }
}
