/**
 What runs inside an event loop on behalf of the user: the calls of a callback on
 its connection, and the sending ends of the loop's queues, which anybody may use.
 */
module Handlers {
  import opened Callbacks
  import opened Chunks
  import opened Commands
  import opened Connections
  import opened Sockets

  /** Two queues that were only added to, at the end. */
  predicate Longer(u0: seq<Command>, c0: seq<Command>, u1: seq<Command>, c1: seq<Command>) {
    u0 <= u1 && c0 <= c1
  }

  lemma LongerStill(u0: seq<Command>, c0: seq<Command>, u1: seq<Command>, c1: seq<Command>,
                    u2: seq<Command>, c2: seq<Command>)
    requires Longer(u0, c0, u1, c1) && Longer(u1, c1, u2, c2)
    ensures Longer(u0, c0, u2, c2)
  {
  }

  lemma NoLonger(u: seq<Command>, c: seq<Command>)
    ensures Longer(u, c, u, c)
  {
  }

  lemma OneMoreSent(u: seq<Command>, c: seq<Command>, commands: seq<Command>, i: nat)
    requires i < |commands|
    ensures multiset(commands[..i + 1]) == multiset(commands[..i]) + multiset{commands[i]}
    ensures multiset(u + [commands[i]]) + multiset(c) == multiset(u) + multiset(c) + multiset{commands[i]}
    ensures multiset(u) + multiset(c + [commands[i]]) == multiset(u) + multiset(c) + multiset{commands[i]}
  {
    assert commands[..i + 1] == commands[..i] + [commands[i]];
  }

  /**
   The sending ends of a loop's two queues, shared with every connection and thread,
   and how often the waker has been called.
   */
  class EventLoopHandle {
    var urgent: seq<Command>
    var common: seq<Command>
    var wakes: nat

    constructor ()
      ensures urgent == [] && common == [] && wakes == 0
    {
      urgent, common, wakes := [], [], 0;
    }

    /** Commands are only added, and only at the end. */
    twostate predicate Grew()
      reads this
    {
      Longer(old(urgent), old(common), urgent, common)
    }

    method Trigger(priority: Priority, command: Command)
      modifies this
      ensures var overflow := GoesToCommon(priority, |old(urgent)|);
              && urgent == (if overflow then old(urgent) else old(urgent) + [command])
              && common == (if overflow then old(common) + [command] else old(common))
      ensures wakes == old(wakes) + 1
      ensures Grew()
    {
      if priority == Low && |urgent| >= MAX_POLL_EVENT_CAP {
        common := common + [command];
      } else {
        urgent := urgent + [command];
      }
      wakes := wakes + 1;
    }

    /** Other threads send while the loop is busy: each command is queued once, and wakes the loop. */
    method TriggerAll(commands: seq<Command>)
      modifies this
      ensures Grew() && wakes == old(wakes) + |commands|
      ensures multiset(urgent) + multiset(common) ==
              multiset(old(urgent)) + multiset(old(common)) + multiset(commands)
    {
      assert commands[..0] == [];
      for i := 0 to |commands|
        invariant Grew() && wakes == old(wakes) + i
        invariant multiset(urgent) + multiset(common) ==
                  multiset(old(urgent)) + multiset(old(common)) + multiset(commands[..i])
      {
        OneMoreSent(urgent, common, commands, i);
        Trigger(commands[i].Priority(), commands[i]);
      }
      assert commands[..|commands|] == commands;
    }
  }

  /** A connection and its loop's queues, as a call finds and leaves them. */
  ghost function DeskOf(handle: EventLoopHandle, c: Connection): Desk
    reads handle, c
  {
    Desk(PeerOf(c), c.inBuffer, c.ioBuffer, c.codec, Queues(handle.urgent, handle.common))
  }

  /**
   What any callback keeps: the books stay balanced, nothing in them is taken
   back, and the registration stays the same.
   */
  twostate predicate Handled(c: Connection)
    reads c
  {
    && c.Valid()
    && c.OnlySends()
    && c.gfd == old(c.gfd)
    && c.log == old(c.log).(consumed := c.log.consumed, accepted := c.log.accepted, wire := c.log.wire)
    && old(c.log).consumed <= c.log.consumed
    && old(c.log).accepted <= c.log.accepted && old(c.log).wire <= c.log.wire
    && (old(c.ioBuffer).None? ==> c.ioBuffer.None?)
    && (old(c.IoBytes()) == [] ==> c.IoBytes() == [])
  }

  /** A reading call leaves the output alone and takes nothing back. */
  lemma ReadsOnly(op: Op, s: Desk, t: Desk)
    requires op.Reads() && s.peer.socket.Some? && Does(op, s, t)
    ensures t.peer == s.peer.(log := s.peer.log.(consumed := t.peer.log.consumed))
    ensures s.peer.log.consumed <= t.peer.log.consumed && t.queues == s.queues
    ensures (s.second.None? ==> t.second.None?) && (BytesIn(s.second) == [] ==> BytesIn(t.second) == [])
  {
    hide FrontOf, LeftOfFirst, LeftOfSecond;
  }

  method DoTake(handle: EventLoopHandle, c: Connection, op: Op)
    requires c.InputConserved() && c.socket.Some? && (op.TakeContiguous? || op.TakeVectored? || op.DropInput?)
    modifies c`inBuffer, c`ioBuffer, c`log
    ensures c.InputConserved() && Does(op, old(DeskOf(handle, c)), DeskOf(handle, c))
  {
    hide Consumes, Connection.Peek;
    match op
    case TakeContiguous(n) =>
      var data := c.NextContiguous(n);
    case TakeVectored(n) =>
      var pieces := c.NextVectored(n);
    case DropInput(n) =>
      var dropped := c.Discard(n);
  }

  method DoCopy(handle: EventLoopHandle, c: Connection, op: Op)
    requires c.InputConserved() && c.socket.Some? && op.ReadInto?
    modifies c`inBuffer, c`ioBuffer, c`log
    ensures c.InputConserved() && Does(op, old(DeskOf(handle, c)), DeskOf(handle, c))
  {
    hide Consumes;
    var buf := new Byte[op.size](_ => 0);
    var n := c.Read(buf);
  }

  method DoMessage(handle: EventLoopHandle, c: Connection, op: Op)
    requires c.InputConserved() && c.socket.Some? && op.TakeMessage?
    modifies c`inBuffer, c`codec, c`log
    ensures c.InputConserved() && Does(op, old(DeskOf(handle, c)), DeskOf(handle, c))
  {
    hide Consumes;
    var r := c.NextMessage();
  }

  method DoRead(handle: EventLoopHandle, c: Connection, op: Op)
    requires c.Valid() && c.socket.Some? && op.Reads()
    modifies c`inBuffer, c`ioBuffer, c`codec, c`log
    ensures Handled(c) && Does(op, old(DeskOf(handle, c)), DeskOf(handle, c))
  {
    hide Does;
    if op.ReadInto? {
      DoCopy(handle, c, op);
    } else if op.TakeMessage? {
      DoMessage(handle, c, op);
    } else {
      DoTake(handle, c, op);
    }
    ReadsOnly(op, old(DeskOf(handle, c)), DeskOf(handle, c));
  }

  method DoPut(handle: EventLoopHandle, c: Connection, op: Op)
    requires c.Valid() && c.socket.Some? && op.Puts()
    modifies c`socket, c`outBuffer, c`log
    ensures c.OutputConserved() && c.OnlySends() && c.OutputOnly()
    ensures Does(op, old(DeskOf(handle, c)), DeskOf(handle, c))
  {
    hide PutOn, Flushes;
    match op
    case PutBytes(buf) =>
      var r := c.WriteBytes(buf);
    case PutVectoredBytes(bufs) =>
      var r := c.WriteVectoredBytes(bufs);
    case PutSlice(buf) =>
      var r := c.Write(buf);
    case PutSlices(bufs) =>
      var r := c.WriteVectored(bufs);
  }

  method DoWrite(handle: EventLoopHandle, c: Connection, op: Op)
    requires c.Valid() && c.socket.Some? && op.Writes()
    modifies c`socket, c`outBuffer, c`codec, c`log
    ensures c.OutputConserved() && c.OnlySends() && c.OutputOnly()
    ensures Does(op, old(DeskOf(handle, c)), DeskOf(handle, c))
  {
    hide PutOn, Flushes, FlushEnds;
    if op.SendMessage? {
      var r := c.Send(op.msg);
    } else if op.FlushOutput? {
      ghost var was := PeerOf(c);
      var r := c.Flush();
      FlushesAs(was, PeerOf(c), r);
    } else {
      hide Does;
      DoPut(handle, c, op);
    }
  }

  method DoOutput(handle: EventLoopHandle, c: Connection, op: Op)
    requires c.Valid() && c.socket.Some? && op.Writes()
    modifies c`socket, c`outBuffer, c`codec, c`log
    ensures Handled(c) && Does(op, old(DeskOf(handle, c)), DeskOf(handle, c))
  {
    hide Does;
    DoWrite(handle, c, op);
  }

  /** The calls that do not touch the streams. */
  method DoOther(handle: EventLoopHandle, c: Connection, op: Op)
    requires c.Valid() && c.socket.Some? && !op.Reads() && !op.Writes()
    modifies handle, c`codec
    ensures Handled(c) && handle.Grew()
    ensures Does(op, old(DeskOf(handle, c)), DeskOf(handle, c))
  {
    NoLonger(handle.urgent, handle.common);
    if op.UseCodec? {
      c.codec := Some(op.codec);
    } else {
      var command := if op.CloseLater? then Command.Close(c.gfd.SlabIndex()) else op.command;
      handle.Trigger(command.Priority(), command);
    }
  }

  method DoOp(handle: EventLoopHandle, c: Connection, op: Op)
    requires c.Valid() && c.socket.Some?
    modifies handle, c
    ensures Handled(c) && handle.Grew()
    ensures Does(op, old(DeskOf(handle, c)), DeskOf(handle, c))
  {
    hide Longer, Does, Handled;
    NoLonger(handle.urgent, handle.common);
    if op.Reads() {
      DoRead(handle, c, op);
    } else if op.Writes() {
      DoOutput(handle, c, op);
    } else {
      DoOther(handle, c, op);
    }
  }

  /**
   A callback: every one of its calls is made, in order, each with its effect on the
   connection and on the queues; the books stay balanced and commands are only added.
   */
  method RunOps(handle: EventLoopHandle, c: Connection, ops: seq<Op>)
    requires c.Valid() && c.socket.Some?
    modifies handle, c
    ensures Handled(c) && handle.Grew()
    ensures Did(ops, old(DeskOf(handle, c)), DeskOf(handle, c))
  {
    hide Does, Did;
    ghost var start := DeskOf(handle, c);
    DidNothing(start);
    assert ops[..0] == [];
    for i := 0 to |ops|
      invariant Handled(c) && handle.Grew()
      invariant Did(ops[..i], start, DeskOf(handle, c))
    {
      ghost var m := DeskOf(handle, c);
      DoOp(handle, c, ops[i]);
      DidMore(ops[..i], ops[i], start, m, DeskOf(handle, c));
      assert ops[..i + 1] == ops[..i] + [ops[i]];
    }
    assert ops[..|ops|] == ops;
  }
}
