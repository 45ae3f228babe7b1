/**
 What the kernel may do to a registered stream socket. Each call takes one turn
 of a script, so quantifying over scripts covers every behaviour: short writes,
 blocked and interrupted calls, failures, and bytes that arrive while the loop
 is reading. Readiness is edge triggered: `edge` is raised when input arrives
 and lowered when the poller hands the event to the loop.
 */
module Sockets {
  import opened Chunks

  datatype Option<+T> = None | Some(value: T)

  datatype IoError = WouldBlock | Interrupted | WriteZero | Failed

  datatype IoResult = Ok(n: nat) | Err(error: IoError)

  datatype SendTurn = Accept(limit: nat) | Block | Interrupt | Fail

  /** The script of a healthy socket's sending side keeps moving: it takes something, or was only interrupted. */
  predicate Moves(turn: SendTurn) {
    turn.Interrupt? || (turn.Accept? && turn.limit > 0)
  }

  /** From one script to the other, the socket kept moving. */
  predicate Moved(before: seq<SendTurn>, after: seq<SendTurn>) {
    && |after| <= |before| && before[|before| - |after|..] == after
    && forall i :: 0 <= i < |before| - |after| ==> Moves(before[i])
  }

  /** It kept moving up to one last turn. */
  predicate MovedUntil(before: seq<SendTurn>, last: SendTurn, after: seq<SendTurn>) {
    Moved(before, [last] + after)
  }

  lemma MovedOn(a: seq<SendTurn>, b: seq<SendTurn>, c: seq<SendTurn>)
    requires Moved(a, b) && Moved(b, c)
    ensures Moved(a, c)
  {
    forall i | 0 <= i < |a| - |c| ensures Moves(a[i]) {
      if i >= |a| - |b| {
        assert a[i] == b[i - (|a| - |b|)];
      }
    }
    assert a[|a| - |c|..] == b[|b| - |c|..];
  }

  datatype RecvTurn = RecvTurn(arrived: Bytes, hangup: bool, limit: nat, fail: bool)

  datatype RecvResult = Data(data: Bytes) | Eof | RecvBlocked | RecvFailed

  /** The receiving side: bytes in the kernel, end of stream, and the undelivered edge. */
  datatype Inbound = Inbound(rx: Bytes, eof: bool, edge: bool, turns: seq<RecvTurn>) {
    /** Something a read would return. */
    predicate Readable() {
      rx != [] || eof
    }

    /** Input, or the end of it, arrives: the poller owes the loop an event. */
    function Arrive(data: Bytes, hangup: bool): (r: Inbound)
      ensures r.Readable() ==> r.edge || (Readable() && !edge)
    {
      Inbound(rx + data, eof || hangup, edge || data != [] || hangup, turns)
    }

    /** One read into a buffer of `capacity` bytes; it blocks only when nothing is there. */
    function Recv(capacity: nat): (r: (Inbound, RecvResult))
      ensures r.1.Data? ==> 0 < |r.1.data| <= capacity
      ensures r.1.RecvBlocked? ==> !r.0.Readable()
    {
      var turn := if turns == [] then RecvTurn([], false, capacity, false) else turns[0];
      var rest := if turns == [] then [] else turns[1..];
      var now := Arrive(turn.arrived, turn.hangup).(turns := rest);
      var n := if turn.limit < |now.rx| then turn.limit else |now.rx|;
      var m := if n == 0 then 1 else n;
      if turn.fail then (now, RecvFailed)
      else if now.rx == [] then (now, if now.eof then Eof else RecvBlocked)
      else if capacity == 0 then (now, Eof)
      else
        var k := if m <= capacity then m else capacity;
        (now.(rx := now.rx[k..]), Data(now.rx[..k]))
    }
  }

  datatype Socket = Socket(fd: int, inbound: Inbound, sends: seq<SendTurn>, writeInterest: bool) {
    /** One write of `offered` bytes; a socket with no turns left takes everything. */
    function Send(offered: nat): (r: (Socket, IoResult))
      ensures r.0 == this.(sends := r.0.sends)
      ensures r.1.Ok? ==> r.1.n <= offered
      ensures r.1 != Err(WriteZero)
      ensures r.1 == Err(Interrupted) ==> |r.0.sends| < |sends|
      ensures |r.0.sends| <= |sends|
      ensures sends == [] ==> r == (this, Ok(offered))
    {
      if sends == [] then (this, Ok(offered))
      else
        var next := this.(sends := sends[1..]);
        match sends[0]
        case Accept(limit) => (next, Ok(if limit <= offered then limit else offered))
        case Block => (next, Err(WouldBlock))
        case Interrupt => (next, Err(Interrupted))
        case Fail => (next, Err(Failed))
    }

    /** One read; the sending side is not involved. */
    function Recv(capacity: nat): (r: (Socket, RecvResult))
      ensures r.0 == this.(inbound := r.0.inbound) && (r.0.inbound, r.1) == inbound.Recv(capacity)
    {
      var (after, result) := inbound.Recv(capacity);
      (this.(inbound := after), result)
    }
  }
}
