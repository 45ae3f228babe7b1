/** One batch of reads or of writes: how the kernel's answers, the handler's and the batch size end it. */
module Batches {
  import opened Callbacks
  import opened Chunks
  import opened Connections
  import opened Sockets

  datatype IoStatus = Completed | Yield | Closed(graceful: bool) | ShutdownRequested

  /** The calls the next callback makes. */
  function Calls(turns: seq<HandlerTurn>): seq<Op> {
    if turns == [] then [] else turns[0].ops
  }

  /** The turns left after one callback. */
  function Rest(turns: seq<HandlerTurn>): seq<HandlerTurn> {
    if turns == [] then [] else turns[1..]
  }

  /** What callback number i, counted from the next one, will answer. */
  function Answer(turns: seq<HandlerTurn>, i: nat): Action {
    if i < |turns| then turns[i].action else Continue
  }

  /** The calls that callback number i will make. */
  function CallsOf(turns: seq<HandlerTurn>, i: nat): seq<Op> {
    if i < |turns| then turns[i].ops else []
  }

  /** What one socket read, and the handler's answer to its bytes, mean for the batch; `None` means read again. */
  function Verdict(read: RecvResult, answer: Action): Option<IoStatus> {
    match read
    case Eof => Some(Closed(true))
    case RecvBlocked => Some(Completed)
    case RecvFailed => Some(Closed(false))
    case Data(_) =>
      match answer
      case Continue => None
      case CloseConnection => Some(Closed(true))
      case ShutdownLoop => Some(ShutdownRequested)
  }

  /** The receiving side after k reads. */
  function AfterReads(s: Inbound, cap: nat, k: nat): Inbound {
    if k == 0 then s else AfterReads(s, cap, k - 1).Recv(cap).0
  }

  /** These are the kernel's answers to as many reads in a row. */
  predicate ReadsFrom(s: Inbound, cap: nat, got: seq<RecvResult>) {
    forall i :: 0 <= i < |got| ==> got[i] == AfterReads(s, cap, i).Recv(cap).1
  }

  function DataOf(got: seq<RecvResult>): Bytes {
    if got == [] then []
    else
      var last := got[|got| - 1];
      DataOf(got[..|got| - 1]) + if last.Data? then last.data else []
  }

  /** How many of these reads brought bytes, if only the last may have brought none. */
  function Heard(got: seq<RecvResult>): nat {
    if got != [] && !got[|got| - 1].Data? then |got| - 1 else |got|
  }

  /** All reads so far brought bytes, and the handler wanted more. */
  predicate GoesOn(got: seq<RecvResult>, turns: seq<HandlerTurn>) {
    forall i :: 0 <= i < |got| ==> Verdict(got[i], Answer(turns, i)) == None
  }

  /** A batch goes on until it is used up, or until a read or the handler's answer to it ends it. */
  predicate BatchEnds(got: seq<RecvResult>, turns: seq<HandlerTurn>, batch: nat, status: IoStatus) {
    if status.Yield? then GoesOn(got, turns) && |DataOf(got)| >= batch
    else
      && got != [] && GoesOn(got[..|got| - 1], turns) && |DataOf(got[..|got| - 1])| < batch
      && Verdict(got[|got| - 1], Answer(turns, |got| - 1)) == Some(status)
  }

  /** The bytes of a read are offered to the handler as the second segment. */
  function Offered(s: Desk, data: Bytes): Desk {
    s.(second := Some(data), peer := s.peer.(log := s.peer.log.(received := s.peer.log.received + data)))
  }

  /** What the handler left of the second segment went behind the first. */
  ghost predicate Stashed(s: Desk, t: Desk) {
    t == s.(first := t.first, second := None) && BytesIn(t.first) == BytesIn(s.first) + BytesIn(s.second)
  }

  /** The connection after a read from its socket. */
  function Drawn(s: Desk, cap: nat): Desk
    requires s.peer.socket.Some?
  {
    s.(peer := s.peer.(socket := Some(s.peer.socket.value.Recv(cap).0)))
  }

  /** One read: the handler is called if it brought bytes, and if it goes on, what it left is stashed. */
  ghost predicate Takes(read: RecvResult, calls: seq<Op>, action: Action, cap: nat, s: Desk, t: Desk) {
    && s.peer.socket.Some?
    && if !read.Data? then t == Drawn(s, cap)
       else
         exists m: Desk ::
           Did(calls, Offered(Drawn(s, cap), read.data), m) && if action == Continue then Stashed(m, t) else t == m
  }

  /** One read after the other. */
  ghost predicate TakesAll(got: seq<RecvResult>, turns: seq<HandlerTurn>, cap: nat, s: Desk, t: Desk)
    decreases |got|
  {
    if got == [] then t == s
    else
      var last := |got| - 1;
      exists m: Desk ::
        && TakesAll(got[..last], turns, cap, s, m)
        && Takes(got[last], CallsOf(turns, last), Answer(turns, last), cap, m, t)
  }

  lemma TakesMore(got: seq<RecvResult>, turns: seq<HandlerTurn>, cap: nat, s: Desk, m: Desk, read: RecvResult, t: Desk)
    requires TakesAll(got, turns, cap, s, m)
    requires Takes(read, CallsOf(turns, |got|), Answer(turns, |got|), cap, m, t)
    ensures TakesAll(got + [read], turns, cap, s, t)
  {
    hide Takes;
    assert (got + [read])[..|got|] == got;
  }

  /** What the callback at the head of these turns will answer. */
  function Reply(turns: seq<HandlerTurn>): Action {
    if turns == [] then Continue else turns[0].action
  }

  /**
   Some reads of a batch: they are the kernel's answers in a row, each that brought
   bytes took one handler turn and made its calls, and all bytes were received.
   */
  ghost predicate Progress(cap: nat, s: Desk, turns: seq<HandlerTurn>, got: seq<RecvResult>,
                           t: Desk, left: seq<HandlerTurn>) {
    && s.peer.socket.Some? && t.peer.socket.Some?
    && ReadsFrom(s.peer.socket.value.inbound, cap, got)
    && t.peer.socket.value.inbound == AfterReads(s.peer.socket.value.inbound, cap, |got|)
    && left == turns[Min(Heard(got), |turns|)..]
    && t.peer.log.received == s.peer.log.received + DataOf(got)
    && TakesAll(got, turns, cap, s, t)
  }

  lemma ReadsInProgress(cap: nat, s: Desk, turns: seq<HandlerTurn>, got: seq<RecvResult>, t: Desk,
                        left: seq<HandlerTurn>)
    requires Progress(cap, s, turns, got, t, left)
    ensures s.peer.socket.Some? && ReadsFrom(s.peer.socket.value.inbound, cap, got)
  {
  }

  lemma NoProgress(cap: nat, s: Desk, turns: seq<HandlerTurn>)
    requires s.peer.socket.Some?
    ensures Progress(cap, s, turns, [], s, turns) && GoesOn([], turns) && DataOf([]) == []
  {
  }

  lemma ProgressMade(cap: nat, s: Desk, turns: seq<HandlerTurn>, got: seq<RecvResult>, m: Desk, now: seq<HandlerTurn>,
                     read: RecvResult, t: Desk)
    requires Progress(cap, s, turns, got, m, now) && GoesOn(got, turns)
    requires Takes(read, Calls(now), Reply(now), cap, m, t) && t.peer.socket.Some?
    requires (t.peer.socket.value.inbound, read) == m.peer.socket.value.inbound.Recv(cap)
    requires t.peer.log.received == m.peer.log.received + DataOf([read])
    ensures Progress(cap, s, turns, got + [read], t, if read.Data? then Rest(now) else now)
    ensures DataOf(got + [read]) == DataOf(got) + DataOf([read])
    ensures Reply(now) == Answer(turns, |got|)
  {
    hide ReadsFrom, AfterReads, DataOf, TakesAll, Takes, GoesOn, Heard, Calls, CallsOf, Answer, Rest;
    HeardMore(got, turns, read);
    TurnsDropped(turns, |got|);
    ReadsMore(s.peer.socket.value.inbound, cap, got, read);
    DataOfMore(got, read);
    TakesMore(got, turns, cap, s, m, read, t);
    Assoc(s.peer.log.received, DataOf(got), DataOf([read]));
  }

  /** A batch that brings no bytes does nothing but ask the socket. */
  lemma NothingHeard(got: seq<RecvResult>, turns: seq<HandlerTurn>, cap: nat, s: Desk, t: Desk, left: seq<HandlerTurn>)
    requires Progress(cap, s, turns, got, t, left) && |got| == 1 && !got[0].Data?
    ensures t == Drawn(s, cap)
  {
    hide ReadsFrom, AfterReads, DataOf, Heard;
    var m: Desk :|
      TakesAll(got[..0], turns, cap, s, m) && Takes(got[0], CallsOf(turns, 0), Answer(turns, 0), cap, m, t);
    assert got[..0] == [] && m == s;
  }

  /**
   How a batch ends, told by its last read and the answer to it: abruptly only if the
   read failed, gracefully at the end of the stream or on the handler's wish, read dry
   only if there is nothing left, and in a shutdown only if the handler asked for it.
   */
  lemma HowABatchEnds(got: seq<RecvResult>, turns: seq<HandlerTurn>, batch: nat, status: IoStatus)
    requires BatchEnds(got, turns, batch, status) && got != []
    ensures var last, answer := got[|got| - 1], Answer(turns, |got| - 1);
            && (status == Closed(false) <==> last.RecvFailed?)
            && (status == Closed(true) <==> last.Eof? || (last.Data? && answer == CloseConnection))
            && (status == Completed <==> last.RecvBlocked?)
            && (status == ShutdownRequested <==> last.Data? && answer == ShutdownLoop)
            && (status == Yield ==> last.Data? && answer == Continue)
  {
    hide DataOf;
  }

  lemma HeardMore(got: seq<RecvResult>, turns: seq<HandlerTurn>, read: RecvResult)
    requires GoesOn(got, turns)
    ensures Heard(got) == |got| && Heard(got + [read]) == |got| + if read.Data? then 1 else 0
  {
    if got != [] {
      assert Verdict(got[|got| - 1], Answer(turns, |got| - 1)) == None;
    }
  }

  lemma VerdictIgnores(read: RecvResult, a: Action, b: Action)
    requires !read.Data?
    ensures Verdict(read, a) == Verdict(read, b)
  {
  }

  lemma VerdictMeans(read: RecvResult, answer: Action)
    ensures Verdict(read, answer) == None <==> read.Data? && answer == Continue
    ensures Verdict(read, answer) == Some(Completed) <==> read.RecvBlocked?
    ensures Verdict(read, answer) != Some(Yield)
  {
  }

  lemma ReadsMore(s: Inbound, cap: nat, got: seq<RecvResult>, read: RecvResult)
    requires ReadsFrom(s, cap, got) && read == AfterReads(s, cap, |got|).Recv(cap).1
    ensures ReadsFrom(s, cap, got + [read])
    ensures AfterReads(s, cap, |got + [read]|) == AfterReads(s, cap, |got|).Recv(cap).0
  {
    hide AfterReads;
    NextInbound(s, cap, |got|);
  }

  lemma NextInbound(s: Inbound, cap: nat, k: nat)
    ensures AfterReads(s, cap, k + 1) == AfterReads(s, cap, k).Recv(cap).0
  {
  }

  /** One read more, with the next handler turn for its bytes. */
  lemma BatchStep(turns: seq<HandlerTurn>, batch: nat, got: seq<RecvResult>, read: RecvResult)
    requires GoesOn(got, turns) && |DataOf(got)| < batch
    ensures var v := Verdict(read, Answer(turns, |got|));
            if v == None then GoesOn(got + [read], turns) else BatchEnds(got + [read], turns, batch, v.value)
  {
    hide DataOf, Verdict, Answer;
    var all := got + [read];
    assert all[..|all| - 1] == got;
    VerdictMeans(read, Answer(turns, |got|));
  }

  lemma YieldsIff(got: seq<RecvResult>, turns: seq<HandlerTurn>, batch: nat)
    ensures BatchEnds(got, turns, batch, Yield) <==> GoesOn(got, turns) && |DataOf(got)| >= batch
  {
  }

  lemma TurnsDropped(turns: seq<HandlerTurn>, k: nat)
    ensures var left := turns[Min(k, |turns|)..];
            && Reply(left) == Answer(turns, k)
            && Calls(left) == CallsOf(turns, k) && Rest(left) == turns[Min(k + 1, |turns|)..]
  {
  }

  lemma DataOfOne(read: RecvResult)
    ensures DataOf([read]) == if read.Data? then read.data else []
  {
    assert [read][..0] == [];
  }

  lemma DataOfMore(got: seq<RecvResult>, read: RecvResult)
    ensures DataOf(got + [read]) == DataOf(got) + DataOf([read])
    ensures DataOf([read]) == if read.Data? then read.data else []
    ensures (got + [read])[..|got|] == got
  {
    DataOfOne(read);
    assert (got + [read])[..|got|] == got;
  }

  /** How a batch of writes ends: the queue is empty, the socket full, the batch used up, or it counts as closed. */
  predicate PumpEnds(status: IoStatus, before: seq<SendTurn>, after: seq<SendTurn>,
                     emptied: bool, flushable: bool, stuck: bool) {
    match status
    case Completed => if emptied then Moved(before, after) && flushable else MovedUntil(before, Block, after)
    case Yield => !emptied && Moved(before, after)
    case Closed(graceful) =>
      && !graceful && !emptied
      && (MovedUntil(before, Fail, after) || MovedUntil(before, Accept(0), after)
          || (Moved(before, after) && !flushable && stuck))
    case ShutdownRequested => false
  }

  /**
   The turn of the script that was taken last decides: a socket that blocks is left
   alone, one that fails or takes nothing is given up, and one that moves is written
   until the queue is empty or the batch used up, unless the queue is not flushable.
   */
  lemma HowAPumpEnds(status: IoStatus, before: seq<SendTurn>, after: seq<SendTurn>,
                     emptied: bool, flushable: bool, stuck: bool)
    requires PumpEnds(status, before, after, emptied, flushable, stuck)
    ensures |after| <= |before| && status != Closed(true) && status != ShutdownRequested
    ensures |after| < |before| ==>
              var last := before[|before| - |after| - 1];
              && (last == Block ==> status == Completed && !emptied)
              && (last == Fail || last == Accept(0) ==> status == Closed(false))
    ensures |after| == |before| || Moves(before[|before| - |after| - 1]) ==>
              (if emptied then status == Completed else status != Completed) && (status.Closed? ==> !flushable && stuck)
  {
    LastTurn(before, after);
  }

  /** A socket that keeps moving is given up only for a run of empty chunks, and a completed batch leaves nothing. */
  lemma MovingSocketStays(status: IoStatus, before: seq<SendTurn>, after: seq<SendTurn>,
                          emptied: bool, flushable: bool, stuck: bool)
    requires PumpEnds(status, before, after, emptied, flushable, stuck)
    requires forall i :: 0 <= i < |before| ==> Moves(before[i])
    ensures status.Closed? ==> !flushable
    ensures status.Completed? ==> emptied
  {
    forall last: SendTurn | MovedUntil(before, last, after) ensures Moves(last) {
      assert before[|before| - |after| - 1..][0] == last;
    }
  }
}
