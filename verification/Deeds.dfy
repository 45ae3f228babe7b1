/**
 What the pieces of an event loop's work do. A deed is one piece of work with what
 the loop looked like before and after it; `Done` says what each kind of work must
 have done to the connections, the handler's turns and the records, that it did
 nothing to anybody else, and for which reasons it may have ended the loop.
 */
module Deeds {
  import opened Batches
  import opened Callbacks
  import opened Chunks
  import opened Commands
  import opened Connections
  import opened Gfds
  import opened Handlers
  import opened Sockets
  import opened Tokens

  /** Why the loop ended: asked to, an OS call failed, or the slab outgrew the handle (a debug assertion). */
  datatype StopReason = ShutDown | OsError | SlotOverflow

  /** `io::Result<()>`: the loop goes on, or `?` takes it out of `run_loop`. */
  datatype Status = Go | Stop(reason: StopReason)

  /** One attempt to accept a connection, other than finding none. */
  datatype AcceptTurn = Incoming(socket: Socket) | AcceptFails

  /** An event of the poller; if it is a listener's, `backlog` is what accepting will find. */
  datatype Event = Event(token: nat, readable: bool, writable: bool, error: bool, readClosed: bool,
                         backlog: seq<AcceptTurn>) {
    /** The loop reads on this event, unless it closes the connection. */
    predicate Readish() {
      readable || error
    }
  }

  type LoopId = x: nat | x < LOOP_LIMIT

  datatype Delivery = Delivery(gfd: Gfd, serial: nat)

  /** Who was let in, by creation number: the slot of each connection, and every handle given out. */
  datatype Roster = Roster(homes: map<nat, nat>, issued: map<nat, Gfd>)

  /**
   What happened: how often `on_close` was called for each registration, which
   registration took the bytes of which handle, and how registrations ended.
   */
  datatype History = History(closes: multiset<nat>, deliveries: set<Delivery>, finals: map<nat, Log>)

  /** What never changes in a loop. */
  datatype Env = Env(loopId: LoopId, readCap: nat, batch: nat)

  /** What the loop looks like at one time; `os` are the results of the calls of the poller still to come. */
  datatype Snap = Snap(live: map<nat, Peer>, turns: seq<HandlerTurn>, os: seq<bool>, roster: Roster, hist: History,
                       created: nat, queues: Queues)

  /** The result of the next call of the poller; with none left it succeeds. */
  function Allowed(os: seq<bool>): bool {
    os == [] || os[0]
  }

  function Later(os: seq<bool>): seq<bool> {
    if os == [] then [] else os[1..]
  }

  datatype Work =
    | Poll(hasPending: bool)
    | Begin(event: Event)
    | Run(urgent: bool, command: Command)
    | Admit(socket: Socket)
    | WriteOut(key: nat)
    | ReadIn(key: nat)
    | Align(key: nat)
    | Drop(key: nat)

  datatype Deed = Deed(work: Work, before: Snap, after: Snap, r: Status)

  // ----- what one piece of work does -----

  ghost predicate Grew(b: Snap, a: Snap) {
    Longer(b.queues.urgent, b.queues.common, a.queues.urgent, a.queues.common)
  }

  /** Nothing happened but that commands were sent. */
  ghost predicate Same(b: Snap, a: Snap) {
    a == b.(queues := a.queues) && Grew(b, a)
  }

  /** The socket keeps moving, and no run of empty chunks stands in the way. */
  predicate Drains(sends: seq<SendTurn>, queue: seq<Bytes>) {
    Flushable(queue) && forall i :: 0 <= i < |sends| ==> Moves(sends[i])
  }

  /** The output is flushed as far as it will go, or thrown away. */
  ghost predicate Leaves(p: Peer, graceful: bool, q: Peer) {
    if graceful then Flushes(p, q)
    else q == p.(queue := [], log := p.log.(aired := p.log.wire, skipped := Concat(p.queue), wire := []))
  }

  /** First that, and then the calls of `on_close`. */
  ghost predicate Parts(p: Peer, graceful: bool, late: seq<Op>, queues: Queues, log: Log, after: Queues) {
    exists s: Desk, t: Desk ::
      Leaves(p, graceful, s.peer) && s.queues == queues && Did(late, s, t) && t.peer.log == log && t.queues == after
  }

  /** How a closed connection ended; `late` are the calls that its `on_close` makes. */
  ghost predicate EndsAs(p: Peer, graceful: bool, late: seq<Op>, queues: Queues, log: Log, after: Queues) {
    && Parts(p, graceful, late, queues, log, after)
    && Grows(p.log, log) && log.received == p.log.received
    && log.skipped == (if graceful then [] else Concat(p.queue))
    && (log.skipped == [] ==> log.OnWire() <= log.accepted)
    && (graceful && p.socket.Some? && Drains(p.socket.value.sends, p.queue) ==> p.log.accepted <= log.OnWire())
  }

  /** One `on_close`, and the connection is gone; or the poller keeps its socket, and the loop ends. */
  ghost predicate CloseAs(key: nat, graceful: bool, b: Snap, a: Snap, r: Status) {
    if key !in b.live then Same(b, a) && r == Go
    else
      var p := b.live[key];
      && Grew(b, a) && a.turns == Rest(b.turns) && a.roster == b.roster && a.created == b.created
      && a.hist.closes == b.hist.closes + multiset{p.log.serial} && a.hist.deliveries == b.hist.deliveries
      && a.os == Later(b.os) && (r.Go? <==> Allowed(b.os))
      && if r.Go? then
           && a.live == b.live - {key} && p.log.serial in a.hist.finals
           && a.hist.finals == b.hist.finals[p.log.serial := a.hist.finals[p.log.serial]]
           && EndsAs(p, graceful, Calls(b.turns), b.queues, a.hist.finals[p.log.serial], a.queues)
         else
           && r == Stop(OsError) && key in a.live && a.live == b.live[key := a.live[key]]
           && a.hist.finals == b.hist.finals && EndsAs(p, graceful, Calls(b.turns), b.queues, a.live[key].log, a.queues)
  }

  /** How the connection in slot `key` was left by a shutdown: closed gracefully, even if the poller kept its socket. */
  ghost predicate LeftInPeace(key: nat, p: Peer, a: Snap) {
    if key in a.live then InPeace(p, a.live[key].log)
    else p.log.serial in a.hist.finals && InPeace(p, a.hist.finals[p.log.serial])
  }

  /** It was closed gracefully, whatever its `on_close` did. */
  ghost predicate InPeace(p: Peer, log: Log) {
    exists late, queues, after :: EndsAs(p, true, late, queues, log, after)
  }

  /** A shutdown on its way: all connections but those in `rest` are closed. */
  ghost predicate ShutBut(rest: set<nat>, b: Snap, a: Snap) {
    && Grew(b, a) && a.roster == b.roster && a.created == b.created && a.hist.deliveries == b.hist.deliveries
    && a.live.Keys <= b.live.Keys
    && forall k :: k in b.live ==>
         if k in rest then k in a.live && a.live[k] == b.live[k] else LeftInPeace(k, b.live[k], a)
  }

  /** No two connections have the same number. */
  predicate Distinct(live: map<nat, Peer>) {
    forall j, k :: j in live && k in live && j != k ==> live[j].log.serial != live[k].log.serial
  }

  lemma ShutNone(b: Snap)
    ensures ShutBut(b.live.Keys, b, b)
  {
  }

  lemma ShutOneMore(rest: set<nat>, b: Snap, m: Snap, key: nat, a: Snap, r: Status)
    requires ShutBut(rest, b, m) && key in rest && key in b.live && Distinct(b.live) && CloseAs(key, true, m, a, r)
    ensures ShutBut(rest - {key}, b, a)
  {
    hide EndsAs, Longer;
    var p := b.live[key];
    var log := if r.Go? then a.hist.finals[p.log.serial] else a.live[key].log;
    assert EndsAs(p, true, Calls(m.turns), m.queues, log, a.queues);
    forall k | k in b.live
      ensures if k in rest - {key} then k in a.live && a.live[k] == b.live[k] else LeftInPeace(k, b.live[k], a)
    {
      if k != key && k !in rest {
        assert LeftInPeace(k, b.live[k], m);
        assert b.live[k].log.serial != p.log.serial;
      }
    }
    GrewTwice(b, m, a);
  }

  /** The loop ends on request; everyone who was ever let in has had one `on_close`, and all output was flushed. */
  ghost predicate ShutAs(b: Snap, a: Snap, r: Status) {
    && r == Stop(ShutDown) && ShutBut({}, b, a)
    && forall s :: s in a.roster.homes ==> a.hist.closes[s] == 1
  }

  /** A batch of reads: the kernel's answers in a row, a handler turn for each that brought bytes. */
  ghost predicate Batched(env: Env, key: nat, got: seq<RecvResult>, status: IoStatus, b: Snap, mid: Snap) {
    && key in b.live && key in mid.live && Grew(b, mid)
    && mid == b.(live := b.live[key := mid.live[key]], turns := mid.turns, queues := mid.queues)
    && var (p, q) := (b.live[key], mid.live[key]);
    && p.socket.Some? && q.socket.Some? && q.gfd == p.gfd && Grows(p.log, q.log)
    && BatchEnds(got, b.turns, env.batch, status)
    && Served(env.readCap, p, b.queues, b.turns, got, q, mid.queues, mid.turns)
  }

  /** Each read that brought bytes was handed to the handler, and its calls were made. */
  ghost predicate Served(cap: nat, p: Peer, queues: Queues, turns: seq<HandlerTurn>, got: seq<RecvResult>,
                         q: Peer, after: Queues, left: seq<HandlerTurn>) {
    exists s: Desk, t: Desk ::
      && s.peer == p && BytesIn(s.second) == [] && s.queues == queues && Progress(cap, s, turns, got, t, left)
      && t.peer == q && t.queues == after
  }

  /** What a batch of reads leads to. */
  ghost predicate ReadEnds(key: nat, status: IoStatus, mid: Snap, a: Snap, r: Status) {
    match status
    case Completed => Same(mid, a) && r == Go
    case Yield => Same(mid, a) && r == Go && Command.Read(key) in a.queues.urgent
    case Closed(graceful) => CloseAs(key, graceful, mid, a, r)
    case ShutdownRequested => ShutAs(mid, a, r)
  }

  /**
   How a connection ended that its reads gave up, q being what its handler made of it.
   Only a failed read throws output away; at the end of the stream, or on the handler's
   wish, all that was accepted goes on the wire if the socket keeps moving.
   */
  ghost predicate Farewell(env: Env, key: nat, got: seq<RecvResult>, b: Snap, mid: Snap, a: Snap)
    requires key in b.live && key in mid.live
  {
    var p, q := b.live[key], mid.live[key];
    && got != [] && q.socket.Some? && p.log.serial in a.hist.finals
    && var end := a.hist.finals[p.log.serial];
       && (if got[|got| - 1].RecvFailed? then end.skipped == Concat(q.queue)
           else end.skipped == [] && (Drains(q.socket.value.sends, q.queue) ==> q.log.accepted <= end.OnWire()))
       && p.log.accepted <= q.log.accepted && Grows(q.log, end)
       && (got == [Eof] ==> p.socket.Some? && q == p.(socket := Some(p.socket.value.Recv(env.readCap).0)))
  }

  ghost predicate SaidFarewell(env: Env, key: nat, got: seq<RecvResult>, b: Snap, a: Snap) {
    exists mid, status ::
      Batched(env, key, got, status, b, mid) && status.Closed? && Farewell(env, key, got, b, mid, a)
  }

  lemma SaysFarewell(env: Env, key: nat, got: seq<RecvResult>, status: IoStatus, b: Snap, mid: Snap, a: Snap, r: Status)
    requires Batched(env, key, got, status, b, mid) && ReadEnds(key, status, mid, a, r) && status.Closed? && r.Go?
    ensures SaidFarewell(env, key, got, b, a)
  {
    hide BatchEnds, Progress, Parts, Longer;
    EndsAfterRead(got, b.turns, env.batch, status);
    if got == [Eof] {
      var s: Desk, t: Desk :|
        && s.peer == b.live[key] && BytesIn(s.second) == [] && s.queues == b.queues
        && Progress(env.readCap, s, b.turns, got, t, mid.turns) && t.peer == mid.live[key] && t.queues == mid.queues;
      NothingHeard(got, b.turns, env.readCap, s, t, mid.turns);
    }
  }

  lemma EndsAfterRead(got: seq<RecvResult>, turns: seq<HandlerTurn>, batch: nat, status: IoStatus)
    requires BatchEnds(got, turns, batch, status) && status.Closed?
    ensures got != [] && (status.graceful <==> !got[|got| - 1].RecvFailed?)
  {
    HowABatchEnds(got, turns, batch, status);
  }

  ghost predicate ReadAs(env: Env, key: nat, b: Snap, a: Snap, r: Status) {
    if key !in b.live then Same(b, a) && r == Go
    else exists mid, got, status :: Batched(env, key, got, status, b, mid) && ReadEnds(key, status, mid, a, r)
  }

  /** The write interest is brought in line with the queue, or the poller refuses and the loop ends. */
  ghost predicate AlignAs(key: nat, b: Snap, a: Snap, r: Status) {
    if key !in b.live then Same(b, a) && r == Go
    else
      var p, next := b.live[key], b.(os := Later(b.os));
      if Allowed(b.os) then
        && r == Go && p.socket.Some?
        && Same(next.(live := b.live[key := p.(socket := Some(p.socket.value.(writeInterest := p.queue != [])))]), a)
      else r == Stop(OsError) && Same(next, a)
  }

  /** A batch of writes: what went out is off the queue, in order, and the socket says why it ended. */
  ghost predicate Pumped(env: Env, key: nat, status: IoStatus, b: Snap, mid: Snap) {
    && key in b.live && key in mid.live
    && mid == b.(live := b.live[key := mid.live[key]])
    && var (p, q) := (b.live[key], mid.live[key]);
    && MovesOut(p, q)
    && (status.Yield? ==> |q.log.wire| >= |p.log.wire| + env.batch)
    && PumpEnds(status, p.socket.value.sends, q.socket.value.sends, q.queue == [], Flushable(p.queue), Stuck(q.queue))
  }

  /** What a batch of writes leads to. */
  ghost predicate WriteEnds(key: nat, status: IoStatus, mid: Snap, a: Snap, r: Status) {
    match status
    case Completed => AlignAs(key, mid, a, r)
    case Yield => Same(mid, a) && r == Go && Command.Write(key) in a.queues.urgent
    case Closed(graceful) => CloseAs(key, graceful, mid, a, r)
    case ShutdownRequested => false
  }

  ghost predicate WriteAs(env: Env, key: nat, b: Snap, a: Snap, r: Status) {
    if key !in b.live then Same(b, a) && r == Go
    else exists mid, status :: Pumped(env, key, status, b, mid) && WriteEnds(key, status, mid, a, r)
  }

  ghost predicate HitBy(env: Env, g: Gfd, b: Snap) {
    && g.EventLoopIndex() == env.loopId && g.SlabIndex() in b.live
    && b.live[g.SlabIndex()].gfd == g && b.live[g.SlabIndex()].socket.Some?
  }

  /**
   An asynchronous write: nothing without a connection of that handle; else the
   bytes are accepted and recorded, or, if the kernel fails, the connection closed.
   */
  ghost predicate AsyncAs(env: Env, g: Gfd, data: Bytes, b: Snap, a: Snap, r: Status) {
    if !HitBy(env, g, b) then Same(b, a) && r == Go
    else
      var key := g.SlabIndex();
      var (q, result) := PutOn(b.live[key], [data]);
      var put := b.(live := b.live[key := q]);
      if result.Ok? then
        var noted := b.hist.(deliveries := b.hist.deliveries + {Delivery(g, q.log.serial)});
        AlignAs(key, put.(hist := noted), a, r)
      else CloseAs(key, false, put, a, r)
  }

  /** A connection before its `on_open`; input that is already there is reported. */
  ghost function Newborn(env: Env, socket: Socket, key: nat, serial: nat): Peer {
    var inbound := socket.inbound.(edge := socket.inbound.edge || socket.inbound.Readable());
    Peer(Make(socket.fd, env.loopId, key, serial), Some(socket.(inbound := inbound)), [], NewLog(serial))
  }

  /** What the calls of `on_open` make of it and of the queues; it has read nothing. */
  ghost predicate GrownUp(born: Peer, calls: seq<Op>, queues: Queues, q: Peer, after: Queues) {
    && born.socket.Some? && q.socket.Some? && q.socket.value.fd == born.socket.value.fd
    && q.gfd == born.gfd && q.log.serial == born.log.serial && q.log.received == [] && q.log.Intact()
    && exists s: Desk, t: Desk ::
         && s.peer == born && BytesIn(s.first) == [] && BytesIn(s.second) == [] && s.codec.None? && s.queues == queues
         && Did(calls, s, t) && t.peer == q && t.queues == after
  }

  /** `on_open` is called in state m for the newborn connection; its answer decides. */
  ghost predicate Decided(born: Peer, key: nat, calls: seq<Op>, action: Action, m: Snap, a: Snap, r: Status) {
    var issued := m.roster.issued[born.log.serial := born.gfd];
    match action
    case Continue =>
      && r == Go && key in a.live && Grew(m, a) && GrownUp(born, calls, m.queues, a.live[key], a.queues)
      && a == m.(live := m.live[key := a.live[key]], queues := a.queues,
                 roster := Roster(m.roster.homes[born.log.serial := key], issued))
    case CloseConnection => r == Go && Same(m.(roster := Roster(m.roster.homes, issued)), a)
    case ShutdownLoop => ShutAs(m.(roster := Roster(m.roster.homes, issued)), a, r)
  }

  /** A socket is given a vacant slot and a new handle, and `on_open` is asked. */
  ghost predicate Opened(env: Env, socket: Socket, key: nat, serial: nat, b: Snap, a: Snap, r: Status) {
    && key !in b.live && key < SLOT_LIMIT && b.created <= serial && serial !in b.roster.issued
    && Decided(Newborn(env, socket, key, serial), key, Calls(b.turns), Answer(b.turns, 0),
               b.(created := serial + 1, turns := Rest(b.turns)), a, r)
  }

  /** Registration, once the poller has the socket. */
  ghost predicate PlacedAs(env: Env, socket: Socket, b: Snap, a: Snap, r: Status) {
    || (r == Stop(SlotOverflow) && |b.live.Keys| >= SLOT_LIMIT && Same(b, a))
    || exists key, serial :: Opened(env, socket, key, serial, b, a, r)
  }

  ghost predicate RegisterAs(env: Env, socket: Socket, b: Snap, a: Snap, r: Status) {
    var next := b.(os := Later(b.os));
    if Allowed(b.os) then PlacedAs(env, socket, next, a, r) else r == Stop(OsError) && Same(next, a)
  }

  /** A connection is accepted: its address is asked for, and it is registered. */
  ghost predicate AdmitAs(env: Env, socket: Socket, b: Snap, a: Snap, r: Status) {
    var next := b.(os := Later(b.os));
    if Allowed(b.os) then RegisterAs(env, socket, next, a, r) else r == Stop(OsError) && Same(next, a)
  }

  lemma SlabWasFull(env: Env, socket: Socket, s: Snap)
    requires |s.live.Keys| >= SLOT_LIMIT
    ensures PlacedAs(env, socket, s, s, Stop(SlotOverflow))
  {
  }

  lemma NowPlaced(env: Env, socket: Socket, key: nat, serial: nat, b: Snap, a: Snap, r: Status)
    requires Opened(env, socket, key, serial, b, a, r)
    ensures PlacedAs(env, socket, b, a, r)
  {
    hide Opened;
  }

  ghost predicate PolledAs(b: Snap, a: Snap, r: Status) {
    Same(b.(os := Later(b.os)), a) && r == if Allowed(b.os) then Go else Stop(OsError)
  }

  /** What carrying out a command does. */
  ghost predicate RanAs(env: Env, command: Command, b: Snap, a: Snap, r: Status) {
    match command
    case Nop => Same(b, a) && r == Go
    case AsyncWrite(g, data) => AsyncAs(env, g, data, b, a, r)
    case Register(socket) => RegisterAs(env, socket, b, a, r)
    case Close(key) => CloseAs(key, true, b, a, r)
    case Wake => PolledAs(b, a, r)
    case Read(key) => ReadAs(env, key, b, a, r)
    case Write(key) => WriteAs(env, key, b, a, r)
    case Shutdown => ShutAs(b, a, r)
  }

  /**
   What each command comes to: `Close` ends the one connection in its slot and throws
   nothing away, `Read` reads its socket, `Write` writes its queue, `AsyncWrite` adds to
   the output of the connection it is meant for or finds its socket broken, `Register`
   makes a new handle, `Wake` calls the poller, and `Shutdown` says goodbye to everybody.
   */
  lemma WhatCommandsDo(env: Env, command: Command, b: Snap, a: Snap, r: Status)
    requires RanAs(env, command, b, a, r)
    ensures match command
            case Nop => Same(b, a) && r == Go
            case Wake => Same(b.(os := Later(b.os)), a) && (r == Go <==> Allowed(b.os))
            case Close(key) =>
              if key !in b.live then Same(b, a) && r == Go
              else
                var serial := b.live[key].log.serial;
                && a.hist.closes == b.hist.closes + multiset{serial}
                && (r.Go? ==> a.live == b.live - {key} && serial in a.hist.finals
                              && a.hist.finals[serial].skipped == [])
            case Read(key) =>
              if key !in b.live then Same(b, a) && r == Go
              else env.batch > 0 ==> Reads(env, Deed(ReadIn(key), b, a, r), key)
            case Write(key) =>
              if key !in b.live then Same(b, a) && r == Go
              else exists mid, status :: Pumped(env, key, status, b, mid) && WriteEnds(key, status, mid, a, r)
            case Register(_) => r == Go || r == Stop(ShutDown) ==> a.created > b.created
            case AsyncWrite(g, data) =>
              if !HitBy(env, g, b) then Same(b, a) && r == Go
              else
                var key := g.SlabIndex();
                if key in a.live then a.live[key].log.accepted == b.live[key].log.accepted + data || r == Stop(OsError)
                else b.live[key].queue == [] && b.live[key].socket.value.sends != []
                     && b.live[key].socket.value.sends[0] == Fail
            case Shutdown => r == Stop(ShutDown) && forall s :: s in a.roster.homes ==> a.hist.closes[s] == 1
  {
    hide Longer, AsyncAs, CloseAs, ReadAs, WriteAs, RegisterAs, ShutBut, Reads, HitBy;
    match command
    case Read(key) => ReadCommand(env, key, b, a, r);
    case Write(key) => WriteCommand(env, key, b, a, r);
    case AsyncWrite(g, data) => AsyncCommand(env, g, data, b, a, r);
    case Register(socket) => RegisterCreates(env, socket, b, a, r);
    case Close(key) => CloseCommand(key, b, a, r);
    case _ =>
  }

  lemma CloseCommand(key: nat, b: Snap, a: Snap, r: Status)
    requires CloseAs(key, true, b, a, r)
    ensures if key !in b.live then Same(b, a) && r == Go
            else
              var serial := b.live[key].log.serial;
              && a.hist.closes == b.hist.closes + multiset{serial}
              && (r.Go? ==> a.live == b.live - {key} && serial in a.hist.finals && a.hist.finals[serial].skipped == [])
  {
    hide Longer, Parts;
  }

  lemma ReadCommand(env: Env, key: nat, b: Snap, a: Snap, r: Status)
    requires ReadAs(env, key, b, a, r)
    ensures if key !in b.live then Same(b, a) && r == Go
            else env.batch > 0 ==> Reads(env, Deed(ReadIn(key), b, a, r), key)
  {
    hide Longer, Reads, Batched, ReadEnds;
    if key in b.live && env.batch > 0 {
      LiveIsRead(env, key, b, a, r);
    }
  }

  lemma WriteCommand(env: Env, key: nat, b: Snap, a: Snap, r: Status)
    requires WriteAs(env, key, b, a, r)
    ensures if key !in b.live then Same(b, a) && r == Go
            else exists mid, status :: Pumped(env, key, status, b, mid) && WriteEnds(key, status, mid, a, r)
  {
    hide Longer, Pumped, WriteEnds;
  }

  lemma AsyncCommand(env: Env, g: Gfd, data: Bytes, b: Snap, a: Snap, r: Status)
    requires AsyncAs(env, g, data, b, a, r)
    ensures if !HitBy(env, g, b) then Same(b, a) && r == Go
            else
              var key := g.SlabIndex();
              if key in a.live then a.live[key].log.accepted == b.live[key].log.accepted + data || r == Stop(OsError)
              else b.live[key].queue == [] && b.live[key].socket.value.sends != []
                   && b.live[key].socket.value.sends[0] == Fail
  {
    hide Longer, Parts, PutOn;
    if HitBy(env, g, b) {
      var key := g.SlabIndex();
      var (q, result) := PutOn(b.live[key], [data]);
      PutKeepsOrder(b.live[key], [data]);
      SingleChunk(data);
      if result.Ok? {
        assert q.log.accepted == b.live[key].log.accepted + data;
        assert key in a.live && a.live[key].log == q.log;
      } else {
        assert r.Go? ==> key !in a.live;
        assert r.Stop? ==> r == Stop(OsError);
      }
    }
  }

  lemma RegisterCreates(env: Env, socket: Socket, b: Snap, a: Snap, r: Status)
    requires RegisterAs(env, socket, b, a, r)
    ensures r == Go || r == Stop(ShutDown) ==> a.created > b.created
  {
    hide Longer, GrownUp, LeftInPeace;
  }

  predicate IsNext(urgent: bool, command: Command, q: Queues) {
    if urgent then q.urgent != [] && q.urgent[0] == command else q.common != [] && q.common[0] == command
  }

  /** What is queued without the first command of one queue. */
  function Left(urgent: bool, q: Queues): Queues {
    if urgent then if q.urgent == [] then q else Queues(q.urgent[1..], q.common)
    else if q.common == [] then q else Queues(q.urgent, q.common[1..])
  }

  ghost predicate Done(env: Env, d: Deed) {
    match d.work
    case Poll(hasPending) =>
      && (hasPending <==> d.before.queues.urgent != [] || d.before.queues.common != [])
      && PolledAs(d.before, d.after, d.r)
    case Begin(_) => Same(d.before, d.after) && d.r == Go
    case Run(urgent, command) =>
      && IsNext(urgent, command, d.before.queues)
      && RanAs(env, command, d.before.(queues := Left(urgent, d.before.queues)), d.after, d.r)
    case Admit(socket) => AdmitAs(env, socket, d.before, d.after, d.r)
    case WriteOut(key) => WriteAs(env, key, d.before, d.after, d.r)
    case ReadIn(key) => ReadAs(env, key, d.before, d.after, d.r)
    case Align(key) => AlignAs(key, d.before, d.after, d.r)
    case Drop(key) => CloseAs(key, false, d.before, d.after, d.r)
  }

  // ----- one piece of work after the other -----

  /** More input may have reached a socket. */
  ghost predicate MoreInput(p: Peer, q: Peer) {
    if p.socket.None? then q == p
    else
      && q.socket.Some? && q == p.(socket := q.socket)
      && var (s, t) := (p.socket.value, q.socket.value);
      && t == s.(inbound := t.inbound) && t.inbound.turns == s.inbound.turns
      && s.inbound.rx <= t.inbound.rx && (s.inbound.eof ==> t.inbound.eof)
  }

  /** In between, input and commands arrive, and nothing else happens. */
  ghost predicate Waits(b: Snap, a: Snap) {
    && a == b.(live := a.live, queues := a.queues) && Grew(b, a)
    && a.live.Keys == b.live.Keys
    && forall k :: k in b.live ==> MoreInput(b.live[k], a.live[k])
  }

  lemma WaitsOn(a: Snap, b: Snap, c: Snap)
    requires Waits(a, b) && Waits(b, c)
    ensures Waits(a, c)
  {
    forall k | k in a.live ensures MoreInput(a.live[k], c.live[k]) {
      assert MoreInput(a.live[k], b.live[k]) && MoreInput(b.live[k], c.live[k]);
    }
  }

  function StatusOf(deeds: seq<Deed>): Status {
    if deeds == [] then Go else deeds[|deeds| - 1].r
  }

  /** These deeds, all done, lead from the one state to the other; only the last may have ended the loop. */
  ghost predicate Follows(env: Env, b: Snap, deeds: seq<Deed>, a: Snap)
    decreases |deeds|
  {
    if deeds == [] then Waits(b, a)
    else
      var before, last := deeds[..|deeds| - 1], deeds[|deeds| - 1];
      && Follows(env, b, before, last.before) && StatusOf(before).Go?
      && Done(env, last) && Waits(last.after, a)
  }

  lemma NothingFollows(env: Env, s: Snap)
    ensures Follows(env, s, [], s)
  {
  }

  lemma FollowsLater(env: Env, b: Snap, deeds: seq<Deed>, m: Snap, a: Snap)
    requires Follows(env, b, deeds, m) && Waits(m, a)
    ensures Follows(env, b, deeds, a)
  {
    hide Waits, Done;
    WaitsOn(if deeds == [] then b else deeds[|deeds| - 1].after, m, a);
  }

  lemma {:induction false} FollowsAfter(env: Env, b: Snap, m: Snap, deeds: seq<Deed>, a: Snap)
    requires Waits(b, m) && Follows(env, m, deeds, a)
    ensures Follows(env, b, deeds, a)
    decreases |deeds|
  {
    hide Waits, Done;
    if deeds == [] {
      WaitsOn(b, m, a);
    } else {
      FollowsAfter(env, b, m, deeds[..|deeds| - 1], deeds[|deeds| - 1].before);
    }
  }

  lemma FollowsOn(env: Env, b: Snap, deeds: seq<Deed>, d: Deed)
    requires Follows(env, b, deeds, d.before) && StatusOf(deeds).Go? && Done(env, d)
    ensures Follows(env, b, deeds + [d], d.after) && StatusOf(deeds + [d]) == d.r
  {
    hide Done;
    assert (deeds + [d])[..|deeds|] == deeds;
  }

  lemma {:induction false} FollowsTogether(env: Env, b: Snap, first: seq<Deed>, m: Snap, second: seq<Deed>, a: Snap)
    requires Follows(env, b, first, m) && StatusOf(first).Go? && Follows(env, m, second, a)
    ensures Follows(env, b, first + second, a) && StatusOf(first + second) == StatusOf(second)
    decreases |second|
  {
    hide Done, Waits;
    if second == [] {
      FollowsLater(env, b, first, m, a);
      assert first + second == first;
    } else {
      var front, last := second[..|second| - 1], second[|second| - 1];
      FollowsTogether(env, b, first, m, front, last.before);
      assert (first + second)[..|first + second| - 1] == first + front;
    }
  }

  /** Where the one stretch ends and the other begins. */
  lemma {:induction false} FollowsSplit(env: Env, b: Snap, first: seq<Deed>, second: seq<Deed>, a: Snap)
    returns (m: Snap)
    requires Follows(env, b, first + second, a) && StatusOf(first + second).Go?
    ensures Follows(env, b, first, m) && StatusOf(first).Go? && Follows(env, m, second, a)
    decreases |second|
  {
    hide Done, Waits;
    if second == [] {
      assert first + second == first;
      m := a;
      NothingFollows(env, m);
    } else {
      var front, last := second[..|second| - 1], second[|second| - 1];
      assert (first + second)[..|first + second| - 1] == first + front;
      m := FollowsSplit(env, b, first, front, last.before);
    }
  }

  lemma {:induction false} EveryDeedIsDone(env: Env, b: Snap, deeds: seq<Deed>, a: Snap, i: nat)
    requires Follows(env, b, deeds, a) && i < |deeds|
    ensures Done(env, deeds[i]) && (deeds[i].r.Stop? ==> i == |deeds| - 1)
    decreases |deeds|
  {
    hide Done, Waits;
    var front := deeds[..|deeds| - 1];
    if i < |front| {
      EveryDeedIsDone(env, b, front, deeds[|deeds| - 1].before, i);
      assert front[i] == deeds[i];
    }
  }

  // ----- work that is laid down beforehand -----

  /** The deeds are those that were planned, in order, up to one that ended the loop. */
  ghost predicate Planned(deeds: seq<Deed>, r: Status, plan: seq<Work>) {
    && |deeds| <= |plan| && (forall i :: 0 <= i < |deeds| ==> deeds[i].work == plan[i])
    && (r.Go? ==> |deeds| == |plan|)
  }

  /** The plan was carried out. */
  ghost predicate Carried(env: Env, b: Snap, deeds: seq<Deed>, a: Snap, r: Status, plan: seq<Work>) {
    Follows(env, b, deeds, a) && StatusOf(deeds) == r && Planned(deeds, r, plan)
  }

  lemma NothingCarried(env: Env, s: Snap)
    ensures Carried(env, s, [], s, Go, [])
  {
  }

  lemma OneCarried(env: Env, d: Deed)
    requires Done(env, d)
    ensures Carried(env, d.before, [d], d.after, d.r, [d.work])
  {
    hide Done;
    NothingFollows(env, d.before);
    FollowsOn(env, d.before, [], d);
    assert [] + [d] == [d];
  }

  lemma OneRead(env: Env, key: nat, b: Snap, a: Snap, r: Status)
    requires ReadAs(env, key, b, a, r)
    ensures Carried(env, b, [Deed(ReadIn(key), b, a, r)], a, r, [ReadIn(key)])
  {
    hide ReadAs, Carried;
    OneCarried(env, Deed(ReadIn(key), b, a, r));
  }

  lemma OneWrite(env: Env, key: nat, b: Snap, a: Snap, r: Status)
    requires WriteAs(env, key, b, a, r)
    ensures Carried(env, b, [Deed(WriteOut(key), b, a, r)], a, r, [WriteOut(key)])
  {
    hide WriteAs, Carried;
    OneCarried(env, Deed(WriteOut(key), b, a, r));
  }

  lemma OneAlign(env: Env, key: nat, b: Snap, a: Snap, r: Status)
    requires AlignAs(key, b, a, r)
    ensures Carried(env, b, [Deed(Align(key), b, a, r)], a, r, [Align(key)])
  {
    hide AlignAs, Carried;
    OneCarried(env, Deed(Align(key), b, a, r));
  }

  lemma OneDrop(env: Env, key: nat, b: Snap, a: Snap, r: Status)
    requires CloseAs(key, false, b, a, r)
    ensures Carried(env, b, [Deed(Drop(key), b, a, r)], a, r, [Drop(key)])
  {
    hide CloseAs, Carried;
    OneCarried(env, Deed(Drop(key), b, a, r));
  }

  lemma CarriedOn(env: Env, b: Snap, first: seq<Deed>, m: Snap, plan: seq<Work>,
                  second: seq<Deed>, a: Snap, r: Status, rest: seq<Work>)
    requires Carried(env, b, first, m, Go, plan) && Carried(env, m, second, a, r, rest)
    ensures Carried(env, b, first + second, a, r, plan + rest)
  {
    hide Follows;
    FollowsTogether(env, b, first, m, second, a);
  }

  lemma CarriedShort(env: Env, b: Snap, deeds: seq<Deed>, a: Snap, r: Status, plan: seq<Work>, rest: seq<Work>)
    requires Carried(env, b, deeds, a, r, plan) && r.Stop?
    ensures Carried(env, b, deeds, a, r, plan + rest)
  {
    hide Follows;
  }

  /** What an event of a connection calls for: a mere hang-up closes it, all else is written, read and aligned. */
  function IoPlan(e: Event): seq<Work> {
    if (e.error || e.readClosed) && !e.readable && !e.writable then [Drop(e.token)]
    else WritePlan(e) + (ReadPlan(e) + [Align(e.token)])
  }

  function WritePlan(e: Event): seq<Work> {
    if e.error || e.writable then [WriteOut(e.token)] else []
  }

  function ReadPlan(e: Event): seq<Work> {
    if e.error || e.readable then [ReadIn(e.token)] else []
  }

  /** Which of a connection's work comes first in an event. */
  function Rank(work: Work): nat {
    match work
    case WriteOut(_) => 0
    case ReadIn(_) => 1
    case _ => 2
  }

  /**
   What an event calls for, told by its flags: nothing but a close if the peer has
   gone and there is nothing to read or write; else the interest is aligned, after a
   read for input, and before that a write for room; an error calls for both.
   */
  lemma IoPlanMeans(e: Event, work: Work)
    ensures work in IoPlan(e) ==> work in {Drop(e.token), WriteOut(e.token), ReadIn(e.token), Align(e.token)}
    ensures Drop(e.token) in IoPlan(e) <==> (e.error || e.readClosed) && !e.readable && !e.writable
    ensures Align(e.token) in IoPlan(e) <==> !((e.error || e.readClosed) && !e.readable && !e.writable)
    ensures ReadIn(e.token) in IoPlan(e) <==> e.readable || (e.error && e.writable)
    ensures WriteOut(e.token) in IoPlan(e) <==> e.writable || (e.error && e.readable)
    ensures forall i, j :: 0 <= i < j < |IoPlan(e)| ==> Rank(IoPlan(e)[i]) < Rank(IoPlan(e)[j])
  {
  }

  /** This deed read from the socket of the connection, at least once. */
  ghost predicate Reads(env: Env, d: Deed, key: nat) {
    && d.work == ReadIn(key)
    && exists mid, got, status ::
         got != [] && Batched(env, key, got, status, d.before, mid) && ReadEnds(key, status, mid, d.after, d.r)
  }

  /** The socket was read, unless the write before it ended the loop or the connection. */
  ghost predicate WasRead(env: Env, e: Event, deeds: seq<Deed>) {
    || (deeds != [] && deeds[0].work == WriteOut(e.token)
        && (deeds[0].r.Stop? || e.token !in deeds[0].after.live))
    || exists i :: 0 <= i < |deeds| && Reads(env, deeds[i], e.token)
  }

  lemma ReadableIsRead(env: Env, b: Snap, deeds: seq<Deed>, a: Snap, r: Status, e: Event)
    requires Carried(env, b, deeds, a, r, IoPlan(e)) && e.readable && e.token in b.live && env.batch > 0
    ensures WasRead(env, e, deeds)
  {
    hide Done, Reads, MoreInput, Longer;
    var i := if e.error || e.writable then 1 else 0;
    if i < |deeds| {
      FollowsPart(env, b, deeds, a, i);
      if e.token in deeds[i].before.live {
        DoneReads(env, deeds[i], e.token);
        LiveIsRead(env, e.token, deeds[i].before, deeds[i].after, deeds[i].r);
      }
    }
  }

  lemma DoneReads(env: Env, d: Deed, key: nat)
    requires Done(env, d) && d.work == ReadIn(key)
    ensures ReadAs(env, key, d.before, d.after, d.r)
  {
    hide ReadAs;
  }

  lemma {:induction false} FollowsPart(env: Env, b: Snap, deeds: seq<Deed>, a: Snap, n: nat)
    requires Follows(env, b, deeds, a) && n < |deeds|
    ensures Follows(env, b, deeds[..n], deeds[n].before) && StatusOf(deeds[..n]).Go? && Done(env, deeds[n])
    decreases |deeds|
  {
    hide Done, Waits;
    var last := |deeds| - 1;
    if n < last {
      FollowsPart(env, b, deeds[..last], deeds[last].before, n);
      assert deeds[..last][..n] == deeds[..n];
    }
  }

  lemma LiveIsRead(env: Env, key: nat, b: Snap, a: Snap, r: Status)
    requires ReadAs(env, key, b, a, r) && key in b.live && env.batch > 0
    ensures Reads(env, Deed(ReadIn(key), b, a, r), key)
  {
    hide ReadEnds, Served, GoesOn, Verdict, Longer;
    var mid, got, status :| Batched(env, key, got, status, b, mid) && ReadEnds(key, status, mid, a, r);
    assert got != [];
  }

  /** The commands that these deeds took from one of the queues. */
  function CommandsOf(deeds: seq<Deed>, urgent: bool): seq<Command> {
    if deeds == [] then []
    else
      var work := deeds[|deeds| - 1].work;
      CommandsOf(deeds[..|deeds| - 1], urgent) + if work.Run? && work.urgent == urgent then [work.command] else []
  }

  /** One call of `process_command`: at most a ration of commands, and a whole one or all that were queued. */
  predicate Runs(deeds: seq<Deed>, start: Queues) {
    && (forall i :: 0 <= i < |deeds| ==> deeds[i].work.Run?)
    && |deeds| <= MAX_ASYNC_TASK_ONE_TIME
    && (StatusOf(deeds).Go? ==>
          || |deeds| == MAX_ASYNC_TASK_ONE_TIME
          || Longer(start.urgent, start.common, CommandsOf(deeds, true), CommandsOf(deeds, false)))
  }

  /** The connections that are accepted: up to the first error, which ends the accepting. */
  function Accepted(backlog: seq<AcceptTurn>): seq<Socket> {
    if backlog == [] || backlog[0].AcceptFails? then [] else [backlog[0].socket] + Accepted(backlog[1..])
  }

  /** Everything that waits to be accepted. */
  function Waiting(backlog: seq<AcceptTurn>): seq<Socket> {
    if backlog == [] then []
    else (if backlog[0].Incoming? then [backlog[0].socket] else []) + Waiting(backlog[1..])
  }

  /**
   All that waits is accepted if and only if no error comes before any of it. What is
   left behind stays unannounced, since its edge is gone with this event.
   */
  lemma {:induction false} AcceptsAllIff(backlog: seq<AcceptTurn>)
    ensures Accepted(backlog) <= Waiting(backlog)
    ensures Accepted(backlog) == Waiting(backlog) <==>
            forall i, j :: 0 <= i < j < |backlog| && backlog[j].Incoming? ==> backlog[i].Incoming?
  {
    if backlog != [] {
      var rest := backlog[1..];
      AcceptsAllIff(rest);
      if backlog[0].Incoming? {
        forall i, j | 0 <= i < j < |rest| ensures backlog[i + 1] == rest[i] && backlog[j + 1] == rest[j] {
        }
        OrderBehind(backlog);
      } else {
        NobodyWaits(rest);
        assert forall j :: 0 < j < |backlog| ==> backlog[j] == rest[j - 1];
      }
    }
  }

  lemma OrderBehind(backlog: seq<AcceptTurn>)
    requires backlog != [] && backlog[0].Incoming?
    ensures var rest := backlog[1..];
            (forall i, j :: 0 <= i < j < |backlog| && backlog[j].Incoming? ==> backlog[i].Incoming?) <==>
            (forall i, j :: 0 <= i < j < |rest| && rest[j].Incoming? ==> rest[i].Incoming?)
  {
    var rest := backlog[1..];
    if forall i, j :: 0 <= i < j < |backlog| && backlog[j].Incoming? ==> backlog[i].Incoming? {
      forall i, j | 0 <= i < j < |rest| && rest[j].Incoming? ensures rest[i].Incoming? {
        assert backlog[j + 1].Incoming? && backlog[i + 1] == rest[i];
      }
    }
    if forall i, j :: 0 <= i < j < |rest| && rest[j].Incoming? ==> rest[i].Incoming? {
      forall i, j | 0 <= i < j < |backlog| && backlog[j].Incoming? ensures backlog[i].Incoming? {
        if i > 0 {
          assert rest[j - 1].Incoming? && rest[i - 1] == backlog[i];
        }
      }
    }
  }

  lemma {:induction false} NobodyWaits(backlog: seq<AcceptTurn>)
    ensures Waiting(backlog) == [] <==> forall j :: 0 <= j < |backlog| ==> !backlog[j].Incoming?
  {
    if backlog != [] {
      NobodyWaits(backlog[1..]);
      assert forall j :: 0 < j < |backlog| ==> backlog[j] == backlog[1..][j - 1];
    }
  }

  function Admits(sockets: seq<Socket>): seq<Work> {
    seq(|sockets|, i requires 0 <= i < |sockets| => Admit(sockets[i]))
  }

  /** An event and what was done for it, behind the note that it was its turn. */
  datatype Visit = Visit(event: Event, note: Deed, deeds: seq<Deed>)

  /** What the dispatching loop does for an event. */
  ghost predicate Called(listening: Option<nat>, v: Visit) {
    && v.note.work == Begin(v.event)
    && match Dispatch(v.event.token)
       case WakeTarget => Runs(v.deeds, v.note.after.queues)
       case ListenerTarget(i) =>
         Planned(v.deeds, StatusOf(v.deeds),
                 if listening.Some? && i < listening.value then Admits(Accepted(v.event.backlog)) else [])
       case ConnectionTarget => Planned(v.deeds, StatusOf(v.deeds), IoPlan(v.event))
  }

  function VisitDeeds(visits: seq<Visit>): seq<Deed> {
    if visits == [] then []
    else
      var last := visits[|visits| - 1];
      VisitDeeds(visits[..|visits| - 1]) + ([last.note] + last.deeds)
  }

  /** All events in order, up to one that ended the loop. */
  ghost predicate Visited(listening: Option<nat>, events: seq<Event>, visits: seq<Visit>, r: Status) {
    && |visits| <= |events| && (r.Go? ==> |visits| == |events|)
    && forall i :: 0 <= i < |visits| ==> visits[i].event == events[i] && Called(listening, visits[i])
  }

  /** One turn of the loop. */
  datatype Lap = Lap(poll: Deed, pending: seq<Deed>, visits: seq<Visit>)

  function LapDeeds(lap: Lap): seq<Deed> {
    [lap.poll] + lap.pending + VisitDeeds(lap.visits)
  }

  /** A poll that comes back is followed by the commands that were waiting before it, and by all its events. */
  ghost predicate LapOf(polled: bool, listening: Option<nat>, events: seq<Event>, lap: Lap, r: Status) {
    && lap.poll.work.Poll?
    && if lap.poll.r.Stop? || !polled then lap.pending == [] && lap.visits == [] && r == lap.poll.r
       else
         && (if lap.poll.work.hasPending then Runs(lap.pending, lap.poll.after.queues) else lap.pending == [])
         && if StatusOf(lap.pending).Stop? then lap.visits == [] && r == StatusOf(lap.pending)
            else Visited(listening, events, lap.visits, r)
  }

  /**
   What an event calls for, by its token: the wake event runs a ration of commands or
   all that were queued, a listener's accepts in order what can be accepted, and any
   other is for the connection of that slot, as planned.
   */
  lemma WhatEventsCallFor(listening: Option<nat>, v: Visit)
    requires Called(listening, v) && StatusOf(v.deeds).Go?
    ensures v.event.token == WAKE_TOKEN ==>
              && (forall i :: 0 <= i < |v.deeds| ==> v.deeds[i].work.Run?)
              && (|v.deeds| == 256
                  || Longer(v.note.after.queues.urgent, v.note.after.queues.common,
                            CommandsOf(v.deeds, true), CommandsOf(v.deeds, false)))
    ensures forall index: nat :: index < 1024 && v.event.token == ListenerToken(index) ==>
              var sockets := if listening.Some? && index < listening.value then Accepted(v.event.backlog) else [];
              |v.deeds| == |sockets| && forall i :: 0 <= i < |sockets| ==> v.deeds[i].work == Admit(sockets[i])
    ensures v.event.token < SLOT_LIMIT ==>
              var plan := IoPlan(v.event);
              |v.deeds| == |plan| && forall i :: 0 <= i < |plan| ==> v.deeds[i].work == plan[i]
  {
    hide CommandsOf, Accepted, IoPlan, Longer;
  }

  /** A lap that goes on has run the commands that waited before its poll, and has seen to every event in turn. */
  lemma EveryEventIsSeen(listening: Option<nat>, events: seq<Event>, lap: Lap, r: Status)
    requires LapOf(true, listening, events, lap, r) && r.Go?
    ensures lap.poll.work.hasPending ==>
              || |lap.pending| == 256
              || Longer(lap.poll.after.queues.urgent, lap.poll.after.queues.common,
                        CommandsOf(lap.pending, true), CommandsOf(lap.pending, false))
    ensures |lap.visits| == |events|
    ensures forall i :: 0 <= i < |events| ==> lap.visits[i].event == events[i] && Called(listening, lap.visits[i])
  {
    hide CommandsOf, Called, Longer;
  }

  lemma GrewTwice(a: Snap, b: Snap, c: Snap)
    requires Grew(a, b) && Grew(b, c)
    ensures Grew(a, c)
  {
  }

  lemma CloseGrows(key: nat, graceful: bool, b: Snap, a: Snap, r: Status)
    requires CloseAs(key, graceful, b, a, r)
    ensures Grew(b, a)
  {
    hide Longer, EndsAs;
  }

  lemma AlignGrows(key: nat, b: Snap, a: Snap, r: Status)
    requires AlignAs(key, b, a, r)
    ensures Grew(b, a)
  {
    hide Longer;
  }

  lemma ReadGrows(env: Env, key: nat, b: Snap, a: Snap, r: Status)
    requires ReadAs(env, key, b, a, r)
    ensures Grew(b, a)
  {
    hide Longer, CloseAs, BatchEnds, Served;
    if key in b.live {
      var mid, got, status :| Batched(env, key, got, status, b, mid) && ReadEnds(key, status, mid, a, r);
      if status.Closed? {
        CloseGrows(key, status.graceful, mid, a, r);
      }
      GrewTwice(b, mid, a);
    }
  }

  lemma WriteGrows(env: Env, key: nat, b: Snap, a: Snap, r: Status)
    requires WriteAs(env, key, b, a, r)
    ensures Grew(b, a)
  {
    hide Longer, CloseAs, AlignAs, PumpEnds;
    if key in b.live {
      var mid, status :| Pumped(env, key, status, b, mid) && WriteEnds(key, status, mid, a, r);
      if status.Closed? {
        CloseGrows(key, status.graceful, mid, a, r);
      } else if status.Completed? {
        AlignGrows(key, mid, a, r);
      }
    }
  }

  lemma AsyncGrows(env: Env, g: Gfd, data: Bytes, b: Snap, a: Snap, r: Status)
    requires AsyncAs(env, g, data, b, a, r)
    ensures Grew(b, a)
  {
    hide Longer, CloseAs, AlignAs, PutOn;
    if HitBy(env, g, b) {
      var key := g.SlabIndex();
      var (q, result) := PutOn(b.live[key], [data]);
      var put := b.(live := b.live[key := q]);
      if result.Ok? {
        var noted := b.hist.(deliveries := b.hist.deliveries + {Delivery(g, q.log.serial)});
        AlignGrows(key, put.(hist := noted), a, r);
      } else {
        CloseGrows(key, false, put, a, r);
      }
    }
  }

  lemma RegisterGrows(env: Env, socket: Socket, b: Snap, a: Snap, r: Status)
    requires RegisterAs(env, socket, b, a, r)
    ensures Grew(b, a)
  {
    hide Longer;
  }

  lemma AdmitGrows(env: Env, socket: Socket, b: Snap, a: Snap, r: Status)
    requires AdmitAs(env, socket, b, a, r)
    ensures Grew(b, a)
  {
    hide Longer, PlacedAs;
    var next := b.(os := Later(b.os));
    if Allowed(b.os) {
      RegisterGrows(env, socket, next, a, r);
    }
  }

  lemma RunGrows(env: Env, command: Command, b: Snap, a: Snap, r: Status)
    requires RanAs(env, command, b, a, r)
    ensures Grew(b, a)
  {
    hide Grew, CloseAs, ReadAs, WriteAs, AsyncAs, RegisterAs;
    match command
    case AsyncWrite(g, data) => AsyncGrows(env, g, data, b, a, r);
    case Register(socket) => RegisterGrows(env, socket, b, a, r);
    case Close(key) => CloseGrows(key, true, b, a, r);
    case Read(key) => ReadGrows(env, key, b, a, r);
    case Write(key) => WriteGrows(env, key, b, a, r);
    case Wake => PollGrows(b, a, r);
    case _ =>
  }

  lemma PollGrows(b: Snap, a: Snap, r: Status)
    requires PolledAs(b, a, r)
    ensures Grew(b, a)
  {
    hide Longer;
  }

  /** The queues, once the command that is to be run is off them. */
  function Start(d: Deed): Queues {
    if d.work.Run? then Left(d.work.urgent, d.before.queues) else d.before.queues
  }

  /** Whatever is done, the queues are added to at their ends, and only commands that are run leave them. */
  lemma DoneGrows(env: Env, d: Deed)
    requires Done(env, d)
    ensures Grew(d.before.(queues := Start(d)), d.after)
  {
    hide Grew, Left, CloseAs, ReadAs, WriteAs, RegisterAs, AdmitAs, RanAs, AlignAs;
    match d.work
    case Run(urgent, command) => RunGrows(env, command, d.before.(queues := Start(d)), d.after, d.r);
    case Admit(socket) => AdmitGrows(env, socket, d.before, d.after, d.r);
    case WriteOut(key) => WriteGrows(env, key, d.before, d.after, d.r);
    case ReadIn(key) => ReadGrows(env, key, d.before, d.after, d.r);
    case Align(key) => AlignGrows(key, d.before, d.after, d.r);
    case Drop(key) => CloseGrows(key, false, d.before, d.after, d.r);
    case Poll(_) => PollGrows(d.before, d.after, d.r);
    case _ =>
  }

  /** Both queues are worked off from the front, none skipped, by any deeds that follow one another. */
  lemma {:induction false} FirstInFirstOut(env: Env, b: Snap, deeds: seq<Deed>, a: Snap)
    requires Follows(env, b, deeds, a)
    ensures Longer(b.queues.urgent, b.queues.common,
                   CommandsOf(deeds, true) + a.queues.urgent, CommandsOf(deeds, false) + a.queues.common)
    decreases |deeds|
  {
    if deeds == [] {
      assert CommandsOf(deeds, true) + a.queues.urgent == a.queues.urgent;
      assert CommandsOf(deeds, false) + a.queues.common == a.queues.common;
    } else {
      var front, d := deeds[..|deeds| - 1], deeds[|deeds| - 1];
      FirstInFirstOut(env, b, front, d.before);
      StepInOrder(env, d, a, CommandsOf(front, true), CommandsOf(front, false));
      var (u, c) := Taken(d);
      LongerTwice(b.queues, Queues(CommandsOf(front, true) + d.before.queues.urgent,
                                   CommandsOf(front, false) + d.before.queues.common),
                  Queues(CommandsOf(front, true) + u + a.queues.urgent,
                         CommandsOf(front, false) + c + a.queues.common));
    }
  }

  /** What a deed took from each queue. */
  function Taken(d: Deed): (seq<Command>, seq<Command>) {
    if !d.work.Run? then ([], []) else if d.work.urgent then ([d.work.command], []) else ([], [d.work.command])
  }

  lemma WaitGrows(b: Snap, a: Snap)
    requires Waits(b, a)
    ensures Grew(b, a)
  {
  }

  lemma BehindFront(front: seq<Command>, taken: seq<Command>, left: seq<Command>, more: seq<Command>)
    requires left <= more
    ensures front + (taken + left) <= front + taken + more
  {
  }

  lemma StepInOrder(env: Env, d: Deed, a: Snap, u0: seq<Command>, c0: seq<Command>)
    requires Done(env, d) && Waits(d.after, a)
    ensures var (u, c) := Taken(d);
            Longer(u0 + d.before.queues.urgent, c0 + d.before.queues.common,
                   u0 + u + a.queues.urgent, c0 + c + a.queues.common)
  {
    hide Done, Waits, Start, Taken;
    DoneGrows(env, d);
    TakenFirst(env, d);
    var (u, c) := Taken(d);
    var q := Start(d);
    WaitGrows(d.after, a);
    BehindFront(u0, u, q.urgent, a.queues.urgent);
    BehindFront(c0, c, q.common, a.queues.common);
  }

  lemma TakenFirst(env: Env, d: Deed)
    requires Done(env, d)
    ensures var (u, c) := Taken(d);
            d.before.queues.urgent == u + Start(d).urgent && d.before.queues.common == c + Start(d).common
  {
    hide RanAs, PolledAs, RegisterAs, WriteAs, ReadAs, AlignAs, CloseAs;
  }

  lemma LongerTwice(a: Queues, b: Queues, c: Queues)
    requires Longer(a.urgent, a.common, b.urgent, b.common) && Longer(b.urgent, b.common, c.urgent, c.common)
    ensures Longer(a.urgent, a.common, c.urgent, c.common)
  {
  }

  /** With both queues empty, all that was queued has been run. */
  lemma AllTaken(env: Env, b: Snap, deeds: seq<Deed>, a: Snap)
    requires Follows(env, b, deeds, a) && a.queues == Queues([], [])
    ensures Longer(b.queues.urgent, b.queues.common, CommandsOf(deeds, true), CommandsOf(deeds, false))
  {
    hide Follows, CommandsOf;
    FirstInFirstOut(env, b, deeds, a);
    assert CommandsOf(deeds, true) + [] == CommandsOf(deeds, true);
    assert CommandsOf(deeds, false) + [] == CommandsOf(deeds, false);
  }

  lemma CommandsTogether(first: seq<Deed>, second: seq<Deed>)
    ensures CommandsOf(first + second, true) == CommandsOf(first, true) + CommandsOf(second, true)
    ensures CommandsOf(first + second, false) == CommandsOf(first, false) + CommandsOf(second, false)
  {
    TakenTogether(first, second, true);
    TakenTogether(first, second, false);
  }

  lemma {:induction false} TakenTogether(first: seq<Deed>, second: seq<Deed>, urgent: bool)
    ensures CommandsOf(first + second, urgent) == CommandsOf(first, urgent) + CommandsOf(second, urgent)
    decreases |second|
  {
    if second == [] {
      assert first + second == first;
    } else {
      var front := second[..|second| - 1];
      TakenTogether(first, front, urgent);
      assert (first + second)[..|first + second| - 1] == first + front;
    }
  }

  lemma OneCommand(d: Deed)
    ensures CommandsOf([d], true) == Taken(d).0 && CommandsOf([d], false) == Taken(d).1
  {
    assert CommandsOf([d][..0], true) == [] && CommandsOf([d][..0], false) == [];
  }

  lemma {:induction false} AllRun(deeds: seq<Deed>)
    requires forall i :: 0 <= i < |deeds| ==> deeds[i].work.Run?
    ensures |CommandsOf(deeds, true)| + |CommandsOf(deeds, false)| == |deeds|
  {
    if deeds != [] {
      var front := deeds[..|deeds| - 1];
      AllRun(front);
      assert deeds[|deeds| - 1].work.Run?;
      assert |CommandsOf(front, true)| + |CommandsOf(front, false)| == |front|;
    }
  }

  /** What a poll finds in the queues is what was there, and maybe more. */
  lemma PollFirst(env: Env, m: Snap, poll: Deed, p: Snap)
    requires Follows(env, m, [poll], p) && poll.work.Poll?
    ensures Longer(m.queues.urgent, m.queues.common, poll.after.queues.urgent, poll.after.queues.common)
    ensures !poll.work.hasPending ==> m.queues == Queues([], [])
  {
    assert [poll][..0] == [];
    assert Follows(env, m, [], poll.before) && Done(env, poll);
    WaitGrows(m, poll.before);
    GrewTwice(m, poll.before, poll.after);
  }

  lemma SameView(s: Snap)
    ensures Same(s, s)
  {
  }

  lemma NothingMoves(b: Snap, a: Snap)
    requires Same(b, a)
    ensures Waits(b, a)
  {
  }

  lemma AcceptedStarts(backlog: seq<AcceptTurn>)
    ensures backlog[0..] == backlog && Accepted(backlog) == Accepted(backlog)[..0] + Accepted(backlog[0..])
  {
  }

  lemma AcceptedNext(backlog: seq<AcceptTurn>, i: nat)
    requires i < |backlog| && backlog[i].Incoming?
    ensures Accepted(backlog[i..]) == [backlog[i].socket] + Accepted(backlog[i + 1..])
  {
    assert backlog[i..][1..] == backlog[i + 1..];
  }

  lemma NextAccepted(backlog: seq<AcceptTurn>, all: seq<Socket>, i: nat)
    requires i < |backlog| && backlog[i].Incoming? && i <= |all| && all == all[..i] + Accepted(backlog[i..])
    ensures i < |all| && all[i] == backlog[i].socket && all == all[..i + 1] + Accepted(backlog[i + 1..])
  {
    AcceptedNext(backlog, i);
    hide Accepted;
    var rest := Accepted(backlog[i + 1..]);
    assert all == all[..i] + ([backlog[i].socket] + rest);
    assert all[..i + 1] == all[..i] + [backlog[i].socket];
  }

  lemma AcceptedEnds(backlog: seq<AcceptTurn>, i: nat)
    requires i <= |backlog| && (i < |backlog| ==> backlog[i].AcceptFails?)
    ensures Accepted(backlog[i..]) == []
  {
  }

  lemma AdmitsNone()
    ensures Admits([]) == []
  {
  }

  lemma AdmitsOn(sockets: seq<Socket>, i: nat)
    requires i < |sockets|
    ensures Admits(sockets[..i + 1]) == Admits(sockets[..i]) + [Admit(sockets[i])]
  {
  }

  lemma AdmitsRest(sockets: seq<Socket>, k: nat)
    requires k <= |sockets|
    ensures Admits(sockets) == Admits(sockets[..k]) + Admits(sockets[k..])
  {
  }

  /** One more connection is accepted, maybe the last. */
  lemma AdmitOneMore(env: Env, b: Snap, deeds: seq<Deed>, d: Deed, sockets: seq<Socket>, i: nat)
    requires i < |sockets| && d.work == Admit(sockets[i]) && Done(env, d)
    requires Carried(env, b, deeds, d.before, Go, Admits(sockets[..i]))
    ensures Carried(env, b, deeds + [d], d.after, d.r, Admits(sockets[..i + 1]))
    ensures d.r.Stop? ==> Carried(env, b, deeds + [d], d.after, d.r, Admits(sockets))
  {
    hide Done, Carried, Admits;
    OneCarried(env, d);
    CarriedOn(env, b, deeds, d.before, Admits(sockets[..i]), [d], d.after, d.r, [d.work]);
    AdmitsOn(sockets, i);
    AdmitsRest(sockets, i + 1);
    if d.r.Stop? {
      CarriedShort(env, b, deeds + [d], d.after, d.r, Admits(sockets[..i + 1]), Admits(sockets[i + 1..]));
    }
  }

  lemma NoAdmit(deeds: seq<Deed>, r: Status, e: Event)
    requires Planned(deeds, r, IoPlan(e))
    ensures deeds != [] ==> !deeds[|deeds| - 1].work.Admit?
  {
  }

  lemma NoneAdmitted(deeds: seq<Deed>, start: Queues)
    requires Runs(deeds, start)
    ensures deeds != [] ==> !deeds[|deeds| - 1].work.Admit?
  {
  }

  lemma AdmitsLast(env: Env, b: Snap, deeds: seq<Deed>, a: Snap, r: Status, sockets: seq<Socket>)
    requires Carried(env, b, deeds, a, r, Admits(sockets))
    ensures r.Stop? ==> deeds != [] && deeds[|deeds| - 1].work.Admit?
  {
    hide Follows;
  }

  lemma LastAdmitted(first: seq<Deed>, second: seq<Deed>)
    ensures second != [] ==> (first + second)[|first + second| - 1] == second[|second| - 1]
  {
  }

  lemma NoVisitDeeds()
    ensures VisitDeeds([]) == []
  {
  }

  lemma LapAdds(lap: Lap)
    ensures LapDeeds(lap) == [lap.poll] + (lap.pending + VisitDeeds(lap.visits))
  {
  }

  lemma ShortLap(poll: Deed)
    ensures LapDeeds(Lap(poll, [], [])) == [poll]
  {
    NoVisitDeeds();
  }

  lemma NothingVisited(listening: Option<nat>, events: seq<Event>)
    ensures VisitDeeds([]) == [] && StatusOf([]).Go? && Visited(listening, events[..0], [], Go)
  {
  }

  lemma VisitDeedsOn(visits: seq<Visit>, visit: Visit)
    ensures VisitDeeds(visits + [visit]) == VisitDeeds(visits) + ([visit.note] + visit.deeds)
  {
    assert (visits + [visit])[..|visits|] == visits;
  }

  lemma VisitedOn(listening: Option<nat>, events: seq<Event>, visits: seq<Visit>, visit: Visit, r: Status)
    requires |visits| < |events| && Visited(listening, events[..|visits|], visits, Go)
    requires visit.event == events[|visits|] && Called(listening, visit)
    ensures Visited(listening, events[..|visits| + 1], visits + [visit], Go)
    ensures r.Stop? ==> Visited(listening, events, visits + [visit], r)
  {
    hide Called;
    var all := visits + [visit];
    forall i | 0 <= i < |all| ensures all[i].event == events[i] && Called(listening, all[i]) {
      if i < |visits| {
        assert all[i] == visits[i] && visits[i].event == events[..|visits|][i];
      } else {
        assert all[i] == visit;
      }
    }
  }

  /** One event more has been seen to. */
  lemma SeenTo(env: Env, b: Snap, visits: seq<Visit>, m: Snap, visit: Visit, a: Snap,
               listening: Option<nat>, events: seq<Event>, r: Status)
    requires Follows(env, b, VisitDeeds(visits), m) && StatusOf(VisitDeeds(visits)).Go?
    requires Follows(env, m, [visit.note] + visit.deeds, a) && StatusOf([visit.note] + visit.deeds) == r
    requires |visits| < |events| && Visited(listening, events[..|visits|], visits, Go)
    requires visit.event == events[|visits|] && Called(listening, visit)
    ensures Follows(env, b, VisitDeeds(visits + [visit]), a) && StatusOf(VisitDeeds(visits + [visit])) == r
    ensures Visited(listening, events[..|visits| + 1], visits + [visit], Go)
    ensures r.Stop? ==> Visited(listening, events, visits + [visit], r)
    ensures var deeds, more := VisitDeeds(visits + [visit]), [visit.note] + visit.deeds;
            deeds != [] && deeds[|deeds| - 1] == more[|more| - 1]
  {
    hide Follows, Called, VisitDeeds, StatusOf, Visited;
    FollowsTogether(env, b, VisitDeeds(visits), m, [visit.note] + visit.deeds, a);
    VisitDeedsOn(visits, visit);
    VisitedOn(listening, events, visits, visit, r);
  }

  // ----- why a loop ends -----

  /** The first answer still to come that is not to go on asks for the end. */
  predicate AsksToEnd(turns: seq<HandlerTurn>) {
    exists i :: 0 <= i < |turns| && turns[i].action.ShutdownLoop? && GoOnBefore(turns, i)
  }

  predicate GoOnBefore(turns: seq<HandlerTurn>, i: int) {
    forall j :: 0 <= j < i && j < |turns| ==> turns[j].action.Continue?
  }

  lemma BatchAsksToEnd(got: seq<RecvResult>, turns: seq<HandlerTurn>, batch: nat)
    requires BatchEnds(got, turns, batch, ShutdownRequested)
    ensures AsksToEnd(turns)
  {
    hide DataOf;
    var last := |got| - 1;
    assert turns[last].action.ShutdownLoop?;
    forall j | 0 <= j < last && j < |turns| ensures turns[j].action.Continue? {
      assert Verdict(got[..last][j], Answer(turns, j)) == None;
    }
    assert GoOnBefore(turns, last);
  }

  lemma WhyReadShutsDown(env: Env, key: nat, b: Snap, a: Snap, r: Status)
    requires ReadAs(env, key, b, a, r) && r == Stop(ShutDown)
    ensures AsksToEnd(b.turns)
  {
    hide Longer, BatchEnds, AsksToEnd, ShutBut, EndsAs, Served;
    var mid, got, status :| Batched(env, key, got, status, b, mid) && ReadEnds(key, status, mid, a, r);
    BatchAsksToEnd(got, b.turns, env.batch);
  }

  lemma WhyPlacingEnds(env: Env, socket: Socket, b: Snap, a: Snap, r: Status)
    requires PlacedAs(env, socket, b, a, r)
    ensures r == Stop(ShutDown) ==> AsksToEnd(b.turns)
    ensures r == Stop(SlotOverflow) ==> |b.live.Keys| >= SLOT_LIMIT
    ensures r != Stop(OsError)
  {
    hide Longer, ShutBut, GrownUp, AsksToEnd;
    if r == Stop(ShutDown) {
      assert Answer(b.turns, 0) == ShutdownLoop;
      FirstAsks(b.turns);
    }
  }

  lemma FirstAsks(turns: seq<HandlerTurn>)
    requires Answer(turns, 0) == ShutdownLoop
    ensures AsksToEnd(turns)
  {
    assert turns[0].action.ShutdownLoop? && GoOnBefore(turns, 0);
  }

  /**
   The loop is shut down by the command, or by the first handler to answer anything
   but to go on, when it is told of input or of a new connection.
   */
  predicate Asked(d: Deed) {
    if d.work.Run? then
      || d.work.command.Shutdown?
      || (AsksToEnd(d.before.turns) && (d.work.command.Read? || d.work.command.Register?))
    else AsksToEnd(d.before.turns) && (d.work.ReadIn? || d.work.Admit?)
  }

  /** A call of the poller that the deed makes is refused; accepting makes up to two. */
  predicate Refused(d: Deed) {
    !Allowed(d.before.os) || (d.work.Admit? && !Allowed(Later(d.before.os)))
  }

  /** The deed calls the poller. */
  predicate CallsPoller(d: Deed) {
    match d.work
    case Poll(_) => true
    case Admit(_) => true
    case Align(key) => key in d.before.live
    case Drop(key) => key in d.before.live
    case Run(_, command) => command.Wake? || command.Register? || (command.Close? && command.key in d.before.live)
    case _ => false
  }

  /** Why a deed may end the loop; the command to shut down always does, and so does a call that is refused. */
  lemma WhyItEnds(env: Env, d: Deed)
    requires Done(env, d)
    ensures d.r == Stop(ShutDown) ==> Asked(d)
    ensures d.r == Stop(SlotOverflow) ==> |d.before.live.Keys| >= SLOT_LIMIT
    ensures d.r == Stop(OsError) ==> Refused(d)
    ensures d.work.Run? && d.work.command.Shutdown? ==> d.r == Stop(ShutDown)
    ensures CallsPoller(d) && Refused(d) ==> d.r == Stop(OsError)
  {
    hide ReadAs, WriteAs, PlacedAs, Grew, AsksToEnd, RanAs, EndsAs, ShutBut;
    var q := d.before.(queues := Start(d));
    match d.work
    case Run(_, command) => WhyRunEnds(env, command, q, d.after, d.r);
    case Admit(socket) => WhyAdmittingEnds(env, socket, q, d.after, d.r);
    case WriteOut(key) => WhyWritingEnds(env, key, q, d.after, d.r);
    case ReadIn(key) => WhyReadingEnds(env, key, q, d.after, d.r);
    case _ =>
  }

  lemma WhyAdmittingEnds(env: Env, socket: Socket, b: Snap, a: Snap, r: Status)
    requires AdmitAs(env, socket, b, a, r)
    ensures r == Stop(ShutDown) ==> AsksToEnd(b.turns)
    ensures r == Stop(SlotOverflow) ==> |b.live.Keys| >= SLOT_LIMIT
    ensures r == Stop(OsError) <==> !Allowed(b.os) || !Allowed(Later(b.os))
  {
    hide PlacedAs, AsksToEnd, Longer;
    var next := b.(os := Later(Later(b.os)));
    if Allowed(b.os) && Allowed(Later(b.os)) {
      WhyPlacingEnds(env, socket, next, a, r);
    }
  }

  lemma WhyWritingEnds(env: Env, key: nat, b: Snap, a: Snap, r: Status)
    requires WriteAs(env, key, b, a, r)
    ensures r == Go || (r == Stop(OsError) && !Allowed(b.os))
  {
    hide Longer, PumpEnds, EndsAs;
  }

  lemma WhyReadingEnds(env: Env, key: nat, b: Snap, a: Snap, r: Status)
    requires ReadAs(env, key, b, a, r)
    ensures r == Stop(ShutDown) ==> AsksToEnd(b.turns)
    ensures r.Stop? && r != Stop(ShutDown) ==> r == Stop(OsError) && !Allowed(b.os)
  {
    hide Longer, BatchEnds, AsksToEnd, EndsAs, ShutBut, Served;
    if r == Stop(ShutDown) {
      WhyReadShutsDown(env, key, b, a, r);
    }
  }

  lemma WhyRunEnds(env: Env, command: Command, b: Snap, a: Snap, r: Status)
    requires RanAs(env, command, b, a, r)
    ensures r == Stop(ShutDown) ==>
              command.Shutdown? || (AsksToEnd(b.turns) && (command.Read? || command.Register?))
    ensures r == Stop(SlotOverflow) ==> |b.live.Keys| >= SLOT_LIMIT
    ensures r == Stop(OsError) ==> !Allowed(b.os)
    ensures (command.Wake? || command.Register? || (command.Close? && command.key in b.live)) && !Allowed(b.os) ==>
              r == Stop(OsError)
    ensures command.Shutdown? ==> r == Stop(ShutDown)
  {
    hide ReadAs, WriteAs, PlacedAs, Grew, AsksToEnd, EndsAs, ShutBut;
    match command
    case Register(socket) =>
      if Allowed(b.os) {
        WhyPlacingEnds(env, socket, b.(os := Later(b.os)), a, r);
      }
    case Read(key) => WhyReadingEnds(env, key, b, a, r);
    case Write(key) => WhyWritingEnds(env, key, b, a, r);
    case _ =>
  }

  /**
   However long a loop runs: it has run no command to shut down if it still goes on,
   and if it ended, its last deed says why.
   */
  lemma WhyTheLoopEnded(env: Env, b: Snap, deeds: seq<Deed>, a: Snap)
    requires Follows(env, b, deeds, a)
    ensures StatusOf(deeds).Go? ==>
              forall i :: 0 <= i < |deeds| ==> !(deeds[i].work.Run? && deeds[i].work.command.Shutdown?)
    ensures StatusOf(deeds).Stop? ==>
              && deeds != []
              && var last := deeds[|deeds| - 1];
                 match StatusOf(deeds).reason
                 case ShutDown => Asked(last)
                 case SlotOverflow => |last.before.live.Keys| >= SLOT_LIMIT
                 case OsError => Refused(last)
  {
    hide Follows, Done, Asked, Refused;
    forall i | 0 <= i < |deeds|
      ensures deeds[i].work.Run? && deeds[i].work.command.Shutdown? ==> i == |deeds| - 1 && deeds[i].r == Stop(ShutDown)
    {
      EveryDeedIsDone(env, b, deeds, a, i);
      WhyItEnds(env, deeds[i]);
    }
    if deeds != [] {
      EveryDeedIsDone(env, b, deeds, a, |deeds| - 1);
      WhyItEnds(env, deeds[|deeds| - 1]);
    }
  }
}
