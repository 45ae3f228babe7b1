/**
 One event loop: a slab of live connections, a pool of closed ones to reuse, the
 queue of commands, and the edge-triggered poller. The poller, the kernel and the
 handlers act by scripts; quantifying over them covers every behaviour.
 */
module EventLoops {
  import opened Batches
  import opened Callbacks
  import opened Chunks
  import opened Commands
  import opened Connections
  import opened Deeds
  import opened Gfds
  import opened Handlers
  import opened Sockets
  import opened Tokens

  datatype Arrival = Arrival(key: nat, data: Bytes, hangup: bool)

  /** All that reaches the socket in this slot. */
  function ArrivedFor(key: nat, arrivals: seq<Arrival>): Bytes {
    if arrivals == [] then []
    else
      var last := arrivals[|arrivals| - 1];
      ArrivedFor(key, arrivals[..|arrivals| - 1]) + if last.key == key then last.data else []
  }

  /** Each socket has got the bytes that arrived for it, behind those it had, and nobody has come or gone. */
  ghost predicate Gained(before: map<nat, Peer>, arrivals: seq<Arrival>, after: map<nat, Peer>) {
    && after.Keys == before.Keys
    && forall k :: k in before ==>
         && before[k].socket.Some? && after[k].socket.Some?
         && after[k].socket.value.inbound.rx == before[k].socket.value.inbound.rx + ArrivedFor(k, arrivals)
  }

  /** Bytes have arrived for one of the sockets. */
  lemma OneGained(a: Arrival, before: map<nat, Peer>, after: map<nat, Peer>)
    requires forall k :: k in before ==> before[k].socket.Some?
    requires after == if a.key in before && a.key in after then before[a.key := after[a.key]] else before
    requires a.key in before ==>
               && a.key in after && after[a.key].socket.Some?
               && after[a.key].socket.value.inbound.rx == before[a.key].socket.value.inbound.rx + a.data
    ensures Gained(before, [a], after)
  {
    assert [a][..0] == [];
    forall k | k in before
      ensures after[k].socket.Some?
      ensures after[k].socket.value.inbound.rx == before[k].socket.value.inbound.rx + ArrivedFor(k, [a])
    {
      assert before[k].socket.value.inbound.rx + [] == before[k].socket.value.inbound.rx;
    }
  }

  lemma GainedToo(a: map<nat, Peer>, arrivals: seq<Arrival>, b: map<nat, Peer>, arrival: Arrival, c: map<nat, Peer>)
    requires Gained(a, arrivals, b) && Gained(b, [arrival], c)
    ensures Gained(a, arrivals + [arrival], c)
  {
    var all := arrivals + [arrival];
    assert all[..|all| - 1] == arrivals && [arrival][..0] == [];
    forall k | k in a
      ensures c[k].socket.Some?
      ensures c[k].socket.value.inbound.rx == a[k].socket.value.inbound.rx + ArrivedFor(k, all)
    {
      assert ArrivedFor(k, [arrival]) == if arrival.key == k then arrival.data else [];
      Assoc(a[k].socket.value.inbound.rx, ArrivedFor(k, arrivals), ArrivedFor(k, [arrival]));
    }
  }

  lemma NoneGained(live: map<nat, Peer>)
    requires forall k :: k in live ==> live[k].socket.Some?
    ensures Gained(live, [], live)
  {
  }

  /** An event that is handed over takes no bytes away. */
  lemma StillGained(a: map<nat, Peer>, arrivals: seq<Arrival>, b: map<nat, Peer>, c: map<nat, Peer>)
    requires Gained(a, arrivals, b) && Gained(b, [], c)
    ensures Gained(a, arrivals, c)
  {
    forall k | k in a
      ensures c[k].socket.Some?
      ensures c[k].socket.value.inbound.rx == a[k].socket.value.inbound.rx + ArrivedFor(k, arrivals)
    {
      assert b[k].socket.value.inbound.rx + [] == b[k].socket.value.inbound.rx;
    }
  }

  /** How a call of the poller comes back, other than failing. */
  datatype PollTurn = PollInterrupted | Polled(arrivals: seq<Arrival>, events: seq<Event>)

  /** A finished registration: what it consumed and aired are parts of what it received and accepted. */
  predicate EndsWell(log: Log) {
    && log.consumed <= log.received
    && log.aired + log.skipped + log.wire <= log.accepted
  }

  predicate RosterOk(r: Roster, created: nat) {
    && (forall s :: s in r.homes ==> s in r.issued)
    && (forall s :: s in r.issued ==> s < created && r.issued[s].sequence == s % U32)
  }

  ghost predicate HistoryOk(r: Roster, h: History) {
    && (forall s {:trigger h.closes[s]} :: h.closes[s] <= 1)
    && (forall s :: s in h.closes ==> s in r.homes)
    && (forall d :: d in h.deliveries ==> d.serial in r.issued && r.issued[d.serial] == d.gfd)
    && (forall s :: s in h.finals ==> s in h.closes && EndsWell(h.finals[s]))
  }

  /** What is on record stays on record. */
  predicate Extends(r0: Roster, h0: History, r1: Roster, h1: History) {
    && (forall s :: s in r0.issued ==> s in r1.issued && r1.issued[s] == r0.issued[s])
    && (forall s :: s in r0.homes ==> s in r1.homes && r1.homes[s] == r0.homes[s])
    && (forall s :: s in h0.finals ==> s in h1.finals && h1.finals[s] == h0.finals[s])
    && h0.closes <= h1.closes && h0.deliveries <= h1.deliveries
  }

  /** The one newcomer is in slot `key`, which was vacant, under a handle no registration had been given. */
  predicate Joined(key: nat, gfd: Gfd, serial: nat, before: set<nat>, r0: Roster, after: set<nat>, r1: Roster) {
    && key !in before && after == before + {key}
    && serial !in r0.issued
    && r1 == Roster(r0.homes[serial := key], r0.issued[serial := gfd])
  }

  /** What becomes of a new socket is for `on_open` to say. */
  predicate Answered(action: Action, r: Status, key: nat, gfd: Gfd, serial: nat,
                     before: set<nat>, r0: Roster, after: set<nat>, r1: Roster) {
    match action
    case Continue => r == Go && Joined(key, gfd, serial, before, r0, after, r1)
    case CloseConnection => r == Go && after == before && r1 == Roster(r0.homes, r0.issued[serial := gfd])
    case ShutdownLoop => r == Stop(ShutDown)
  }

  lemma AnswersMean(action: Action, r: Status, key: nat, gfd: Gfd, serial: nat,
                    before: set<nat>, r0: Roster, after: set<nat>, r1: Roster)
    ensures Answered(action, r, key, gfd, serial, before, r0, after, r1) ==>
              && (r.Go? ==> serial in r1.issued && r1.issued[serial] == gfd)
              && match action
                 case Continue => r == Go && key !in before && after == before + {key}
                 case CloseConnection => r == Go && after == before
                 case ShutdownLoop => r == Stop(ShutDown)
  {
  }

  /** Each of these sockets has been given a new handle, one after the other. */
  predicate Registered(waiting: seq<Socket>, serials: seq<nat>, r: Roster, from: nat, created: nat) {
    && |serials| == |waiting|
    && (forall i, j :: 0 <= i < j < |serials| ==> serials[i] < serials[j])
    && (forall i :: 0 <= i < |serials| ==>
          && from <= serials[i] < created && serials[i] in r.issued
          && r.issued[serials[i]].fd == waiting[i].fd)
  }

  function Below(n: nat): (r: set<nat>)
    ensures forall k: nat {:trigger k in r} :: k in r ==> k < n
  {
    if n == 0 then {} else Below(n - 1) + {n - 1}
  }

  lemma {:induction false} BelowCard(n: nat)
    ensures |Below(n)| == n
  {
    if n > 0 {
      BelowCard(n - 1);
    }
  }

  /** The slab has a key to offer as long as not all of them are in use. */
  lemma SomeKeyIsVacant(keys: set<nat>)
    requires |keys| < SLOT_LIMIT
    ensures exists k: nat {:trigger k in keys} :: k < SLOT_LIMIT && k !in keys
  {
    if forall k: nat {:trigger k in keys} :: k < SLOT_LIMIT ==> k in keys {
      BelowCard(SLOT_LIMIT);
      SubsetCard(Below(SLOT_LIMIT), keys);
    }
  }

  lemma {:induction false} SubsetCard(a: set<nat>, b: set<nat>)
    requires a <= b
    ensures |a| <= |b|
  {
    if a != {} {
      var x :| x in a;
      SubsetCard(a - {x}, b - {x});
    }
  }

  predicate HasEvent(events: seq<Event>, key: nat) {
    exists i :: 0 <= i < |events| && events[i].token == key && events[i].Readish()
  }

  /** Readable input is known about: an edge is owed, an event is at hand, or a read is queued. */
  predicate Noticed(key: nat, inbound: Inbound, urgent: seq<Command>, events: seq<Event>) {
    inbound.Readable() ==>
      inbound.edge || Announced(key, urgent, events)
  }

  predicate Announced(key: nat, urgent: seq<Command>, events: seq<Event>) {
    Command.Read(key) in urgent || HasEvent(events, key)
  }

  /** Seen from before some commands were sent. */
  lemma SameEarlier(q: Queues, m: Snap, a: Snap)
    requires Longer(q.urgent, q.common, m.queues.urgent, m.queues.common) && Same(m, a)
    ensures Same(m.(queues := q), a)
  {
  }

  lemma ShutEarlier(q: Queues, m: Snap, a: Snap, r: Status)
    requires Longer(q.urgent, q.common, m.queues.urgent, m.queues.common) && ShutAs(m, a, r)
    ensures ShutAs(m.(queues := q), a, r)
  {
    hide LeftInPeace;
  }

  /** The two queues before this command was taken from one of them. */
  function Untaken(urgent: bool, command: Command, u: seq<Command>, c: seq<Command>): (seq<Command>, seq<Command>) {
    if urgent then ([command] + u, c) else (u, [command] + c)
  }

  lemma LeftIs(urgent: bool, command: Command, q: Queues)
    ensures var (u, c) := Untaken(urgent, command, q.urgent, q.common);
            IsNext(urgent, command, Queues(u, c)) && Left(urgent, Queues(u, c)) == q
  {
  }

  /** The events at hand once the poll is over. */
  function AtHand(events: seq<Event>, turn: PollTurn): seq<Event> {
    if turn.Polled? then events + turn.events else events
  }

  function AllDeeds(laps: seq<Lap>): seq<Deed> {
    if laps == [] then [] else AllDeeds(laps[..|laps| - 1]) + LapDeeds(laps[|laps| - 1])
  }

  /** Lap by lap, each turn of the poller with the events it handed over. */
  ghost predicate LapsOf(turns: seq<PollTurn>, listening: Option<nat>, laps: seq<Lap>) {
    && |laps| <= |turns|
    && forall i :: 0 <= i < |laps| ==>
         LapOf(turns[i].Polled?, listening, AtHand([], turns[i]), laps[i], StatusOf(LapDeeds(laps[i])))
  }

  /** How many of these polls come back. */
  function Returned(turns: seq<PollTurn>): nat {
    if turns == [] then 0
    else Returned(turns[..|turns| - 1]) + if turns[|turns| - 1].Polled? then 1 else 0
  }

  /** Everything that was queued at the start has been run, or n whole rations of commands have. */
  predicate Rationed(start: Queues, deeds: seq<Deed>, n: nat) {
    || |CommandsOf(deeds, true)| + |CommandsOf(deeds, false)| >= n * 256
    || Longer(start.urgent, start.common, CommandsOf(deeds, true), CommandsOf(deeds, false))
  }

  /** Every poll that comes back brings one more ration of commands, until what was queued has been run. */
  lemma {:induction false} EveryPollRuns(env: Env, b: Snap, turns: seq<PollTurn>, listening: Option<nat>,
                                         laps: seq<Lap>, a: Snap)
    requires LapsOf(turns, listening, laps) && Follows(env, b, AllDeeds(laps), a) && StatusOf(AllDeeds(laps)).Go?
    ensures Rationed(b.queues, AllDeeds(laps), Returned(turns[..|laps|]))
    decreases |laps|
  {
    hide Follows, CommandsOf, LapDeeds, LapOf, Rationed, LapsOf, Longer, AllDeeds, Returned, StatusOf;
    if laps == [] {
      NoLaps(turns);
      NothingRationed(b.queues);
    } else {
      var n, front, lap := |laps| - 1, laps[..|laps| - 1], laps[|laps| - 1];
      LapsStart(turns, listening, laps);
      LapsOn(front, lap);
      assert front + [lap] == laps;
      ReturnedOn(turns, n);
      var m := FollowsSplit(env, b, AllDeeds(front), LapDeeds(lap), a);
      EveryPollRuns(env, b, turns, listening, front, m);
      LapGoes(AllDeeds(front), LapDeeds(lap));
      LapRuns(env, m, turns[n], listening, lap, a);
      FirstInFirstOut(env, b, AllDeeds(front), m);
      RationsAdd(b.queues, AllDeeds(front), m.queues, LapDeeds(lap), Returned(turns[..n]), turns[n].Polled?);
    }
  }

  lemma NoLapYet(turns: seq<PollTurn>, listening: Option<nat>)
    ensures LapsOf(turns, listening, []) && AllDeeds([]) == [] && StatusOf([]).Go?
  {
  }

  lemma OneLapMore(turns: seq<PollTurn>, listening: Option<nat>, laps: seq<Lap>, lap: Lap)
    requires LapsOf(turns, listening, laps) && |laps| < |turns|
    requires var turn := turns[|laps|];
             LapOf(turn.Polled?, listening, AtHand([], turn), lap, StatusOf(LapDeeds(lap)))
    ensures LapsOf(turns, listening, laps + [lap])
  {
    hide LapOf;
  }

  lemma NoLaps(turns: seq<PollTurn>)
    ensures AllDeeds([]) == [] && Returned(turns[..0]) == 0
  {
  }

  lemma ReturnedOn(turns: seq<PollTurn>, n: nat)
    requires n < |turns|
    ensures Returned(turns[..n + 1]) == Returned(turns[..n]) + if turns[n].Polled? then 1 else 0
  {
    assert turns[..n + 1][..n] == turns[..n];
  }

  lemma LapGoes(front: seq<Deed>, deeds: seq<Deed>)
    requires StatusOf(front + deeds).Go?
    ensures StatusOf(deeds).Go?
  {
  }

  lemma RationsAdd(start: Queues, front: seq<Deed>, m: Queues, more: seq<Deed>, n: nat, polled: bool)
    requires Rationed(start, front, n) && (polled ==> Rationed(m, more, 1))
    requires Longer(start.urgent, start.common,
                    CommandsOf(front, true) + m.urgent, CommandsOf(front, false) + m.common)
    ensures Rationed(start, front + more, n + if polled then 1 else 0)
  {
    CommandsTogether(front, more);
    hide CommandsOf;
    var (u0, c0) := (CommandsOf(front, true), CommandsOf(front, false));
    var (u1, c1) := (CommandsOf(more, true), CommandsOf(more, false));
    if Longer(start.urgent, start.common, u0, c0) {
      assert u0 <= u0 + u1 && c0 <= c0 + c1;
    } else if polled && Longer(m.urgent, m.common, u1, c1) {
      assert u0 + m.urgent <= u0 + u1 && c0 + m.common <= c0 + c1;
    }
  }

  lemma NothingRationed(start: Queues)
    ensures Rationed(start, [], 0)
  {
  }

  lemma LapsStart(turns: seq<PollTurn>, listening: Option<nat>, laps: seq<Lap>)
    requires LapsOf(turns, listening, laps) && laps != []
    ensures |laps| <= |turns| && LapsOf(turns, listening, laps[..|laps| - 1])
    ensures var n := |laps| - 1;
            LapOf(turns[n].Polled?, listening, AtHand([], turns[n]), laps[n], StatusOf(LapDeeds(laps[n])))
  {
    hide LapOf;
  }

  /** A lap that goes on runs a ration, or all that was queued. */
  lemma LapRuns(env: Env, m: Snap, turn: PollTurn, listening: Option<nat>, lap: Lap, a: Snap)
    requires Follows(env, m, LapDeeds(lap), a) && StatusOf(LapDeeds(lap)).Go?
    requires LapOf(turn.Polled?, listening, AtHand([], turn), lap, StatusOf(LapDeeds(lap)))
    ensures turn.Polled? ==> Rationed(m.queues, LapDeeds(lap), 1)
  {
    hide Follows, CommandsOf, VisitDeeds, Visited, RanAs;
    LapAdds(lap);
    var rest := lap.pending + VisitDeeds(lap.visits);
    var p := FollowsSplit(env, m, [lap.poll], rest, a);
    assert [lap.poll] + rest == LapDeeds(lap);
    PollFirst(env, m, lap.poll, p);
    CommandsTogether([lap.poll], rest);
    CommandsTogether(lap.pending, VisitDeeds(lap.visits));
    OneCommand(lap.poll);
    if turn.Polled? && lap.poll.work.hasPending {
      AllRun(lap.pending);
      if |lap.pending| != MAX_ASYNC_TASK_ONE_TIME {
        LongerTwice(m.queues, lap.poll.after.queues,
                    Queues(CommandsOf(lap.pending, true), CommandsOf(lap.pending, false)));
      }
    }
  }

  lemma LapsOn(laps: seq<Lap>, lap: Lap)
    ensures AllDeeds(laps + [lap]) == AllDeeds(laps) + LapDeeds(lap)
  {
    assert (laps + [lap])[..|laps|] == laps;
  }

  /** On a blocked socket the byte that `on_open` writes is queued. */
  lemma OpenedBlocked(env: Env, b: Snap, a: Snap, r: Status) returns (key: nat)
    requires RegisterAs(env, Socket(3, Inbound([], false, false, []), [Block], false), b, a, r)
    requires b.live == map[] && b.turns == [HandlerTurn([PutBytes([7])], Continue)] && r != Stop(OsError)
    ensures r == Go && a.live.Keys == {key}
    ensures var q := a.live[key]; q.socket.Some? && q.socket.value.sends == [] && q.queue == [[7]]
  {
    var socket := Socket(3, Inbound([], false, false, []), [Block], false);
    var next := b.(os := Later(b.os));
    assert Allowed(b.os) && PlacedAs(env, socket, next, a, r);
    var k, serial :| Opened(env, socket, k, serial, next, a, r);
    key := k;
    SingleChunk([7]);
    assert a.live == map[][key := a.live[key]];
  }

  lemma RegisterRefused(env: Env, socket: Socket, b: Snap)
    requires !Allowed(b.os)
    ensures RegisterAs(env, socket, b, b.(os := Later(b.os)), Stop(OsError))
  {
  }

  lemma RegisterPlaced(env: Env, socket: Socket, b: Snap, a: Snap, r: Status)
    requires Allowed(b.os) && PlacedAs(env, socket, b.(os := Later(b.os)), a, r)
    ensures RegisterAs(env, socket, b, a, r)
  {
    hide PlacedAs;
  }

  lemma AdmitDone(env: Env, socket: Socket, b: Snap, a: Snap, r: Status)
    requires if Allowed(b.os) then RegisterAs(env, socket, b.(os := Later(b.os)), a, r)
             else a == b.(os := Later(b.os)) && r == Stop(OsError)
    ensures Done(env, Deed(Work.Admit(socket), b, a, r))
  {
    hide RegisterAs;
  }

  lemma AskedWhileAccepting(env: Env, socket: Socket, b: Snap, deeds: seq<Deed>, a: Snap, r: Status)
    requires Carried(env, b, deeds, a, r, Admits(Accepted([Incoming(socket)]))) && r != Stop(OsError)
    requires b.turns != [] && b.turns[0].action.ShutdownLoop? && |b.live.Keys| < SLOT_LIMIT
    ensures r == Stop(ShutDown)
  {
    hide AdmitAs, Done;
    var turn: AcceptTurn := Incoming(socket);
    assert [turn][1..] == [];
    assert Accepted([turn]) == [socket];
    var d := deeds[0];
    assert deeds == [d] && deeds[..0] == [];
    assert Follows(env, b, [], d.before) && Done(env, d);
    AdmittedAsked(env, socket, d);
  }

  lemma AdmittedAsked(env: Env, socket: Socket, d: Deed)
    requires Done(env, d) && d.work == Work.Admit(socket) && d.r != Stop(OsError)
    requires d.before.turns != [] && d.before.turns[0].action.ShutdownLoop? && |d.before.live.Keys| < SLOT_LIMIT
    ensures d.r == Stop(ShutDown)
  {
    hide ShutBut, Longer, GrownUp;
    var next := d.before.(os := Later(Later(d.before.os)));
    assert PlacedAs(env, socket, next, d.after, d.r);
    var key, serial :| Opened(env, socket, key, serial, next, d.after, d.r);
  }

  lemma NobodyCloses(key: nat, graceful: bool, s: Snap)
    requires key !in s.live
    ensures CloseAs(key, graceful, s, s, Go)
  {
  }

  lemma NobodyWritten(env: Env, g: Gfd, data: Bytes, s: Snap)
    requires !HitBy(env, g, s)
    ensures AsyncAs(env, g, data, s, s, Go)
  {
  }

  lemma NobodyWrites(key: nat, b: Snap, a: Snap, r: Status)
    requires key !in b.live && WriteEnds(key, Completed, b, a, r)
    ensures Same(b, a) && r == Go
  {
  }

  lemma PumpStays(env: Env, key: nat, status: IoStatus, b: Snap, mid: Snap)
    requires Pumped(env, key, status, b, mid)
    ensures status.Completed? || status.Yield? || status == Closed(false)
  {
  }

  /** The connection has flushed or dropped its output, and `on_close` has been called. */
  lemma PartsAs(p: Peer, graceful: bool, late: seq<Op>, s: Desk, t: Desk)
    requires Leaves(p, graceful, s.peer) && Did(late, s, t)
    ensures Parts(p, graceful, late, s.queues, t.peer.log, t.queues)
  {
  }

  predicate AllOk(results: seq<bool>) {
    forall i :: 0 <= i < |results| ==> results[i]
  }

  class EventLoop {
    const loopId: LoopId
    const readBufferCap: nat
    const maxBatchSize: nat
    const handle: EventLoopHandle

    var connections: map<nat, Connection>
    var pool: seq<Connection>
    var connCount: nat
    var events: seq<Event>
    var listeners: Option<nat>
    var created: nat
    var ioLen: nat
    var ioCap: nat

    /** Scripts: handler callbacks, results of poller calls, commands sent by other threads. */
    var turns: seq<HandlerTurn>
    var osResults: seq<bool>
    var incoming: seq<seq<Command>>

    ghost var Repr: set<Connection>
    ghost var roster: Roster
    ghost var hist: History

    /** A slot holds an open connection whose handle leads back to it. */
    ghost predicate Slot(k: nat, c: Connection, r: Roster)
      reads c
    {
      && c.Valid() && c.socket.Some? && k < SLOT_LIMIT
      && c.gfd == Make(c.socket.value.fd, loopId, k, c.log.serial)
      && c.log.serial in r.homes && r.homes[c.log.serial] == k
      && c.log.serial in r.issued && r.issued[c.log.serial] == c.gfd
    }

    ghost predicate SlotsOk()
      reads this`connections, this`roster, this`Repr, Repr
    {
      forall k {:trigger Slot(k, connections[k], roster)} :: k in connections ==>
        connections[k] in Repr && Slot(k, connections[k], roster)
    }

    /** Pooled connections are distinct and have no socket. */
    ghost predicate PoolOk()
      reads this`pool, this`Repr, Repr
    {
      && (forall i :: 0 <= i < |pool| ==> pool[i] in Repr && pool[i].socket.None?)
      && (forall i, j :: 0 <= i < j < |pool| ==> pool[i] != pool[j])
    }

    predicate CountOk()
      reads this`connections, this`connCount
    {
      connCount == |connections.Keys|
    }

    /** What holds in every state, also after the loop has stopped. */
    ghost predicate Structure()
      reads this`connections, this`roster, this`Repr, Repr, this`pool, this`connCount, this`ioLen, this`ioCap,
            this`created, this`hist
    {
      && SlotsOk() && PoolOk() && CountOk() && BufferOk()
      && RosterOk(roster, created) && HistoryOk(roster, hist)
    }

    /** The registration s is in the slab. */
    ghost predicate LiveAt(s: nat)
      requires s in roster.homes
      reads this`connections, this`roster, this`Repr, Repr
    {
      var k := roster.homes[s];
      k in connections && connections[k] in Repr && connections[k].log.serial == s
    }

    /** While the loop runs, exactly the connections that are not closed are live. */
    ghost predicate Matched()
      reads this`connections, this`roster, this`hist, this`Repr, Repr
    {
      forall s {:trigger LiveAt(s)} :: s in roster.homes ==> (LiveAt(s) <==> s !in hist.closes)
    }

    /** Afterwards a connection may still be there although its `on_close` has run. */
    ghost predicate Accounted()
      reads this`connections, this`roster, this`hist, this`Repr, Repr
    {
      forall s {:trigger LiveAt(s)} :: s in roster.homes && s !in hist.closes ==> LiveAt(s)
    }

    ghost predicate CalmConn(k: nat, c: Connection)
      reads c, this`events, handle
    {
      && c.log.Intact() && c.IoBytes() == []
      && (c.socket.Some? ==> Noticed(k, c.socket.value.inbound, handle.urgent, events))
    }

    /** Every live connection but one is between reads, whole, and noticed if readable. */
    ghost predicate Calm(except: int)
      reads this`connections, this`events, this`Repr, Repr, handle
    {
      forall k {:trigger CalmConn(k, connections[k])} :: k in connections && k != except ==>
        connections[k] in Repr && CalmConn(k, connections[k])
    }

    ghost predicate Valid()
      reads this`connections, this`roster, this`Repr, Repr, this`pool, this`connCount, this`ioLen, this`ioCap,
            this`created, this`hist, this`events, handle
    {
      Structure() && Matched() && Calm(-1)
    }

    ghost predicate Ended()
      reads this`connections, this`roster, this`Repr, Repr, this`pool, this`connCount, this`ioLen, this`ioCap,
            this`created, this`hist
    {
      Structure() && Accounted()
    }

    /** Every connection that was let in has had its one `on_close`. */
    ghost predicate AllClosed()
      reads this`connections, this`roster, this`Repr, Repr, this`pool, this`connCount, this`ioLen, this`ioCap,
            this`created, this`hist
    {
      Ended() && forall s :: s in roster.homes ==> s in hist.closes
    }

    /** Nothing but the connection in slot `key` has changed, and it is still a sound tenant. */
    twostate predicate OnlyTenantChanged(key: nat)
      reads this, Repr
    {
      && key in old(connections)
      && connections == old(connections) && roster == old(roster) && hist == old(hist) && Repr == old(Repr)
      && pool == old(pool) && connCount == old(connCount) && events == old(events)
      && created == old(created)
      && (forall o :: o in old(Repr) && o != connections[key] ==> unchanged(o))
      && connections[key] in Repr && Slot(key, connections[key], roster)
      && connections[key].log.serial == old(connections[key].log.serial)
    }

    twostate lemma TenantKeepsSlots(key: nat)
      requires old(SlotsOk()) && OnlyTenantChanged(key)
      ensures SlotsOk()
    {
      var c := connections[key];
      assert old(Slot(key, c, roster));
      forall k | k in connections ensures connections[k] in Repr && Slot(k, connections[k], roster) {
        assert old(Slot(k, connections[k], roster));
      }
    }

    twostate lemma TenantKeepsPool(key: nat)
      requires old(SlotsOk()) && old(PoolOk()) && OnlyTenantChanged(key)
      ensures PoolOk()
    {
      assert old(Slot(key, connections[key], roster));
    }

    twostate lemma TenantKeepsStructure(key: nat)
      requires old(SlotsOk()) && old(PoolOk()) && old(CountOk()) && OnlyTenantChanged(key)
      ensures SlotsOk() && PoolOk() && CountOk()
    {
      hide SlotsOk, PoolOk;
      TenantKeepsSlots(key);
      TenantKeepsPool(key);
    }

    twostate lemma TenantKeepsMatched(key: nat)
      requires old(SlotsOk()) && old(Matched()) && OnlyTenantChanged(key)
      ensures Matched()
    {
      forall s | s in roster.homes ensures LiveAt(s) <==> s !in hist.closes {
        assert old(LiveAt(s)) <==> s !in hist.closes;
      }
    }

    twostate lemma TenantKeepsAccounted(key: nat)
      requires old(SlotsOk()) && old(Accounted()) && OnlyTenantChanged(key)
      ensures Accounted()
    {
      forall s | s in roster.homes && s !in hist.closes ensures LiveAt(s) {
        assert old(LiveAt(s));
      }
    }

    twostate lemma TenantKeepsCalm(key: nat)
      requires old(SlotsOk()) && old(Calm(key)) && OnlyTenantChanged(key) && handle.Grew()
      ensures Calm(key)
    {
      var c := connections[key];
      assert old(Slot(key, c, roster));
      forall k | k in connections && k != key ensures connections[k] in Repr && CalmConn(k, connections[k]) {
        assert old(CalmConn(k, connections[k])) && old(Slot(k, connections[k], roster));
      }
    }

    twostate lemma TenantKeepsAll(key: nat)
      requires old(SlotsOk()) && old(PoolOk()) && old(CountOk()) && OnlyTenantChanged(key) && handle.Grew()
      ensures SlotsOk() && PoolOk() && CountOk()
      ensures (old(Matched()) ==> Matched()) && (old(Accounted()) ==> Accounted())
      ensures old(Calm(key)) ==> Calm(key)
      ensures key in old(Live()) && Live() == old(Live())[key := PeerOf(connections[key])]
    {
      hide SlotsOk, PoolOk, CountOk, Matched, Accounted, Calm, OnlyTenantChanged, Longer, Live;
      TenantShows(key);
      TenantKeepsStructure(key);
      if old(Matched()) {
        TenantKeepsMatched(key);
      }
      if old(Accounted()) {
        TenantKeepsAccounted(key);
      }
      if old(Calm(key)) {
        TenantKeepsCalm(key);
      }
    }

    function Touched(key: nat): set<Connection>
      reads this`connections
    {
      if key in connections then {connections[key]} else {}
    }

    // ----- what the loop looks like -----

    ghost function Fixed(): Env {
      Env(loopId, readBufferCap, maxBatchSize)
    }

    ghost function Live(): map<nat, Peer>
      reads this`connections, this`Repr, Repr
    {
      map k | k in connections && connections[k] in Repr :: PeerOf(connections[k])
    }

    /** The commands that wait. */
    function Waiting(): Queues
      reads handle
    {
      Queues(handle.urgent, handle.common)
    }

    ghost function View(): Snap
      reads this`connections, this`Repr, Repr, this`turns, this`osResults, this`roster, this`hist, this`created
      reads handle
    {
      Snap(Live(), turns, osResults, roster, hist, created, Waiting())
    }

    lemma PeerAt(key: nat)
      requires SlotsOk()
      ensures Live().Keys == connections.Keys
      ensures key in connections ==> Live()[key] == PeerOf(connections[key])
    {
      forall k | k in connections ensures connections[k] in Repr {
        assert Slot(k, connections[k], roster);
      }
    }

    /** Connections in other slots are other connections. */
    twostate lemma OthersUntouched(key: nat)
      requires old(SlotsOk()) && key in old(connections)
      requires forall o :: o in old(Repr) && o != old(connections[key]) ==> unchanged(o)
      ensures forall k {:trigger old(connections[k])} :: k in old(connections) && k != key ==>
                unchanged(old(connections[k]))
    {
      assert old(Slot(key, connections[key], roster));
      forall k | k in old(connections) && k != key ensures unchanged(old(connections[k])) {
        assert old(Slot(k, connections[k], roster));
      }
    }

    /** Only slot `key` has changed, or who is in it. */
    twostate lemma PeersApart(key: nat)
      requires old(SlotsOk()) && old(Repr) <= Repr && connections - {key} == old(connections) - {key}
      requires forall k {:trigger old(connections[k])} :: k in old(connections) && k != key ==>
                 unchanged(old(connections[k]))
      requires key in connections ==> connections[key] in Repr
      ensures Live() == if key in connections then old(Live())[key := PeerOf(connections[key])]
                        else old(Live()) - {key}
      ensures key in old(connections) ==>
                key in old(Live()) && old(Live())[key] == old(PeerOf(connections[key]))
    {
      if key in old(connections) {
        assert old(Slot(key, connections[key], roster));
      }
      forall k | k != key
        ensures k in connections <==> k in old(connections)
        ensures k in connections ==> connections[k] == old(connections[k]) && connections[k] in old(Repr)
      {
        assert k in connections - {key} <==> k in old(connections) - {key};
        if k in connections {
          assert (connections - {key})[k] == (old(connections) - {key})[k];
          assert old(Slot(k, connections[k], roster));
        }
      }
    }

    twostate lemma TenantShows(key: nat)
      requires old(SlotsOk()) && OnlyTenantChanged(key)
      ensures key in old(Live()) && old(Live())[key] == old(PeerOf(connections[key]))
      ensures Live() == old(Live())[key := PeerOf(connections[key])]
    {
      OthersUntouched(key);
      PeersApart(key);
      assert old(Slot(key, connections[key], roster));
    }

    twostate predicate SameTenant(c: Connection)
      reads c
    {
      && c.gfd == old(c.gfd)
      && old(c.socket).Some? && c.socket.Some? && c.socket.value.fd == old(c.socket).value.fd
      && c.log == old(c.log).(received := c.log.received, consumed := c.log.consumed,
                              accepted := c.log.accepted, wire := c.log.wire)
      && Grows(old(c.log), c.log)
    }

    constructor (loopId: LoopId, readBufferCap: nat, maxBatchSize: nat, created: nat, listeners: Option<nat>,
                 turns: seq<HandlerTurn>, osResults: seq<bool>, incoming: seq<seq<Command>>)
      ensures Valid() && fresh(handle) && Repr == {}
      ensures connections == map[] && roster == Roster(map[], map[]) && hist == History(multiset{}, {}, map[])
      ensures this.loopId == loopId && this.readBufferCap == readBufferCap && this.maxBatchSize == maxBatchSize
      ensures pool == [] && connCount == 0 && events == [] && handle.urgent == [] && handle.common == []
      ensures this.created == created && this.listeners == listeners
      ensures this.turns == turns && this.osResults == osResults && this.incoming == incoming
    {
      this.loopId, this.readBufferCap, this.maxBatchSize := loopId, readBufferCap, maxBatchSize;
      this.handle := new EventLoopHandle();
      this.connections, this.pool, this.connCount := map[], [], 0;
      this.events, this.listeners, this.created := [], listeners, created;
      this.ioLen, this.ioCap := 0, readBufferCap;
      this.turns, this.osResults, this.incoming := turns, osResults, incoming;
      this.Repr, this.roster, this.hist := {}, Roster(map[], map[]), History(multiset{}, {}, map[]);
    }

    /** The result of the next call to the poller. */
    method NextOs() returns (ok: bool)
      modifies this`osResults
      ensures ok == Allowed(old(osResults)) && osResults == Later(old(osResults))
      ensures AllOk(old(osResults)) ==> ok && AllOk(osResults)
    {
      if osResults == [] {
        return true;
      }
      ok := osResults[0];
      osResults := osResults[1..];
    }

    /** What the next callback will answer. */
    function NextAction(): Action
      reads this`turns
    {
      Reply(turns)
    }

    /** A handler callback on `c`; with no turns left it does nothing. */
    method Callback(c: Connection) returns (action: Action)
      requires c.Valid() && c.socket.Some?
      modifies this`turns, handle, c
      ensures Handled(c) && handle.Grew() && action == old(NextAction()) && turns == Rest(old(turns))
      ensures Did(Calls(old(turns)), old(DeskOf(handle, c)), DeskOf(handle, c))
    {
      hide Did;
      DidNothing(DeskOf(handle, c));
      if turns == [] {
        return Continue;
      }
      var turn := turns[0];
      turns := turns[1..];
      RunOps(handle, c, turn.ops);
      action := turn.action;
    }

    // ----- reading -----

    predicate BufferOk()
      reads this`ioLen, this`ioCap
    {
      ioLen <= readBufferCap && ioLen <= ioCap
    }

    /** `BytesMut::reserve`: room for `additional` more bytes, possibly more. */
    method Reserve(additional: nat)
      modifies this`ioCap
      ensures ioCap >= ioLen + additional
    {
      ioCap := ioLen + additional;
    }

    /** Growing the length never passes the capacity, and the socket always gets a whole buffer. */
    method PrepareBuffer()
      requires BufferOk()
      modifies this`ioLen, this`ioCap
      ensures BufferOk() && ioLen == readBufferCap
    {
      if ioCap < readBufferCap {
        Reserve(readBufferCap);
      }
      if ioLen < readBufferCap {
        assert readBufferCap <= ioCap;
        ioLen := readBufferCap;
      }
    }

    /** One read of the socket; what it brought is split off the buffer. */
    method Receive(c: Connection) returns (read: RecvResult)
      requires c.Valid() && c.socket.Some? && BufferOk()
      modifies this`ioLen, this`ioCap, c`socket
      ensures c.Valid() && c.socket.Some? && BufferOk()
      ensures c.socket.value == old(c.socket).value.Recv(readBufferCap).0
      ensures read == old(c.socket).value.Recv(readBufferCap).1
    {
      PrepareBuffer();
      var (after, r) := c.socket.value.Recv(ioLen);
      c.socket := Some(after);
      read := r;
      if r.Data? {
        ioLen, ioCap := ioLen - |r.data|, ioCap - |r.data|;
      }
    }

    /**
     One socket read into a whole buffer, and one handler turn if it brought bytes.
     The kernel's answer and the handler's decide together what becomes of the batch.
     */
    method ReadOnce(c: Connection) returns (read: RecvResult, status: Option<IoStatus>)
      requires c.Valid() && c.socket.Some? && c.IoBytes() == [] && BufferOk()
      modifies this`turns, this`ioLen, this`ioCap, handle, c
      ensures c.Valid() && SameTenant(c) && handle.Grew() && BufferOk()
      ensures (c.socket.value.inbound, read) == old(c.socket).value.inbound.Recv(readBufferCap)
      ensures status == Verdict(read, old(NextAction()))
      ensures turns == if read.Data? then Rest(old(turns)) else old(turns)
      ensures c.log.received == old(c.log).received + DataOf([read])
      ensures status.None? || !read.Data? ==> c.IoBytes() == []
      ensures Takes(read, Calls(old(turns)), old(NextAction()), readBufferCap,
                    old(DeskOf(handle, c)), DeskOf(handle, c))
    {
      hide Verdict, DataOf, Grows, Longer, Rest, Did, Calls;
      read := Receive(c);
      assert DeskOf(handle, c) == Drawn(old(DeskOf(handle, c)), readBufferCap);
      assert NextAction() == old(NextAction()) && turns == old(turns);
      DataOfOne(read);
      VerdictMeans(read, NextAction());
      GrowsItself(c.log);
      NoLonger(handle.urgent, handle.common);
      if read.Data? {
        var action := Traffic(c, read.data);
        status := Verdict(read, action);
      } else {
        status := Verdict(read, Continue);
        VerdictIgnores(read, Continue, NextAction());
        assert c.log.received + [] == c.log.received;
      }
    }

    /** The handler gets the bytes of a read; what it leaves is stashed unless it gives up the connection. */
    method Traffic(c: Connection, data: Bytes) returns (action: Action)
      requires c.Valid() && c.socket.Some? && c.IoBytes() == []
      modifies this`turns, handle, c
      ensures c.Valid() && c.OnlySends() && c.gfd == old(c.gfd) && handle.Grew()
      ensures c.log == old(c.log).(received := old(c.log).received + data, consumed := c.log.consumed,
                                   accepted := c.log.accepted, wire := c.log.wire)
      ensures Grows(old(c.log), c.log)
      ensures action == old(NextAction()) && turns == Rest(old(turns))
      ensures action == Continue ==> c.IoBytes() == []
      ensures exists m: Desk ::
                && Did(Calls(old(turns)), Offered(old(DeskOf(handle, c)), data), m)
                && if action == Continue then Stashed(m, DeskOf(handle, c)) else DeskOf(handle, c) == m
    {
      hide Longer, Calls, Rest, Did;
      c.Receive(data);
      assert DeskOf(handle, c) == Offered(old(DeskOf(handle, c)), data);
      action := Callback(c);
      ghost var m := DeskOf(handle, c);
      if action == Continue {
        c.Stash();
        assert Stashed(m, DeskOf(handle, c));
      }
      assert Did(Calls(old(turns)), Offered(old(DeskOf(handle, c)), data), m);
    }

    /**
     Reads until a read or the handler's answer ends the batch, or it is used up.
     A connection is given up only at the end of its stream, after a failed read,
     or when the handler said so; and a batch ends within one buffer of its size.
     */
    method ProcessRead(c: Connection) returns (status: IoStatus, ghost got: seq<RecvResult>)
      requires c.Valid() && c.socket.Some? && c.IoBytes() == [] && BufferOk()
      modifies this`turns, this`ioLen, this`ioCap, handle, c
      ensures c.Valid() && SameTenant(c) && handle.Grew() && BufferOk()
      ensures BatchEnds(got, old(turns), maxBatchSize, status)
      ensures Progress(readBufferCap, old(DeskOf(handle, c)), old(turns), got, DeskOf(handle, c), turns)
      ensures DataOf(got) == [] || |DataOf(got)| < maxBatchSize + readBufferCap
      ensures status.Completed? || status.Yield? ==> c.IoBytes() == []
      ensures status.Completed? ==> !c.socket.value.inbound.Readable()
    {
      hide Progress, GoesOn, BatchEnds, DataOf, Verdict, Answer, Rest, Grows, Longer, Takes, Calls, Reply;
      var bytesRead := 0;
      got := [];
      ghost var start, turns0 := DeskOf(handle, c), turns;
      NoProgress(readBufferCap, start, turns0);
      GrowsItself(c.log);
      NoLonger(handle.urgent, handle.common);
      YieldsIff(got, turns0, maxBatchSize);
      while true
        invariant c.Valid() && c.socket.Some? && SameTenant(c) && handle.Grew() && BufferOk()
        invariant c.IoBytes() == []
        invariant Progress(readBufferCap, start, turns0, got, DeskOf(handle, c), turns) && GoesOn(got, turns0)
        invariant |DataOf(got)| == bytesRead && (bytesRead == 0 || bytesRead < maxBatchSize + readBufferCap)
        decreases maxBatchSize - bytesRead
      {
        if bytesRead >= maxBatchSize {
          YieldsIff(got, turns0, maxBatchSize);
          return Yield, got;
        }
        ghost var log, u, q, m, now := c.log, handle.urgent, handle.common, DeskOf(handle, c), turns;
        var read, step := ReadOnce(c);
        GrowsOn(old(c.log), log, c.log);
        LongerStill(old(handle.urgent), old(handle.common), u, q, handle.urgent, handle.common);
        ProgressMade(readBufferCap, start, turns0, got, m, now, read, DeskOf(handle, c));
        VerdictMeans(read, Answer(turns0, |got|));
        BatchStep(turns0, maxBatchSize, got, read);
        DataOfOne(read);
        got := got + [read];
        if step.Some? {
          return step.value, got;
        }
        bytesRead := bytesRead + |read.data|;
      }
    }

    // ----- writing -----

    /**
     Writes until the queue is empty, the socket is full, or the batch is used up.
     It gives the connection up only if the socket failed or took nothing, or if a
     run of empty chunks made it offer nothing.
     */
    method ProcessWrite(c: Connection) returns (status: IoStatus)
      requires c.Valid() && c.socket.Some?
      modifies c`socket, c`outBuffer, c`log
      ensures c.Valid() && c.OnlySends() && c.OutputOnly()
      ensures old(c.log).wire <= c.log.wire && c.log.accepted == old(c.log).accepted
      ensures PumpEnds(status, old(c.socket).value.sends, c.socket.value.sends, c.Queue() == [],
                       Flushable(old(c.Queue())), Stuck(c.Queue()))
      ensures status.Yield? ==> |c.log.wire| >= |old(c.log).wire| + maxBatchSize
    {
      hide Flushable, Moved, MovedUntil;
      NothingMoved(c.socket.value.sends);
      var bytesWritten := 0;
      while c.Queue() != []
        invariant c.OutputConserved() && c.OnlySends() && c.OutputOnly()
        invariant old(c.log).wire <= c.log.wire && c.log.accepted == old(c.log).accepted
        invariant |c.log.wire| == |old(c.log).wire| + bytesWritten
        invariant Flushable(c.Queue()) <==> Flushable(old(c.Queue()))
        invariant Moved(old(c.socket).value.sends, c.socket.value.sends)
        decreases |c.socket.value.sends|, |Concat(c.Queue())|
      {
        if bytesWritten >= maxBatchSize {
          return Yield;
        }
        ghost var was, sends, queue := c.log.wire, c.socket.value.sends, c.Queue();
        var w := c.WriteFront();
        assert was <= c.log.wire;
        StillMoving(w, old(c.socket).value.sends, sends, c.socket.value.sends, Stuck(queue));
        match w {
          case Ok(n) =>
            if n == 0 {
              return Closed(false);
            }
            bytesWritten := bytesWritten + n;
          case Err(e) =>
            if e == WouldBlock {
              return Completed;
            }
            if e != Interrupted {
              return Closed(false);
            }
        }
      }
      EmptyIsFlushable();
      return Completed;
    }

    // ----- closing -----

    /**
     Takes a connection out, if there is one: flushes or drops its output, runs
     `on_close`, and, if the poller lets go of the socket, frees the slot and pools
     the object.
     */
    method CloseConnection(key: nat, graceful: bool) returns (r: Status)
      requires Structure() && Accounted()
      requires key in connections ==> connections[key].log.serial !in hist.closes
                                      && connections[key].log.Intact()
      modifies this`connections, this`pool, this`connCount, this`turns, this`osResults, this`hist
      modifies handle, Touched(key)
      ensures Structure() && Accounted() && handle.Grew()
      ensures key !in old(connections) ==> r == Go && unchanged(this) && unchanged(handle)
      ensures key in old(connections) ==> ClosedAs(old(connections[key]), graceful, r)
      ensures old(Matched()) && r.Go? ==> Matched()
      ensures old(Calm(key)) && r.Go? ==> Calm(-1)
      ensures r.Go? ==> connections == old(connections) - {key}
      ensures r.Stop? ==> connections == old(connections) && r.reason == OsError
      ensures Extends(roster, old(hist), roster, hist)
      ensures key in old(connections) ==>
                r.Go? == Allowed(old(osResults)) && osResults == Later(old(osResults))
      ensures AllOk(old(osResults)) ==> r.Go? && AllOk(osResults)
      ensures key in old(connections) ==>
                Live() == if r.Go? then old(Live()) - {key}
                          else old(Live())[key := PeerOf(old(connections[key]))]
    {
      hide Structure, Matched, Accounted, Calm, Extends, Longer, ClosedAs, AllOk, Live;
      ExtendsItself(roster, hist);
      NoLonger(handle.urgent, handle.common);
      if key !in connections {
        if Calm(key) {
          CalmEverywhere(key);
        }
        return Go;
      }
      TenantSound(key);
      r := CloseLive(key, graceful);
    }

    /** Nobody is exempt any more: the slot is empty, or its connection is calm again. */
    lemma CalmEverywhere(key: nat)
      requires Calm(key)
      requires key in connections ==> connections[key] in Repr && CalmConn(key, connections[key])
      ensures Calm(-1)
    {
      forall k | k in connections ensures connections[k] in Repr && CalmConn(k, connections[k]) {
        if k != key {
          assert CalmConn(k, connections[k]);
        }
      }
    }

    /** After an abrupt close, what `on_close` writes goes out behind what was on the wire before. */
    twostate predicate LateWrite(c: Connection)
      reads c`log
    {
      var calls := Calls(old(turns));
      |calls| == 1 && calls[0].PutBytes? && old(c.socket).Some? && old(c.socket).value.sends == [] ==>
        && c.log.OnWire() == old(c.log).wire + calls[0].buf
        && c.log.accepted == old(c.log).accepted + calls[0].buf
    }

    /** After a graceful close everything is out that had been accepted before, if the socket let it. */
    twostate predicate Flushed(c: Connection)
      reads c`log
    {
      old(c.socket).Some? && Drains(old(c.socket).value.sends, old(c.Queue())) ==>
        old(c.log).accepted <= c.log.OnWire()
    }

    /** What closing a live connection did: one `on_close`, and the end of its history on success. */
    twostate predicate ClosedAs(c: Connection, graceful: bool, r: Status)
      reads this`hist, this`pool, this`connCount, this`turns, c, handle
    {
      && Parts(old(PeerOf(c)), graceful, Calls(old(turns)), old(Waiting()), c.log, Waiting())
      && Grows(old(c.log), c.log) && c.log.serial == old(c.log).serial && c.log.received == old(c.log).received
      && turns == Rest(old(turns))
      && c.log.skipped == (if graceful then [] else Concat(old(c.Queue())))
      && (c.log.skipped == [] ==> c.log.OnWire() <= c.log.accepted)
      && (!graceful ==> LateWrite(c)) && (graceful ==> Flushed(c))
      && hist.closes == old(hist).closes + multiset{old(c.log).serial}
      && hist.deliveries == old(hist).deliveries
      && if r.Go?
         then && connCount == old(connCount) - 1 && pool == old(pool) + [c] && c.socket.None?
              && hist.finals == old(hist).finals[c.log.serial := c.log]
         else pool == old(pool) && connCount == old(connCount) && hist.finals == old(hist).finals
    }

    method CloseLive(key: nat, graceful: bool) returns (r: Status)
      requires Structure() && key in connections
      requires connections[key].log.serial !in hist.closes && connections[key].log.Intact()
      modifies this`connections, this`pool, this`connCount, this`turns, this`osResults, this`hist
      modifies handle, Touched(key)
      ensures Structure() && handle.Grew()
      ensures ClosedAs(old(connections[key]), graceful, r)
      ensures old(Accounted()) ==> Accounted()
      ensures old(Matched()) && r.Go? ==> Matched()
      ensures old(Calm(key)) && r.Go? ==> Calm(-1)
      ensures connections == if r.Go? then old(connections) - {key} else old(connections)
      ensures r == Go || r == Stop(OsError)
      ensures Extends(roster, old(hist), roster, hist)
      ensures r.Go? == Allowed(old(osResults)) && osResults == Later(old(osResults))
      ensures AllOk(old(osResults)) ==> r.Go? && AllOk(osResults)
      ensures Live() == if r.Go? then old(Live()) - {key} else old(Live())[key := PeerOf(old(connections[key]))]
    {
      hide SlotsOk, PoolOk, BufferOk, CountOk, HistoryOk, RosterOk, Calm, Matched, Accounted, Extends, Longer;
      hide Grows, LateWrite, Flushed, Rest, AllOk, Live, Allowed, Later, Parts, Calls;
      ExtendsItself(roster, hist);
      ghost var serial := connections[key].log.serial;
      SlotSound(key);
      var ok := BeginClose(key, graceful);
      if ok {
        FinishClose(key);
      } else {
        MarkClosed(serial);
      }
      r := if ok then Go else Stop(OsError);
    }

    /** Output, callback and deregistration; the connection is still in its slot. */
    method BeginClose(key: nat, graceful: bool) returns (ok: bool)
      requires SlotsOk() && PoolOk() && CountOk() && key in connections && connections[key].log.Intact()
      modifies this`turns, this`osResults, handle, Touched(key)
      ensures SlotsOk() && PoolOk() && CountOk() && handle.Grew()
      ensures turns == Rest(old(turns))
      ensures var c, was := connections[key], old(connections[key].log);
              && Grows(was, c.log) && c.log.serial == was.serial && c.log.received == was.received
              && (c.log.skipped == [] ==> c.log.OnWire() <= c.log.accepted)
              && (!graceful ==> LateWrite(c))
              && (graceful ==> Flushed(c))
              && c.log.skipped == (if graceful then [] else Concat(old(connections[key].Queue())))
              && Parts(old(PeerOf(connections[key])), graceful, Calls(old(turns)), old(Waiting()), c.log, Waiting())
      ensures (old(Matched()) ==> Matched()) && (old(Accounted()) ==> Accounted())
      ensures old(Calm(key)) ==> Calm(key)
      ensures key in old(Live()) && Live() == old(Live())[key := PeerOf(connections[key])]
      ensures ok == Allowed(old(osResults)) && osResults == Later(old(osResults))
      ensures AllOk(old(osResults)) ==> ok && AllOk(osResults)
    {
      hide Live;
      hide SlotsOk, PoolOk, CountOk, Calm, Matched, Accounted, LateWrite, Longer, Rest, AllOk, Concat, Connection.Valid;
      hide Flushed, Allowed, Later, Parts, Calls;
      var c := connections[key];
      SlotSound(key);
      ok := SayGoodbye(c, graceful);
      assert Slot(key, c, roster);
      TenantKeepsAll(key);
    }

    /** The `on_close` call goes on record; it is the first for this registration. */
    ghost method MarkClosed(serial: nat)
      requires HistoryOk(roster, hist) && serial in roster.homes && serial !in hist.closes
      modifies this`hist
      ensures HistoryOk(roster, hist) && Extends(roster, old(hist), roster, hist)
      ensures hist == old(hist).(closes := old(hist).closes + multiset{serial})
      ensures old(Accounted()) ==> Accounted()
    {
      ClosedOnce(roster, hist, serial, NewLog(serial));
      hist := hist.(closes := hist.closes + multiset{serial});
    }

    /** Its history is complete. */
    ghost method MarkFinished(log: Log)
      requires HistoryOk(roster, hist) && log.serial in roster.homes && log.serial !in hist.closes && EndsWell(log)
      modifies this`hist
      ensures HistoryOk(roster, hist) && Extends(roster, old(hist), roster, hist)
      ensures hist == old(hist).(closes := old(hist).closes + multiset{log.serial},
                                 finals := old(hist).finals[log.serial := log])
    {
      ClosedOnce(roster, hist, log.serial, log);
      hist := hist.(closes := hist.closes + multiset{log.serial}, finals := hist.finals[log.serial := log]);
    }

    /** Slot, counter and pool: the connection is gone from the slab. */
    method FinishClose(key: nat)
      requires Structure() && key in connections && connections[key].log.serial !in hist.closes
      modifies this`connections, this`pool, this`connCount, this`hist, Touched(key)
      ensures Structure()
      ensures connections == old(connections) - {key} && connCount == old(connCount) - 1
      ensures pool == old(pool) + [old(connections[key])] && old(connections[key]).socket.None?
      ensures var c, log := old(connections[key]), old(connections[key].log);
              && c.log == log
              && hist == old(hist).(closes := old(hist).closes + multiset{log.serial},
                                    finals := old(hist).finals[log.serial := log])
              && Extends(roster, old(hist), roster, hist)
      ensures (old(Matched()) ==> Matched()) && (old(Accounted()) ==> Accounted())
      ensures old(Calm(key)) ==> Calm(-1)
      ensures Live() == old(Live()) - {key}
    {
      hide SlotsOk, PoolOk, CountOk, Calm, LiveAt, HistoryOk, Extends, RosterOk, BufferOk, Live;
      var c := connections[key];
      RecordEnd(key);
      ForgetSlot(key);
      Retire(c);
    }

    ghost method RecordEnd(key: nat)
      requires Structure() && key in connections && connections[key].log.serial !in hist.closes
      modifies this`hist
      ensures Structure() && connections[key] in Repr && connections[key].socket.Some?
      ensures var log := connections[key].log;
              hist == old(hist).(closes := old(hist).closes + multiset{log.serial},
                                 finals := old(hist).finals[log.serial := log])
      ensures Extends(roster, old(hist), roster, hist)
    {
      var c := connections[key];
      assert Slot(key, c, roster);
      FinishedLog(c.log, c.Flat(), c.Queue());
      MarkFinished(c.log);
    }

    /** The connection's own part: its output, the `on_close` callback, and its socket's registration. */
    method SayGoodbye(c: Connection, graceful: bool) returns (ok: bool)
      requires c.Valid() && c.socket.Some? && c.log.Intact()
      modifies this`turns, this`osResults, handle, c
      ensures c.Valid() && c.socket.Some? && c.socket.value.fd == old(c.socket).value.fd && handle.Grew()
      ensures c.gfd == old(c.gfd) && turns == Rest(old(turns))
      ensures Grows(old(c.log), c.log) && c.log.received == old(c.log).received
      ensures c.log.skipped == if graceful then [] else Concat(old(c.Queue()))
      ensures c.log.skipped == [] ==> c.log.OnWire() <= c.log.accepted
      ensures !graceful ==> LateWrite(c)
      ensures ok == Allowed(old(osResults)) && osResults == Later(old(osResults))
      ensures AllOk(old(osResults)) ==> ok && AllOk(osResults)
      ensures graceful ==> Flushed(c)
      ensures Parts(old(PeerOf(c)), graceful, Calls(old(turns)), old(Waiting()), c.log, Waiting())
    {
      if graceful {
        GoodbyeInPeace(c);
      } else {
        GoodbyeAbruptly(c);
      }
      ok := true;
      if c.socket.Some? {
        ok := NextOs();
      }
    }

    method GoodbyeInPeace(c: Connection)
      requires c.Valid() && c.socket.Some? && c.log.Intact()
      modifies this`turns, handle, c
      ensures c.Valid() && c.socket.Some? && c.socket.value.fd == old(c.socket).value.fd && handle.Grew()
      ensures c.gfd == old(c.gfd) && turns == Rest(old(turns))
      ensures Grows(old(c.log), c.log) && c.log.received == old(c.log).received
      ensures c.log.skipped == [] && c.log.OnWire() <= c.log.accepted
      ensures Flushed(c)
      ensures Parts(old(PeerOf(c)), true, Calls(old(turns)), old(Waiting()), c.log, Waiting())
    {
      hide Flushable, Moved, MovedUntil, Did, Flushes;
      var r := c.Flush();
      FlushesAs(old(PeerOf(c)), PeerOf(c), r);
      ghost var flushed, s := c.log, DeskOf(handle, c);
      if Drains(old(c.socket).value.sends, old(c.Queue())) {
        MovingSocketFlushes(r, old(c.socket).value.sends, c.socket.value.sends, true, Stuck(c.Queue()));
        AllIsOut(flushed, c.Queue());
      }
      var action := Callback(c);
      PartsAs(old(PeerOf(c)), true, Calls(old(turns)), s, DeskOf(handle, c));
      GrowsOn(old(c.log), flushed, c.log);
      NoHoleNoGap(c.log, c.Queue());
    }

    method GoodbyeAbruptly(c: Connection)
      requires c.Valid() && c.socket.Some? && c.log.Intact()
      modifies this`turns, handle, c
      ensures c.Valid() && c.socket.Some? && c.socket.value.fd == old(c.socket).value.fd && handle.Grew()
      ensures c.gfd == old(c.gfd) && turns == Rest(old(turns))
      ensures Grows(old(c.log), c.log) && c.log.received == old(c.log).received
      ensures c.log.skipped == Concat(old(c.Queue())) && (c.log.skipped == [] ==> c.log.OnWire() <= c.log.accepted)
      ensures LateWrite(c)
      ensures Parts(old(PeerOf(c)), false, Calls(old(turns)), old(Waiting()), c.log, Waiting())
    {
      hide Grows, Concat, Handled, Did;
      c.DropOutput();
      ghost var dropped, s := c.log, DeskOf(handle, c);
      DroppedGrows(old(c.log), dropped);
      var late := Calls(turns);
      LastWords(c);
      PartsAs(old(PeerOf(c)), false, Calls(old(turns)), s, DeskOf(handle, c));
      if |late| == 1 && late[0].PutBytes? {
        LateBytes(old(c.log).wire, late[0].buf);
      }
      GrowsOn(old(c.log), dropped, c.log);
      if c.log.skipped == [] {
        NoHoleNoGap(c.log, c.Queue());
      }
    }

    /** The `on_close` callback once the queue is gone. */
    method LastWords(c: Connection)
      requires c.Valid() && c.socket.Some? && c.Queue() == []
      modifies this`turns, handle, c
      ensures c.Valid() && c.OnlySends() && c.gfd == old(c.gfd) && handle.Grew() && turns == Rest(old(turns))
      ensures Grows(old(c.log), c.log) && c.log.received == old(c.log).received
      ensures c.log.aired == old(c.log).aired && c.log.skipped == old(c.log).skipped
      ensures var calls := Calls(old(turns));
              |calls| == 1 && calls[0].PutBytes? && old(c.socket).value.sends == [] ==>
                c.log == old(c.log).(accepted := old(c.log).accepted + calls[0].buf,
                                     wire := old(c.log).wire + calls[0].buf)
      ensures Did(Calls(old(turns)), old(DeskOf(handle, c)), DeskOf(handle, c))
    {
      hide Did;
      ghost var late, s := Calls(turns), DeskOf(handle, c);
      var action := Callback(c);
      if |late| == 1 && late[0].PutBytes? {
        assert late == [late[0]];
        DidOne(late[0], s, DeskOf(handle, c));
        SingleChunk(late[0].buf);
      }
    }

    method DropSlot(key: nat)
      requires SlotsOk() && CountOk() && key in connections
      modifies this`connections, this`connCount
      ensures CountOk() && connections == old(connections) - {key} && connCount == old(connCount) - 1
      ensures Live() == old(Live()) - {key}
    {
      hide SlotsOk, Live;
      CountRemove(connections, key);
      connections := connections - {key};
      connCount := connCount - 1;
      PeersApart(key);
    }

    method ForgetSlot(key: nat)
      requires SlotsOk() && CountOk() && key in connections
      modifies this`connections, this`connCount
      ensures SlotsOk() && CountOk()
      ensures connections == old(connections) - {key} && connCount == old(connCount) - 1
      ensures forall k :: k in connections ==> connections[k] != old(connections[key])
      ensures forall s {:trigger LiveAt(s)} :: s in roster.homes ==>
                (LiveAt(s) <==> old(LiveAt(s)) && s != old(connections[key].log.serial))
      ensures old(Calm(key)) ==> Calm(-1)
      ensures Live() == old(Live()) - {key}
    {
      hide Live, CountOk;
      assert Slot(key, connections[key], roster);
      DropSlot(key);
      forall k | k in connections
        ensures connections[k] in Repr && Slot(k, connections[k], roster)
        ensures connections[k] != old(connections[key])
        ensures old(Calm(key)) ==> CalmConn(k, connections[k])
      {
        assert old(Slot(k, connections[k], roster));
        assert old(Calm(key)) ==> old(CalmConn(k, connections[k]));
      }
    }

    /** A connection outside the slab drops its socket and joins the pool. */
    method Retire(c: Connection)
      requires SlotsOk() && PoolOk() && c in Repr && c.socket.Some?
      requires forall k :: k in connections ==> connections[k] != c
      modifies c`socket, this`pool
      ensures SlotsOk() && PoolOk() && c.socket.None? && pool == old(pool) + [c]
      ensures forall s {:trigger LiveAt(s)} :: s in roster.homes ==> (LiveAt(s) <==> old(LiveAt(s)))
      ensures old(Calm(-1)) ==> Calm(-1)
      ensures Live() == old(Live())
    {
      hide Live;
      c.socket := None;
      pool := pool + [c];
      SlabShows();
      forall k | k in connections
        ensures connections[k] in Repr && Slot(k, connections[k], roster)
        ensures old(Calm(-1)) ==> CalmConn(k, connections[k])
      {
        assert old(Slot(k, connections[k], roster));
        assert old(Calm(-1)) ==> old(CalmConn(k, connections[k]));
      }
    }

    // ----- shutdown -----

    /** The connections in `keys` have yet to be closed; all others still in the slab have been. */
    ghost predicate Settling(keys: set<nat>)
      reads this`connections, this`roster, this`hist, this`Repr, Repr
    {
      && keys <= connections.Keys
      && (forall k {:trigger Slot(k, connections[k], roster)} :: k in connections ==>
            && connections[k] in Repr
            && if k in keys then connections[k].log.serial !in hist.closes && connections[k].log.Intact()
               else connections[k].log.serial in hist.closes)
    }

    /** One turn of the shutdown loop; a failed deregistration is ignored. */
    method CloseOneOf(keys: set<nat>, key: nat) returns (ghost r: Status)
      requires Structure() && Accounted() && Settling(keys) && key in keys
      modifies this`connections, this`pool, this`connCount, this`turns, this`osResults, this`hist, handle, Repr
      ensures Structure() && Accounted() && Settling(keys - {key}) && handle.Grew()
      ensures Extends(roster, old(hist), roster, hist) && hist.deliveries == old(hist).deliveries
      ensures connections.Keys <= old(connections).Keys
      ensures AllOk(old(osResults)) ==> AllOk(osResults) && connections.Keys == old(connections).Keys - {key}
      ensures CloseAs(key, true, old(View()), View(), r)
    {
      hide Accounted, Extends, Longer, HistoryOk, RosterOk, PoolOk, BufferOk, CountOk, LateWrite, Flushed, CloseAs;
      hide View;
      TenantSound(key);
      ghost var closing := connections[key];
      r := CloseInSight(key, true);
      forall k | k in connections
        ensures connections[k] in Repr
        ensures if k in keys - {key} then connections[k].log.serial !in hist.closes && connections[k].log.Intact()
                else connections[k].log.serial in hist.closes
      {
        assert old(Slot(k, connections[k], roster));
        if k == key {
          assert connections[k] == closing;
        } else {
          assert connections[k] != closing;
        }
      }
    }

    /**
     Stops listening and closes everything, once each. Afterwards every connection
     that was ever let in has had its `on_close`, and unless the poller refused to
     let a socket go, the slab is empty and the counter is zero.
     */
    method Shutdown()
      requires Structure() && Accounted() && Settling(connections.Keys)
      modifies this`listeners
      modifies this`connections, this`pool, this`connCount, this`turns, this`osResults, this`hist, handle, Repr
      ensures AllClosed() && handle.Grew() && listeners == None
      ensures Extends(roster, old(hist), roster, hist) && hist.deliveries == old(hist).deliveries
      ensures connections.Keys <= old(connections).Keys
      ensures AllOk(old(osResults)) ==> connections == map[] && connCount == 0
      ensures ShutBut({}, old(View()), View())
    {
      hide Structure, Accounted, Settling, AllClosed, Extends, Longer, ShutBut, View;
      listeners := None;
      CloseAll();
      AllSettled();
      if connections.Keys == {} {
        NobodyLeft();
      }
    }

    /** The loop over the keys of the slab. */
    method CloseAll()
      requires Structure() && Accounted() && Settling(connections.Keys)
      modifies this`connections, this`pool, this`connCount, this`turns, this`osResults, this`hist, handle, Repr
      ensures Structure() && Accounted() && Settling({}) && handle.Grew()
      ensures Extends(roster, old(hist), roster, hist) && hist.deliveries == old(hist).deliveries
      ensures connections.Keys <= old(connections).Keys
      ensures AllOk(old(osResults)) ==> connections.Keys == {}
      ensures ShutBut({}, old(View()), View())
    {
      hide Structure, Accounted, Settling, Extends, Longer, ShutBut, View, CloseAs, AllOk;
      ExtendsItself(roster, hist);
      NoLonger(handle.urgent, handle.common);
      ghost var b := View();
      NumbersDiffer();
      ShutNone(b);
      var keys := connections.Keys;
      while keys != {}
        invariant Structure() && Accounted() && Settling(keys) && handle.Grew()
        invariant Extends(roster, old(hist), roster, hist) && hist.deliveries == old(hist).deliveries
        invariant connections.Keys <= old(connections).Keys
        invariant AllOk(old(osResults)) ==> AllOk(osResults) && connections.Keys == keys
        invariant ShutBut(keys, b, View()) && keys <= b.live.Keys
      {
        var key :| key in keys;
        ghost var h0, u0, c0, m := hist, handle.urgent, handle.common, View();
        ghost var r := CloseOneOf(keys, key);
        ExtendsSteps(roster, old(hist), roster, h0, roster, hist);
        LongerStill(old(handle.urgent), old(handle.common), u0, c0, handle.urgent, handle.common);
        ShutOneMore(keys, b, m, key, View(), r);
        keys := keys - {key};
      }
    }

    /** The connections of the loop have different numbers. */
    lemma NumbersDiffer()
      requires Structure()
      ensures Distinct(View().live) && View().live.Keys == connections.Keys
    {
      EveryoneShows();
      forall j, k | j in connections && k in connections && j != k
        ensures View().live[j].log.serial != View().live[k].log.serial
      {
        assert Slot(j, connections[j], roster) && Slot(k, connections[k], roster);
      }
    }

    lemma AllSettled()
      requires Structure() && Accounted() && Settling({})
      ensures AllClosed()
    {
      forall s | s in roster.homes && LiveAt(s) ensures s in hist.closes {
        var k := roster.homes[s];
        assert Slot(k, connections[k], roster);
      }
      assert forall s {:trigger LiveAt(s)} :: s in roster.homes && LiveAt(s) ==> s in hist.closes;
      forall s | s in roster.homes ensures s in hist.closes {
        assert LiveAt(s) || !LiveAt(s);
      }
    }

    lemma NobodyLeft()
      requires Structure() && connections.Keys == {}
      ensures connections == map[] && connCount == 0
    {
    }

    /** While the loop runs, all its connections are still to be closed. */
    lemma RunningSettles(key: int)
      requires Structure() && Matched() && Calm(key)
      requires key in connections ==> connections[key] in Repr && connections[key].log.Intact()
      ensures Accounted() && Settling(connections.Keys)
    {
      forall k | k in connections
        ensures connections[k] in Repr
        ensures connections[k].log.serial !in hist.closes && connections[k].log.Intact()
      {
        assert Slot(k, connections[k], roster);
        assert LiveAt(connections[k].log.serial);
        if k != key {
          assert CalmConn(k, connections[k]);
        }
      }
    }

    // ----- registration -----

    /** The pooled connection that would be reused next. */
    function Spare(): set<Connection>
      reads this`pool
    {
      if pool == [] then {} else {pool[|pool| - 1]}
    }

    lemma SpareInside()
      requires Structure()
      ensures Spare() <= Repr
    {
    }

    predicate Outside(c: Connection)
      reads this`connections, this`pool
    {
      c !in pool && forall k {:trigger connections[k]} :: k in connections ==> connections[k] != c
    }

    /** A connection outside the slab may change freely. */
    twostate lemma OutsiderKeepsSlots(c: Connection)
      requires old(SlotsOk()) && old(PoolOk()) && Outside(c)
      requires connections == old(connections) && roster == old(roster) && Repr == old(Repr) && pool == old(pool)
      requires forall o :: o in old(Repr) && o != c ==> unchanged(o)
      ensures SlotsOk() && PoolOk()
      ensures hist == old(hist) && old(Matched()) ==> Matched()
    {
      forall k | k in connections ensures connections[k] in Repr && Slot(k, connections[k], roster) {
        assert old(Slot(k, connections[k], roster));
      }
      if hist == old(hist) && old(Matched()) {
        forall s | s in roster.homes ensures LiveAt(s) <==> s !in hist.closes {
          assert old(LiveAt(s)) <==> s !in hist.closes;
        }
      }
    }

    twostate lemma OutsiderKeepsCalm(c: Connection)
      requires old(SlotsOk()) && old(Calm(-1)) && Outside(c)
      requires connections == old(connections) && Repr == old(Repr) && events == old(events) && handle.Grew()
      requires forall o :: o in old(Repr) && o != c ==> unchanged(o)
      ensures Calm(-1)
    {
      forall k | k in connections ensures connections[k] in Repr && CalmConn(k, connections[k]) {
        assert old(CalmConn(k, connections[k]));
      }
    }

    /** The pool gives up its last connection. */
    method Unpool() returns (c: Connection)
      requires Valid() && pool != []
      modifies this`pool
      ensures Valid() && Outside(c) && c in Repr && {c} == old(Spare())
    {
      c := pool[|pool| - 1];
      pool := pool[..|pool| - 1];
      forall k | k in connections ensures connections[k] != c {
        assert Slot(k, connections[k], roster);
      }
    }

    method Recycle(c: Connection, gfd: Gfd, socket: Socket, ghost serial: nat)
      requires Valid() && Outside(c) && c in Repr
      modifies c
      ensures Valid() && Outside(c) && c.Fresh(serial) && c.gfd == gfd && c.socket == Some(socket) && c.codec == None
    {
      c.Reset(gfd, socket, serial);
      OutsiderKeepsSlots(c);
      OutsiderKeepsCalm(c);
    }

    /** A new object joins the loop's own, still outside the slab. */
    method Adopt(c: Connection)
      requires Valid() && c !in Repr
      modifies this`Repr
      ensures Valid() && Outside(c) && Repr == old(Repr) + {c}
    {
      hide HistoryOk, RosterOk, CountOk, BufferOk, CalmConn;
      Repr := Repr + {c};
      forall k | k in connections
        ensures connections[k] in Repr && Slot(k, connections[k], roster) && connections[k] != c
        ensures CalmConn(k, connections[k])
      {
        assert old(Slot(k, connections[k], roster)) && old(CalmConn(k, connections[k]));
      }
      forall s | s in roster.homes ensures LiveAt(s) <==> s !in hist.closes {
        assert old(LiveAt(s)) <==> s !in hist.closes;
      }
    }

    method Allocate(gfd: Gfd, socket: Socket, ghost serial: nat) returns (c: Connection)
      requires Valid()
      modifies this`Repr
      ensures Valid() && Outside(c) && c.Fresh(serial) && c.gfd == gfd && c.socket == Some(socket) && c.codec == None
      ensures fresh(c) && Repr == old(Repr) + {c}
    {
      hide Valid;
      c := new Connection(gfd, socket, serial);
      Adopt(c);
    }

    /** A connection for a new socket, from the pool if it has one. */
    method TakeConnection(gfd: Gfd, socket: Socket, ghost serial: nat) returns (c: Connection)
      requires Valid()
      modifies this`pool, this`Repr, Spare()
      ensures Valid() && Outside(c) && (c in old(Spare()) || fresh(c))
      ensures c.Fresh(serial) && c.gfd == gfd && c.socket == Some(socket) && c.codec == None
      ensures c in Repr && old(Repr) <= Repr && fresh(Repr - old(Repr))
    {
      hide Valid;
      if pool != [] {
        c := Unpool();
        Recycle(c, gfd, socket, serial);
      } else {
        c := Allocate(gfd, socket, serial);
      }
    }

    /** A callback on a connection outside the slab leaves those inside alone. */
    method CallOutsider(c: Connection) returns (action: Action)
      requires Valid() && Outside(c) && c in Repr && c.Valid() && c.socket.Some?
      modifies this`turns, handle, c
      ensures Valid() && Outside(c)
      ensures Handled(c) && handle.Grew() && action == old(NextAction()) && turns == Rest(old(turns))
      ensures Did(Calls(old(turns)), old(DeskOf(handle, c)), DeskOf(handle, c))
    {
      hide Did;
      action := Callback(c);
      OutsiderKeepsSlots(c);
      OutsiderKeepsCalm(c);
    }

    /** A new connection and its `on_open` callback; it is not in the slab yet. */
    method Open(gfd: Gfd, socket: Socket, ghost serial: nat) returns (c: Connection, action: Action)
      requires Valid()
      modifies this`pool, this`Repr, this`turns, handle, Spare()
      ensures Valid() && Outside(c) && handle.Grew() && action == old(NextAction())
      ensures c.Valid() && c.log.Intact() && c.IoBytes() == [] && c.gfd == gfd && c.log.serial == serial
      ensures c.socket.Some? && c.socket.value == socket.(sends := c.socket.value.sends)
      ensures c in Repr && old(Repr) <= Repr && fresh(Repr - old(Repr))
      ensures c.log.received == [] && turns == Rest(old(turns)) && Live() == old(Live())
      ensures GrownUp(Peer(gfd, Some(socket), [], NewLog(serial)), Calls(old(turns)), old(Waiting()),
                      PeerOf(c), Waiting())
    {
      hide Valid, Longer, Outside, Spare, Live, Rest, Calls, GrownUp, SlotsOk;
      SpareOutside();
      c := TakeConnection(gfd, socket, serial);
      assert turns == old(turns) && handle.urgent == old(handle.urgent) && handle.common == old(handle.common);
      action := Welcome(c);
      SlabShows();
    }

    /** `on_open` for a fresh connection. */
    method Welcome(c: Connection) returns (action: Action)
      requires Valid() && Outside(c) && c in Repr && c.Fresh(c.log.serial) && c.socket.Some? && c.codec.None?
      modifies this`turns, handle, c
      ensures Valid() && Outside(c)
      ensures Handled(c) && handle.Grew() && action == old(NextAction()) && turns == Rest(old(turns))
      ensures GrownUp(old(PeerOf(c)), Calls(old(turns)), old(Waiting()), PeerOf(c), Waiting())
    {
      hide Valid, Outside, Longer, Calls, Rest, Did;
      action := CallOutsider(c);
    }

    /** With no change to the slab or to who is in it, it looks the same. */
    twostate lemma SlabShows()
      requires old(SlotsOk()) && old(Repr) <= Repr && connections == old(connections)
      requires forall k {:trigger old(connections[k])} :: k in old(connections) ==> unchanged(old(connections[k]))
      ensures Live() == old(Live())
    {
      assert 0 in connections ==> old(Slot(0, connections[0], roster));
      PeersApart(0);
    }

    /** What may be reused is not in use. */
    lemma SpareOutside()
      requires Valid()
      ensures SlotsOk() && forall k {:trigger connections[k]} :: k in connections ==> connections[k] !in Spare()
    {
      forall k | k in connections ensures connections[k] !in Spare() {
        assert Slot(k, connections[k], roster);
      }
    }

    /** The handle goes on record though the connection was not let in. */
    ghost method Issue(serial: nat, gfd: Gfd)
      requires Valid() && RosterOk(roster, serial) && created == serial + 1 && gfd.sequence == serial % U32
      modifies this`roster
      ensures Valid() && Extends(old(roster), hist, roster, hist)
      ensures roster == old(roster).(issued := old(roster).issued[serial := gfd])
    {
      hide Calm, PoolOk, BufferOk, CountOk, HistoryOk, RosterOk, Extends;
      IssuedKeepsRecords(roster, hist, serial, gfd, serial);
      roster := roster.(issued := roster.issued[serial := gfd]);
      forall k | k in connections ensures connections[k] in Repr && Slot(k, connections[k], roster) {
        assert old(Slot(k, connections[k], roster));
      }
      assert forall s {:trigger LiveAt(s)} :: s in roster.homes ==> (LiveAt(s) <==> old(LiveAt(s)));
    }

    /** A connection fit for a slot: its handle says which, and its number is new. */
    ghost predicate Admissible(key: nat, c: Connection)
      reads this`connections, this`roster, this`Repr, c
    {
      && key !in connections && key < SLOT_LIMIT
      && c in Repr && c.Valid() && c.socket.Some?
      && c.gfd == Make(c.socket.value.fd, loopId, key, c.log.serial)
      && c.log.serial !in roster.issued && c.log.serial !in roster.homes
    }

    /** The connection goes on record; it is not live yet. */
    ghost method Enroll(key: nat, c: Connection)
      requires SlotsOk() && Matched() && Admissible(key, c)
      modifies this`roster
      ensures SlotsOk()
      ensures roster == Roster(old(roster).homes[c.log.serial := key], old(roster).issued[c.log.serial := c.gfd])
      ensures forall s {:trigger LiveAt(s)} ::
                s in roster.homes && s != c.log.serial ==> (LiveAt(s) <==> s !in hist.closes)
    {
      roster := Roster(roster.homes[c.log.serial := key], roster.issued[c.log.serial := c.gfd]);
      forall k | k in connections ensures connections[k] in Repr && Slot(k, connections[k], roster) {
        assert old(Slot(k, connections[k], roster));
      }
      forall s | s in roster.homes && s != c.log.serial ensures LiveAt(s) <==> s !in hist.closes {
        assert old(LiveAt(s)) <==> s !in hist.closes;
      }
    }

    /** The connection takes the slot that is on record for it. */
    method Seat(key: nat, c: Connection)
      requires SlotsOk() && CountOk() && key !in connections && c in Repr && Slot(key, c, roster)
      requires c.log.serial !in hist.closes && c.log.serial in roster.homes && roster.homes[c.log.serial] == key
      requires forall s {:trigger LiveAt(s)} ::
                s in roster.homes && s != c.log.serial ==> (LiveAt(s) <==> s !in hist.closes)
      modifies this`connections, this`connCount
      ensures SlotsOk() && CountOk() && Matched()
      ensures connections == old(connections)[key := c] && connCount == old(connCount) + 1
    {
      hide Slot;
      CountInsert(connections, key, c);
      connections := connections[key := c];
      connCount := connCount + 1;
      forall k | k in connections ensures connections[k] in Repr && Slot(k, connections[k], roster) {
        if k != key {
          assert old(Slot(k, connections[k], roster));
        }
      }
      forall s | s in roster.homes ensures LiveAt(s) <==> s !in hist.closes {
        if s != c.log.serial {
          assert old(LiveAt(s)) <==> s !in hist.closes;
        }
      }
    }

    /** The connection is let into its slot: it is live, and still to be closed. */
    method Admit(key: nat, c: Connection)
      requires SlotsOk() && CountOk() && Matched() && Admissible(key, c) && c.log.serial !in hist.closes
      modifies this`connections, this`connCount, this`roster
      ensures SlotsOk() && CountOk() && Matched()
      ensures connections == old(connections)[key := c] && connCount == old(connCount) + 1
      ensures roster == Roster(old(roster).homes[c.log.serial := key], old(roster).issued[c.log.serial := c.gfd])
    {
      hide SlotsOk, CountOk, Matched, LiveAt;
      Enroll(key, c);
      Seat(key, c);
    }

    /** The connection takes its slot: it is live, calm, and still to be closed. */
    method Enter(key: nat, c: Connection)
      requires Valid() && Admissible(key, c) && CalmConn(key, c)
      requires created == c.log.serial + 1 && RosterOk(roster, c.log.serial)
      modifies this`connections, this`connCount, this`roster
      ensures Valid() && Extends(old(roster), hist, roster, hist)
      ensures connections == old(connections)[key := c]
      ensures roster == Roster(old(roster).homes[c.log.serial := key], old(roster).issued[c.log.serial := c.gfd])
      ensures Live() == old(Live())[key := PeerOf(c)]
    {
      hide PoolOk, BufferOk, CountOk, HistoryOk, RosterOk, Extends, Matched, Live;
      AdmittedKeepsRecords(roster, hist, c.log.serial, c.gfd, key, c.log.serial);
      Admit(key, c);
      forall k | k in connections ensures connections[k] in Repr && CalmConn(k, connections[k]) {
        if k != key {
          assert old(CalmConn(k, connections[k]));
        }
      }
      PeersApart(key);
    }

    // ----- outcomes -----

    predicate Healthy(r: Status)
      reads this`connections, this`connCount, this`osResults
    {
      && r != Stop(OsError)
      && (r.Go? ==> AllOk(osResults))
      && (r == Stop(ShutDown) ==> connections == map[] && connCount == 0)
    }

    /** What was recorded stays, and if the loop stops, it leaves the connections as it should. */
    twostate predicate Recorded(r: Status)
      reads this`connections, this`roster, this`Repr, Repr, this`pool, this`connCount, this`ioLen, this`ioCap,
            this`created, this`hist, this`osResults
    {
      && (r.Stop? ==> Ended())
      && (r == Stop(ShutDown) ==> AllClosed())
      && Extends(old(roster), old(hist), roster, hist)
      && old(Repr) <= Repr && fresh(Repr - old(Repr))
      && (AllOk(old(osResults)) && r != Stop(SlotOverflow) ==> Healthy(r))
    }

    /**
     How a stretch of the loop may end. While it goes on everything is in order;
     once asked to shut down, everyone has had their `on_close`. As long as the
     poller never fails, that is the only way out and it leaves nothing behind.
     */
    twostate predicate Ran(r: Status)
      reads this`connections, this`roster, this`Repr, Repr, this`pool, this`connCount, this`ioLen, this`ioCap,
            this`created, this`hist, this`osResults, this`events, handle
    {
      (r.Go? ==> Valid()) && Recorded(r)
    }

    /** The loop stops listening exactly when it is shut down. */
    twostate predicate ListenersKept(r: Status)
      reads this`listeners
    {
      listeners == if r == Stop(ShutDown) then None else old(listeners)
    }

    lemma RunningEnds()
      requires Structure() && Matched()
      ensures Ended()
    {
    }

    /** The end of a stretch in which the handler asked the loop to shut down. */
    method ShutDownNow(key: int) returns (r: Status)
      requires Structure() && Matched() && Calm(key)
      requires key in connections ==> connections[key] in Repr && connections[key].log.Intact()
      modifies this`listeners
      modifies this`connections, this`pool, this`connCount, this`turns, this`osResults, this`hist, handle, Repr
      ensures r == Stop(ShutDown) && Ran(r) && ShutAs(old(View()), View(), r) && listeners == None
      ensures handle.Grew()
    {
      hide Structure, Matched, Calm, Accounted, AllClosed, Extends, Longer, Settling, Live;
      hide ShutBut;
      RunningSettles(key);
      Shutdown();
      ClosedForGood();
      r := Stop(ShutDown);
    }

    lemma EveryoneShows()
      requires Structure() || Ended()
      ensures Live().Keys == connections.Keys
    {
      PeerAt(0);
    }

    lemma ClosedForGood()
      requires AllClosed()
      ensures Ended()
      ensures forall s :: s in roster.homes ==> hist.closes[s] == 1
    {
      forall s | s in roster.homes ensures hist.closes[s] == 1 {
        EveryoneSaidGoodbye(s);
      }
    }

    /** A call to the poller whose failure ends the loop. */
    method CallPoller() returns (r: Status)
      requires Valid()
      modifies this`osResults
      ensures Ran(r) && PolledAs(old(View()), View(), r)
      ensures View() == old(View()).(os := Later(old(osResults)))
      ensures r == if Allowed(old(osResults)) then Go else Stop(OsError)
    {
      hide Structure, Matched, Calm, Accounted, AllClosed, Extends, Longer, Live;
      ExtendsItself(roster, hist);
      NoLonger(handle.urgent, handle.common);
      var ok := NextOs();
      RunningEnds();
      r := if ok then Go else Stop(OsError);
    }

    /** A key the slab may hand out: any that is not in use, as long as there is one below 2^24. */
    method Vacancy() returns (key: Option<nat>)
      ensures key.Some? ==> key.value < SLOT_LIMIT && key.value !in connections
      ensures key.None? ==> |connections.Keys| >= SLOT_LIMIT
    {
      if |connections.Keys| >= SLOT_LIMIT {
        return None;
      }
      SomeKeyIsVacant(connections.Keys);
      var vacant: nat :| vacant < SLOT_LIMIT && vacant !in connections.Keys;
      return Some(vacant);
    }

    /**
     A new socket becomes a connection in a vacant slot, under a handle that no
     connection had before. If `on_open` refuses it, it is dropped and has no
     `on_close`. `others` handles were made by other loops in the meantime.
     */
    method Register(socket: Socket, others: nat) returns (r: Status, ghost key: nat)
      requires Valid()
      modifies this`connections, this`pool, this`connCount, this`turns, this`osResults, this`hist, this`roster
      modifies this`created, this`listeners, this`Repr, handle, Repr
      ensures Ran(r)
      ensures r == Stop(OsError) || (r == Stop(SlotOverflow) && old(|connections.Keys|) >= SLOT_LIMIT)
              || var serial := old(created) + others;
                 && key < SLOT_LIMIT
                 && Answered(old(NextAction()), r, key, Make(socket.fd, loopId, key, serial), serial,
                             old(connections).Keys, old(roster), connections.Keys, roster)
      ensures handle.Grew() && ListenersKept(r)
      ensures r.Go? ==> created == old(created) + others + 1
      ensures r.Go? && old(NextAction()) == Continue ==>
                key !in old(connections) && connections.Keys == old(connections).Keys + {key}
      ensures r.Go? && old(NextAction()).CloseConnection? ==> connections.Keys == old(connections).Keys
      ensures r.Go? ==> old(NextAction()) != ShutdownLoop
      ensures r == Stop(ShutDown) ==> old(NextAction()) == ShutdownLoop
      ensures r.Go? ==> var serial := old(created) + others;
                        && serial in roster.issued && roster.issued[serial].fd == socket.fd
                        && roster.issued[serial] == Make(socket.fd, loopId, key, serial)
      ensures RegisterAs(Fixed(), socket, old(View()), View(), r)
    {
      hide Structure, Matched, Calm, Accounted, AllClosed, Extends, Joined, Answered, Live, PlacedAs, Longer;
      hide Make, PolledAs, RegisterAs;
      key := 0;
      ghost var b := View();
      NoLonger(handle.urgent, handle.common);
      r := CallPoller();
      if r.Stop? {
        RegisterRefused(Fixed(), socket, b);
        return;
      }
      assert connections == old(connections) && roster == old(roster) && hist == old(hist) && Repr == old(Repr);
      assert created == old(created) && NextAction() == old(NextAction());
      r, key := Place(socket, others);
      RegisterPlaced(Fixed(), socket, b, View(), r);
      AnswersMean(old(NextAction()), r, key, Make(socket.fd, loopId, key, old(created) + others), old(created) + others,
                  old(connections).Keys, old(roster), connections.Keys, roster);
    }

    /** Registration once the poller has the socket. */
    method Place(socket: Socket, others: nat) returns (r: Status, ghost key: nat)
      requires Valid()
      modifies this`connections, this`pool, this`connCount, this`turns, this`osResults, this`hist, this`roster
      modifies this`created, this`listeners, this`Repr, handle, Repr
      ensures Ran(r)
      ensures (r == Stop(SlotOverflow) && old(|connections.Keys|) >= SLOT_LIMIT)
              || var serial := old(created) + others;
                 && key < SLOT_LIMIT
                 && Answered(old(NextAction()), r, key, Make(socket.fd, loopId, key, serial), serial,
                             old(connections).Keys, old(roster), connections.Keys, roster)
      ensures handle.Grew() && ListenersKept(r)
      ensures r.Go? ==> created == old(created) + others + 1
      ensures PlacedAs(Fixed(), socket, old(View()), View(), r)
    {
      hide Structure, Matched, Calm, Accounted, AllClosed, Extends, Joined, Answered, View, Opened, PlacedAs, Longer;
      ghost var b := View();
      NoLonger(handle.urgent, handle.common);
      var vacant := Vacancy();
      if vacant.None? {
        ExtendsItself(roster, hist);
        RunningEnds();
        SlabIsFull(b);
        SlabWasFull(Fixed(), socket, b);
        return Stop(SlotOverflow), 0;
      }
      key := vacant.value;
      r := RegisterAt(vacant.value, socket, created + others);
      NowPlaced(Fixed(), socket, key, old(created) + others, b, View(), r);
    }

    lemma SlabIsFull(s: Snap)
      requires s == View() && Structure() && |connections.Keys| >= SLOT_LIMIT
      ensures |s.live.Keys| >= SLOT_LIMIT
    {
      EveryoneShows();
    }

    /** Creation numbers up to `serial` are spent. */
    method Advance(serial: nat)
      requires Valid() && created <= serial
      modifies this`created
      ensures Valid() && created == serial + 1 && RosterOk(roster, serial)
    {
      created := serial + 1;
    }

    /** A connection that has just been opened fits its slot. */
    lemma NewcomerFits(key: nat, c: Connection, serial: nat)
      requires RosterOk(roster, serial) && key !in connections && key < SLOT_LIMIT && c in Repr
      requires c.Valid() && c.log.Intact() && c.IoBytes() == [] && c.log.serial == serial && c.socket.Some?
      requires c.gfd == Make(c.socket.value.fd, loopId, key, serial)
      requires c.socket.value.inbound.Readable() ==> c.socket.value.inbound.edge
      requires Structure()
      ensures Admissible(key, c) && CalmConn(key, c)
    {
      assert serial !in roster.issued;
    }

    /** A vacant slot, a new handle, a connection for it, and `on_open`. */
    method OpenAt(key: nat, socket: Socket, serial: nat) returns (c: Connection, action: Action)
      requires Valid() && key < SLOT_LIMIT && key !in connections && created <= serial
      modifies this`pool, this`turns, this`created, this`Repr, handle, Spare()
      ensures Valid() && created == serial + 1 && RosterOk(roster, serial)
      ensures c.log.serial == serial && Admissible(key, c) && CalmConn(key, c)
      ensures c.gfd == Make(socket.fd, loopId, key, serial) && action == old(NextAction())
      ensures old(Repr) <= Repr && fresh(Repr - old(Repr))
      ensures handle.Grew() && c.log.received == []
      ensures turns == Rest(old(turns)) && Live() == old(Live())
      ensures GrownUp(Newborn(Fixed(), socket, key, serial), Calls(old(turns)), old(Waiting()), PeerOf(c), Waiting())
    {
      hide Structure, Matched, Calm, RosterOk, Admissible, CalmConn, Longer, Live, Rest, Calls, GrownUp;
      hide Connection.Valid, Make;
      var inbound := socket.inbound.(edge := socket.inbound.edge || socket.inbound.Readable());
      Advance(serial);
      assert connections == old(connections) && roster == old(roster) && turns == old(turns) && Repr == old(Repr);
      c, action := Open(Make(socket.fd, loopId, key, serial), socket.(inbound := inbound), serial);
      NewcomerFits(key, c, serial);
    }

    /** The connection is refused: `close_connection` finds nothing in its slot. */
    method Refuse(key: nat, c: Connection) returns (r: Status)
      requires Valid() && RosterOk(roster, c.log.serial) && created == c.log.serial + 1 && Admissible(key, c)
      modifies this`roster
      modifies this`connections, this`pool, this`connCount, this`turns, this`osResults, this`hist, handle
      ensures r == Go && Valid() && Extends(old(roster), old(hist), roster, hist)
      ensures connections == old(connections)
      ensures AllOk(old(osResults)) ==> AllOk(osResults)
      ensures handle.Grew()
      ensures roster == Roster(old(roster).homes, old(roster).issued[old(c.log).serial := old(c.gfd)])
      ensures Same(old(View()).(roster := roster), View())
    {
      hide Live, Longer, Calm, Extends, HistoryOk, SlotsOk, PoolOk, CountOk, BufferOk, Accounted, AllOk, ClosedAs;
      NoLonger(handle.urgent, handle.common);
      Issue(c.log.serial, c.gfd);
      RunningEnds();
      r := CloseConnection(key, true);
    }

    /** `on_open` asked for the loop to end. */
    method RefuseAll(c: Connection, key: nat) returns (r: Status)
      requires Valid() && RosterOk(roster, c.log.serial) && created == c.log.serial + 1 && Admissible(key, c)
      modifies this`listeners, this`roster
      modifies this`connections, this`pool, this`connCount, this`turns, this`osResults, this`hist, handle, Repr
      ensures r == Stop(ShutDown) && Ran(r) && listeners == None
      ensures handle.Grew()
      ensures roster == old(roster).(issued := old(roster).issued[old(c.log).serial := old(c.gfd)])
      ensures ShutAs(old(View()).(roster := roster), View(), r)
    {
      hide Live, Longer, ShutAs, Structure, Matched, Calm, Extends, Accounted, AllOk, RosterOk;
      Issue(c.log.serial, c.gfd);
      assert View() == old(View()).(roster := roster);
      ghost var r0, h0 := roster, hist;
      r := ShutDownNow(-1);
      ExtendsSteps(old(roster), old(hist), r0, h0, roster, hist);
    }

    lemma AdmissibleIsNew(key: nat, c: Connection)
      requires Admissible(key, c) && CalmConn(key, c)
      ensures c.log.Intact()
      ensures key !in connections && c.log.serial !in roster.issued && c in Repr
      ensures c.socket.Some? && c.socket.value.fd == c.gfd.fd
    {
    }

    /** What `on_open` answered decides. */
    method Decide(key: nat, c: Connection, action: Action, ghost born: Peer, ghost calls: seq<Op>, ghost queues: Queues)
      returns (r: Status)
      requires Longer(queues.urgent, queues.common, handle.urgent, handle.common)
      requires c.gfd == born.gfd && c.log.serial == born.log.serial
      requires GrownUp(born, calls, queues, PeerOf(c), Waiting())
      requires Valid() && RosterOk(roster, c.log.serial) && created == c.log.serial + 1
      requires Admissible(key, c) && CalmConn(key, c)
      modifies this`listeners, this`roster
      modifies this`connections, this`pool, this`connCount, this`turns, this`osResults, this`hist, handle, Repr
      ensures Ran(r) && ListenersKept(r)
      ensures Decided(born, key, calls, action, old(View()).(queues := queues), View(), r)
      ensures Answered(action, r, key, born.gfd, born.log.serial,
                       old(connections).Keys, old(roster), connections.Keys, roster)
      ensures handle.Grew()
    {
      hide Structure, Matched, Calm, Accounted, AllClosed, Extends, Longer, RosterOk, Admissible, CalmConn, Joined;
      hide Live, ShutAs, GrownUp;
      NoLonger(handle.urgent, handle.common);
      AdmissibleIsNew(key, c);
      TenantsShow(key);
      JoinsAs(key, born.gfd, born.log.serial, connections, c, roster);
      ghost var m := View().(roster := Roster(roster.homes, roster.issued[born.log.serial := born.gfd]));
      match action
      case Continue =>
        Enter(key, c);
        r := Go;
      case CloseConnection =>
        r := Refuse(key, c);
        SameEarlier(queues, m, View());
      case ShutdownLoop =>
        r := RefuseAll(c, key);
        ShutEarlier(queues, m, View(), r);
    }

    method RegisterAt(key: nat, socket: Socket, serial: nat) returns (r: Status)
      requires Valid() && key < SLOT_LIMIT && key !in connections && created <= serial
      modifies this`connections, this`pool, this`connCount, this`turns, this`osResults, this`hist, this`roster
      modifies this`created, this`listeners, this`Repr, handle, Repr
      ensures Ran(r)
      ensures var gfd := Make(socket.fd, loopId, key, serial);
              Answered(old(NextAction()), r, key, gfd, serial,
                       old(connections).Keys, old(roster), connections.Keys, roster)
      ensures handle.Grew() && ListenersKept(r)
      ensures created == serial + 1
      ensures Opened(Fixed(), socket, key, serial, old(View()), View(), r)
    {
      hide Structure, Matched, Calm, Accounted, AllClosed, Extends, RosterOk, Admissible, CalmConn, Answered, Longer;
      hide Live, Rest, Decided, Calls, GrownUp;
      SpareInside();
      TenantsShow(key);
      SerialIsNew(serial);
      ghost var b := View();
      var c, action := OpenAt(key, socket, serial);
      ghost var m := View();
      ghost var u, q := handle.urgent, handle.common;
      assert connections == old(connections) && roster == old(roster) && hist == old(hist);
      assert osResults == old(osResults);
      ghost var born := Newborn(Fixed(), socket, key, serial);
      r := Decide(key, c, action, born, Calls(b.turns), b.queues);
      LongerStill(old(handle.urgent), old(handle.common), u, q, handle.urgent, handle.common);
      assert m.(queues := b.queues) == b.(created := serial + 1, turns := Rest(b.turns));
    }

    lemma SerialIsNew(serial: nat)
      requires Valid() && created <= serial
      ensures serial !in roster.issued
    {
    }

    // ----- socket events -----

    /** The connection in the slot, if any, is between reads and has lost no output. */
    ghost predicate Still(key: nat)
      reads this`connections, this`Repr, Repr
    {
      key in connections ==>
        connections[key] in Repr && connections[key].log.Intact() && connections[key].IoBytes() == []
    }

    /** All is in order, but input of the connection in slot `key` may be waiting unnoticed. */
    ghost predicate ValidBut(key: nat)
      reads this`connections, this`roster, this`Repr, Repr, this`pool, this`connCount, this`ioLen, this`ioCap,
            this`created, this`hist, this`events, handle
    {
      Structure() && Matched() && Calm(key) && Still(key)
    }

    lemma ValidIsValidBut(key: nat)
      requires Valid()
      ensures ValidBut(key)
    {
      forall k | k in connections ensures connections[k] in Repr && CalmConn(k, connections[k]) {
        assert CalmConn(k, connections[k]);
      }
    }

    /** Nothing ever marks a live connection closed. */
    lemma NeverMarked()
      requires SlotsOk()
      ensures forall k {:trigger connections[k]} :: k in connections ==> !connections[k].closed
    {
      forall k | k in connections ensures !connections[k].closed {
        assert Slot(k, connections[k], roster);
      }
    }

    lemma TenantIsOpen(key: nat)
      requires ValidBut(key)
      ensures key in connections ==> !connections[key].closed && connections[key].socket.Some?
    {
      if key in connections {
        assert Slot(key, connections[key], roster);
      }
    }

    lemma NobodyThere(key: nat)
      requires ValidBut(key) && (key !in connections || connections[key].closed)
      ensures Valid()
    {
      NeverMarked();
      CalmEverywhere(key);
    }

    lemma SlotSound(key: nat)
      requires SlotsOk() && key in connections
      ensures connections[key] in Repr && Slot(key, connections[key], roster)
    {
      assert Slot(key, connections[key], roster);
    }

    /** Who is in the slot belongs there. */
    lemma TenantSound(key: nat)
      requires Structure() && key in connections
      ensures connections[key] in Repr && Slot(key, connections[key], roster)
    {
      assert Slot(key, connections[key], roster);
    }

    lemma TenantsInside(key: nat)
      requires Structure()
      ensures Touched(key) <= Repr
    {
      if key in connections {
        assert Slot(key, connections[key], roster);
      }
    }

    /** Commands and events may come and go, as long as nothing that was announced is forgotten. */
    twostate lemma NoticeKept(except: int)
      requires old(Calm(except)) && connections == old(connections) && Repr == old(Repr)
      requires forall o :: o in old(Repr) ==> unchanged(o)
      requires forall k: nat {:trigger Announced(k, handle.urgent, events)} ::
                 k in connections && k != except && Announced(k, old(handle.urgent), old(events)) ==>
                   Announced(k, handle.urgent, events)
      ensures Calm(except)
    {
      forall k | k in connections && k != except ensures connections[k] in Repr && CalmConn(k, connections[k]) {
        assert old(CalmConn(k, connections[k]));
        assert Announced(k, handle.urgent, events) || !Announced(k, old(handle.urgent), old(events));
      }
    }

    /** More commands disturb nobody. */
    method Enqueue(command: Command, key: nat)
      requires ValidBut(key) && command.Priority() == High
      modifies handle
      ensures ValidBut(key) && handle.Grew() && command in handle.urgent && Same(old(View()), View())
      ensures old(Valid()) ==> Valid()
    {
      hide Structure, Matched, Calm, CalmConn, Still, Live, Longer;
      handle.Trigger(High, command);
      NoticeKept(key);
      if old(Valid()) {
        NoticeKept(-1);
      }
    }

    /** The write interest of a connection is brought in line with its queue. */
    method Reregister(key: nat) returns (r: Status)
      requires ValidBut(key)
      modifies this`osResults, Touched(key)`socket
      ensures ValidBut(key) && (old(Valid()) ==> Valid())
      ensures r.Go? && key in connections && connections[key].socket.Some? ==>
                connections[key].socket.value.writeInterest == (connections[key].Queue() != [])
      ensures r == Go || r == Stop(OsError)
      ensures AlignAs(key, old(View()), View(), r)
      ensures key in old(connections) ==> (r.Go? <==> Allowed(old(osResults)))
      ensures AllOk(old(osResults)) ==> r == Go && AllOk(osResults)
    {
      hide Structure, Matched, Calm, Still, Longer, Live;
      NoLonger(handle.urgent, handle.common);
      EveryoneShows();
      if key !in connections {
        return Go;
      }
      TenantSound(key);
      var ok := NextOs();
      if !ok {
        return Stop(OsError);
      }
      SetInterest(key);
      return Go;
    }

    method SetInterest(key: nat)
      requires ValidBut(key) && key in connections && connections[key].socket.Some?
      modifies Touched(key)`socket
      ensures ValidBut(key) && (old(Valid()) ==> Valid())
      ensures connections[key].socket.Some?
      ensures connections[key].socket.value.writeInterest == (connections[key].Queue() != [])
      ensures key in old(View().live) && old(View().live[key].socket).Some?
      ensures var p := old(View().live[key]);
              var q := p.(socket := Some(p.socket.value.(writeInterest := p.queue != [])));
              View() == old(View()).(live := old(View().live)[key := q])
    {
      hide Live;
      NoLonger(handle.urgent, handle.common);
      var c := connections[key];
      assert Slot(key, c, roster);
      c.socket := Some(c.socket.value.(writeInterest := c.Queue() != []));
      assert Slot(key, c, roster);
      TenantKeepsStructure(key);
      TenantKeepsMatched(key);
      TenantKeepsCalm(key);
      TenantShows(key);
      if old(Valid()) {
        assert old(CalmConn(key, c));
        CalmEverywhere(key);
      }
    }

    /** What a batch of reads from the connection in slot `key` did, and why it ended. */
    twostate predicate ReadOut(key: nat, got: seq<RecvResult>, status: IoStatus)
      requires key in old(connections) && old(connections[key].socket).Some?
    {
      && ReadsFrom(old(connections[key].socket).value.inbound, readBufferCap, got)
      && BatchEnds(got, old(turns), maxBatchSize, status)
    }

    /** The batch of reads of a live connection. */
    method ReadLive(key: nat) returns (status: IoStatus, ghost got: seq<RecvResult>)
      requires ValidBut(key) && key in connections
      modifies this`turns, this`ioLen, this`ioCap, handle, Touched(key)
      ensures Structure() && Matched() && Calm(key) && handle.Grew()
      ensures connections[key] in Repr && connections[key].log.Intact()
      ensures status.Completed? || status.Yield? ==> ValidBut(key)
      ensures status.Completed? ==> Valid()
      ensures Grows(old(connections[key].log), connections[key].log)
      ensures old(connections[key].socket).Some? && ReadOut(key, got, status)
      ensures Batched(Fixed(), key, got, status, old(View()), View())
    {
      hide SlotsOk, Matched, Calm, PoolOk, CountOk, HistoryOk, RosterOk, BatchEnds, DataOf, Longer, Live, Progress;
      hide Grows;
      var c := connections[key];
      TenantSound(key);
      status, got := ProcessRead(c);
      ReadsInProgress(readBufferCap, old(DeskOf(handle, c)), old(turns), got, DeskOf(handle, c), turns);
      assert Slot(key, c, roster);
      TenantKeepsStructure(key);
      TenantShows(key);
      TenantKeepsMatched(key);
      TenantKeepsCalm(key);
      if status.Completed? {
        CalmEverywhere(key);
      }
    }

    /** Whoever is in the slot has been there all along, and the streams only grew. */
    twostate predicate SameLine(key: nat)
      reads this`connections, this`Repr, Repr
    {
      key in connections ==>
        && key in old(connections) && connections[key] == old(connections[key]) && connections[key] in Repr
        && Grows(old(connections[key].log), connections[key].log)
    }

    /**
     Reads, and sees to it that unread input stays noticed: read dry, queued for
     another round, or the connection is gone. It goes exactly when the kernel or
     the handler ended its batch that way.
     */
    method ReadSocket(key: nat) returns (r: Status, ghost status: IoStatus, ghost got: seq<RecvResult>)
      requires ValidBut(key)
      modifies this`connections, this`pool, this`connCount, this`turns, this`osResults, this`hist
      modifies this`listeners, this`ioLen, this`ioCap, handle, Repr
      ensures Ran(r) && (r.Go? ==> SameLine(key)) && handle.Grew()
      ensures key in old(connections) ==> old(connections[key].socket).Some? && ReadOut(key, got, status)
      ensures key in old(connections) && r.Go? ==> (key in connections <==> !status.Closed?)
      ensures key in old(connections) ==> (r == Stop(ShutDown) <==> status.ShutdownRequested?)
      ensures key in old(connections) && status.Yield? ==> r == Go && Command.Read(key) in handle.urgent
      ensures ReadAs(Fixed(), key, old(View()), View(), r) && ListenersKept(r)
      ensures key in old(connections) && r.Go? && status.Closed? ==>
                SaidFarewell(Fixed(), key, got, old(View()), View())
    {
      hide Structure, Matched, Calm, Accounted, AllClosed, Extends, Longer, ReadOut, Grows, View, Batched, ReadEnds;
      hide SaidFarewell;
      TenantsShow(key);
      ghost var b := View();
      ExtendsItself(roster, hist);
      NoLonger(handle.urgent, handle.common);
      status, got := Completed, [];
      TenantIsOpen(key);
      if key !in connections || connections[key].closed {
        NobodyThere(key);
        SameView(b);
        return Go, status, got;
      }
      var s;
      s, got := ReadLive(key);
      ghost var mid := View();
      ghost var u, c := handle.urgent, handle.common;
      assert connections == old(connections) && roster == old(roster) && hist == old(hist) && Repr == old(Repr);
      assert osResults == old(osResults);
      status := s;
      r := AfterRead(key, s);
      assert Batched(Fixed(), key, got, s, b, mid) && ReadEnds(key, s, mid, View(), r);
      if r.Go? && s.Closed? {
        SaysFarewell(Fixed(), key, got, s, b, mid, View(), r);
      }
      LongerStill(old(handle.urgent), old(handle.common), u, c, handle.urgent, handle.common);
    }

    /** What a batch of reads leads to. */
    method AfterRead(key: nat, status: IoStatus) returns (r: Status)
      requires Structure() && Matched() && Calm(key)
      requires key in connections && connections[key] in Repr && connections[key].log.Intact()
      requires status.Completed? || status.Yield? ==> ValidBut(key)
      requires status.Completed? ==> Valid()
      modifies this`connections, this`pool, this`connCount, this`turns, this`osResults, this`hist
      modifies this`listeners, handle, Repr
      ensures Ran(r) && handle.Grew()
      ensures r.Go? ==> (key in connections <==> !status.Closed?)
      ensures key in connections && r.Go? ==>
                connections == old(connections) && connections[key].log == old(connections[key].log)
      ensures r == Stop(ShutDown) <==> status.ShutdownRequested?
      ensures status.Yield? ==> r == Go && Command.Read(key) in handle.urgent
      ensures ReadEnds(key, status, old(View()), View(), r) && ListenersKept(r)
    {
      hide Structure, Matched, Calm, Accounted, AllClosed, Extends, Longer, Still, Noticed, Live, CloseAs, ShutAs;
      ExtendsItself(roster, hist);
      NoLonger(handle.urgent, handle.common);
      TenantsWithin(key);
      match status
      case Completed =>
        r := Go;
      case Yield =>
        r := QueueRead(key);
      case Closed(graceful) =>
        r := CloseTenant(key, graceful);
      case ShutdownRequested =>
        r := ShutDownNow(key);
    }

    lemma TenantsWithin(key: nat)
      requires key in connections && connections[key] in Repr
      ensures Touched(key) <= Repr
    {
    }

    /** The batch of writes of a live connection. */
    method WriteLive(key: nat) returns (status: IoStatus)
      requires ValidBut(key) && key in connections
      modifies Touched(key)
      ensures ValidBut(key) && (old(Valid()) ==> Valid())
      ensures old(connections[key].log).wire <= connections[key].log.wire
      ensures connections[key].log.accepted == old(connections[key].log).accepted
      ensures Grows(old(connections[key].log), connections[key].log)
      ensures Pumped(Fixed(), key, status, old(View()), View())
      ensures old(connections[key].socket).Some?
      ensures Drains(old(connections[key].socket).value.sends, old(connections[key].Queue())) ==>
                status.Yield? || (status.Completed? && connections[key].Queue() == [])
    {
      hide Flushable, Moved, MovedUntil, Live, PumpEnds, Concat;
      var c := connections[key];
      assert Slot(key, c, roster);
      status := ProcessWrite(c);
      if Drains(old(c.socket).value.sends, old(c.Queue())) {
        ghost var left := c.Queue();
        MovingSocketStays(status, old(c.socket).value.sends, c.socket.value.sends, left == [], true, Stuck(left));
        HowAPumpEnds(status, old(c.socket).value.sends, c.socket.value.sends, left == [], true, Stuck(left));
      }
      assert Slot(key, c, roster);
      SameOutput(old(c.log), old(c.Queue()), c.log, c.Queue());
      TenantKeepsStructure(key);
      TenantKeepsMatched(key);
      TenantKeepsCalm(key);
      TenantShows(key);
      if old(Valid()) {
        assert old(CalmConn(key, c));
        CalmEverywhere(key);
      }
    }

    /**
     Writes; unread input is as noticed as it was before. A connection that stays is
     aligned or queued for another round, and one whose socket keeps moving stays,
     written dry unless its batch was used up.
     */
    method WriteSocket(key: nat) returns (r: Status, ghost status: IoStatus)
      requires ValidBut(key)
      modifies this`connections, this`pool, this`connCount, this`turns, this`osResults, this`hist
      modifies handle, Touched(key)
      ensures r.Go? ==> ValidBut(key) && (old(Valid()) ==> Valid())
      ensures Recorded(r) && r != Stop(ShutDown)
      ensures WriteAs(Fixed(), key, old(View()), View(), r)
      ensures handle.Grew()
      ensures key in old(connections) && r.Go? ==> (key in connections <==> !status.Closed?)
      ensures key in old(connections) && r.Go? ==> status.Yield? || InterestMatches(key)
      ensures key in old(connections) && status.Yield? ==> r == Go && Command.Write(key) in handle.urgent
      ensures key in old(connections) && r.Go? ==> old(connections[key].socket).Some?
      ensures key in old(connections) && r.Go?
              && Drains(old(connections[key].socket).value.sends, old(connections[key].Queue())) ==>
                status.Yield? || (key in connections && connections[key].Queue() == [])
    {
      hide Structure, Matched, Calm, Accounted, AllClosed, Extends, Still, View, Pumped, WriteEnds, Drains, Longer;
      hide InterestMatches;
      NoLonger(handle.urgent, handle.common);
      TenantsInside(key);
      TenantsShow(key);
      ghost var b := View();
      status := Completed;
      if key in connections {
        var s := WriteLive(key);
        status := s;
        ghost var mid := View();
        PumpStays(Fixed(), key, s, b, mid);
        r := AfterWrite(key, s);
        assert Pumped(Fixed(), key, s, b, mid) && WriteEnds(key, s, mid, View(), r);
      } else {
        r := AfterWrite(key, Completed);
        NobodyWrites(key, b, View(), r);
      }
    }

    lemma TenantsShow(key: nat)
      requires Structure()
      ensures key in View().live <==> key in connections
      ensures key in connections ==> View().live[key] == PeerOf(connections[key])
    {
      PeerAt(key);
    }

    method AfterWrite(key: nat, status: IoStatus) returns (r: Status)
      requires ValidBut(key)
      requires status.Completed? || status.Yield? || status == Closed(false)
      modifies this`connections, this`pool, this`connCount, this`turns, this`osResults, this`hist
      modifies handle, Touched(key)
      ensures r.Go? ==> ValidBut(key) && (old(Valid()) ==> Valid())
      ensures Recorded(r) && r != Stop(ShutDown)
      ensures WriteEnds(key, status, old(View()), View(), r)
      ensures handle.Grew()
      ensures r.Go? ==> (key in connections <==> key in old(connections) && !status.Closed?)
      ensures key in connections && r.Go? ==>
                connections[key] == old(connections[key]) && connections[key].Queue() == old(connections[key].Queue())
      ensures r.Go? ==> status.Yield? || InterestMatches(key)
      ensures status.Yield? ==> r == Go && Command.Write(key) in handle.urgent
    {
      hide Structure, Matched, Calm, Accounted, AllClosed, Extends, Live, CloseAs, AlignAs, Longer, ClosedAs;
      TenantsInside(key);
      ExtendsItself(roster, hist);
      NoLonger(handle.urgent, handle.common);
      if status.Completed? {
        RunningEnds();
        r := Reregister(key);
        if r.Stop? {
          RunningEnds();
        } else if key in connections {
          TenantSound(key);
        }
      } else if status.Yield? {
        Enqueue(Command.Write(key), key);
        r := Go;
      } else {
        r := CloseTenant(key, false);
        if r.Go? {
          ValidIsValidBut(key);
        }
      }
    }

    method QueueRead(key: nat) returns (r: Status)
      requires ValidBut(key)
      modifies handle
      ensures r == Go && Valid()
      ensures handle.Grew() && Same(old(View()), View())
      ensures Command.Read(key) in handle.urgent
    {
      hide View, Longer;
      Enqueue(Command.Read(key), key);
      CalmEverywhere(key);
      r := Go;
    }

    /** Closing a connection of a running loop: it has had no `on_close` before. */
    method CloseTenant(key: nat, graceful: bool) returns (r: Status)
      requires Structure() && Matched() && Calm(key)
      requires key in connections ==> connections[key] in Repr && connections[key].log.Intact()
      modifies this`connections, this`pool, this`connCount, this`turns, this`osResults, this`hist
      modifies handle, Touched(key)
      ensures Ran(r) && (r.Go? ==> key !in connections) && r != Stop(ShutDown)
      ensures key in old(connections) ==> ClosedAs(old(connections[key]), graceful, r)
      ensures CloseAs(key, graceful, old(View()), View(), r)
      ensures handle.Grew()
    {
      hide Structure, Matched, Calm, Accounted, AllClosed, Extends, Longer, ClosedAs, CloseAs, Live;
      NoLonger(handle.urgent, handle.common);
      RunningSettles(key);
      TenantsShow(key);
      if key in connections {
        TenantSound(key);
        r := CloseInSight(key, graceful);
      } else {
        NobodyCloses(key, graceful, View());
        r := CloseConnection(key, graceful);
      }
    }

    method CloseInSight(key: nat, graceful: bool) returns (r: Status)
      requires Structure() && Accounted() && key in connections && connections[key] in Repr
      requires connections[key].log.serial !in hist.closes && connections[key].log.Intact()
      modifies this`connections, this`pool, this`connCount, this`turns, this`osResults, this`hist
      modifies handle, Touched(key)
      ensures Structure() && Accounted() && handle.Grew()
      ensures ClosedAs(old(connections[key]), graceful, r)
      ensures old(Matched()) && r.Go? ==> Matched()
      ensures old(Calm(key)) && r.Go? ==> Calm(-1)
      ensures connections == if r.Go? then old(connections) - {key} else old(connections)
      ensures r == Go || r == Stop(OsError)
      ensures Extends(roster, old(hist), roster, hist)
      ensures r.Go? == Allowed(old(osResults)) && osResults == Later(old(osResults))
      ensures AllOk(old(osResults)) ==> r.Go? && AllOk(osResults)
      ensures CloseAs(key, graceful, old(View()), View(), r)
    {
      hide Structure, Accounted, Matched, Calm, Extends, AllOk, Live, Longer, Grows;
      TenantsShow(key);
      r := CloseConnection(key, graceful);
    }

    /** The connection in the slot, if any, asks for writability exactly when it has output queued. */
    ghost predicate InterestMatches(key: nat)
      reads this`connections, this`Repr, Repr
    {
      key in connections ==>
        && connections[key] in Repr && connections[key].socket.Some?
        && connections[key].socket.value.writeInterest == (connections[key].Queue() != [])
    }

    /** Aligns the interest, or gives up on the loop. */
    method Realign(key: nat) returns (r: Status)
      requires Valid()
      modifies this`osResults, Touched(key)`socket
      ensures Ran(r) && (r.Go? ==> InterestMatches(key)) && r != Stop(ShutDown)
      ensures AlignAs(key, old(View()), View(), r)
    {
      hide Structure, Matched, Calm, Accounted, AllClosed, Extends, Longer, View;
      ExtendsItself(roster, hist);
      ValidIsValidBut(key);
      if key in connections {
        TenantSound(key);
      }
      r := Reregister(key);
      RunningEnds();
      if key in connections {
        TenantSound(key);
      }
    }

    lemma LineStands(key: nat)
      requires Structure()
      ensures key in connections ==>
                connections[key] in Repr && Grows(connections[key].log, connections[key].log)
    {
      if key in connections {
        TenantSound(key);
      }
    }

    /** The reading half of an event. */
    method ReadReady(e: Event) returns (r: Status, ghost deeds: seq<Deed>)
      requires ValidBut(e.token) && (!e.Readish() ==> Valid())
      modifies this`connections, this`pool, this`connCount, this`turns, this`osResults, this`hist
      modifies this`listeners, this`ioLen, this`ioCap, handle, Repr
      ensures Ran(r) && (r.Go? ==> SameLine(e.token))
      ensures Carried(Fixed(), old(View()), deeds, View(), r, ReadPlan(e))
      ensures handle.Grew() && ListenersKept(r)
    {
      hide Structure, Matched, Calm, Accounted, AllClosed, Extends, Longer, View, Carried, Grows, ReadAs;
      ExtendsItself(roster, hist);
      NoLonger(handle.urgent, handle.common);
      LineStands(e.token);
      r, deeds := Go, [];
      NothingCarried(Fixed(), View());
      if e.error || e.readable {
        ghost var b := View();
        ghost var status, got;
        r, status, got := ReadSocket(e.token);
        deeds := [Deed(ReadIn(e.token), b, View(), r)];
        OneRead(Fixed(), e.token, b, View(), r);
      }
    }

    /** The writing half of an event. */
    method WriteReady(e: Event) returns (r: Status, ghost deeds: seq<Deed>)
      requires ValidBut(e.token)
      modifies this`connections, this`pool, this`connCount, this`turns, this`osResults, this`hist
      modifies handle, Touched(e.token)
      ensures r.Go? ==> ValidBut(e.token) && (old(Valid()) ==> Valid())
      ensures Recorded(r)
      ensures Carried(Fixed(), old(View()), deeds, View(), r, WritePlan(e))
      ensures handle.Grew() && r != Stop(ShutDown)
    {
      hide Structure, Matched, Calm, Accounted, AllClosed, Extends, Longer, View, Carried, WriteAs;
      ExtendsItself(roster, hist);
      NoLonger(handle.urgent, handle.common);
      r, deeds := Go, [];
      NothingCarried(Fixed(), View());
      if e.error || e.writable {
        ghost var b := View();
        ghost var status;
        r, status := WriteSocket(e.token);
        deeds := [Deed(WriteOut(e.token), b, View(), r)];
        OneWrite(Fixed(), e.token, b, View(), r);
      }
    }

    /**
     One event of a connection: closed at once if all it says is that the
     connection is gone, else written, read, and its write interest aligned.
     */
    method ProcessIo(e: Event) returns (r: Status, ghost deeds: seq<Deed>)
      requires ValidBut(e.token) && (!e.Readish() ==> Valid())
      modifies this`connections, this`pool, this`connCount, this`turns, this`osResults, this`hist
      modifies this`listeners, this`ioLen, this`ioCap, handle, Repr
      ensures Ran(r) && (r.Go? ==> InterestMatches(e.token))
      ensures Carried(Fixed(), old(View()), deeds, View(), r, IoPlan(e))
      ensures handle.Grew() && ListenersKept(r)
      ensures e.readable && e.token in old(connections) && maxBatchSize > 0 ==> WasRead(Fixed(), e, deeds)
    {
      hide Structure, Matched, Calm, Accounted, AllClosed, Extends, Longer, Noticed, View, Carried, CloseAs, IoPlan;
      hide WasRead;
      ghost var b := View();
      TenantsShow(e.token);
      r, deeds := CarryOut(e);
      if e.readable && e.token in old(connections) && maxBatchSize > 0 {
        ReadableIsRead(Fixed(), b, deeds, View(), r, e);
      }
    }

    /** The event's own order of work. */
    method CarryOut(e: Event) returns (r: Status, ghost deeds: seq<Deed>)
      requires ValidBut(e.token) && (!e.Readish() ==> Valid())
      modifies this`connections, this`pool, this`connCount, this`turns, this`osResults, this`hist
      modifies this`listeners, this`ioLen, this`ioCap, handle, Repr
      ensures Ran(r) && (r.Go? ==> InterestMatches(e.token))
      ensures Carried(Fixed(), old(View()), deeds, View(), r, IoPlan(e))
      ensures handle.Grew() && ListenersKept(r)
    {
      hide Structure, Matched, Calm, Accounted, AllClosed, Extends, Longer, Noticed, View, Carried, CloseAs;
      ghost var b := View();
      if (e.error || e.readClosed) && !e.readable && !e.writable {
        r := CloseTenant(e.token, false);
        deeds := [Deed(Drop(e.token), b, View(), r)];
        OneDrop(Fixed(), e.token, b, View(), r);
        return;
      }
      r, deeds := WriteReady(e);
      if r.Stop? {
        CarriedShort(Fixed(), b, deeds, View(), r, WritePlan(e), ReadPlan(e) + [Align(e.token)]);
        return;
      }
      ghost var r1, h1, u1, c1, mid := roster, hist, handle.urgent, handle.common, View();
      ghost var more;
      r, more := ReadAndRealign(e);
      CarriedOn(Fixed(), b, deeds, mid, WritePlan(e), more, View(), r, ReadPlan(e) + [Align(e.token)]);
      deeds := deeds + more;
      ExtendsSteps(old(roster), old(hist), r1, h1, roster, hist);
      LongerStill(old(handle.urgent), old(handle.common), u1, c1, handle.urgent, handle.common);
    }

    /** The second half of an event: read, then bring the write interest in line. */
    method ReadAndRealign(e: Event) returns (r: Status, ghost deeds: seq<Deed>)
      requires ValidBut(e.token) && (!e.Readish() ==> Valid())
      modifies this`connections, this`pool, this`connCount, this`turns, this`osResults, this`hist
      modifies this`listeners, this`ioLen, this`ioCap, handle, Repr
      ensures Ran(r) && (r.Go? ==> InterestMatches(e.token) && SameLine(e.token))
      ensures Carried(Fixed(), old(View()), deeds, View(), r, ReadPlan(e) + [Align(e.token)])
      ensures handle.Grew() && ListenersKept(r)
    {
      hide Structure, Matched, Calm, Accounted, AllClosed, Extends, Longer, Noticed, Grows, View, Carried, AlignAs;
      ghost var b := View();
      r, deeds := ReadReady(e);
      if r.Stop? {
        CarriedShort(Fixed(), b, deeds, View(), r, ReadPlan(e), [Align(e.token)]);
        return;
      }
      ghost var r2, h2, mid := roster, hist, View();
      TenantsInside(e.token);
      r := Realign(e.token);
      ghost var last := Deed(Align(e.token), mid, View(), r);
      OneAlign(Fixed(), e.token, mid, View(), r);
      CarriedOn(Fixed(), b, deeds, mid, ReadPlan(e), [last], View(), r, [Align(e.token)]);
      deeds := deeds + [last];
      ExtendsSteps(old(roster), old(hist), r2, h2, roster, hist);
    }

    // ----- writes from other threads -----

    /** The handle leads to a connection of this loop that goes by that very handle. */
    ghost predicate Hit(g: Gfd)
      reads this`connections, this`Repr, Repr
    {
      && g.EventLoopIndex() == loopId && g.SlabIndex() in connections
      && connections[g.SlabIndex()] in Repr && connections[g.SlabIndex()].gfd == g
    }

    method WriteTo(key: nat, data: Bytes) returns (ok: bool)
      requires Valid() && key in connections
      modifies Touched(key)
      ensures Valid()
      ensures connections[key].log.accepted ==
                if ok then old(connections[key].log).accepted + data else old(connections[key].log).accepted
      ensures connections[key].log.serial == old(connections[key].log).serial
      ensures connections[key].gfd == old(connections[key].gfd)
      ensures key in old(View().live) && old(View().live[key].socket).Some?
      ensures var (q, result) := PutOn(old(View().live[key]), [data]);
              ok == result.Ok? && View() == old(View()).(live := old(View().live)[key := q])
    {
      hide Live, Longer;
      ValidIsValidBut(key);
      var c := connections[key];
      assert Slot(key, c, roster);
      assert old(CalmConn(key, c));
      var w := c.Write(data);
      SingleChunk(data);
      assert Slot(key, c, roster);
      TenantKeepsStructure(key);
      TenantKeepsMatched(key);
      TenantKeepsCalm(key);
      TenantShows(key);
      CalmEverywhere(key);
      ok := w.Ok?;
    }

    /** The bytes sent under handle `g` went to registration `serial`. */
    ghost method Deliver(key: nat, g: Gfd)
      requires Valid() && key in connections && connections[key] in Repr && connections[key].gfd == g
      modifies this`hist
      ensures Valid()
      ensures hist == old(hist).(deliveries := old(hist).deliveries + {Delivery(g, connections[key].log.serial)})
      ensures View() == old(View()).(hist := hist)
    {
      hide PoolOk, BufferOk, CountOk, RosterOk, Calm, Live;
      assert Slot(key, connections[key], roster);
      hist := hist.(deliveries := hist.deliveries + {Delivery(g, connections[key].log.serial)});
    }

    /** What `AsyncWrite` did for a handle that hit connection `c`: its bytes, and a record of it, or its end. */
    twostate predicate Wrote(c: Connection, g: Gfd, data: Bytes)
      reads this`hist, c
    {
      || (&& c.log.accepted == old(c.log).accepted + data && c.log.serial == old(c.log).serial
          && hist == old(hist).(deliveries := old(hist).deliveries + {Delivery(g, c.log.serial)}))
      || (old(c.log).serial in hist.closes && hist.deliveries == old(hist).deliveries)
    }

    /**
     Bytes from another thread. They are accepted only by the connection that
     still goes by the handle; otherwise nothing at all changes.
     */
    method AsyncWrite(g: Gfd, data: Bytes) returns (r: Status)
      requires Valid()
      modifies this`connections, this`pool, this`connCount, this`turns, this`osResults, this`hist
      modifies handle, Touched(g.SlabIndex())
      ensures Ran(r)
      ensures !old(Hit(g)) ==> r == Go && unchanged(this) && unchanged(handle)
                               && forall o :: o in old(Touched(g.SlabIndex())) ==> unchanged(o)
      ensures old(Hit(g)) ==> Wrote(old(connections[g.SlabIndex()]), g, data)
      ensures old(Hit(g)) && r.Go? ==> InterestMatches(g.SlabIndex())
      ensures AsyncAs(Fixed(), g, data, old(View()), View(), r) && r != Stop(ShutDown)
      ensures handle.Grew()
    {
      hide Structure, Matched, Calm, Accounted, AllClosed, Noticed, AsyncAs, View, HitBy, Longer;
      NoLonger(handle.urgent, handle.common);
      HitShows(g);
      if !Hit(g) {
        NobodyWritten(Fixed(), g, data, View());
      }
      if g.EventLoopIndex() != loopId {
        return Go;
      }
      var token := g.SlabIndex();
      if token !in connections {
        return Go;
      }
      TenantsInside(token);
      if connections[token].gfd != g {
        return Go;
      }
      r := AsyncWriteTo(token, g, data);
    }

    method AsyncWriteTo(token: nat, g: Gfd, data: Bytes) returns (r: Status)
      requires Valid() && Hit(g) && token == g.SlabIndex()
      modifies this`connections, this`pool, this`connCount, this`turns, this`osResults, this`hist
      modifies handle, Touched(token)
      ensures Ran(r)
      ensures Wrote(old(connections[token]), g, data)
      ensures r.Go? ==> InterestMatches(token)
      ensures AsyncAs(Fixed(), g, data, old(View()), View(), r) && r != Stop(ShutDown)
      ensures handle.Grew()
    {
      hide Structure, Matched, Calm, Accounted, AllClosed, Noticed, Live, CloseAs, AlignAs, PutOn, Longer;
      HitShows(g);
      NoLonger(handle.urgent, handle.common);
      var ok := WriteTo(token, data);
      TenantsShow(token);
      ValidIsValidBut(token);
      if ok {
        Deliver(token, g);
        r := Realign(token);
      } else {
        r := CloseTenant(token, false);
      }
    }

    lemma HitShows(g: Gfd)
      requires Valid()
      ensures Hit(g) <==> HitBy(Fixed(), g, View())
    {
      PeerAt(g.SlabIndex());
      if g.SlabIndex() in connections {
        assert Slot(g.SlabIndex(), connections[g.SlabIndex()], roster);
      }
    }

    /** Before the counter has wrapped, a handle works exactly as long as its connection is in the slab. */
    lemma HandleFindsItsOwner(g: Gfd, serial: nat)
      requires Structure() && created <= U32
      requires serial in roster.homes && roster.issued[serial] == g
      ensures Hit(g) <==> LiveAt(serial)
    {
      if Hit(g) {
        var k := g.SlabIndex();
        var c := connections[k];
        assert Slot(k, c, roster);
        assert c.log.serial % U32 == serial % U32;
      }
      if LiveAt(serial) {
        var k := roster.homes[serial];
        var c := connections[k];
        assert Slot(k, c, roster);
        AccessorsInvertMake(c.socket.value.fd, loopId, k, serial);
      }
    }

    // ----- commands -----

    /** The state in which a command may be carried out: one that reads vouches for its connection. */
    ghost predicate ReadyFor(command: Command)
      reads this`connections, this`roster, this`Repr, Repr, this`pool, this`connCount, this`ioLen, this`ioCap,
            this`created, this`hist, this`events, handle
    {
      if command.Read? then ValidBut(command.key) else Valid()
    }

    /** Commands from other threads arrive. */
    method Arrivals()
      requires Valid()
      modifies this`incoming, handle
      ensures Valid() && handle.Grew()
      ensures if old(incoming) == [] then unchanged(this) && unchanged(handle)
              else && incoming == old(incoming)[1..]
                   && multiset(handle.urgent) + multiset(handle.common) ==
                      multiset(old(handle.urgent)) + multiset(old(handle.common)) + multiset(old(incoming)[0])
    {
      hide Structure, Matched, Calm, CalmConn;
      if incoming != [] {
        handle.TriggerAll(incoming[0]);
        incoming := incoming[1..];
      }
      NoticeKept(-1);
    }

    /** Takes the first urgent command. */
    method PopUrgent() returns (command: Command)
      requires Valid() && handle.urgent != []
      modifies handle
      ensures ReadyFor(command) && [command] + handle.urgent == old(handle.urgent)
      ensures handle.common == old(handle.common)
    {
      hide Structure, Matched, Calm, CalmConn, Still, HasEvent;
      var key := if handle.urgent[0].Read? then handle.urgent[0].key else 0;
      ValidIsValidBut(key);
      command := handle.urgent[0];
      handle.urgent := handle.urgent[1..];
      forall k: nat | Command.Read(k) in old(handle.urgent) && Command.Read(k) != command
        ensures Command.Read(k) in handle.urgent
      {
        InTail(old(handle.urgent), Command.Read(k));
      }
      if command.Read? {
        NoticeKept(key);
      } else {
        NoticeKept(-1);
      }
    }

    /** Takes the first common command. */
    method PopCommon() returns (command: Command)
      requires Valid() && handle.common != []
      modifies handle
      ensures Valid() && [command] + handle.common == old(handle.common)
      ensures handle.urgent == old(handle.urgent)
    {
      hide Structure, Matched, Calm, CalmConn;
      command := handle.common[0];
      handle.common := handle.common[1..];
      NoticeKept(-1);
    }

    lemma ReadyForAny(command: Command)
      requires Valid()
      ensures ReadyFor(command)
    {
      hide Structure, Matched, Calm, Still;
      if command.Read? {
        ValidIsValidBut(command.key);
      }
    }

    /** The urgent queue first, then the common one; commands may arrive before each look. */
    method Dequeue() returns (r: Option<Command>, ghost urgent: bool)
      requires Valid()
      modifies this`incoming, handle
      ensures if r.Some? then ReadyFor(r.value) else Valid()
      ensures r.None? ==> old(handle.urgent) == [] && old(handle.common) == [] && handle.Grew()
      ensures r.Some? ==>
                var (u, c) := Untaken(urgent, r.value, handle.urgent, handle.common);
                Longer(old(handle.urgent), old(handle.common), u, c)
      ensures old(handle.urgent) != [] ==> r == Some(old(handle.urgent)[0]) && urgent
    {
      hide Valid, ReadyFor;
      Arrivals();
      urgent := true;
      if handle.urgent != [] {
        var first := PopUrgent();
        return Some(first), true;
      }
      Arrivals();
      if handle.common != [] {
        var first := PopCommon();
        ReadyForAny(first);
        return Some(first), false;
      }
      return None, true;
    }

    /** Carries out one command. */
    method Execute(command: Command) returns (r: Status)
      requires ReadyFor(command)
      modifies this, handle, Repr
      ensures Ran(r) && handle.Grew() && events == old(events) && ListenersKept(r)
      ensures RanAs(Fixed(), command, old(View()), View(), r)
      ensures command.AsyncWrite? && old(Hit(command.gfd)) ==>
                Wrote(old(connections[command.gfd.SlabIndex()]), command.gfd, command.data)
      ensures command.AsyncWrite? && !old(Hit(command.gfd)) ==> r == Go && unchanged(this)
    {
      hide Structure, Matched, Calm, Accounted, AllClosed, Extends, Longer, Hit, Wrote, Answered, View;
      hide AsyncAs, RegisterAs, CloseAs, ReadAs, WriteAs, ShutAs;
      ExtendsItself(roster, hist);
      NoLonger(handle.urgent, handle.common);
      SameView(View());
      match command
      case Nop =>
        r := Go;
      case AsyncWrite(g, data) =>
        TenantsInside(g.SlabIndex());
        r := AsyncWrite(g, data);
      case Register(socket) =>
        var others: nat :| 0 <= others;
        ghost var key;
        r, key := Register(socket, others);
      case Close(key) =>
        TenantsInside(key);
        ValidIsValidBut(key);
        r := CloseTenant(key, true);
      case Wake =>
        r := CallPoller();
      case Read(key) =>
        ghost var status, got;
        r, status, got := ReadSocket(key);
      case Write(key) =>
        TenantsInside(key);
        ValidIsValidBut(key);
        ghost var status;
        r, status := WriteSocket(key);
      case Shutdown =>
        r := ShutDownNow(-1);
    }

    /** Runs 256 commands, or fewer if it has run all that were queued and finds no more. */
    method ProcessCommand() returns (r: Status, ghost deeds: seq<Deed>)
      requires Valid()
      modifies this, handle, Repr
      ensures Ran(r) && events == old(events) && ListenersKept(r)
      ensures Follows(Fixed(), old(View()), deeds, View()) && StatusOf(deeds) == r
      ensures Runs(deeds, old(View()).queues)
    {
      hide Structure, Matched, Calm, Accounted, AllClosed, Extends, ReadyFor, Longer, View, Follows, CommandsOf, Done;
      ExtendsItself(roster, hist);
      ghost var b := View();
      r, deeds := Go, [];
      NothingFollows(Fixed(), b);
      for i := 0 to MAX_ASYNC_TASK_ONE_TIME
        invariant Ran(Go) && events == old(events) && listeners == old(listeners)
        invariant Follows(Fixed(), b, deeds, View()) && StatusOf(deeds).Go? && |deeds| == i
        invariant forall j :: 0 <= j < i ==> deeds[j].work.Run?
      {
        ghost var r0, h0, m := roster, hist, View();
        var next;
        ghost var deed;
        next, r, deed := RunOne();
        ExtendsSteps(old(roster), old(hist), r0, h0, roster, hist);
        if next.None? {
          AllTaken(Fixed(), b, deeds, m);
          FollowsLater(Fixed(), b, deeds, m, View());
          return Go, deeds;
        }
        FollowsLater(Fixed(), b, deeds, m, deed.before);
        FollowsOn(Fixed(), b, deeds, deed);
        deeds := deeds + [deed];
        if r.Stop? {
          return r, deeds;
        }
      }
      r := Go;
    }

    /** One command, if there is one. */
    method RunOne() returns (next: Option<Command>, r: Status, ghost deed: Deed)
      requires Valid()
      modifies this, handle, Repr
      ensures Ran(r) && events == old(events) && ListenersKept(r)
      ensures next.None? ==> r == Go && old(View()).queues == Queues([], []) && Waits(old(View()), View())
      ensures next.Some? ==>
                && deed.work.Run? && deed.work.command == next.value && deed.r == r
                && Waits(old(View()), deed.before) && Done(Fixed(), deed) && deed.after == View()
    {
      hide Structure, Matched, Calm, Accounted, AllClosed, Extends, ReadyFor, Longer, Live, RanAs;
      ExtendsItself(roster, hist);
      ghost var urgent;
      next, urgent := Dequeue();
      ghost var m := View();
      if next.None? {
        deed := Deed(Begin(Event(0, false, false, false, false, [])), m, m, Go);
        NothingMoves(old(View()), m);
        return next, Go, deed;
      }
      var (u, c) := Untaken(urgent, next.value, handle.urgent, handle.common);
      ghost var before := m.(queues := Queues(u, c));
      NothingMoves(old(View()), before);
      r := Execute(next.value);
      deed := Deed(Run(urgent, next.value), before, View(), r);
      LeftIs(urgent, next.value, m.queues);
    }

    // ----- accepting -----

    /**
     Registers every connection that can be accepted, up to the first error. The
     listeners are out of the loop's hands meanwhile, and back afterwards however it
     ends; so a shutdown from `on_open` leaves them listening.
     */
    method AcceptProcess(idx: nat, backlog: seq<AcceptTurn>)
      returns (r: Status, ghost serials: seq<nat>, ghost deeds: seq<Deed>)
      requires Valid()
      modifies this, handle, Repr
      ensures Ran(r) && handle.Grew() && events == old(events) && listeners == old(listeners)
      ensures r.Go? && listeners.Some? && idx < listeners.value ==>
                Registered(Accepted(backlog), serials, roster, old(created), created)
      ensures Carried(Fixed(), old(View()), deeds, View(), r,
                      if listeners.Some? && idx < listeners.value then Admits(Accepted(backlog)) else [])
    {
      hide Structure, Matched, Calm, Accounted, AllClosed, Extends, Longer, Registered, Carried, View, Accepted, Admits;
      ExtendsItself(roster, hist);
      NoLonger(handle.urgent, handle.common);
      NothingCarried(Fixed(), View());
      serials, deeds := [], [];
      if listeners.None? {
        return Go, [], [];
      }
      var taken := listeners.value;
      listeners := None;
      if idx < taken {
        r, serials, deeds := AcceptAll(backlog);
      } else {
        r := Go;
      }
      listeners := Some(taken);
    }

    /** The accept loop: it ends when there is no more, or at the first error. */
    method AcceptAll(backlog: seq<AcceptTurn>) returns (r: Status, ghost serials: seq<nat>, ghost deeds: seq<Deed>)
      requires Valid()
      modifies this, handle, Repr
      ensures Ran(r) && handle.Grew() && events == old(events)
      ensures r.Go? ==> Registered(Accepted(backlog), serials, roster, old(created), created)
      ensures Carried(Fixed(), old(View()), deeds, View(), r, Admits(Accepted(backlog)))
    {
      hide Structure, Matched, Calm, Accounted, AllClosed, Extends, Answered, Joined, Registered, Carried, View, Done;
      hide Accepted, Admits, Longer;
      ExtendsItself(roster, hist);
      NoLonger(handle.urgent, handle.common);
      ghost var all, b := Accepted(backlog), View();
      serials, deeds := [], [];
      NobodyYet(roster, created);
      NothingCarried(Fixed(), b);
      AcceptedStarts(backlog);
      AdmitsNone();
      var i := 0;
      while i < |backlog| && backlog[i].Incoming?
        invariant Ran(Go) && handle.Grew() && events == old(events)
        invariant i <= |backlog| && i <= |all| && Accepted(backlog) == all[..i] + Accepted(backlog[i..])
        invariant Registered(all[..i], serials, roster, old(created), created) && created >= old(created)
        invariant Carried(Fixed(), b, deeds, View(), Go, Admits(all[..i]))
      {
        NextAccepted(backlog, all, i);
        ghost var r0, h0, u, c := roster, hist, handle.urgent, handle.common;
        ghost var from := created;
        ghost var serial, deed;
        r, serial, deed := AcceptOne(backlog[i].socket);
        ExtendsSteps(old(roster), old(hist), r0, h0, roster, hist);
        LongerStill(old(handle.urgent), old(handle.common), u, c, handle.urgent, handle.common);
        AdmitOneMore(Fixed(), b, deeds, deed, all, i);
        deeds := deeds + [deed];
        if r.Stop? {
          return;
        }
        OneMore(all, i, serials, serial, r0, h0, roster, hist, old(created), from, created);
        serials := serials + [serial];
        i := i + 1;
      }
      AcceptedEnds(backlog, i);
      assert all[..i] == all;
      r := Go;
    }

    method AcceptOne(socket: Socket) returns (r: Status, ghost serial: nat, ghost deed: Deed)
      requires Valid()
      modifies this, handle, Repr
      ensures Ran(r) && handle.Grew() && events == old(events)
      ensures r.Go? ==> old(created) <= serial < created && serial in roster.issued
      ensures r.Go? ==> roster.issued[serial].fd == socket.fd
      ensures deed == Deed(Work.Admit(socket), old(View()), View(), r) && Done(Fixed(), deed)
    {
      hide Structure, Matched, Calm, Accounted, AllClosed, Extends, Longer, Answered, Live, RegisterAs, Make, Done;
      hide PolledAs;
      ghost var key, b := 0, View();
      var others: nat :| 0 <= others;
      serial := created + others;
      NoLonger(handle.urgent, handle.common);
      r := CallPoller();
      assert created == old(created) && roster == old(roster) && hist == old(hist) && Repr == old(Repr);
      if r.Go? {
        r, key := Register(socket, others);
      }
      deed := Deed(Work.Admit(socket), b, View(), r);
      AdmitDone(Fixed(), socket, b, View(), r);
    }

    // ----- the loop -----

    /** The receiving side of a socket changes, without input being taken off it. */
    method SetInbound(key: nat, inbound: Inbound)
      requires ValidBut(key) && key in connections && connections[key].socket.Some?
      requires var was := connections[key].socket.value.inbound;
               was.rx <= inbound.rx && (was.eof ==> inbound.eof) && inbound.turns == was.turns
      modifies Touched(key)`socket
      ensures ValidBut(key) && Waits(old(View()), View())
      ensures connections[key].socket == Some(old(connections[key].socket).value.(inbound := inbound))
      ensures key in old(Live()) && key in Live() && Live() == old(Live())[key := Live()[key]]
      ensures old(Live())[key].socket.Some?
      ensures old(Live())[key].socket.value.inbound == old(connections[key].socket).value.inbound
      ensures Live()[key].socket.Some? && Live()[key].socket.value.inbound == inbound
    {
      hide Live, Longer;
      NoLonger(handle.urgent, handle.common);
      var c := connections[key];
      assert Slot(key, c, roster);
      c.socket := Some(c.socket.value.(inbound := inbound));
      assert Slot(key, c, roster);
      TenantKeepsStructure(key);
      TenantKeepsMatched(key);
      TenantKeepsCalm(key);
      TenantShows(key);
    }

    lemma TenantCalm(key: nat)
      requires Valid() && key in connections
      ensures ValidBut(key) && connections[key].socket.Some? && CalmConn(key, connections[key])
    {
      ValidIsValidBut(key);
      assert Slot(key, connections[key], roster) && CalmConn(key, connections[key]);
    }

    /** Bytes or the end of the stream reach a socket. */
    method Arrive(key: nat, data: Bytes, hangup: bool)
      requires Valid()
      modifies Touched(key)`socket
      ensures Valid()
      ensures key in connections ==>
                && old(connections[key].socket).Some? && connections[key].socket.Some?
                && connections[key].socket.value.inbound
                   == old(connections[key].socket).value.inbound.Arrive(data, hangup)
      ensures Waits(old(View()), View())
      ensures Gained(old(Live()), [Arrival(key, data, hangup)], Live())
    {
      hide Structure, Matched, Calm, Live, Waits, Gained;
      SameView(View());
      NothingMoves(View(), View());
      EveryoneHasSocket();
      if key in connections {
        TenantCalm(key);
        SetInbound(key, connections[key].socket.value.inbound.Arrive(data, hangup));
        CalmEverywhere(key);
      }
      OneGained(Arrival(key, data, hangup), old(Live()), Live());
    }

    lemma EveryoneHasSocket()
      requires Valid()
      ensures Live().Keys == connections.Keys && forall k :: k in Live() ==> Live()[k].socket.Some?
    {
      PeerAt(0);
      forall k | k in connections ensures connections[k].socket.Some? {
        assert Slot(k, connections[k], roster);
      }
    }

    /** One more event is at hand. */
    method AddEvent(e: Event)
      requires Valid()
      modifies this`events
      ensures Valid() && events == old(events) + [e]
    {
      hide Structure, Matched, Calm, CalmConn, HasEvent;
      events := events + [e];
      forall k: nat | HasEvent(old(events), k) ensures HasEvent(events, k) {
        MoreEvents(old(events), e, k);
      }
      NoticeKept(-1);
    }

    /** The poller hands over an event; with edge triggering it will not repeat it. */
    method HandOver(e: Event)
      requires Valid()
      modifies this`events, Touched(e.token)`socket
      ensures Valid() && events == old(events) + [e] && Waits(old(View()), View())
      ensures Gained(old(Live()), [], Live())
    {
      hide Structure, Matched, Calm, Live, Waits, Gained;
      SameView(View());
      NothingMoves(View(), View());
      EveryoneHasSocket();
      NoneGained(Live());
      AddEvent(e);
      if e.Readish() && e.token in connections {
        LowerEdge(e);
      }
    }

    method LowerEdge(e: Event)
      requires Valid() && e.Readish() && e.token in connections && events != [] && events[|events| - 1] == e
      modifies Touched(e.token)`socket
      ensures Valid() && Waits(old(View()), View())
      ensures Gained(old(Live()), [], Live())
    {
      hide Structure, Matched, Calm, Live, Waits;
      var key := e.token;
      EveryoneHasSocket();
      TenantCalm(key);
      SetInbound(key, connections[key].socket.value.inbound.(edge := false));
      CalmEverywhere(key);
    }

    /** The next event leaves the list; if it announced input, that is now for its handler to see to. */
    method TakeEvent() returns (e: Event)
      requires Valid() && events != []
      modifies this`events
      ensures [e] + events == old(events)
      ensures ValidBut(e.token) && (!e.Readish() ==> Valid())
    {
      hide Structure, Matched, Calm, CalmConn, Still, HasEvent;
      ValidIsValidBut(events[0].token);
      e := events[0];
      events := events[1..];
      forall k: nat | HasEvent(old(events), k) && (k != e.token || !e.Readish()) ensures HasEvent(events, k) {
        FewerEvents(old(events), k);
      }
      NoticeKept(e.token);
      if !e.Readish() {
        NoticeKept(-1);
      }
    }

    /** Tokens of the waker and of the listeners are nobody's slot. */
    lemma NobodysToken(token: nat)
      requires ValidBut(token) && !Dispatch(token).ConnectionTarget?
      ensures Valid()
    {
      forall k | k in connections ensures k < SLOT_LIMIT {
        assert Slot(k, connections[k], roster);
      }
      CalmEverywhere(token);
    }

    /** Shut down, the loop listens on only if it was `on_open` that asked for it while accepting. */
    twostate predicate ListeningAfter(r: Status, deeds: seq<Deed>)
      reads this`listeners
    {
      listeners == if r == Stop(ShutDown) && !(deeds != [] && deeds[|deeds| - 1].work.Admit?) then None
                   else old(listeners)
    }

    /** What an event calls for. */
    method Attend(e: Event, ghost note: Deed) returns (r: Status, ghost visit: Visit)
      requires ValidBut(e.token) && (!e.Readish() ==> Valid())
      requires note.work == Begin(e) && note.after == View()
      modifies this, handle, Repr
      ensures Ran(r) && events == old(events) && ListeningAfter(r, visit.deeds)
      ensures visit.event == e && visit.note == note && Called(old(listeners), visit)
      ensures Follows(Fixed(), old(View()), visit.deeds, View()) && StatusOf(visit.deeds) == r
    {
      hide Structure, Matched, Calm, Accounted, AllClosed, Extends, Longer, Registered, View, Follows, Runs, Admits;
      hide IoPlan, Accepted;
      var target := Dispatch(e.token);
      ghost var deeds;
      if target.ConnectionTarget? {
        r, deeds := ProcessIo(e);
        visit := Visit(e, note, deeds);
        NoAdmit(deeds, r, e);
        return;
      }
      NobodysToken(e.token);
      if target.WakeTarget? {
        r, deeds := ProcessCommand();
        visit := Visit(e, note, deeds);
        NoneAdmitted(deeds, note.after.queues);
      } else {
        ghost var serials;
        r, serials, deeds := AcceptProcess(target.index, e.backlog);
        visit := Visit(e, note, deeds);
        AdmitsNone();
        AdmitsLast(Fixed(), old(View()), deeds, View(), r,
                   if listeners.Some? && target.index < listeners.value then Accepted(e.backlog) else []);
      }
    }

    /** Sees to one event. */
    method HandleEvent(e: Event) returns (r: Status, ghost visit: Visit)
      requires ValidBut(e.token) && (!e.Readish() ==> Valid())
      modifies this, handle, Repr
      ensures Ran(r) && events == old(events) && ListeningAfter(r, [visit.note] + visit.deeds)
      ensures StatusOf([visit.note] + visit.deeds) == r && StatusOf(visit.deeds) == r
      ensures visit.event == e && Called(old(listeners), visit)
      ensures Follows(Fixed(), old(View()), [visit.note] + visit.deeds, View())
    {
      hide Structure, Matched, Calm, Accounted, AllClosed, Extends, Longer, View, Follows, Called;
      ghost var b := View();
      ghost var note := Deed(Begin(e), b, b, Go);
      SameView(b);
      NothingFollows(Fixed(), b);
      FollowsOn(Fixed(), b, [], note);
      assert [] + [note] == [note];
      r, visit := Attend(e, note);
      FollowsTogether(Fixed(), b, [note], b, visit.deeds, View());
    }

    /** Sees to every event at hand, in order. */
    method HandleEvents() returns (r: Status, ghost visits: seq<Visit>)
      requires Valid()
      modifies this, handle, Repr
      ensures Ran(r) && (r.Go? ==> events == []) && ListeningAfter(r, VisitDeeds(visits))
      ensures StatusOf(VisitDeeds(visits)) == r && Visited(old(listeners), old(events), visits, r)
      ensures Follows(Fixed(), old(View()), VisitDeeds(visits), View())
    {
      hide Structure, Matched, Calm, Accounted, AllClosed, Extends, Still, Noticed, Longer, View, Follows, Called;
      hide Visited, VisitDeeds, StatusOf;
      ExtendsItself(roster, hist);
      ghost var b := View();
      r, visits := Go, [];
      NothingFollows(Fixed(), b);
      NothingVisited(listeners, events);
      while events != []
        invariant Ran(Go) && r == Go && listeners == old(listeners)
        invariant |visits| + |events| == |old(events)| && old(events)[|visits|..] == events
        invariant Follows(Fixed(), b, VisitDeeds(visits), View()) && StatusOf(VisitDeeds(visits)).Go?
        invariant Visited(listeners, old(events)[..|visits|], visits, Go)
        decreases |events|
      {
        ghost var r0, h0, m := roster, hist, View();
        var e := TakeEvent();
        NextOf(old(events), |visits|, e, events);
        ghost var visit;
        r, visit := HandleEvent(e);
        ExtendsSteps(old(roster), old(hist), r0, h0, roster, hist);
        SeenTo(Fixed(), b, visits, m, visit, View(), old(listeners), old(events), r);
        visits := visits + [visit];
        if r.Stop? {
          return;
        }
      }
      assert old(events)[..|visits|] == old(events);
    }

    /** The poller comes back: input has reached some sockets, and some events are handed over. */
    method HandOverAll(turn: PollTurn)
      requires Valid() && turn.Polled?
      modifies this`events, Repr`socket
      ensures Valid() && events == old(events) + turn.events && Waits(old(View()), View())
      ensures View().queues == old(View()).queues && Gained(old(Live()), turn.arrivals, Live())
    {
      hide Structure, Matched, Calm, Valid, Live, Waits, Gained;
      ghost var b := View();
      SameView(b);
      NothingMoves(b, b);
      EveryoneHasSocket();
      NoneGained(b.live);
      assert turn.arrivals[..0] == [];
      for i := 0 to |turn.arrivals|
        invariant Valid() && events == old(events) && Waits(b, View())
        invariant Gained(b.live, turn.arrivals[..i], Live())
      {
        ghost var m := View();
        ArriveInside(turn.arrivals[i]);
        WaitsOn(b, m, View());
        GainedToo(b.live, turn.arrivals[..i], m.live, turn.arrivals[i], Live());
        assert turn.arrivals[..i + 1] == turn.arrivals[..i] + [turn.arrivals[i]];
      }
      assert turn.arrivals[..|turn.arrivals|] == turn.arrivals;
      for i := 0 to |turn.events|
        invariant Valid() && events == old(events) + turn.events[..i] && Waits(b, View())
        invariant Gained(b.live, turn.arrivals, Live())
      {
        ghost var m := View();
        HandOverInside(turn.events[i]);
        WaitsOn(b, m, View());
        StillGained(b.live, turn.arrivals, m.live, Live());
      }
      assert turn.events[..|turn.events|] == turn.events;
    }

    method ArriveInside(a: Arrival)
      requires Valid()
      modifies Repr`socket
      ensures Valid() && Waits(old(View()), View())
      ensures Gained(old(Live()), [a], Live())
    {
      TenantsInside(a.key);
      hide Structure, Matched, Calm, View, Waits;
      Arrive(a.key, a.data, a.hangup);
    }

    method HandOverInside(e: Event)
      requires Valid()
      modifies this`events, Repr`socket
      ensures Valid() && events == old(events) + [e] && Waits(old(View()), View())
      ensures Gained(old(Live()), [], Live())
    {
      TenantsInside(e.token);
      hide Structure, Matched, Calm, View, Waits;
      HandOver(e);
    }

    /** The events are handed over, and the commands that were waiting before the poll are run. */
    method RunPending(turn: PollTurn, hasPending: bool) returns (r: Status, ghost pending: seq<Deed>)
      requires Valid() && turn.Polled?
      modifies this, handle, Repr
      ensures Ran(r) && events == old(events) + turn.events && ListeningAfter(r, pending)
      ensures Follows(Fixed(), old(View()), pending, View()) && StatusOf(pending) == r
      ensures if hasPending then Runs(pending, old(View()).queues) else pending == []
    {
      hide Structure, Matched, Calm, Accounted, AllClosed, Extends, Longer, View, Follows, Runs, Waits;
      ExtendsItself(roster, hist);
      ghost var b := View();
      HandOverAll(turn);
      ghost var m := View();
      r, pending := RunIf(hasPending);
      FollowsAfter(Fixed(), b, m, pending, View());
    }

    method RunIf(hasPending: bool) returns (r: Status, ghost pending: seq<Deed>)
      requires Valid()
      modifies this, handle, Repr
      ensures Ran(r) && events == old(events) && ListeningAfter(r, pending)
      ensures Follows(Fixed(), old(View()), pending, View()) && StatusOf(pending) == r
      ensures if hasPending then Runs(pending, old(View()).queues) else pending == []
    {
      hide Structure, Matched, Calm, Accounted, AllClosed, Extends, Longer, View, Follows, Runs;
      ExtendsItself(roster, hist);
      ghost var b := View();
      r, pending := Go, [];
      NothingFollows(Fixed(), b);
      if hasPending {
        r, pending := ProcessCommand();
        NoneAdmitted(pending, b.queues);
      }
    }

    /** What follows a poll: the commands that were waiting before it, then every event. */
    method AfterPoll(turn: PollTurn, hasPending: bool)
      returns (r: Status, ghost pending: seq<Deed>, ghost visits: seq<Visit>)
      requires Valid() && turn.Polled?
      modifies this, handle, Repr
      ensures Ran(r) && (r.Go? ==> events == []) && ListeningAfter(r, pending + VisitDeeds(visits))
      ensures Follows(Fixed(), old(View()), pending + VisitDeeds(visits), View())
      ensures StatusOf(pending + VisitDeeds(visits)) == r
      ensures if hasPending then Runs(pending, old(View()).queues) else pending == []
      ensures if StatusOf(pending).Stop? then visits == [] && r == StatusOf(pending)
              else Visited(old(listeners), old(events) + turn.events, visits, r)
    {
      hide Structure, Matched, Calm, Accounted, AllClosed, Extends, Longer, View, Follows, Visited, Runs, VisitDeeds;
      ghost var b := View();
      visits := [];
      NoVisitDeeds();
      r, pending := RunPending(turn, hasPending);
      assert pending + [] == pending;
      if r.Stop? {
        return;
      }
      ghost var r0, h0, n := roster, hist, View();
      r, visits := HandleEvents();
      FollowsTogether(Fixed(), b, pending, n, VisitDeeds(visits), View());
      LastAdmitted(pending, VisitDeeds(visits));
      ExtendsSteps(old(roster), old(hist), r0, h0, roster, hist);
    }

    /** The call of the poller; commands may arrive before it. */
    method PollOnce() returns (r: Status, hasPending: bool, ghost poll: Deed)
      requires Valid()
      modifies this`incoming, this`osResults, handle
      ensures Ran(r)
      ensures poll == Deed(Poll(hasPending), old(View()), View(), r) && Done(Fixed(), poll) && r != Stop(ShutDown)
      ensures Follows(Fixed(), old(View()), [poll], View())
    {
      hide Structure, Matched, Calm, Accounted, AllClosed, Extends, Longer, Live, Follows, Waits;
      ExtendsItself(roster, hist);
      ghost var b := View();
      NothingFollows(Fixed(), b);
      hasPending := handle.urgent != [] || handle.common != [];
      Arrivals();
      r := CallPoller();
      poll := Deed(Poll(hasPending), b, View(), r);
      FollowsOn(Fixed(), b, [], poll);
      assert [] + [poll] == [poll];
    }

    /** One round: poll, run commands that were waiting before, then see to every event. */
    method Round(turn: PollTurn) returns (r: Status, ghost lap: Lap)
      requires Valid()
      modifies this, handle, Repr
      ensures Ran(r) && ListeningAfter(r, LapDeeds(lap))
      ensures Follows(Fixed(), old(View()), LapDeeds(lap), View()) && StatusOf(LapDeeds(lap)) == r
      ensures LapOf(turn.Polled?, old(listeners), AtHand(old(events), turn), lap, r)
      ensures r.Go? ==> events == if turn.Polled? then [] else old(events)
    {
      hide Structure, Matched, Calm, Accounted, AllClosed, Extends, Longer, View, Follows, Visited, Runs, VisitDeeds;
      hide Done, LapDeeds;
      ghost var b := View();
      ghost var poll;
      var hasPending;
      r, hasPending, poll := PollOnce();
      lap := Lap(poll, [], []);
      ShortLap(poll);
      if r.Stop? || turn.PollInterrupted? {
        return;
      }
      ghost var m, r0, h0, pending, visits := View(), roster, hist, [], [];
      r, pending, visits := AfterPoll(turn, hasPending);
      lap := Lap(poll, pending, visits);
      LapAdds(lap);
      FollowsTogether(Fixed(), b, [poll], m, pending + VisitDeeds(visits), View());
      LastAdmitted([poll], pending + VisitDeeds(visits));
      ExtendsSteps(old(roster), old(hist), r0, h0, roster, hist);
    }

    /**
     The loop, for as many polls as there are turns: whatever the sockets, the
     poller, the handlers and other threads do, its deeds lead from the state it
     started in to the state it ends in, and every turn is a lap. It ends only with
     the last deed; `WhyTheLoopEnded` and `Healthy` say for which reasons.
     */
    method RunLoop(turns: seq<PollTurn>) returns (r: Status, ghost laps: seq<Lap>)
      requires Valid()
      modifies this, handle, Repr
      ensures Ran(r) && ListeningAfter(r, AllDeeds(laps))
      ensures Follows(Fixed(), old(View()), AllDeeds(laps), View()) && StatusOf(AllDeeds(laps)) == r
      ensures |laps| <= |turns| && (r.Go? ==> |laps| == |turns|)
      ensures old(events) == [] ==> LapsOf(turns, old(listeners), laps) && (r.Go? ==> events == [])
    {
      hide Structure, Matched, Calm, Accounted, AllClosed, Extends, Longer, View, Follows, LapOf, LapDeeds;
      hide LapsOf, AllDeeds, StatusOf;
      ExtendsItself(roster, hist);
      ghost var b := View();
      laps := [];
      NothingFollows(Fixed(), b);
      NoLapYet(turns, listeners);
      for i := 0 to |turns|
        invariant Ran(Go) && listeners == old(listeners) && |laps| == i
        invariant Follows(Fixed(), b, AllDeeds(laps), View()) && StatusOf(AllDeeds(laps)).Go?
        invariant old(events) == [] ==> LapsOf(turns, listeners, laps) && events == []
      {
        ghost var r0, h0, m, listeners0 := roster, hist, View(), listeners;
        ghost var lap;
        r, lap := Round(turns[i]);
        ExtendsSteps(old(roster), old(hist), r0, h0, roster, hist);
        FollowsTogether(Fixed(), b, AllDeeds(laps), m, LapDeeds(lap), View());
        LastAdmitted(AllDeeds(laps), LapDeeds(lap));
        LapsOn(laps, lap);
        if old(events) == [] {
          OneLapMore(turns, listeners0, laps, lap);
        }
        laps := laps + [lap];
        if r.Stop? {
          return;
        }
      }
      r := Go;
    }

    // ----- how the promises break -----

    /**
     An abrupt close that throws bytes away always leaves room for a break: if the
     socket would take everything and `on_close` writes one wrong byte, what went
     out is no prefix of what was accepted. `ClosedAs` says the other half: with
     nothing thrown away it always is one.
     */
    method LateWriteBreaksPrefix(key: nat) returns (r: Status, ghost c: Connection)
      requires Valid() && key in connections && connections[key].socket.Some?
      requires Concat(connections[key].Queue()) != [] && connections[key].socket.value.sends == []
      modifies this`connections, this`pool, this`connCount, this`turns, this`osResults, this`hist
      modifies handle, Touched(key)
      ensures c == old(connections[key]) && !(c.log.OnWire() <= c.log.accepted)
    {
      hide Structure, Matched, Calm, Accounted, AllClosed, Extends, Longer, Recorded, CloseAs, View, Concat, Parts;
      hide Flushed;
      c := connections[key];
      var skipped := Concat(connections[key].Queue());
      var late: Bytes := [if skipped[0] == 0 then 1 else 0];
      turns := [HandlerTurn([PutBytes(late)], Continue)];
      ValidIsValidBut(key);
      TenantSound(key);
      BrokenPrefix(c.log.wire, skipped, late);
      r := CloseTenant(key, false);
    }

    /** A loop that let in one connection, whose `on_open` wrote a byte that the socket would not take. */
    static method OneByteQueued() returns (loop: EventLoop, key: nat)
      ensures fresh(loop) && fresh(loop.handle) && fresh(loop.Repr) && loop.Valid()
      ensures key in loop.connections && loop.connections[key] in loop.Repr
      ensures var c := loop.connections[key];
              c.socket.Some? && c.socket.value.sends == [] && c.Queue() == [[7]]
    {
      hide EventLoop.Valid, RegisterAs, EventLoop.Live, Longer, Answered, Extends, EventLoop.Ended;
      loop := new EventLoop(0, 1024, 1024, 0, None, [HandlerTurn([PutBytes([7])], Continue)], [], []);
      ghost var b := loop.View();
      loop.EmptyShows();
      ghost var k;
      var r;
      r, k := loop.Register(Socket(3, Inbound([], false, false, []), [Block], false), 0);
      k := OpenedBlocked(loop.Fixed(), b, loop.View(), r);
      loop.ShowsInside(k);
      key :| key in loop.connections;
    }

    lemma EmptyShows()
      requires Valid() && connections == map[]
      ensures View().live == map[]
    {
      EveryoneShows();
    }

    /** What the loop looks like is what it is. */
    lemma ShowsInside(key: nat)
      requires Valid()
      ensures View().live.Keys == connections.Keys
      ensures key in connections ==> connections[key] in Repr && View().live[key] == PeerOf(connections[key])
    {
      PeerAt(key);
      TenantsInside(key);
    }

    /** A run in which it happens: one byte queued, an abrupt close, one byte written late. */
    static method PrefixBreaks() returns (c: Connection)
      ensures !(c.log.OnWire() <= c.log.accepted)
    {
      hide EventLoop.Valid;
      var loop, key := OneByteQueued();
      c := loop.connections[key];
      SingleChunk([7]);
      var r;
      ghost var closed;
      r, closed := loop.LateWriteBreaksPrefix(key);
    }

    /**
     The listening sockets outlive a shutdown that `on_open` asks for while the loop
     accepts: it answers so for the first connection, and the loop still listens.
     */
    method ListenersOutlive(socket: Socket) returns (r: Status, ghost deeds: seq<Deed>)
      requires Valid() && listeners.Some? && listeners.value > 0 && |connections.Keys| < SLOT_LIMIT
      requires turns != [] && turns[0].action.ShutdownLoop? && AllOk(osResults)
      modifies this, handle, Repr
      ensures r == Stop(ShutDown) && listeners == old(listeners) && connections == map[]
    {
      hide Valid, Longer, Carried, AllOk, Extends, AllClosed, Live;
      ghost var b := View();
      ShowsInside(0);
      ghost var serials;
      r, serials, deeds := AcceptProcess(0, [Incoming(socket)]);
      AskedWhileAccepting(Fixed(), socket, b, deeds, View(), r);
    }

    /** An empty write behind queued data is enough for the write loop to close a healthy connection. */
    method EmptyWriteClosesHealthy(c: Connection) returns (status: IoStatus)
      requires c.Valid() && c.socket.Some? && c.socket.value.sends == [] && c.Queue() != []
      requires |Concat(c.Queue())| < maxBatchSize
      modifies c`socket, c`outBuffer, c`log
      ensures status == Closed(false) && c.socket.Some? && c.socket.value.sends == []
    {
      var w := c.WriteBytes([]);
      EmptyLastIsUnflushable(c.Queue());
      QueuedNothing(old(c.Queue()));
      hide Flushable, Moved, MovedUntil, Concat;
      ghost var log, queue := c.log, c.Queue();
      status := ProcessWrite(c);
      SameOutput(log, queue, c.log, c.Queue());
      MovingSocketStays(status, [], c.socket.value.sends, c.Queue() == [], false, Stuck(c.Queue()));
    }

    // ----- what the invariants mean -----

    /**
     A live connection has its socket, so no unwrap of it fails; its handle names
     this loop and this slot; it is in no other slot and not in the pool; and the
     counter is not zero, so removing it cannot take the counter below.
     */
    lemma SlabIsSound(k: nat, j: nat)
      requires Structure() && k in connections && j in connections
      ensures connections[k].socket.Some? && connections[k] !in pool && connCount > 0
      ensures connections[k].gfd.EventLoopIndex() == loopId && connections[k].gfd.SlabIndex() == k
      ensures connections[k] == connections[j] <==> k == j
    {
      assert Slot(k, connections[k], roster) && Slot(j, connections[j], roster);
      AccessorsInvertMake(connections[k].socket.value.fd, loopId, k, connections[k].log.serial);
      AccessorsInvertMake(connections[j].socket.value.fd, loopId, j, connections[j].log.serial);
      assert k in connections.Keys;
      assert |connections.Keys| > 0;
    }

    /** The handler's `close` of the connection in slot k sends one command, to close slot k, and does nothing else. */
    lemma CloseNamesItsSlot(k: nat, t: Desk)
      requires Structure() && k in connections && connections[k].socket.Some?
      requires Did([CloseLater], DeskOf(handle, connections[k]), t)
      ensures t == DeskOf(handle, connections[k]).(queues := t.queues)
      ensures var overflows := |handle.urgent| >= 1024;
              && t.queues.urgent == handle.urgent + (if overflows then [] else [Command.Close(k)])
              && t.queues.common == handle.common + (if overflows then [Command.Close(k)] else [])
    {
      SlabIsSound(k, k);
      DidOne(CloseLater, DeskOf(handle, connections[k]), t);
      OverflowIff(Command.Close(k), |handle.urgent|);
    }

    /** Between polls nothing is at hand: unread input has an event coming or a read queued. */
    lemma UnreadInputIsNoticed(k: nat)
      requires Valid() && events == [] && k in connections
      ensures connections[k].socket.Some?
      ensures connections[k].socket.value.inbound.Readable() ==>
                connections[k].socket.value.inbound.edge || Command.Read(k) in handle.urgent
    {
      assert Slot(k, connections[k], roster) && CalmConn(k, connections[k]);
    }

    /** While the loop runs, being in the slab and still being owed an `on_close` are one and the same. */
    lemma OwedExactlyTheLive(serial: nat)
      requires Valid() && serial in roster.homes
      ensures hist.closes[serial] == if LiveAt(serial) then 0 else 1
    {
      assert hist.closes[serial] <= 1;
    }

    /** After a shutdown, every connection that was let in has had exactly one `on_close`. */
    lemma EveryoneSaidGoodbye(serial: nat)
      requires AllClosed() && serial in roster.homes
      ensures hist.closes[serial] == 1
    {
      assert hist.closes[serial] <= 1;
    }
  }

  lemma JoinsAs(key: nat, gfd: Gfd, serial: nat, connections: map<nat, Connection>, c: Connection, r: Roster)
    requires key !in connections && serial !in r.issued
    ensures Joined(key, gfd, serial, connections.Keys, r, connections[key := c].Keys,
                   Roster(r.homes[serial := key], r.issued[serial := gfd]))
  {
    assert connections[key := c].Keys == connections.Keys + {key};
  }

  lemma CountInsert(connections: map<nat, Connection>, key: nat, c: Connection)
    requires key !in connections
    ensures |connections[key := c].Keys| == |connections.Keys| + 1
  {
    assert connections[key := c].Keys == connections.Keys + {key};
  }

  lemma CountRemove(connections: map<nat, Connection>, key: nat)
    requires key in connections
    ensures |(connections - {key}).Keys| == |connections.Keys| - 1
  {
    assert (connections - {key}).Keys == connections.Keys - {key};
  }

  lemma InTail(commands: seq<Command>, command: Command)
    requires command in commands && commands[0] != command
    ensures command in commands[1..]
  {
    var i :| 0 <= i < |commands| && commands[i] == command;
    assert commands[1..][i - 1] == command;
  }

  lemma NextOf(all: seq<Event>, k: nat, e: Event, rest: seq<Event>)
    requires k < |all| && all[k..] == [e] + rest
    ensures all[k] == e && all[k + 1..] == rest
  {
    assert all[k + 1..] == all[k..][1..];
  }

  lemma MoreEvents(events: seq<Event>, e: Event, key: nat)
    requires HasEvent(events, key)
    ensures HasEvent(events + [e], key)
  {
    var i :| 0 <= i < |events| && events[i].token == key && events[i].Readish();
    assert (events + [e])[i] == events[i];
  }

  lemma FewerEvents(events: seq<Event>, key: nat)
    requires HasEvent(events, key) && !(events[0].token == key && events[0].Readish())
    ensures HasEvent(events[1..], key)
  {
    var i :| 0 <= i < |events| && events[i].token == key && events[i].Readish();
    assert events[1..][i - 1] == events[i];
  }

  /** How a finished registration ended: unless output was thrown away, its wire is a prefix of what it accepted. */
  lemma FinishedWireIsPrefix(r: Roster, h: History, serial: nat)
    requires HistoryOk(r, h) && serial in h.finals
    ensures var log := h.finals[serial];
            && log.consumed <= log.received
            && (log.skipped == [] ==> log.OnWire() <= log.accepted)
  {
    var log := h.finals[serial];
    assert log.aired + [] + log.wire == log.OnWire();
  }

  /** Before the counter has wrapped, bytes sent under a handle only ever went to the registration that was given it. */
  lemma StaleHandleNeverDelivers(r: Roster, h: History, created: nat, d: Delivery, owner: nat)
    requires RosterOk(r, created) && HistoryOk(r, h) && created <= U32
    requires d in h.deliveries && owner in r.issued && r.issued[owner] == d.gfd
    ensures d.serial == owner
  {
    assert d.serial % U32 == owner % U32;
  }

  /** One `on_close` more, for a registration that had none; on success its history is complete. */
  lemma ClosedOnce(r: Roster, h: History, serial: nat, log: Log)
    requires HistoryOk(r, h) && serial in r.homes && serial !in h.closes && EndsWell(log)
    ensures var noted := h.(closes := h.closes + multiset{serial});
            var ended := noted.(finals := h.finals[serial := log]);
            HistoryOk(r, noted) && Extends(r, h, r, noted) && HistoryOk(r, ended) && Extends(r, h, r, ended)
  {
  }

  lemma NobodyYet(r: Roster, from: nat)
    ensures Registered([], [], r, from, from)
  {
  }

  lemma OneMore(waiting: seq<Socket>, i: nat, serials: seq<nat>, serial: nat,
                r0: Roster, h0: History, r1: Roster, h1: History, from: nat, before: nat, after: nat)
    requires i < |waiting| && Registered(waiting[..i], serials, r0, from, before) && from <= before
    requires Extends(r0, h0, r1, h1) && before <= serial < after
    requires serial in r1.issued && r1.issued[serial].fd == waiting[i].fd
    ensures Registered(waiting[..i + 1], serials + [serial], r1, from, after)
  {
  }

  lemma ExtendsItself(r: Roster, h: History)
    ensures Extends(r, h, r, h)
  {
  }

  lemma ExtendsSteps(r0: Roster, h0: History, r1: Roster, h1: History, r2: Roster, h2: History)
    requires Extends(r0, h0, r1, h1) && Extends(r1, h1, r2, h2)
    ensures Extends(r0, h0, r2, h2)
  {
  }

  /** A new handle takes nothing away from the records. */
  lemma IssuedKeepsRecords(r: Roster, h: History, serial: nat, gfd: Gfd, created: nat)
    requires RosterOk(r, created) && HistoryOk(r, h) && created <= serial && gfd.sequence == serial % U32
    ensures var next := r.(issued := r.issued[serial := gfd]);
            RosterOk(next, serial + 1) && HistoryOk(next, h) && Extends(r, h, next, h)
  {
    assert serial !in r.issued;
  }

  lemma AdmittedKeepsRecords(r: Roster, h: History, serial: nat, gfd: Gfd, key: nat, created: nat)
    requires RosterOk(r, created) && HistoryOk(r, h) && created <= serial && gfd.sequence == serial % U32
    ensures var next := Roster(r.homes[serial := key], r.issued[serial := gfd]);
            && RosterOk(next, serial + 1) && HistoryOk(next, h) && Extends(r, h, next, h)
            && serial !in r.homes && serial !in r.issued && serial !in h.closes
  {
    assert serial !in r.issued;
  }

  lemma LateBytes(wire: Bytes, late: Bytes)
    ensures wire + ([] + late) == wire + late
  {
  }

  /** With nothing queued and nothing thrown away, all that was accepted is on the wire. */
  lemma AllIsOut(log: Log, queue: seq<Bytes>)
    requires log.OutputConserved(queue) && log.Intact() && queue == []
    ensures log.accepted <= log.OnWire()
  {
  }

  lemma BrokenPrefix(wire: Bytes, skipped: Bytes, late: Bytes)
    requires skipped != [] && late != [] && late[0] != skipped[0]
    ensures !(wire + late <= wire + skipped + late)
  {
    assert (wire + late)[|wire|] == late[0];
    assert (wire + skipped + late)[|wire|] == skipped[0];
  }

  lemma QueuedNothing(queue: seq<Bytes>)
    ensures Concat(queue + [[]]) == Concat(queue)
  {
    ConcatAppend(queue, [[]]);
    SingleChunk([]);
  }

  lemma NoHoleNoGap(log: Log, queue: seq<Bytes>)
    requires log.OutputConserved(queue) && log.skipped == []
    ensures log.OnWire() <= log.accepted
  {
    assert log.aired + [] + log.wire == log.OnWire();
  }

  lemma FinishedLog(log: Log, flat: Bytes, queue: seq<Bytes>)
    requires log.InputConserved(flat) && log.OutputConserved(queue)
    ensures EndsWell(log)
  {
  }
}
