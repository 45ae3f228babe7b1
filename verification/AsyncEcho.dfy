/**
 The asynchronous echo, end to end: a loop reads bytes and submits them to the
 worker shard of its number, the worker sends them back as an `AsyncWrite`, and
 the loop accepts them for output if the handle is still live. Handles are
 creation numbers: below 2^32 creations a `Gfd` names one.
 */
module AsyncEcho {
  import opened Chunks
  import opened Connections
  import opened Gfds
  import opened Sockets
  import opened Tokens

  datatype Task = Task(handle: nat, data: Bytes)

  datatype Phase = NotStarted | Running | Stopped

  /**
   One registration. What its handler was given is split by what the pool did with
   it: dropped before the pool ran, submitted, dropped after it was shut down.
   */
  datatype Conn = Conn(owner: nat, live: bool, early: Bytes, submitted: Bytes, late: Bytes, accepted: Bytes) {
    function Received(): Bytes {
      early + submitted + late
    }
  }

  /** Per shard a queue and the task its worker holds; per loop its urgent queue. */
  datatype Echo = Echo(phase: Phase, conns: map<nat, Conn>,
                       shards: seq<seq<Task>>, hands: seq<seq<Task>>, urgents: seq<seq<Task>>)

  predicate IsInit(s: Echo) {
    && s.phase.NotStarted? && s.conns == map[]
    && |s.shards| == |s.hands| > 0
    && (forall i :: 0 <= i < |s.shards| ==> s.shards[i] == [] && s.hands[i] == [])
    && (forall i :: 0 <= i < |s.urgents| ==> s.urgents[i] == [])
  }

  datatype Step =
    | StartPool
    | StopPool
    | Open(handle: nat, owner: nat)
    | Traffic(handle: nat, data: Bytes)
    | Fetch(shard: nat)
    | SendCommand(shard: nat)
    | Apply(owner: nat, ok: bool)
    | Close(handle: nat)

  /** The loop index in the handles that the loop at position `owner` gives out: eight bits. */
  function LoopIndex(owner: nat): (r: nat)
    ensures r == owner % LOOP_LIMIT
  {
    AccessorsInvertMake(0, owner % LOOP_LIMIT, 0, 0);
    Make(0, owner % LOOP_LIMIT, 0, 0).EventLoopIndex()
  }

  /** The loop that `send_command` hands a command for such a handle to. */
  function Target(s: Echo, owner: nat): (r: int)
    ensures r == if owner % LOOP_LIMIT < |s.urgents| then owner % LOOP_LIMIT else -1
  {
    AccessorsInvertMake(0, owner % LOOP_LIMIT, 0, 0);
    Route(|s.urgents|, Make(0, owner % LOOP_LIMIT, 0, 0))
  }

  /** The shard a handler submits to: by the handle, too. */
  function ShardOf(s: Echo, owner: nat): (r: nat)
    requires |s.shards| > 0
    ensures r < |s.shards| && r == owner % 256 % |s.shards|
  {
    LoopIndex(owner) % |s.shards|
  }

  predicate Enabled(s: Echo, step: Step) {
    && |s.shards| == |s.hands| > 0
    && match step
       case StartPool => s.phase.NotStarted?
       case StopPool => s.phase.Running?
       case Open(h, owner) => h !in s.conns && owner < |s.urgents|
       case Traffic(h, _) => h in s.conns && s.conns[h].live
       case Fetch(i) => i < |s.shards| && s.shards[i] != [] && s.hands[i] == []
       case SendCommand(i) =>
         && i < |s.hands| && s.hands[i] != []
         && s.hands[i][0].handle in s.conns
         && s.conns[s.hands[i][0].handle].owner < |s.urgents|
       case Apply(owner, _) => owner < |s.urgents| && s.urgents[owner] != []
       case Close(h) => h in s.conns
  }

  function Next(s: Echo, step: Step): Echo
    requires Enabled(s, step)
  {
    match step
    case StartPool => s.(phase := Running)
    case StopPool => s.(phase := Stopped)
    case Open(h, owner) => s.(conns := s.conns[h := Conn(owner, true, [], [], [], [])])
    case Traffic(h, data) =>
      var c := s.conns[h];
      if s.phase.NotStarted? then s.(conns := s.conns[h := c.(early := c.early + data)])
      else if s.phase.Stopped? then s.(conns := s.conns[h := c.(late := c.late + data)])
      else
        var i := ShardOf(s, c.owner);
        s.(conns := s.conns[h := c.(submitted := c.submitted + data)],
           shards := s.shards[i := s.shards[i] + [Task(h, data)]])
    case Fetch(i) =>
      s.(hands := s.hands[i := [s.shards[i][0]]], shards := s.shards[i := s.shards[i][1..]])
    case SendCommand(i) =>
      var task := s.hands[i][0];
      var to := Target(s, s.conns[task.handle].owner);
      var sent := s.(hands := s.hands[i := s.hands[i][1..]]);
      if to < 0 then sent
      else sent.(urgents := s.urgents[to := s.urgents[to] + [task]])
    case Apply(owner, ok) =>
      var task := s.urgents[owner][0];
      var popped := s.(urgents := s.urgents[owner := s.urgents[owner][1..]]);
      if task.handle !in s.conns || !s.conns[task.handle].live || s.conns[task.handle].owner != owner then popped
      else
        var c := s.conns[task.handle];
        popped.(conns := s.conns[task.handle :=
          if ok then c.(accepted := c.accepted + task.data) else c.(live := false)])
    case Close(h) => s.(conns := s.conns[h := s.conns[h].(live := false)])
  }

  ghost predicate RunsTo(s: Echo, steps: seq<Step>, t: Echo)
    decreases |steps|
  {
    if steps == [] then s == t
    else Enabled(s, steps[0]) && RunsTo(Next(s, steps[0]), steps[1..], t)
  }

  /** The states that some run from an initial state ends in. */
  ghost predicate Reachable(s: Echo) {
    exists start, steps :: IsInit(start) && RunsTo(start, steps, s)
  }

  /** The bytes of one registration in a queue of tasks. */
  function Of(h: nat, tasks: seq<Task>): Bytes {
    if tasks == [] then []
    else (if tasks[0].handle == h then tasks[0].data else []) + Of(h, tasks[1..])
  }

  lemma {:induction false} OfAppend(h: nat, tasks: seq<Task>, task: Task)
    ensures Of(h, tasks + [task]) == Of(h, tasks) + (if task.handle == h then task.data else [])
  {
    var all := tasks + [task];
    if tasks == [] {
      assert all[1..] == [];
    } else {
      OfAppend(h, tasks[1..], task);
      assert all[1..] == tasks[1..] + [task];
    }
  }

  /** The bytes of a registration that are on their way back, oldest first. */
  function InFlight(s: Echo, h: nat): Bytes
    requires h in s.conns && s.conns[h].owner < |s.urgents| && |s.shards| == |s.hands| > 0
  {
    var i := ShardOf(s, s.conns[h].owner);
    Of(h, s.urgents[LoopIndex(s.conns[h].owner)]) + Of(h, s.hands[i]) + Of(h, s.shards[i])
  }

  /** These tasks belong in shard i of n; these in the queue of loop l. */
  predicate AtShard(conns: map<nat, Conn>, n: nat, tasks: seq<Task>, i: nat)
    requires n > 0
  {
    forall j :: 0 <= j < |tasks| ==> tasks[j].handle in conns && LoopIndex(conns[tasks[j].handle].owner) % n == i
  }

  predicate AtLoop(conns: map<nat, Conn>, tasks: seq<Task>, l: nat) {
    forall j :: 0 <= j < |tasks| ==> tasks[j].handle in conns && LoopIndex(conns[tasks[j].handle].owner) == l
  }

  /** Every task sits where its registration's loop and shard say. */
  predicate Routed(s: Echo) {
    && |s.shards| == |s.hands| > 0
    && (forall h :: h in s.conns ==> s.conns[h].owner < |s.urgents|)
    && (forall i {:trigger s.shards[i]} :: 0 <= i < |s.shards| ==> AtShard(s.conns, |s.shards|, s.shards[i], i))
    && (forall i {:trigger s.hands[i]} :: 0 <= i < |s.hands| ==>
          AtShard(s.conns, |s.shards|, s.hands[i], i) && |s.hands[i]| <= 1)
    && (forall l {:trigger s.urgents[l]} :: 0 <= l < |s.urgents| ==> AtLoop(s.conns, s.urgents[l], l))
  }

  predicate Phased(c: Conn, phase: Phase) {
    && (phase.NotStarted? ==> c.submitted == [])
    && (!phase.Stopped? ==> c.late == [])
  }

  predicate Balanced(s: Echo, h: nat)
    requires Routed(s) && h in s.conns
  {
    var c := s.conns[h];
    && Phased(c, s.phase)
    && c.accepted <= c.submitted
    && (c.live && c.owner < LOOP_LIMIT ==> c.submitted == c.accepted + InFlight(s, h))
    && (c.owner >= LOOP_LIMIT ==> c.accepted == [])
  }

  predicate Inv(s: Echo) {
    && Routed(s)
    && forall h :: h in s.conns ==> Balanced(s, h)
  }

  lemma {:induction false} OfNone(h: nat, tasks: seq<Task>)
    requires forall j :: 0 <= j < |tasks| ==> tasks[j].handle != h
    ensures Of(h, tasks) == []
  {
    if tasks != [] {
      OfNone(h, tasks[1..]);
    }
  }

  /** Registrations stay, and stay with their loop. */
  predicate Kept(before: map<nat, Conn>, after: map<nat, Conn>) {
    forall h :: h in before ==> h in after && after[h].owner == before[h].owner
  }

  lemma PlacesKept(before: map<nat, Conn>, after: map<nat, Conn>, n: nat, tasks: seq<Task>, i: nat)
    requires n > 0 && Kept(before, after)
    ensures AtShard(before, n, tasks, i) ==> AtShard(after, n, tasks, i)
    ensures AtLoop(before, tasks, i) ==> AtLoop(after, tasks, i)
  {
  }

  lemma PlacesMoved(conns: map<nat, Conn>, n: nat, tasks: seq<Task>, task: Task, i: nat)
    requires n > 0
    ensures AtShard(conns, n, tasks, i) && AtShard(conns, n, [task], i) ==> AtShard(conns, n, tasks + [task], i)
    ensures AtLoop(conns, tasks, i) && AtLoop(conns, [task], i) ==> AtLoop(conns, tasks + [task], i)
    ensures tasks != [] && AtShard(conns, n, tasks, i) ==>
              AtShard(conns, n, tasks[1..], i) && AtShard(conns, n, [tasks[0]], i)
    ensures tasks != [] && AtLoop(conns, tasks, i) ==> AtLoop(conns, tasks[1..], i)
  {
  }

  /** Nothing but the registry has changed, and nobody has moved. */
  lemma RoutedRegistry(s: Echo, t: Echo)
    requires Routed(s) && Kept(s.conns, t.conns)
    requires t.shards == s.shards && t.hands == s.hands && t.urgents == s.urgents
    requires forall h :: h in t.conns ==> t.conns[h].owner < |s.urgents|
    ensures Routed(t)
  {
    hide AtShard, AtLoop, Kept;
    forall i | 0 <= i < |t.shards|
      ensures AtShard(t.conns, |t.shards|, t.shards[i], i) && AtShard(t.conns, |t.shards|, t.hands[i], i)
    {
      PlacesKept(s.conns, t.conns, |s.shards|, s.shards[i], i);
      PlacesKept(s.conns, t.conns, |s.shards|, s.hands[i], i);
    }
    forall l | 0 <= l < |t.urgents| ensures AtLoop(t.conns, t.urgents[l], l) {
      PlacesKept(s.conns, t.conns, |s.shards|, s.urgents[l], l);
    }
  }

  lemma RoutedTraffic(s: Echo, h: nat, data: Bytes)
    requires Routed(s) && Enabled(s, Traffic(h, data))
    ensures Routed(Next(s, Traffic(h, data)))
  {
    var t := Next(s, Traffic(h, data));
    RoutedRegistry(s, s.(conns := t.conns));
    if s.phase.Running? {
      var i := ShardOf(s, s.conns[h].owner);
      PlacesMoved(t.conns, |s.shards|, s.shards[i], Task(h, data), i);
    }
  }

  lemma RoutedFetch(s: Echo, k: nat)
    requires Routed(s) && Enabled(s, Fetch(k))
    ensures Routed(Next(s, Fetch(k)))
  {
    hide AtShard, AtLoop;
    PlacesMoved(s.conns, |s.shards|, s.shards[k], s.shards[k][0], k);
  }

  lemma RoutedSend(s: Echo, k: nat)
    requires Routed(s) && Enabled(s, SendCommand(k))
    ensures Routed(Next(s, SendCommand(k)))
  {
    var task := s.hands[k][0];
    var l := LoopIndex(s.conns[task.handle].owner);
    PlacesMoved(s.conns, |s.shards|, s.hands[k], task, k);
    PlacesMoved(s.conns, |s.shards|, s.urgents[l], task, l);
  }

  lemma RoutedApply(s: Echo, l: nat, ok: bool)
    requires Routed(s) && Enabled(s, Apply(l, ok))
    ensures Routed(Next(s, Apply(l, ok)))
  {
    hide AtShard, AtLoop;
    var t := Next(s, Apply(l, ok));
    KeptApply(s, l, ok);
    RoutedRegistry(s, s.(conns := t.conns));
    PlacesMoved(t.conns, |s.shards|, s.urgents[l], s.urgents[l][0], l);
  }

  lemma KeptApply(s: Echo, l: nat, ok: bool)
    requires Enabled(s, Apply(l, ok))
    ensures Kept(s.conns, Next(s, Apply(l, ok)).conns)
    ensures forall h :: h in Next(s, Apply(l, ok)).conns ==>
              h in s.conns && Next(s, Apply(l, ok)).conns[h].owner == s.conns[h].owner
  {
  }

  lemma RoutedNext(s: Echo, step: Step)
    requires Routed(s) && Enabled(s, step)
    ensures Routed(Next(s, step))
  {
    hide AtShard, AtLoop, LoopIndex;
    match step
    case Traffic(h, data) => RoutedTraffic(s, h, data);
    case Fetch(k) => RoutedFetch(s, k);
    case SendCommand(k) => RoutedSend(s, k);
    case Apply(l, ok) => RoutedApply(s, l, ok);
    case Open(_, _) => RoutedRegistry(s, Next(s, step));
    case Close(_) => RoutedRegistry(s, Next(s, step));
    case StartPool =>
    case StopPool =>
  }

  /** Joining and cutting the three queues a registration's bytes pass through. */
  lemma Four(a: Bytes, b: Bytes, c: Bytes, d: Bytes)
    ensures a + (b + c) + d == a + b + c + d
    ensures a + (b + c + d) == a + b + c + d
    ensures a + [] == a && [] + a == a
  {
  }

  lemma OfOne(h: nat, task: Task)
    ensures Of(h, [task]) == if task.handle == h then task.data else []
  {
    assert [task][1..] == [];
  }

  /** A task that joins a queue brings its bytes along. */
  lemma OfMoved(h: nat, queue: seq<Task>, task: Task)
    ensures Of(h, []) == [] && Of(h, queue + [task]) == Of(h, queue) + Of(h, [task])
    ensures task.handle != h ==> Of(h, [task]) == [] && Of(h, queue + [task]) == Of(h, queue)
  {
    OfOne(h, task);
    OfAppend(h, queue, task);
    assert Of(h, queue) + [] == Of(h, queue);
  }

  /** Fetching and sending on move bytes from queue to queue, behind all that are ahead of them. */
  lemma InFlightFetch(s: Echo, k: nat, h: nat)
    requires Enabled(s, Fetch(k)) && h in s.conns && s.conns[h].owner < |s.urgents|
    ensures InFlight(Next(s, Fetch(k)), h) == InFlight(s, h)
  {
    var l, i := LoopIndex(s.conns[h].owner), ShardOf(s, s.conns[h].owner);
    if i == k {
      var head := s.shards[k][0];
      var mine := if head.handle == h then head.data else [];
      OfOne(h, head);
      Four(Of(h, s.urgents[l]), [], mine, Of(h, s.shards[k][1..]));
      Four(Of(h, s.urgents[l]), mine, Of(h, s.shards[k][1..]), []);
    }
  }

  lemma InFlightSend(s: Echo, k: nat, h: nat)
    requires Enabled(s, SendCommand(k)) && |s.hands[k]| == 1 && h in s.conns && s.conns[h].owner < |s.urgents|
    requires s.hands[k][0].handle == h ==> ShardOf(s, s.conns[h].owner) == k
    ensures InFlight(Next(s, SendCommand(k)), h) == InFlight(s, h)
  {
    var t := Next(s, SendCommand(k));
    var l, i := LoopIndex(s.conns[h].owner), ShardOf(s, s.conns[h].owner);
    if s.hands[k][0].handle == h {
      SentOwn(s, k, h);
      Four(Of(h, s.urgents[l]), Of(h, s.hands[k]), [], Of(h, s.shards[k]));
    } else {
      SentOther(s, k, h);
    }
  }

  /** A command that goes out moves the bytes of its own registration from the hand to the queue ... */
  lemma SentOwn(s: Echo, k: nat, h: nat)
    requires Enabled(s, SendCommand(k)) && |s.hands[k]| == 1 && h in s.conns && s.conns[h].owner < |s.urgents|
    requires s.hands[k][0].handle == h && ShardOf(s, s.conns[h].owner) == k
    ensures var t, l := Next(s, SendCommand(k)), LoopIndex(s.conns[h].owner);
            && t.shards == s.shards && Of(h, t.hands[k]) == []
            && Of(h, t.urgents[l]) == Of(h, s.urgents[l]) + Of(h, s.hands[k])
  {
    hide LoopIndex, Next, Target, ShardOf, Of;
    var task, l := s.hands[k][0], LoopIndex(s.conns[h].owner);
    SentQueues(s, k);
    assert s.hands[k] == [task];
    OfMoved(h, s.urgents[l], task);
  }

  /** ... and nobody else's. */
  lemma SentOther(s: Echo, k: nat, h: nat)
    requires Enabled(s, SendCommand(k)) && |s.hands[k]| == 1 && h in s.conns && s.conns[h].owner < |s.urgents|
    requires s.hands[k][0].handle != h
    ensures var t, l, i := Next(s, SendCommand(k)), LoopIndex(s.conns[h].owner), ShardOf(s, s.conns[h].owner);
            && t.shards == s.shards && Of(h, t.hands[i]) == Of(h, s.hands[i])
            && Of(h, t.urgents[l]) == Of(h, s.urgents[l])
  {
    hide LoopIndex, Next, Target, ShardOf, Of;
    var task, l := s.hands[k][0], LoopIndex(s.conns[h].owner);
    SentQueues(s, k);
    assert s.hands[k] == [task];
    OfMoved(h, s.urgents[l], task);
  }

  lemma SentQueues(s: Echo, k: nat)
    requires Enabled(s, SendCommand(k)) && |s.hands[k]| == 1
    ensures var t, task := Next(s, SendCommand(k)), s.hands[k][0];
            var to := LoopIndex(s.conns[task.handle].owner);
            && t.conns == s.conns && t.shards == s.shards && t.hands == s.hands[k := []]
            && t.urgents == if to < |s.urgents| then s.urgents[to := s.urgents[to] + [task]] else s.urgents
  {
    assert s.hands[k][1..] == [];
  }

  lemma InFlightTraffic(s: Echo, g: nat, data: Bytes, h: nat)
    requires Enabled(s, Traffic(g, data)) && s.phase.Running? && h in s.conns && s.conns[h].owner < |s.urgents|
    ensures InFlight(Next(s, Traffic(g, data)), h) == InFlight(s, h) + (if g == h then data else [])
  {
    var l, i := LoopIndex(s.conns[h].owner), ShardOf(s, s.conns[h].owner);
    OfAppend(h, s.shards[i], Task(g, data));
    AppendLast([], Of(h, s.urgents[l]) + Of(h, s.hands[i]), Of(h, s.shards[i]), if g == h then data else []);
    assert InFlight(s, h) + [] == InFlight(s, h);
  }

  /** Only the bytes at the head of a loop's queue leave the pipeline. */
  lemma InFlightApply(s: Echo, l: nat, ok: bool, h: nat)
    requires Enabled(s, Apply(l, ok)) && h in s.conns && s.conns[h].owner < |s.urgents|
    requires s.urgents[l][0].handle == h ==> LoopIndex(s.conns[h].owner) == l
    ensures InFlight(s, h) ==
            (if s.urgents[l][0].handle == h then s.urgents[l][0].data else []) + InFlight(Next(s, Apply(l, ok)), h)
  {
    hide Of, Next, LoopIndex;
    var t := Next(s, Apply(l, ok));
    AppliedQueues(s, l, ok, h);
    var mine := if s.urgents[l][0].handle == h then s.urgents[l][0].data else [];
    var n, i := LoopIndex(s.conns[h].owner), ShardOf(s, s.conns[h].owner);
    OfHead(h, s.urgents[l]);
    Shift([], mine, Of(h, t.urgents[n]), Of(h, s.hands[i]), Of(h, s.shards[i]));
    assert [] + Of(h, t.urgents[n]) == Of(h, t.urgents[n]);
  }

  lemma AppliedQueues(s: Echo, l: nat, ok: bool, h: nat)
    requires Enabled(s, Apply(l, ok)) && h in s.conns
    ensures var t := Next(s, Apply(l, ok));
            && t.urgents == s.urgents[l := s.urgents[l][1..]] && t.hands == s.hands && t.shards == s.shards
            && h in t.conns && t.conns[h].owner == s.conns[h].owner
  {
  }

  lemma OfHead(h: nat, tasks: seq<Task>)
    requires tasks != []
    ensures Of(h, tasks) == (if tasks[0].handle == h then tasks[0].data else []) + Of(h, tasks[1..])
  {
  }

  lemma BalancedTraffic(s: Echo, g: nat, data: Bytes, h: nat)
    requires Routed(s) && h in s.conns && Balanced(s, h)
    requires Enabled(s, Traffic(g, data)) && Routed(Next(s, Traffic(g, data)))
    ensures Balanced(Next(s, Traffic(g, data)), h)
  {
    hide InFlight, Of;
    if s.phase.Running? {
      InFlightTraffic(s, g, data, h);
      var c := s.conns[h];
      AppendTail(c.accepted, InFlight(s, h), data);
      assert c.submitted <= c.submitted + data;
    } else {
      SameQueues(s, Next(s, Traffic(g, data)), h);
    }
  }

  /** What is in flight depends on the queues and on where the registration lives, nothing else. */
  lemma SameQueues(s: Echo, t: Echo, h: nat)
    requires h in s.conns && s.conns[h].owner < |s.urgents| && |s.shards| == |s.hands| > 0
    requires h in t.conns && t.conns[h].owner == s.conns[h].owner
    requires t.urgents == s.urgents && t.hands == s.hands && t.shards == s.shards
    ensures InFlight(t, h) == InFlight(s, h)
  {
  }

  lemma BalancedFetch(s: Echo, k: nat, h: nat)
    requires Routed(s) && h in s.conns && Balanced(s, h) && Enabled(s, Fetch(k)) && Routed(Next(s, Fetch(k)))
    ensures Balanced(Next(s, Fetch(k)), h)
  {
    hide InFlight;
    InFlightFetch(s, k, h);
  }

  lemma BalancedSend(s: Echo, k: nat, h: nat)
    requires Routed(s) && h in s.conns && Balanced(s, h)
    requires Enabled(s, SendCommand(k)) && Routed(Next(s, SendCommand(k)))
    ensures Balanced(Next(s, SendCommand(k)), h)
  {
    hide InFlight;
    InFlightSend(s, k, h);
  }

  lemma BalancedApply(s: Echo, l: nat, ok: bool, h: nat)
    requires Routed(s) && h in s.conns && Balanced(s, h) && Enabled(s, Apply(l, ok)) && Routed(Next(s, Apply(l, ok)))
    ensures Balanced(Next(s, Apply(l, ok)), h)
  {
    hide InFlight;
    InFlightApply(s, l, ok, h);
    var c := s.conns[h];
    var t := Next(s, Apply(l, ok));
    if s.urgents[l][0].handle == h {
      var data := s.urgents[l][0].data;
      assert c.owner < LOOP_LIMIT ==> c.owner == l;
      assert c.accepted + (data + InFlight(t, h)) == c.accepted + data + InFlight(t, h);
      assert c.accepted + data <= c.accepted + data + InFlight(t, h);
    } else {
      assert [] + InFlight(t, h) == InFlight(t, h);
    }
  }

  /** One step keeps one registration's balance. */
  lemma BalancedNext(s: Echo, step: Step, h: nat)
    requires Inv(s) && Enabled(s, step) && Routed(Next(s, step)) && h in Next(s, step).conns
    ensures Balanced(Next(s, step), h)
  {
    hide InFlight;
    if step.Open? && step.handle == h {
      OpenIsEmpty(s, h, step.owner);
    } else {
      assert Balanced(s, h);
      match step
      case Traffic(g, data) => BalancedTraffic(s, g, data, h);
      case Fetch(k) => BalancedFetch(s, k, h);
      case SendCommand(k) => BalancedSend(s, k, h);
      case Apply(l, ok) => BalancedApply(s, l, ok, h);
      case StartPool => SameQueues(s, Next(s, step), h);
      case StopPool => SameQueues(s, Next(s, step), h);
      case Open(_, _) => SameQueues(s, Next(s, step), h);
      case Close(_) => SameQueues(s, Next(s, step), h);
    }
  }

  lemma AppendTail(a: Bytes, b: Bytes, c: Bytes)
    ensures a + b + c == a + (b + c)
    ensures a <= a + b + c
  {
  }

  lemma AppendLast(a: Bytes, b: Bytes, c: Bytes, d: Bytes)
    ensures a + (b + c) + d == a + (b + (c + d))
  {
  }

  lemma Shift(a: Bytes, d: Bytes, u: Bytes, w: Bytes, q: Bytes)
    ensures a + (d + u + w + q) == a + d + (u + w + q)
    ensures a + d <= a + (d + u + w + q)
  {
    assert a + (d + u + w + q) == a + d + (u + w + q);
  }

  lemma OpenIsEmpty(s: Echo, h: nat, owner: nat)
    requires Routed(s) && h !in s.conns && owner < |s.urgents|
    ensures var t := Next(s, Open(h, owner)); InFlight(t, h) == []
  {
    OfNone(h, s.urgents[LoopIndex(owner)]);
    OfNone(h, s.hands[ShardOf(s, owner)]);
    OfNone(h, s.shards[ShardOf(s, owner)]);
  }

  lemma InvNext(s: Echo, step: Step)
    requires Inv(s) && Enabled(s, step)
    ensures Inv(Next(s, step))
  {
    RoutedNext(s, step);
    forall h | h in Next(s, step).conns ensures Balanced(Next(s, step), h) {
      BalancedNext(s, step, h);
    }
  }

  lemma {:induction false} InvRun(s: Echo, steps: seq<Step>, t: Echo)
    requires Inv(s) && RunsTo(s, steps, t)
    ensures Inv(t)
    decreases |steps|
  {
    if steps != [] {
      InvNext(s, steps[0]);
      InvRun(Next(s, steps[0]), steps[1..], t);
    }
  }

  lemma ReachableInv(s: Echo)
    requires Reachable(s)
    ensures Inv(s)
  {
    var start, steps :| IsInit(start) && RunsTo(start, steps, s);
    InvRun(start, steps, s);
  }

  /**
   End-to-end order: whatever the interleaving of loops, workers, opens and closes,
   what was accepted for output on a registration is, in order and without gaps,
   what it received from the moment the pool was running.
   */
  lemma EchoInOrder(s: Echo, h: nat)
    requires Reachable(s) && h in s.conns
    ensures var c := s.conns[h];
            && c.accepted <= c.Received()[|c.early|..]
            && (c.early == [] ==> c.accepted <= c.Received())
  {
    ReachableInv(s);
    var c := s.conns[h];
    assert Balanced(s, h);
    assert c.Received()[|c.early|..] == c.submitted + c.late;
    assert c.early == [] ==> c.Received() == c.submitted + c.late;
  }

  /**
   All that was read is back or on its way back, for a live registration of such a
   loop, if and only if nothing was read before the pool was up or after it was
   shut down.
   */
  lemma EverythingIsUnderWayIff(s: Echo, h: nat)
    requires Reachable(s) && h in s.conns && s.conns[h].live && s.conns[h].owner < LOOP_LIMIT
    ensures |s.shards| == |s.hands| > 0 && s.conns[h].owner < |s.urgents|
    ensures s.conns[h].accepted + InFlight(s, h) == s.conns[h].Received()
            <==> s.conns[h].early == [] && s.conns[h].late == []
  {
    hide Reachable, InFlight;
    ReachableInv(s);
    var c := s.conns[h];
    assert Balanced(s, h);
    assert |c.Received()| == |c.early| + |c.submitted| + |c.late|;
    if c.early == [] && c.late == [] {
      assert c.Received() == c.submitted;
    }
  }

  /**
   Nothing is lost on the way, for a loop whose position fits the handle: once
   the queues hold nothing of a live registration, all came back. Behind any other
   loop nothing ever comes back.
   */
  lemma EchoComplete(s: Echo, h: nat)
    requires Reachable(s) && h in s.conns
    ensures |s.shards| == |s.hands| > 0 && s.conns[h].owner < |s.urgents|
    ensures s.conns[h].live && !s.phase.Stopped? && s.conns[h].owner < LOOP_LIMIT ==>
              (InFlight(s, h) == [] <==> s.conns[h].accepted == s.conns[h].Received()[|s.conns[h].early|..])
    ensures s.conns[h].owner >= LOOP_LIMIT ==> s.conns[h].accepted == []
  {
    ReachableInv(s);
    var c := s.conns[h];
    assert Balanced(s, h);
    if c.live && !s.phase.Stopped? && c.owner < LOOP_LIMIT {
      assert c.Received()[|c.early|..] == c.submitted + c.late;
      assert c.submitted + [] == c.submitted;
      assert |c.submitted| == |c.accepted| + |InFlight(s, h)|;
      if InFlight(s, h) == [] {
        assert c.accepted + [] == c.accepted;
      }
    }
  }

  /** What closes a registration: its loop, or a write to it that fails. */
  predicate Closes(s: Echo, step: Step, h: nat) {
    || step == Close(h)
    || (step.Apply? && !step.ok && step.owner < |s.urgents| && s.urgents[step.owner] != []
        && s.urgents[step.owner][0].handle == h && h in s.conns && s.conns[h].owner == step.owner)
  }

  /** Once closed, a registration accepts nothing more, whatever is still on its way back to it. */
  lemma ClosedAcceptsNothing(s: Echo, h: nat, step: Step, steps: seq<Step>, t: Echo)
    requires Enabled(s, step) && h in s.conns && Closes(s, step, h) && RunsTo(Next(s, step), steps, t)
    ensures h in t.conns && t.conns[h] == s.conns[h].(live := false)
  {
    ClosedStaysClosed(Next(s, step), h, steps, t);
  }

  lemma {:induction false} ClosedStaysClosed(s: Echo, h: nat, steps: seq<Step>, t: Echo)
    requires h in s.conns && !s.conns[h].live && RunsTo(s, steps, t)
    ensures h in t.conns && t.conns[h] == s.conns[h]
    decreases |steps|
  {
    if steps != [] {
      ClosedStaysClosed(Next(s, steps[0]), h, steps[1..], t);
    }
  }

  lemma {:induction false} RunExtends(s: Echo, steps: seq<Step>, t: Echo, step: Step)
    requires RunsTo(s, steps, t) && Enabled(t, step)
    ensures RunsTo(s, steps + [step], Next(t, step))
    decreases |steps|
  {
    if steps == [] {
      assert [step][1..] == [];
    } else {
      RunExtends(Next(s, steps[0]), steps[1..], t, step);
      assert (steps + [step])[1..] == steps[1..] + [step];
    }
  }

  lemma Do(s: Echo, step: Step) returns (t: Echo)
    requires Reachable(s) && Enabled(s, step)
    ensures t == Next(s, step) && Reachable(t)
  {
    var start, steps :| IsInit(start) && RunsTo(start, steps, s);
    RunExtends(start, steps, s, step);
    t := Next(s, step);
  }

  /** One loop and one shard, with a byte read before the pool was started. */
  lemma EarlyByte() returns (s: Echo)
    ensures Reachable(s)
    ensures s == Echo(Running, map[0 := Conn(0, true, [1], [], [], [])], [[]], [[]], [[]])
  {
    s := Echo(NotStarted, map[], [[]], [[]], [[]]);
    assert IsInit(s) && RunsTo(s, [], s);
    s := Do(s, Open(0, 0));
    s := Do(s, Traffic(0, [1]));
    s := Do(s, StartPool);
    var none: Bytes := [];
    assert none + [1] == [1];
    assert s.conns == map[0 := Conn(0, true, [1], [], [], [])];
  }

  /** Bytes read before the pool was up are dropped, and then the echo is not a prefix of the input. */
  lemma EarlyBytesAreSkipped()
    ensures exists s :: Reachable(s) && 0 in s.conns && s.conns[0].live
                        && s.conns[0].accepted != [] && !(s.conns[0].accepted <= s.conns[0].Received())
  {
    var s := EarlyByte();
    s := Do(s, Traffic(0, [2]));
    s := Do(s, Fetch(0));
    s := Do(s, SendCommand(0));
    s := Do(s, Apply(0, true));
    assert s.conns[0].accepted[0] == 2 && s.conns[0].Received()[0] == 1;
  }

  /** The handler's half of a traffic step: it takes the whole stream and leaves none. */
  method OnTraffic(conn: Connection) returns (task: Option<Bytes>)
    requires conn.InputConserved()
    modifies conn`inBuffer, conn`ioBuffer, conn`log
    ensures conn.InputConserved()
    ensures old(conn.ioBuffer).Some? ==>
              task == Some(old(conn.Flat())) && conn.Flat() == []
              && conn.log == old(conn.log).(consumed := old(conn.log).consumed + old(conn.Flat()))
  {
    assert old(conn.Flat())[..|conn.Flat()|] == conn.Flat();
    task := conn.NextContiguous(None);
  }
}
