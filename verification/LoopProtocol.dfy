/**
 Any number of threads feed one event loop through its two queues and wake it;
 the loop checks the queues, polls, and drains. Every atomic access is a step of
 its own, so a run is any interleaving. Sender 0 is the loop's own thread, which
 sends only while it runs handlers and commands.
 */
module LoopProtocol {
  import opened Commands
  import opened Wakers

  /** A queued command with its place in the order of all sends. */
  datatype Entry = Entry(command: Command, ticket: nat) {
    predicate High() {
      command.Priority().High?
    }
  }

  /** Where a sender is inside `trigger`: queue chosen, or command queued and the flag not yet set. */
  datatype Sender = Chosen(command: Command, toCommon: bool) | Sent

  /** Where the loop is; `Polling(false)` blocks, `Window` lies between its two `try_recv` calls. */
  datatype Pc =
    | Top
    | SawUrgentEmpty
    | Polling(hasPending: bool)
    | Dispatching
    | Draining(budget: nat)
    | Window(budget: nat, seen: nat)
    | Exited

  /** `sent` is all that was ever queued; `doneUrgent` and `doneCommon` what was taken from each queue. */
  datatype Loop = Loop(
    urgent: seq<Entry>, common: seq<Entry>, senders: map<nat, Sender>, waker: Waker, pc: Pc,
    sent: seq<Entry>, doneUrgent: seq<Entry>, doneCommon: seq<Entry>)

  const Init: Loop := Loop([], [], map[], Quiet, Top, [], [], [])

  datatype Step =
    | Choose(p: nat, command: Command, direct: bool)
    | Push(p: nat)
    | Swap(p: nat)
    | OsWake(p: nat, ok: bool)
    | CheckUrgent
    | CheckCommon
    | PollInterrupted
    | PollReturn(deliver: bool)
    | HandleWake
    | TakeUrgent
    | SeeUrgentEmpty
    | TakeCommon
    | SeeCommonEmpty
    | EndDrain
    | EndDispatch
    | Quit

  predicate IdleSender(s: Loop, p: nat) {
    p !in s.senders && p !in s.waker.committed
  }

  /** The loop's thread runs handler and command code, so it can be a sender itself. */
  predicate RunsCode(s: Loop) {
    s.pc.Dispatching? || s.pc.Draining?
  }

  predicate Enabled(s: Loop, step: Step) {
    match step
    case Choose(p, _, _) => IdleSender(s, p) && (p == 0 ==> RunsCode(s))
    case Push(p) => p in s.senders && s.senders[p].Chosen?
    case Swap(p) => p in s.senders && s.senders[p].Sent? && p !in s.waker.committed
    case OsWake(p, _) => p in s.waker.committed
    case _ => IdleSender(s, 0) && LoopEnabled(s, step)
  }

  predicate LoopEnabled(s: Loop, step: Step) {
    match step
    case CheckUrgent => s.pc.Top?
    case CheckCommon => s.pc.SawUrgentEmpty?
    case PollInterrupted => s.pc.Polling?
    case PollReturn(deliver) => s.pc.Polling? && (deliver ==> s.waker.pending)
    case HandleWake => s.pc.Dispatching? && s.waker.delivered
    case TakeUrgent => s.pc.Draining? && s.pc.budget > 0 && s.urgent != []
    case SeeUrgentEmpty => s.pc.Draining? && s.pc.budget > 0 && s.urgent == []
    case TakeCommon => s.pc.Window? && s.pc.budget > 0 && s.common != []
    case SeeCommonEmpty => s.pc.Window? && s.common == []
    case EndDrain => s.pc == Draining(0)
    case EndDispatch => s.pc.Dispatching? && !s.waker.delivered
    case Quit => s.pc.Polling? || RunsCode(s)
    case _ => false
  }

  /** The effect of a command on the protocol: `Wake` calls the waker, `Shutdown` leaves the loop. */
  function Process(s: Loop, command: Command, budget: nat): Loop {
    match command
    case Wake => s.(senders := s.senders[0 := Sent], pc := Draining(budget))
    case Shutdown => s.(pc := Exited)
    case _ => s.(pc := Draining(budget))
  }

  function Next(s: Loop, step: Step): Loop
    requires Enabled(s, step)
  {
    match step
    case Choose(p, command, direct) =>
      var toCommon := !direct && GoesToCommon(command.Priority(), |s.urgent|);
      s.(senders := s.senders[p := Chosen(command, toCommon)])
    case Push(p) =>
      if s.pc.Exited? then s.(senders := s.senders - {p})
      else
        var entry := Entry(s.senders[p].command, |s.sent|);
        var sent := s.(senders := s.senders[p := Sent], sent := s.sent + [entry]);
        if s.senders[p].toCommon then sent.(common := s.common + [entry])
        else sent.(urgent := s.urgent + [entry])
    case Swap(p) => s.(senders := s.senders - {p}, waker := s.waker.Swap(p))
    case OsWake(p, ok) => s.(waker := s.waker.OsWake(p, ok))
    case CheckUrgent => s.(pc := if s.urgent == [] then SawUrgentEmpty else Polling(true))
    case CheckCommon => s.(pc := Polling(s.common != []))
    case PollInterrupted => s.(pc := Top)
    case PollReturn(deliver) =>
      s.(waker := if deliver then s.waker.Deliver() else s.waker,
         pc := if s.pc.hasPending then Draining(MAX_ASYNC_TASK_ONE_TIME) else Dispatching)
    case HandleWake => s.(waker := s.waker.Reset(), pc := Draining(MAX_ASYNC_TASK_ONE_TIME))
    case TakeUrgent =>
      Process(s.(urgent := s.urgent[1..], doneUrgent := s.doneUrgent + [s.urgent[0]]),
              s.urgent[0].command, s.pc.budget - 1)
    case SeeUrgentEmpty => s.(pc := Window(s.pc.budget, |s.sent|))
    case TakeCommon =>
      Process(s.(common := s.common[1..], doneCommon := s.doneCommon + [s.common[0]]),
              s.common[0].command, s.pc.budget - 1)
    case SeeCommonEmpty => s.(pc := Dispatching)
    case EndDrain => s.(pc := Dispatching)
    case EndDispatch => s.(pc := Top)
    case Quit => s.(pc := Exited)
  }

  /** The states that some run of these steps ends in. */
  ghost predicate RunsTo(s: Loop, steps: seq<Step>, t: Loop)
    decreases |steps|
  {
    if steps == [] then s == t
    else Enabled(s, steps[0]) && RunsTo(Next(s, steps[0]), steps[1..], t)
  }

  ghost predicate Reachable(s: Loop) {
    exists steps :: RunsTo(Init, steps, s)
  }

  lemma {:induction false} RunExtends(s: Loop, steps: seq<Step>, t: Loop, step: Step)
    requires RunsTo(s, steps, t) && Enabled(t, step)
    ensures RunsTo(s, steps + [step], Next(t, step))
    decreases |steps|
  {
    if steps == [] {
      assert [step][1..] == [];
    } else {
      RunExtends(Next(s, steps[0]), steps[1..], t, step);
      assert (steps + [step])[1..] == steps[1..] + [step];
    }
  }

  lemma ReachNext(s: Loop, step: Step)
    requires Reachable(s) && Enabled(s, step)
    ensures Reachable(Next(s, step))
  {
    var steps :| RunsTo(Init, steps, s);
    RunExtends(Init, steps, s, step);
  }

  // ----- the invariant -----

  /** Somebody has yet to set the flag, or it is set. */
  predicate Signal(s: Loop) {
    s.waker.awoken || exists p :: p in s.senders && s.senders[p].Sent?
  }

  /** What the loop relies on between finding a queue empty and falling asleep. */
  predicate Attentive(s: Loop) {
    match s.pc
    case SawUrgentEmpty => s.urgent != [] ==> Signal(s)
    case Polling(hasPending) => !hasPending && (s.urgent != [] || s.common != []) ==> Signal(s)
    case _ => true
  }

  predicate Sorted(q: seq<Entry>, tickets: nat) {
    && (forall i, j :: 0 <= i < j < |q| ==> q[i].ticket < q[j].ticket)
    && (forall i :: 0 <= i < |q| ==> q[i].ticket < tickets)
  }

  function HighOf(q: seq<Entry>): seq<Entry> {
    if q == [] then [] else (if q[0].High() then [q[0]] else []) + HighOf(q[1..])
  }

  /** All that went through the two queues, taken or not. */
  function ThroughUrgent(s: Loop): seq<Entry> {
    s.doneUrgent + s.urgent
  }

  function ThroughCommon(s: Loop): seq<Entry> {
    s.doneCommon + s.common
  }

  /** What was sent went through one of two queues, each in the order of sending, and no High one through the second. */
  predicate Lined(u: seq<Entry>, c: seq<Entry>, sent: seq<Entry>) {
    && (forall i :: 0 <= i < |sent| ==> sent[i].ticket == i)
    && Sorted(u, |sent|) && Sorted(c, |sent|)
    && multiset(sent) == multiset(u) + multiset(c)
    && HighOf(sent) == HighOf(u)
    && (forall i :: 0 <= i < |c| ==> !c[i].High())
  }

  predicate Ordered(s: Loop) {
    && Lined(ThroughUrgent(s), ThroughCommon(s), s.sent)
    && (forall p :: p in s.senders && s.senders[p].Chosen? && s.senders[p].toCommon ==>
          !s.senders[p].command.Priority().High?)
    && (s.pc.Window? ==> s.pc.seen <= |s.sent|
                         && forall i :: 0 <= i < |s.urgent| ==> s.pc.seen <= s.urgent[i].ticket)
  }

  /** The flag, the callers on their way to the poller's waker, and where the loop may be meanwhile. */
  predicate Waking(s: Loop) {
    && s.waker.Conserved()
    && (s.waker.delivered ==> RunsCode(s) || s.pc.Window? || s.pc.Exited?)
    && (!RunsCode(s) ==> IdleSender(s, 0))
    && (s.pc.Draining? ==> s.pc.budget <= 256) && (s.pc.Window? ==> 0 < s.pc.budget <= 256)
    && (forall p :: p in s.waker.committed ==> p !in s.senders)
  }

  predicate Inv(s: Loop) {
    Waking(s) && Attentive(s) && Ordered(s)
  }

  // ----- the order of the queues -----

  lemma {:induction false} HighOfConcat(a: seq<Entry>, b: seq<Entry>)
    ensures HighOf(a + b) == HighOf(a) + HighOf(b)
  {
    if a == [] {
      assert a + b == b && HighOf(a) + HighOf(b) == HighOf(b);
    } else {
      var first := if a[0].High() then [a[0]] else [];
      HighOfConcat(a[1..], b);
      assert (a + b)[0] == a[0] && (a + b)[1..] == a[1..] + b;
      Joined(first, HighOf(a[1..]), HighOf(b));
    }
  }

  lemma Joined(a: seq<Entry>, b: seq<Entry>, c: seq<Entry>)
    ensures a + b + c == a + (b + c)
  {
  }

  lemma HighOfOne(entry: Entry)
    ensures HighOf([entry]) == if entry.High() then [entry] else []
  {
    assert [entry][1..] == [];
  }

  lemma SortedLast(q: seq<Entry>, entry: Entry)
    requires Sorted(q, entry.ticket)
    ensures Sorted(q + [entry], entry.ticket + 1)
  {
  }

  lemma Counted(q: seq<Entry>, entry: Entry)
    ensures multiset(q + [entry]) == multiset(q) + multiset{entry}
  {
  }

  lemma LinedUrgent(u: seq<Entry>, c: seq<Entry>, sent: seq<Entry>, entry: Entry)
    requires Lined(u, c, sent) && entry.ticket == |sent|
    ensures Lined(u + [entry], c, sent + [entry])
  {
    hide HighOf;
    HighOfConcat(u, [entry]);
    HighOfConcat(sent, [entry]);
    SortedLast(u, entry);
    Counted(u, entry);
    Counted(sent, entry);
  }

  lemma LinedCommon(u: seq<Entry>, c: seq<Entry>, sent: seq<Entry>, entry: Entry)
    requires Lined(u, c, sent) && entry.ticket == |sent| && !entry.High()
    ensures Lined(u, c + [entry], sent + [entry])
  {
    hide HighOf;
    HighOfConcat(sent, [entry]);
    HighOfOne(entry);
    SortedLast(c, entry);
    Counted(c, entry);
    Counted(sent, entry);
  }

  lemma Behind(a: seq<Entry>, b: seq<Entry>, entry: Entry)
    ensures a + (b + [entry]) == a + b + [entry]
  {
  }

  lemma Moved(a: seq<Entry>, b: seq<Entry>)
    requires b != []
    ensures a + [b[0]] + b[1..] == a + b
  {
  }

  lemma OrderedPush(s: Loop, p: nat)
    requires Ordered(s) && Enabled(s, Push(p)) && !s.pc.Exited?
    ensures Ordered(Next(s, Push(p)))
  {
    hide Lined;
    var entry := Entry(s.senders[p].command, |s.sent|);
    if s.senders[p].toCommon {
      LinedCommon(ThroughUrgent(s), ThroughCommon(s), s.sent, entry);
      Behind(s.doneCommon, s.common, entry);
    } else {
      LinedUrgent(ThroughUrgent(s), ThroughCommon(s), s.sent, entry);
      Behind(s.doneUrgent, s.urgent, entry);
    }
  }

  /** Taking a command changes where it is, not where it came through. */
  lemma OrderedTake(s: Loop, step: Step)
    requires Ordered(s) && Enabled(s, step) && (step.TakeUrgent? || step.TakeCommon?)
    ensures Ordered(Next(s, step))
  {
    hide Lined;
    if step.TakeUrgent? {
      Moved(s.doneUrgent, s.urgent);
    } else {
      Moved(s.doneCommon, s.common);
    }
  }

  lemma OrderedLook(s: Loop)
    requires Ordered(s) && Enabled(s, SeeUrgentEmpty)
    ensures Ordered(Next(s, SeeUrgentEmpty))
  {
    hide Lined;
  }

  lemma OrderedRest(s: Loop, step: Step)
    requires Ordered(s) && Enabled(s, step)
    requires !step.Push? && !step.TakeUrgent? && !step.TakeCommon? && !step.SeeUrgentEmpty?
    ensures Ordered(Next(s, step))
  {
    hide Lined, Wakers.Waker.Swap, Wakers.Waker.OsWake, Wakers.Waker.Deliver, Wakers.Waker.Reset;
  }

  lemma OrderedNext(s: Loop, step: Step)
    requires Ordered(s) && Enabled(s, step)
    ensures Ordered(Next(s, step))
  {
    hide Ordered;
    if step.Push? {
      if s.pc.Exited? {
        OrderedGone(s, step.p);
      } else {
        OrderedPush(s, step.p);
      }
    } else if step.TakeUrgent? || step.TakeCommon? {
      OrderedTake(s, step);
    } else if step.SeeUrgentEmpty? {
      OrderedLook(s);
    } else {
      OrderedRest(s, step);
    }
  }

  /** A send to a loop that has ended fails. */
  lemma OrderedGone(s: Loop, p: nat)
    requires Ordered(s) && Enabled(s, Push(p)) && s.pc.Exited?
    ensures Ordered(Next(s, Push(p)))
  {
    hide Lined;
  }

  // ----- the flag -----

  lemma SignalKept(s: Loop, t: Loop, p: nat)
    requires Signal(s)
    requires t.waker.awoken || forall q :: q in s.senders && q != p ==> q in t.senders && t.senders[q] == s.senders[q]
    requires p in s.senders && s.senders[p].Sent? ==> t.waker.awoken
    requires s.waker.awoken ==> t.waker.awoken
    ensures Signal(t)
  {
  }

  predicate SendersStep(step: Step) {
    step.Choose? || step.Push? || step.Swap? || step.OsWake?
  }

  lemma AttentiveSender(s: Loop, step: Step)
    requires Waking(s) && Attentive(s) && Enabled(s, step) && SendersStep(step)
    ensures Attentive(Next(s, step))
  {
    var t := Next(s, step);
    match step
    case Choose(p, _, _) =>
      if Signal(s) { SignalKept(s, t, p); }
    case Push(p) =>
      if !s.pc.Exited? { assert t.senders[p].Sent?; }
    case Swap(p) =>
    case OsWake(p, _) =>
      if Signal(s) { SignalKept(s, t, p); }
  }

  lemma AttentiveLoop(s: Loop, step: Step)
    requires Waking(s) && Attentive(s) && Enabled(s, step) && !SendersStep(step)
    ensures Attentive(Next(s, step))
  {
  }

  lemma WakingQueueing(s: Loop, step: Step)
    requires Waking(s) && Enabled(s, step) && (step.Choose? || step.Push?)
    ensures Waking(Next(s, step))
  {
    hide Waker.Conserved;
  }

  lemma WakingSwap(s: Loop, p: nat)
    requires Waking(s) && Enabled(s, Swap(p))
    ensures Waking(Next(s, Swap(p)))
  {
    hide Waker.Conserved;
  }

  lemma WakingOsWake(s: Loop, p: nat, ok: bool)
    requires Waking(s) && Enabled(s, OsWake(p, ok))
    ensures Waking(Next(s, OsWake(p, ok)))
  {
    hide Waker.Conserved;
  }

  lemma WakingSender(s: Loop, step: Step)
    requires Waking(s) && Enabled(s, step) && SendersStep(step)
    ensures Waking(Next(s, step))
  {
    hide Waking;
    match step
    case Choose(_, _, _) => WakingQueueing(s, step);
    case Push(_) => WakingQueueing(s, step);
    case Swap(p) => WakingSwap(s, p);
    case OsWake(p, ok) => WakingOsWake(s, p, ok);
  }

  lemma WakingTake(s: Loop, step: Step)
    requires Waking(s) && Enabled(s, step) && (step.TakeUrgent? || step.TakeCommon?)
    ensures Waking(Next(s, step))
  {
  }

  lemma WakingLoop(s: Loop, step: Step)
    requires Waking(s) && Enabled(s, step) && !SendersStep(step) && !step.TakeUrgent? && !step.TakeCommon?
    ensures Waking(Next(s, step))
  {
  }

  lemma WakingNext(s: Loop, step: Step)
    requires Waking(s) && Enabled(s, step)
    ensures Waking(Next(s, step))
  {
    hide Waking;
    if SendersStep(step) {
      WakingSender(s, step);
    } else if step.TakeUrgent? || step.TakeCommon? {
      WakingTake(s, step);
    } else {
      WakingLoop(s, step);
    }
  }

  /** Every step keeps the invariant. */
  lemma InvNext(s: Loop, step: Step)
    requires Inv(s) && Enabled(s, step)
    ensures Inv(Next(s, step))
  {
    hide Waking, Attentive, Ordered;
    OrderedNext(s, step);
    WakingNext(s, step);
    if SendersStep(step) {
      AttentiveSender(s, step);
    } else {
      AttentiveLoop(s, step);
    }
  }

  lemma {:induction false} InvRun(s: Loop, steps: seq<Step>, t: Loop)
    requires Inv(s) && RunsTo(s, steps, t)
    ensures Inv(t)
    decreases |steps|
  {
    hide Inv;
    if steps != [] {
      InvNext(s, steps[0]);
      InvRun(Next(s, steps[0]), steps[1..], t);
    }
  }

  lemma InitHolds()
    ensures Inv(Init)
  {
    assert ThroughUrgent(Init) == [] && ThroughCommon(Init) == [];
  }

  lemma ReachableInv(s: Loop)
    requires Reachable(s)
    ensures Inv(s)
  {
    hide Inv;
    InitHolds();
    var steps :| RunsTo(Init, steps, s);
    InvRun(Init, steps, s);
  }

  // ----- results -----

  /** The loop is in a blocking poll, or bound for it with nothing left to check. */
  predicate Blocked(s: Loop) {
    s.pc == Polling(false)
  }

  predicate HasWork(s: Loop) {
    s.urgent != [] || s.common != []
  }

  /**
   The flag counts wake-ups exactly: while no call of the poller's waker failed it
   is up if and only if one caller is committed, or the poller was woken, or the
   event is at hand; and these never coexist.
   */
  lemma WakeTokenConserved(s: Loop)
    requires Reachable(s) && !s.waker.failed
    ensures s.waker.Tokens() <= 1
    ensures s.waker.awoken <==> s.waker.committed != {} || s.waker.pending || s.waker.delivered
  {
    ReachableInv(s);
  }

  /**
   No lost wake-up: a loop that sleeps while commands are queued has been woken,
   or another thread is on its way to do it.
   */
  lemma NoLostWakeup(s: Loop)
    requires Reachable(s) && Blocked(s) && HasWork(s) && !s.waker.failed
    ensures s.waker.pending
            || exists p :: p != 0 && (p in s.waker.committed || (p in s.senders && s.senders[p].Sent?))
  {
    ReachableInv(s);
    if s.waker.awoken {
      AwokenHasToken(s.waker);
      if !s.waker.pending {
        var p :| p in s.waker.committed;
        assert p != 0;
      }
    } else {
      var p :| p in s.senders && s.senders[p].Sent?;
      assert p != 0;
    }
  }

  /** When every sender is done, a sleeping loop with work is woken exactly if no OS wake ever failed. */
  lemma QuiescentWakeIff(s: Loop)
    requires Reachable(s) && Blocked(s) && HasWork(s)
    requires s.waker.committed == {} && s.senders == map[]
    ensures s.waker.pending <==> !s.waker.failed
  {
    ReachableInv(s);
    if !s.waker.failed {
      NoLostWakeup(s);
    }
  }

  /** One failed OS wake is for ever: the flag stays up, and no later send wakes the loop. */
  lemma {:induction false} FailedWakeIsForever(s: Loop, steps: seq<Step>, t: Loop)
    requires Inv(s) && s.waker.failed && RunsTo(s, steps, t)
    ensures t.waker.failed && t.waker.Deaf()
    decreases |steps|
  {
    if steps != [] {
      InvNext(s, steps[0]);
      FailedWakeIsForever(Next(s, steps[0]), steps[1..], t);
    }
  }

  lemma Do(s: Loop, step: Step) returns (t: Loop)
    requires Reachable(s) && Enabled(s, step)
    ensures t == Next(s, step) && Reachable(t)
  {
    ReachNext(s, step);
    t := Next(s, step);
  }

  lemma InitReachable()
    ensures Reachable(Init)
  {
    assert RunsTo(Init, [], Init);
  }

  lemma SendWithFailedWake(s: Loop) returns (t: Loop)
    requires Reachable(s) && s == Init
    ensures Reachable(t)
    ensures t == Init.(urgent := [Entry(Command.Nop, 0)], sent := [Entry(Command.Nop, 0)],
                       waker := Waker(true, {}, false, false, true))
  {
    hide Reachable;
    t := Do(s, Choose(1, Command.Nop, false));
    t := Do(t, Push(1));
    t := Do(t, Swap(1));
    t := Do(t, OsWake(1, false));
    assert t.senders == map[];
  }

  lemma DrainAndSleep(s: Loop) returns (t: Loop)
    requires Reachable(s) && s.pc.Top? && IdleSender(s, 0) && !s.waker.delivered
    requires s.urgent == [Entry(Command.Nop, 0)] && s.common == []
    ensures Reachable(t) && t == s.(urgent := [], doneUrgent := s.doneUrgent + s.urgent, pc := Polling(false))
  {
    hide Reachable;
    t := Do(s, CheckUrgent);
    t := Do(t, PollReturn(false));
    t := Do(t, TakeUrgent);
    t := Do(t, SeeUrgentEmpty);
    t := Do(t, SeeCommonEmpty);
    t := FallAsleep(t);
  }

  lemma FallAsleep(s: Loop) returns (t: Loop)
    requires Reachable(s) && s.pc.Dispatching? && IdleSender(s, 0) && !s.waker.delivered
    requires s.urgent == [] && s.common == []
    ensures Reachable(t) && t == s.(pc := Polling(false))
  {
    hide Reachable;
    t := Do(s, EndDispatch);
    t := Do(t, CheckUrgent);
    t := Do(t, CheckCommon);
  }

  /** A run in which the failure costs a wake-up: the loop sleeps, work is queued, nobody will wake it. */
  lemma FailedWakeLosesWork()
    ensures exists s :: Reachable(s) && Blocked(s) && HasWork(s) && s.senders == map[]
                        && s.waker.failed && s.waker.Deaf()
  {
    InitReachable();
    var s := SendWithFailedWake(Init);
    s := DrainAndSleep(s);
    s := Do(s, Choose(1, Command.Nop, false));
    s := Do(s, Push(1));
    s := Do(s, Swap(1));
    assert s.senders == map[];
  }

  /** An interrupted poll is a second chance even so: the loop looks again, and does not block with work queued. */
  lemma InterruptFindsWork(s: Loop) returns (steps: seq<Step>, t: Loop)
    requires Blocked(s) && HasWork(s) && IdleSender(s, 0)
    ensures RunsTo(s, [PollInterrupted] + steps, t) && t.pc == Polling(true) && t.urgent == s.urgent
    ensures forall i :: 0 <= i < |steps| ==> OwnStep(steps[i])
  {
    steps := if s.urgent == [] then [CheckUrgent, CheckCommon] else [CheckUrgent];
    var looked := Next(Next(s, PollInterrupted), CheckUrgent);
    t := if s.urgent == [] then Next(looked, CheckCommon) else looked;
    NoMoreSteps(t);
    assert ([PollInterrupted] + steps)[1..] == steps;
    if s.urgent == [] {
      assert steps[1..][1..] == [];
      OneMoreStep(looked, steps[1..], t);
    } else {
      assert steps[1..] == [];
    }
    OneMoreStep(Next(s, PollInterrupted), steps, t);
    OneMoreStep(s, [PollInterrupted] + steps, t);
  }

  /** Every sender is done. */
  predicate Quiescent(s: Loop) {
    s.senders == map[] && s.waker.committed == {}
  }

  predicate Takes(step: Step) {
    step.TakeUrgent? || step.TakeCommon?
  }

  /** A step of the loop that is neither an interrupted poll nor its end. */
  predicate OwnStep(step: Step) {
    !SendersStep(step) && !step.PollInterrupted? && !step.Quit?
  }

  /** How many steps the loop may still make before it takes a queued command. */
  function Distance(s: Loop): (d: nat)
    ensures d <= 9
  {
    match s.pc
    case Window(_, _) => if s.common != [] then 1 else 9
    case Draining(budget) => if budget > 0 then 2 else 7
    case Polling(hasPending) => if hasPending then 3 else 7
    case SawUrgentEmpty => if s.urgent == [] then 4 else 8
    case Top => 5
    case Dispatching => 6
    case Exited => 0
  }

  lemma StepsCloser(s: Loop, step: Step)
    requires HasWork(s) && Quiescent(s) && Enabled(s, step) && OwnStep(step) && !Takes(step)
    ensures var t := Next(s, step); HasWork(t) && Quiescent(t) && Distance(t) < Distance(s)
  {
  }

  /**
   Whatever the schedule, once the senders are done a loop with queued commands
   takes one within ten of its own uninterrupted steps.
   */
  lemma {:induction false} EveryScheduleGetsToWork(s: Loop, steps: seq<Step>, t: Loop)
    requires HasWork(s) && Quiescent(s) && RunsTo(s, steps, t)
    requires |steps| > Distance(s) && forall i :: 0 <= i < |steps| ==> OwnStep(steps[i])
    ensures exists i :: 0 <= i <= Distance(s) && Takes(steps[i])
    decreases |steps|
  {
    if Takes(steps[0]) {
      assert Takes(steps[0]);
    } else {
      StepsCloser(s, steps[0]);
      var rest := steps[1..];
      assert forall i :: 0 <= i < |rest| ==> rest[i] == steps[i + 1];
      EveryScheduleGetsToWork(Next(s, steps[0]), rest, t);
      var i :| 0 <= i <= Distance(Next(s, steps[0])) && Takes(rest[i]);
      assert Takes(steps[i + 1]);
    }
  }

  /** A step of the loop's own; a poll that returns brings the wake event if the poller owes one. */
  predicate Prompt(s: Loop, step: Step) {
    Enabled(s, step) && OwnStep(step) && (step.PollReturn? ==> step.deliver == s.waker.pending)
  }

  ghost predicate RunsPromptly(s: Loop, steps: seq<Step>, t: Loop)
    decreases |steps|
  {
    if steps == [] then s == t
    else Prompt(s, steps[0]) && RunsPromptly(Next(s, steps[0]), steps[1..], t)
  }

  /**
   And it is never stuck on the way: there always is a next step, and when commands
   are queued and that is to come back from a blocking poll, the poller owes it, as
   its waker was called.
   */
  lemma NeverStuck(s: Loop)
    requires Reachable(s) && Quiescent(s) && !s.waker.failed && !s.pc.Exited?
    ensures exists step :: Prompt(s, step) && (Blocked(s) && HasWork(s) ==> step == PollReturn(true))
  {
    hide Ordered, Attentive, Reachable;
    ReachableInv(s);
    var step :=
      match s.pc
      case Top => CheckUrgent
      case SawUrgentEmpty => CheckCommon
      case Polling(_) => PollReturn(s.waker.pending)
      case Dispatching => if s.waker.delivered then HandleWake else EndDispatch
      case Draining(budget) =>
        if budget == 0 then EndDrain else if s.urgent == [] then SeeUrgentEmpty else TakeUrgent
      case Window(_, _) => if s.common == [] then SeeCommonEmpty else TakeCommon
      case Exited => Quit;
    if Blocked(s) && HasWork(s) {
      QuiescentWakeIff(s);
    }
    assert Prompt(s, step);
  }

  /** The loop sleeps, everybody is done, and the next caller of the waker will find the flag down. */
  predicate Asleep(s: Loop) {
    Blocked(s) && !HasWork(s) && Quiescent(s) && s.waker == Quiet
  }

  /** How many prompt steps a loop with nothing to do may still make before it sleeps. */
  function Restlessness(s: Loop): (d: nat)
    ensures d <= 13
  {
    var steps: nat :=
      match s.pc
      case Polling(hasPending) => if hasPending then 6 else 0
      case Draining(budget) => if budget > 0 then 5 else 4
      case Window(_, _) => 4
      case Dispatching => 3
      case Top => 2
      case SawUrgentEmpty => 1
      case Exited => 0;
    steps + if s.waker.pending then 7 else if s.waker.delivered then 3 else 0
  }

  lemma CalmsDown(s: Loop, step: Step)
    requires Waking(s) && Quiescent(s) && !HasWork(s) && !s.waker.failed && Prompt(s, step) && !Asleep(s)
    ensures var t := Next(s, step);
            && Quiescent(t) && !HasWork(t) && !t.waker.failed && !t.pc.Exited?
            && Restlessness(t) < Restlessness(s)
  {
  }

  /**
   Once the senders are done and nothing is queued, a loop that is woken by all wake-ups
   on their way to it falls asleep within 13 of its own steps: no event left to handle,
   none on its way, and the flag is down.
   */
  lemma {:induction false} ComesToRest(s: Loop, steps: seq<Step>, t: Loop) returns (i: nat, u: Loop)
    requires Inv(s) && Quiescent(s) && !HasWork(s) && !s.waker.failed && !s.pc.Exited?
    requires RunsPromptly(s, steps, t) && |steps| >= Restlessness(s)
    ensures i <= Restlessness(s) && RunsPromptly(s, steps[..i], u) && Asleep(u)
    decreases |steps|
  {
    hide Ordered, Attentive, OwnStep, Enabled, Next, Restlessness;
    if Asleep(s) {
      i, u := 0, s;
    } else {
      SleepIsNear(s);
      var n, rest := Next(s, steps[0]), steps[1..];
      assert Prompt(s, steps[0]);
      CalmsDown(s, steps[0]);
      PromptKeeps(s, steps[0]);
      i, u := ComesToRest(n, rest, t);
      assert steps[..i + 1][0] == steps[0] && steps[..i + 1][1..] == rest[..i];
      i := i + 1;
    }
  }

  lemma SleepIsNear(s: Loop)
    requires Waking(s) && Quiescent(s) && !HasWork(s) && !s.waker.failed && !s.pc.Exited?
    ensures Restlessness(s) == 0 ==> Asleep(s)
  {
  }

  lemma PromptKeeps(s: Loop, step: Step)
    requires Inv(s) && Prompt(s, step)
    ensures Inv(Next(s, step))
  {
    hide Inv;
    InvNext(s, step);
  }

  /** And the next sender wakes it: its command is queued and the wake event at hand when the poll returns. */
  lemma NextSendWakes(s: Loop, p: nat, command: Command) returns (t: Loop)
    requires Asleep(s) && p != 0
    ensures RunsTo(s, [Choose(p, command, false), Push(p), Swap(p), OsWake(p, true), PollReturn(true)], t)
    ensures HasWork(t) && Enabled(t, HandleWake)
  {
    hide RunsTo;
    var all := [Choose(p, command, false), Push(p), Swap(p), OsWake(p, true), PollReturn(true)];
    var pushed := Sends(s, p, command);
    var woken := Next(Next(pushed, Swap(p)), OsWake(p, true));
    t := Next(woken, PollReturn(true));
    NoMoreSteps(t);
    assert all[4..][1..] == [];
    OneMoreStep(woken, all[4..], t);
    OneMoreStep(Next(pushed, Swap(p)), all[3..], t);
    OneMoreStep(pushed, all[2..], t);
    OneMoreStep(Next(s, Choose(p, command, false)), all[1..], t);
    OneMoreStep(s, all, t);
  }

  /** A sender's command is queued, and its next step is to set the flag. */
  lemma Sends(s: Loop, p: nat, command: Command) returns (t: Loop)
    requires Asleep(s) && p != 0
    ensures Enabled(s, Choose(p, command, false)) && Enabled(Next(s, Choose(p, command, false)), Push(p))
    ensures t == Next(Next(s, Choose(p, command, false)), Push(p)) && HasWork(t)
    ensures t.pc == s.pc && t.waker == s.waker && t.senders == map[p := Sent]
  {
    t := Next(Next(s, Choose(p, command, false)), Push(p));
  }

  lemma NoMoreSteps(t: Loop)
    ensures RunsTo(t, [], t)
  {
  }

  lemma OneMoreStep(s: Loop, steps: seq<Step>, t: Loop)
    requires steps != [] && Enabled(s, steps[0]) && RunsTo(Next(s, steps[0]), steps[1..], t)
    ensures RunsTo(s, steps, t)
  {
    hide Next;
  }

  // ----- how long a High command waits -----

  /** A run in which polls are not interrupted and nobody quits; the senders do as they please. */
  predicate Works(step: Step) {
    SendersStep(step) || OwnStep(step)
  }

  function OwnSteps(steps: seq<Step>): nat {
    if steps == [] then 0 else (if OwnStep(steps[0]) then 1 else 0) + OwnSteps(steps[1..])
  }

  /** The steps the loop may still make before it takes the first command of a non-empty urgent queue. */
  function UrgentDistance(pc: Pc): (d: nat)
    ensures d <= 6
  {
    match pc
    case Draining(budget) => if budget > 0 then 1 else 5
    case Polling(hasPending) => if hasPending then 2 else 5
    case Top => 3
    case Dispatching => 4
    case Window(_, _) => 6
    case SawUrgentEmpty => 6
    case Exited => 0
  }

  /** ... and before it takes the one behind k others. */
  function Patience(s: Loop, k: nat): nat {
    UrgentDistance(s.pc) + 5 * k
  }

  lemma SendersDoNotHinder(s: Loop, step: Step, k: nat)
    requires k < |s.urgent| && Enabled(s, step) && SendersStep(step)
    ensures var t := Next(s, step);
            && t.pc == s.pc && k < |t.urgent| && t.urgent[k] == s.urgent[k] && t.doneUrgent == s.doneUrgent
  {
  }

  lemma OwnStepsLead(s: Loop, step: Step, k: nat)
    requires k < |s.urgent| && Enabled(s, step) && OwnStep(step)
    ensures var t := Next(s, step);
            || t.pc.Exited?
            || (s.urgent[k] in t.doneUrgent && step.TakeUrgent? && k == 0)
            || (k < |t.urgent| && t.urgent[k] == s.urgent[k] && Patience(t, k) < Patience(s, k))
            || (k > 0 && k - 1 < |t.urgent| && t.urgent[k - 1] == s.urgent[k] && Patience(t, k - 1) < Patience(s, k))
  {
  }

  /** What is over stays over: the loop has ended, or the command was taken. */
  lemma {:induction false} OverIsOver(s: Loop, steps: seq<Step>, t: Loop, e: Entry)
    requires RunsTo(s, steps, t) && (s.pc.Exited? || e in s.doneUrgent)
    ensures t.pc.Exited? || e in t.doneUrgent
    decreases |steps|
  {
    if steps != [] {
      OverIsOver(Next(s, steps[0]), steps[1..], t, e);
    }
  }

  /**
   Whatever the senders do meanwhile, a command with k others ahead of it in the
   urgent queue is taken within six steps of the loop and five more for each of
   them, unless one of them ends the loop.
   */
  lemma {:induction false} UrgentIsTaken(s: Loop, k: nat, steps: seq<Step>, t: Loop)
    requires k < |s.urgent| && RunsTo(s, steps, t)
    requires (forall i :: 0 <= i < |steps| ==> Works(steps[i])) && OwnSteps(steps) >= Patience(s, k)
    ensures t.pc.Exited? || s.urgent[k] in t.doneUrgent
    decreases |steps|
  {
    hide Next, Enabled;
    if s.pc.Exited? {
      OverIsOver(s, steps, t, s.urgent[k]);
    } else {
      var step, rest := steps[0], steps[1..];
      var n := Next(s, step);
      assert Works(step) && forall i :: 0 <= i < |rest| ==> rest[i] == steps[i + 1];
      if SendersStep(step) {
        SendersDoNotHinder(s, step, k);
        UrgentIsTaken(n, k, rest, t);
      } else {
        OwnStepsLead(s, step, k);
        if n.pc.Exited? || s.urgent[k] in n.doneUrgent {
          OverIsOver(n, rest, t, s.urgent[k]);
        } else if k < |n.urgent| && n.urgent[k] == s.urgent[k] && Patience(n, k) < Patience(s, k) {
          UrgentIsTaken(n, k, rest, t);
        } else {
          UrgentIsTaken(n, k - 1, rest, t);
        }
      }
    }
  }

  // ----- how long the sockets wait -----

  /** How many steps the loop may still make before it polls. */
  function StepsToPoll(s: Loop): nat {
    var steps: nat :=
      match s.pc
      case Polling(_) => 0
      case SawUrgentEmpty => 1
      case Top => 2
      case Dispatching => 3
      case Draining(budget) => 5 + 2 * budget
      case Window(budget, _) => 4 + 2 * budget
      case Exited => 0;
    if s.waker.delivered then steps + 515 else steps
  }

  lemma PollIsNearer(s: Loop, step: Step)
    requires Waking(s) && Enabled(s, step) && Works(step) && !s.pc.Polling? && !s.pc.Exited?
    ensures var t := Next(s, step);
            || t.pc.Exited?
            || (if OwnStep(step) then StepsToPoll(t) < StepsToPoll(s) else StepsToPoll(t) == StepsToPoll(s))
  {
  }

  /**
   The senders cannot keep the loop from its sockets: whatever they do, it is back in
   its poll after one ration of 256 commands, or two if a wake event is at hand, unless
   one of them ends it.
   */
  lemma {:induction false} BackToItsPoll(s: Loop, steps: seq<Step>, t: Loop) returns (i: nat, u: Loop)
    requires Waking(s) && RunsTo(s, steps, t)
    requires (forall i :: 0 <= i < |steps| ==> Works(steps[i])) && OwnSteps(steps) >= StepsToPoll(s)
    ensures i <= |steps| && RunsTo(s, steps[..i], u) && (u.pc.Polling? || u.pc.Exited?)
    ensures OwnSteps(steps[..i]) <= StepsToPoll(s) <= 1032
    decreases |steps|
  {
    hide Waking, Next, Enabled, StepsToPoll, Works, OwnStep;
    FarFromPoll(s);
    if s.pc.Polling? || s.pc.Exited? {
      i, u := 0, s;
    } else {
      var step, rest := steps[0], steps[1..];
      assert Works(step) && forall i :: 0 <= i < |rest| ==> rest[i] == steps[i + 1];
      PollIsNearer(s, step);
      WakingNext(s, step);
      var n := Next(s, step);
      if n.pc.Exited? {
        i, u := 1, n;
        assert steps[..1][1..] == [];
      } else {
        i, u := BackToItsPoll(n, rest, t);
        i := i + 1;
      }
      assert steps[..i][0] == step && steps[..i][1..] == rest[..i - 1];
    }
  }

  lemma FarFromPoll(s: Loop)
    requires Waking(s)
    ensures StepsToPoll(s) <= 1032 && (StepsToPoll(s) == 0 ==> s.pc.Polling? || s.pc.Exited?)
  {
  }

  /**
   Where a command goes that a sender pushes: nowhere once the loop has ended, to the
   urgent queue if the sender, as the acceptor does, sends there directly or 1024 others
   do not wait there, and to the common one only if it is of low priority.
   */
  lemma WhereAPushGoes(s: Loop, p: nat, command: Command, direct: bool)
    requires Enabled(s, Choose(p, command, direct))
    ensures var chosen := Next(s, Choose(p, command, direct));
            Enabled(chosen, Push(p)) &&
            var t, entry := Next(chosen, Push(p)), Entry(command, |s.sent|);
            if s.pc.Exited? then t == s
            else
              && p in t.senders && t.senders[p] == Sent
              && var overflows := !direct && |s.urgent| >= 1024 && !entry.High();
                 && t.urgent == s.urgent + (if overflows then [] else [entry])
                 && t.common == s.common + (if overflows then [entry] else [])
  {
    var chosen := Next(s, Choose(p, command, direct));
    assert chosen.senders - {p} == s.senders;
  }

  /** A command to wake calls the waker, and the loop does nothing else before that. */
  lemma WakeIsCarriedOut(s: Loop, step: Step, next: Step)
    requires Enabled(s, step) && Takes(step)
    requires (if step.TakeUrgent? then s.urgent[0] else s.common[0]).command.Wake?
    ensures Enabled(Next(s, step), Swap(0)) && (OwnStep(next) ==> !Enabled(Next(s, step), next))
  {
  }

  /** A command to shut down that was taken has ended the loop. */
  predicate Obeyed(s: Loop) {
    (exists i :: 0 <= i < |s.doneUrgent| && s.doneUrgent[i].command.Shutdown?) ==> s.pc.Exited?
  }

  lemma {:induction false} ShutdownIsObeyed(s: Loop, steps: seq<Step>, t: Loop)
    requires Obeyed(s) && RunsTo(s, steps, t)
    ensures Obeyed(t)
    decreases |steps|
  {
    if steps != [] {
      ObeyedNext(s, steps[0]);
      ShutdownIsObeyed(Next(s, steps[0]), steps[1..], t);
    }
  }

  lemma ObeyedNext(s: Loop, step: Step)
    requires Obeyed(s) && Enabled(s, step)
    ensures Obeyed(Next(s, step))
  {
    var t := Next(s, step);
    if !t.pc.Exited? {
      forall i | 0 <= i < |t.doneUrgent| ensures !t.doneUrgent[i].command.Shutdown? {
        if i < |s.doneUrgent| {
          assert s.doneUrgent[i] == t.doneUrgent[i];
        }
      }
    }
  }

  /** So a queued Shutdown ends the loop, however many commands are ahead of it and whatever the senders do. */
  lemma QueuedShutdownEndsTheLoop(s: Loop, k: nat, steps: seq<Step>, t: Loop)
    requires Reachable(s) && k < |s.urgent| && s.urgent[k].command.Shutdown? && RunsTo(s, steps, t)
    requires (forall i :: 0 <= i < |steps| ==> Works(steps[i])) && OwnSteps(steps) >= Patience(s, k)
    ensures t.pc.Exited?
  {
    var before :| RunsTo(Init, before, s);
    ShutdownIsObeyed(Init, before, s);
    ShutdownIsObeyed(s, steps, t);
    UrgentIsTaken(s, k, steps, t);
  }

  /** High commands are processed in the order they were sent, none skipped. */
  lemma HighInOrder(s: Loop)
    requires Reachable(s)
    ensures HighOf(s.sent) == HighOf(s.doneUrgent) + HighOf(s.urgent)
    ensures HighOf(s.doneCommon) == []
  {
    ReachableInv(s);
    HighOfConcat(s.doneUrgent, s.urgent);
    NoneHigh(s.doneCommon, s.common);
  }

  lemma {:induction false} NoneHigh(a: seq<Entry>, b: seq<Entry>)
    requires forall i :: 0 <= i < |a + b| ==> !(a + b)[i].High()
    ensures HighOf(a) == []
  {
    if a != [] {
      assert !(a + b)[0].High();
      assert (a + b)[1..] == a[1..] + b;
      NoneHigh(a[1..], b);
    }
  }

  /**
   No command of either priority is lost or repeated: what was taken and what is
   queued is what was sent, and each queue is worked off in the order of sending.
   */
  lemma NothingLost(s: Loop)
    requires Reachable(s)
    ensures multiset(s.sent) ==
            multiset(s.doneUrgent) + multiset(s.urgent) + multiset(s.doneCommon) + multiset(s.common)
    ensures forall i, j :: 0 <= i < j < |s.sent| ==> s.sent[i] != s.sent[j]
    ensures Sorted(s.doneUrgent + s.urgent, |s.sent|) && Sorted(s.doneCommon + s.common, |s.sent|)
  {
    ReachableInv(s);
  }

  /** The step processes a Low command while a High one sent earlier is still queued. */
  ghost predicate Overtakes(s: Loop, step: Step, low: Entry, high: Entry) {
    && !low.High() && high.High() && high.ticket < low.ticket
    && (high in s.urgent || high in s.common)
    && ((step.TakeUrgent? && s.urgent != [] && low == s.urgent[0])
        || (step.TakeCommon? && s.common != [] && low == s.common[0]))
  }

  /**
   A Low command overtakes a High one exactly when the loop takes it from the
   common queue, and the High one went into the urgent queue earlier but after the
   loop had found that empty. Whatever was queued before that look keeps its order.
   */
  lemma OvertakesIff(s: Loop, step: Step, low: Entry, high: Entry)
    requires Reachable(s) && Enabled(s, step)
    ensures Overtakes(s, step, low, high) <==>
            && step.TakeCommon? && s.common[0] == low
            && high.High() && high in s.urgent && s.pc.seen <= high.ticket < low.ticket
  {
    hide HighOf, Waking, Attentive, Reachable, Ordered, Enabled, Overtakes;
    ReachableInv(s);
    if Overtakes(s, step, low, high) {
      OnlyBehind(s, step, low, high);
    } else if step.TakeCommon? {
      CommonEnabled(s);
      if s.common[0] == low && high.High() && high in s.urgent && high.ticket < low.ticket {
        BehindIsOvertaken(s, low, high);
      }
    }
  }

  lemma CommonEnabled(s: Loop)
    requires Enabled(s, TakeCommon)
    ensures s.common != [] && s.pc.Window?
  {
  }

  lemma BehindIsOvertaken(s: Loop, low: Entry, high: Entry)
    requires Ordered(s) && s.common != [] && s.common[0] == low
    requires high.High() && high in s.urgent && high.ticket < low.ticket
    ensures Overtakes(s, TakeCommon, low, high)
  {
    hide HighOf;
    assert ThroughCommon(s)[|s.doneCommon|] == s.common[0];
  }

  lemma OnlyBehind(s: Loop, step: Step, low: Entry, high: Entry)
    requires Ordered(s) && Enabled(s, step) && Overtakes(s, step, low, high)
    ensures step.TakeCommon? && s.common != [] && s.common[0] == low && s.pc.Window?
    ensures high.High() && high in s.urgent && s.pc.seen <= high.ticket < low.ticket
  {
    hide HighOf;
    forall i | 0 <= i < |s.common| ensures !s.common[i].High() {
      assert ThroughCommon(s)[|s.doneCommon| + i] == s.common[i];
    }
    var i :| 0 <= i < |s.urgent| && s.urgent[i] == high;
    assert ThroughUrgent(s)[|s.doneUrgent| + i] == high;
    assert ThroughUrgent(s)[|s.doneUrgent|] == s.urgent[0];
  }

  /** The urgent queue can be filled, leaving every sender on its way to the flag. */
  lemma {:induction false} Fill(n: nat) returns (s: Loop)
    ensures Reachable(s) && |s.urgent| == n && s.common == [] && s.pc == Top && !s.waker.delivered
    ensures forall i :: 0 <= i < n ==> s.urgent[i].command == Command.Nop
    ensures forall p :: p in s.senders ==> 0 < p <= n
    ensures s.waker == Quiet
  {
    hide Reachable;
    if n == 0 {
      InitReachable();
      s := Init;
    } else {
      s := Fill(n - 1);
      s := Do(s, Choose(n, Command.Nop, true));
      s := Do(s, Push(n));
    }
  }

  lemma PollAgain(s: Loop)
    requires Reachable(s) && s.pc == Draining(0) && IdleSender(s, 0) && !s.waker.delivered && s.urgent != []
    ensures Reachable(s.(pc := Draining(MAX_ASYNC_TASK_ONE_TIME)))
  {
    hide Reachable;
    var t := Do(s, EndDrain);
    t := Do(t, EndDispatch);
    t := Do(t, CheckUrgent);
    t := Do(t, PollReturn(false));
  }

  /** The loop alone can take n commands that do nothing, polling again when its budget is used up. */
  lemma {:induction false} TakeAll(s: Loop) returns (t: Loop)
    requires Reachable(s) && s.pc.Draining? && IdleSender(s, 0) && !s.waker.delivered && s.common == []
    requires forall i :: 0 <= i < |s.urgent| ==> s.urgent[i].command == Command.Nop
    requires s.pc.budget > 0 || s.urgent != []
    ensures Reachable(t) && t.pc.Draining? && t.urgent == [] && t.common == []
    ensures t.senders == s.senders && t.waker == s.waker
    ensures t.pc.budget == 0 ==> s.urgent != [] && (|s.urgent| - s.pc.budget) % MAX_ASYNC_TASK_ONE_TIME == 0
    decreases |s.urgent|
  {
    hide Reachable;
    if s.urgent == [] {
      t := s;
    } else {
      t := if s.pc.budget == 0 then s.(pc := Draining(MAX_ASYNC_TASK_ONE_TIME)) else s;
      if s.pc.budget == 0 {
        PollAgain(s);
      }
      t := Do(t, TakeUrgent);
      if t.urgent != [] || t.pc.budget > 0 {
        t := TakeAll(t);
      }
    }
  }

  /** A loop with a full urgent queue, and one more sender that has chosen the common queue for a Low command. */
  lemma ChooseOverflow(p: nat) returns (s: Loop)
    requires p == MAX_POLL_EVENT_CAP + 2
    ensures Reachable(s) && s.pc == Top && |s.urgent| == MAX_POLL_EVENT_CAP + 1 && s.common == []
    ensures forall i :: 0 <= i < |s.urgent| ==> s.urgent[i].command == Command.Nop
    ensures forall q :: q in s.senders ==> 0 < q <= p
    ensures p in s.senders && s.senders[p] == Chosen(Command.Nop, true)
    ensures s.waker == Quiet
  {
    hide Reachable;
    s := Fill(MAX_POLL_EVENT_CAP + 1);
    s := Do(s, Choose(p, Command.Nop, false));
  }

  /** The loop between its two looks, with a Low command about to be put into the common queue. */
  lemma OpenWindow(p: nat) returns (s: Loop)
    requires p == MAX_POLL_EVENT_CAP + 2
    ensures Reachable(s) && s.pc.Window? && s.pc.budget > 0 && s.urgent == [] && s.common == []
    ensures forall q :: q in s.senders ==> 0 < q <= p
    ensures p in s.senders && s.senders[p] == Chosen(Command.Nop, true)
    ensures s.waker == Quiet
  {
    hide Reachable;
    s := ChooseOverflow(p);
    s := Do(s, CheckUrgent);
    s := Do(s, PollReturn(false));
    s := TakeAll(s);
    s := Do(s, SeeUrgentEmpty);
  }

  lemma HighThenLow(s: Loop, p: nat, q: nat) returns (t: Loop)
    requires Reachable(s) && 0 < p < q && IdleSender(s, q) && s.urgent == [] && s.common == []
    requires p in s.senders && s.senders[p] == Chosen(Command.Nop, true) && !s.pc.Exited?
    ensures Reachable(t) && t.pc == s.pc && t.waker == s.waker
    ensures t.urgent == [Entry(Command.Shutdown, |s.sent|)]
    ensures t.common == [Entry(Command.Nop, |s.sent| + 1)]
    ensures IdleSender(s, 0) ==> IdleSender(t, 0)
  {
    hide Reachable;
    t := Do(s, Choose(q, Command.Shutdown, false));
    t := Do(t, Push(q));
    t := Do(t, Push(p));
  }

  /** The window is real: in some run a Low command is processed before a High one sent earlier. */
  lemma OvertakingHappens()
    ensures exists s, low, high :: Reachable(s) && Enabled(s, TakeCommon) && Overtakes(s, TakeCommon, low, high)
  {
    var p, q := MAX_POLL_EVENT_CAP + 2, MAX_POLL_EVENT_CAP + 3;
    var s := OpenWindow(p);
    s := HighThenLow(s, p, q);
    assert Overtakes(s, TakeCommon, s.common[0], s.urgent[0]);
  }
}
