/**
 The acceptor thread and the threads that shut it down. Its waker is the same
 coalescing waker, but only a shutdown ever calls it.
 */
module Acceptors {
  import opened Wakers

  datatype Pc = Top | Polling | Dispatching | Exited

  /** `stored` holds the callers that cleared the running flag and have yet to set the waker's. */
  datatype Acceptor = Acceptor(running: bool, stored: set<nat>, waker: Waker, pc: Pc)

  const Init: Acceptor := Acceptor(true, {}, Quiet, Top)

  datatype Step =
    | Store(p: nat)
    | Swap(p: nat)
    | OsWake(p: nat, ok: bool)
    | CheckRunning
    | PollInterrupted
    | PollReturn(deliver: bool)
    | HandleWake
    | EndDispatch
    | PollFails

  predicate Enabled(s: Acceptor, step: Step) {
    match step
    case Store(p) => p !in s.stored && p !in s.waker.committed
    case Swap(p) => p in s.stored && p !in s.waker.committed
    case OsWake(p, _) => p in s.waker.committed
    case CheckRunning => s.pc.Top?
    case PollInterrupted => s.pc.Polling?
    case PollReturn(deliver) => s.pc.Polling? && (deliver ==> s.waker.pending)
    case HandleWake => s.pc.Dispatching? && s.waker.delivered
    case EndDispatch => s.pc.Dispatching? && !s.waker.delivered
    case PollFails => s.pc.Polling?
  }

  function Next(s: Acceptor, step: Step): Acceptor
    requires Enabled(s, step)
  {
    match step
    case Store(p) => s.(running := false, stored := s.stored + {p})
    case Swap(p) => s.(stored := s.stored - {p}, waker := s.waker.Swap(p))
    case OsWake(p, ok) => s.(waker := s.waker.OsWake(p, ok))
    case CheckRunning => s.(pc := if s.running then Polling else Exited)
    case PollInterrupted => s.(pc := Top)
    case PollReturn(deliver) => s.(waker := if deliver then s.waker.Deliver() else s.waker, pc := Dispatching)
    case HandleWake => if !s.running then s.(pc := Exited) else s.(waker := s.waker.Reset())
    case EndDispatch => s.(pc := Top)
    case PollFails => s.(pc := Exited)
  }

  ghost predicate RunsTo(s: Acceptor, steps: seq<Step>, t: Acceptor)
    decreases |steps|
  {
    if steps == [] then s == t
    else Enabled(s, steps[0]) && RunsTo(Next(s, steps[0]), steps[1..], t)
  }

  predicate Inv(s: Acceptor) {
    && s.waker.Conserved()
    && s.stored !! s.waker.committed
    && (s.waker.delivered ==> s.pc.Dispatching? || s.pc.Exited?)
    && (s.waker.awoken || s.stored != {} ==> !s.running)
    && (!s.running ==> s.waker.awoken || s.stored != {})
  }

  lemma InvNext(s: Acceptor, step: Step)
    requires Inv(s) && Enabled(s, step)
    ensures Inv(Next(s, step))
  {
    if step.HandleWake? {
      assert s.waker.awoken;
    }
  }

  lemma {:induction false} InvRun(s: Acceptor, steps: seq<Step>, t: Acceptor)
    requires Inv(s) && RunsTo(s, steps, t)
    ensures Inv(t)
    decreases |steps|
  {
    if steps != [] {
      InvNext(s, steps[0]);
      InvRun(Next(s, steps[0]), steps[1..], t);
    }
  }

  /**
   A shutdown is never lost: in every interleaving, an acceptor that sits in its
   blocking poll after somebody asked it to stop has been woken, or a caller is
   still on its way to wake it.
   */
  lemma ShutdownNeverLost(steps: seq<Step>, s: Acceptor)
    requires RunsTo(Init, steps, s)
    requires s.pc.Polling? && !s.running && !s.waker.failed
    ensures s.waker.pending || s.stored != {} || s.waker.committed != {}
  {
    InvRun(Init, steps, s);
    if s.stored == {} {
      AwokenHasToken(s.waker);
    }
  }

  /** The acceptor stops at the first wake event it handles: its waker is never reset. */
  lemma WakeAlwaysStops(steps: seq<Step>, s: Acceptor)
    requires RunsTo(Init, steps, s) && Enabled(s, HandleWake)
    ensures Next(s, HandleWake).pc.Exited?
    ensures Next(s, HandleWake).waker == s.waker
  {
    InvRun(Init, steps, s);
    assert s.waker.Tokens() > 0;
  }

  /** Once stopped or told to stop it never runs again: no step restores the running flag. */
  lemma {:induction false} StopIsFinal(s: Acceptor, steps: seq<Step>, t: Acceptor)
    requires RunsTo(s, steps, t)
    ensures !s.running ==> !t.running
    ensures s.pc.Exited? ==> t.pc.Exited?
    decreases |steps|
  {
    if steps != [] {
      StopIsFinal(Next(s, steps[0]), steps[1..], t);
    }
  }

  /** A step of the acceptor's own; a poll that returns brings the wake event if the poller owes one. */
  predicate Prompt(s: Acceptor, step: Step) {
    && Enabled(s, step)
    && match step
       case PollReturn(deliver) => deliver == s.waker.pending
       case CheckRunning => true
       case HandleWake => true
       case EndDispatch => true
       case _ => false
  }

  ghost predicate RunsPromptly(s: Acceptor, steps: seq<Step>, t: Acceptor)
    decreases |steps|
  {
    if steps == [] then s == t
    else Prompt(s, steps[0]) && RunsPromptly(Next(s, steps[0]), steps[1..], t)
  }

  /** It was told to stop, and those who told it are done and have called its waker. */
  predicate Told(s: Acceptor) {
    Inv(s) && !s.running && s.stored == {} && s.waker.committed == {} && !s.waker.failed
  }

  /** If its poll fails the acceptor ends, and if it is interrupted it looks at the flag again. */
  lemma HowAPollEnds(s: Acceptor)
    requires s.pc.Polling?
    ensures Next(s, PollFails).pc.Exited?
    ensures !s.running ==> Enabled(Next(s, PollInterrupted), CheckRunning)
                           && Next(Next(s, PollInterrupted), CheckRunning).pc.Exited?
  {
  }

  /** How many of its own steps an acceptor that was told to stop may still make. */
  function StepsLeft(s: Acceptor): (d: nat)
    ensures d <= 2
  {
    match s.pc
    case Exited => 0
    case Top => 1
    case Dispatching => if s.waker.delivered then 1 else 2
    case Polling => 2
  }

  lemma StopsNearer(s: Acceptor, step: Step)
    requires Told(s) && Prompt(s, step)
    ensures Told(Next(s, step)) && StepsLeft(Next(s, step)) < StepsLeft(s)
  {
    InvNext(s, step);
  }

  /** Told to stop, the acceptor ends within two steps of its own, wherever it is, and is never stuck before. */
  lemma {:induction false} ToldToStopStops(s: Acceptor, steps: seq<Step>, t: Acceptor)
    requires Told(s) && RunsPromptly(s, steps, t)
    ensures |steps| <= StepsLeft(s) <= 2
    ensures t.pc.Exited? || exists step :: Prompt(t, step)
    decreases |steps|
  {
    if steps == [] {
      if !s.pc.Exited? {
        var step :=
          match s.pc
          case Top => CheckRunning
          case Polling => PollReturn(s.waker.pending)
          case _ => if s.waker.delivered then HandleWake else EndDispatch;
        assert Prompt(s, step);
      }
    } else {
      StopsNearer(s, steps[0]);
      ToldToStopStops(Next(s, steps[0]), steps[1..], t);
    }
  }
}
