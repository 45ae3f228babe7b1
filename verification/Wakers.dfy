/**
 The coalescing waker: a flag that says a wake-up is already on its way, in
 front of the poller's own waker. A wake-up is a token that moves from the
 caller that set the flag, to the poller, to the event the loop was handed.
 */
module Wakers {
  /** `committed` holds the callers between setting the flag and calling the poller's waker. */
  datatype Waker = Waker(awoken: bool, committed: set<nat>, pending: bool, delivered: bool, failed: bool) {
    function Tokens(): nat {
      |committed| + (if pending then 1 else 0) + (if delivered then 1 else 0)
    }

    /** No wake-up is under way and the flag says one is. */
    predicate Deaf() {
      awoken && committed == {} && !pending && !delivered
    }

    /** The flag is up exactly while there is a token, and there is never more than one. */
    predicate Conserved() {
      if failed then Deaf() else Tokens() == (if awoken then 1 else 0)
    }

    /** `awoken.swap(true)` by caller p. */
    function Swap(p: nat): (w: Waker)
      ensures Conserved() && p !in committed ==> w.Conserved()
    {
      if awoken then this else this.(awoken := true, committed := committed + {p})
    }

    /** The poller's waker is called by p; when it fails the token is gone. */
    function OsWake(p: nat, ok: bool): (w: Waker)
      requires p in committed
      ensures Conserved() ==> w.Conserved()
    {
      SingletonFrom(committed, p);
      this.(committed := committed - {p}, pending := pending || ok, failed := failed || !ok)
    }

    /** The poller hands the wake event to the loop. */
    function Deliver(): (w: Waker)
      requires pending
      ensures Conserved() ==> w.Conserved()
    {
      this.(pending := false, delivered := true)
    }

    /** The loop lowers the flag when it handles the event. */
    function Reset(): (w: Waker)
      requires delivered
      ensures Conserved() ==> w.Conserved()
      ensures !w.awoken && !w.delivered
    {
      this.(awoken := false, delivered := false)
    }
  }

  const Quiet: Waker := Waker(false, {}, false, false, false)

  /** With one element and no more, taking it leaves nothing. */
  lemma SingletonFrom(s: set<nat>, p: nat)
    requires p in s
    ensures |s - {p}| == |s| - 1
    ensures |s| <= 1 ==> s - {p} == {}
  {
    var rest := s - {p};
    assert s == rest + {p};
    if |s| <= 1 {
      assert |rest| == 0;
    }
  }

  /**
   One trip of the token. When the event is handled the flag comes down, so the next
   caller, and only one, is on its way to the poller again, whose wake-up brings the
   event back; if that fails there is no token and the flag stays up.
   */
  lemma TokenGoesRound(w: Waker, p: nat, q: nat)
    requires w.Conserved() && w.delivered && !w.failed
    ensures w.Reset() == Quiet && w.Reset().Swap(p).committed == {p}
    ensures w.Reset().Swap(p).Swap(q) == w.Reset().Swap(p)
    ensures w.Reset().Swap(p).OsWake(p, true).pending && w.Reset().Swap(p).OsWake(p, true).Deliver() == w
    ensures w.Reset().Swap(p).OsWake(p, false).failed && w.Reset().Swap(p).OsWake(p, false).Deaf()
  {
    assert w.committed == {} && !w.pending;
    assert {} + {p} == {p} && {p} - {p} == {};
  }

  /** A raised flag means a caller will wake the poller, or the poller was woken, or the event is here. */
  lemma AwokenHasToken(w: Waker)
    requires w.Conserved() && w.awoken && !w.failed
    ensures w.pending || w.delivered || exists p :: p in w.committed
  {
    if !w.pending && !w.delivered {
      assert w.committed != {};
    }
  }
}
