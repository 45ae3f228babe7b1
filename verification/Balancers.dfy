/** How an acceptor picks the loop for a new connection. */
module Balancers {
  const USIZE: nat := 0x1_0000_0000_0000_0000

  /** How many of the turns below `turns` of a rotation over n workers go to worker w. */
  function Turns(n: nat, turns: nat, w: nat): nat
    requires w < n
  {
    if turns == 0 then 0
    else Turns(n, turns - 1, w) + if (turns - 1) % n == w then 1 else 0
  }

  lemma SmallMultiple(x: int, n: int)
    requires -n < x * n < n
    ensures x == 0
  {
    assert x >= 1 ==> x * n >= n;
    assert x <= -1 ==> x * n <= -n;
  }

  lemma DivIs(a: nat, n: nat, q: nat, r: nat)
    requires 0 < n && r < n && a == q * n + r
    ensures a / n == q
  {
    assert a == a / n * n + a % n;
    assert (a / n - q) * n == a / n * n - q * n;
    SmallMultiple(a / n - q, n);
  }

  lemma Carry(n: nat, a: nat, qa: nat, ra: nat, k: nat, qk: nat, rk: nat)
    requires ra < n && rk < n && a == qa * n + ra && k == qk * n + rk
    ensures (a + k) / n == qa + qk + if ra + rk >= n then 1 else 0
  {
    var q := qa + qk;
    assert q * n == qa * n + qk * n && (q + 1) * n == q * n + n;
    if ra + rk < n {
      DivIs(a + k, n, q, ra + rk);
    } else {
      DivIs(a + k, n, q + 1, ra + rk - n);
    }
  }

  lemma DivMod(a: nat, n: nat) returns (q: nat, r: nat)
    requires 0 < n
    ensures r < n && a == q * n + r && q == a / n && r == a % n
  {
    q, r := a / n, a % n;
  }

  /** Quotients add up, but for one carry. */
  lemma DivAdd(a: nat, k: nat, n: nat)
    requires 0 < n
    ensures a / n + k / n <= (a + k) / n <= a / n + (k + n - 1) / n
  {
    var qa, ra := DivMod(a, n);
    var qk, rk := DivMod(k, n);
    Carry(n, a, qa, ra, k, qk, rk);
    Carry(n, k, qk, rk, n - 1, 0, n - 1);
  }

  lemma DivStep(n: nat, m: nat, w: nat)
    requires w < n
    ensures (m + 1 + n - 1 - w) / n == (m + n - 1 - w) / n + if m % n == w then 1 else 0
  {
    var q, r := DivMod(m, n);
    Carry(n, m, q, r, n - 1 - w, 0, n - 1 - w);
    if w == 0 {
      Carry(n, m, q, r, n, 1, 0);
    } else {
      Carry(n, m, q, r, n - w, 0, n - w);
    }
  }

  lemma {:induction false} TurnsClosedForm(n: nat, turns: nat, w: nat)
    requires w < n
    ensures Turns(n, turns, w) == (turns + n - 1 - w) / n
  {
    if turns == 0 {
      DivIs(n - 1 - w, n, 0, n - 1 - w);
    } else {
      TurnsClosedForm(n, turns - 1, w);
      DivStep(n, turns - 1, w);
    }
  }

  /**
   Whatever the counter stands at, out of k selections in a row without a wrap
   every worker gets k/n, rounded down or up.
   */
  lemma RoundRobinIsFair(n: nat, start: nat, k: nat, w: nat)
    requires w < n
    ensures k / n <= Turns(n, start + k, w) - Turns(n, start, w) <= (k + n - 1) / n
  {
    TurnsClosedForm(n, start + k, w);
    TurnsClosedForm(n, start, w);
    DivAdd(start + n - 1 - w, k, n);
  }

  class RoundRobin {
    var next: nat

    constructor ()
      ensures next == 0
    {
      next := 0;
    }

    /** Each selection is one turn: the chosen worker's count goes up by one, and nobody else's. */
    method Select(workers: nat) returns (r: nat)
      requires next < USIZE
      modifies this
      ensures next < USIZE
      ensures workers == 0 ==> r == 0 && next == old(next)
      ensures workers > 0 ==> r < workers && next == (old(next) + 1) % USIZE
      ensures workers > 0 && old(next) + 1 < USIZE ==>
                forall w {:trigger Turns(workers, next, w)} :: 0 <= w < workers ==>
                  Turns(workers, next, w) == Turns(workers, old(next), w) + if w == r then 1 else 0
    {
      if workers == 0 {
        return 0;
      }
      var current := next;
      next := (next + 1) % USIZE;
      r := current % workers;
    }
  }

  /** The first of the workers with the fewest connections. */
  method LeastConnections(counts: seq<nat>) returns (r: nat)
    ensures counts == [] ==> r == 0
    ensures counts != [] ==> r < |counts|
    ensures forall i :: 0 <= i < |counts| ==> counts[r] <= counts[i]
    ensures forall i :: 0 <= i < r && i < |counts| ==> counts[r] < counts[i]
  {
    r := 0;
    for i := 0 to |counts|
      invariant counts != [] ==> r < |counts|
      invariant i == 0 ==> r == 0
      invariant i > 0 ==> r < i
      invariant forall j :: 0 <= j < i ==> counts[r] <= counts[j]
      invariant forall j :: 0 <= j < r ==> counts[r] < counts[j]
    {
      if counts[i] < counts[r] {
        r := i;
      }
    }
  }
}
