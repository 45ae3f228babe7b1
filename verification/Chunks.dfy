/**
 Byte strings, queues of byte chunks, and the two ways the server cuts a list of
 chunks after the socket took only its first bytes.
 */
module Chunks {
  newtype Byte = x: int | 0 <= x < 0x100
  type Bytes = seq<Byte>

  /** How many chunks one vectored write offers to the socket. */
  const IO_MAX: nat := 1024

  /** The byte stream a list of chunks stands for. */
  function Concat(chunks: seq<Bytes>): Bytes {
    if chunks == [] then [] else chunks[0] + Concat(chunks[1..])
  }

  lemma Assoc(a: Bytes, b: Bytes, c: Bytes)
    ensures a + (b + c) == a + b + c
  {
  }

  lemma {:induction false} ConcatAppend(a: seq<Bytes>, b: seq<Bytes>)
    ensures Concat(a + b) == Concat(a) + Concat(b)
  {
    var ab := a + b;
    if a == [] {
      assert ab == b;
      assert Concat(a) + Concat(b) == Concat(b);
    } else {
      calc {
        Concat(ab);
        { assert ab[0] == a[0] && ab[1..] == a[1..] + b; }
        a[0] + Concat(a[1..] + b);
        { ConcatAppend(a[1..], b); }
        a[0] + (Concat(a[1..]) + Concat(b));
        { Assoc(a[0], Concat(a[1..]), Concat(b)); }
        Concat(a) + Concat(b);
      }
    }
  }

  /** The chunks offered to one vectored write. */
  function Window(queue: seq<Bytes>): (w: seq<Bytes>)
    ensures w <= queue && (queue != [] ==> w != [])
  {
    if |queue| <= IO_MAX then queue else queue[..IO_MAX]
  }

  /** There is something queued, and a write would offer nothing of it. */
  predicate Stuck(queue: seq<Bytes>) {
    queue != [] && Concat(Window(queue)) == []
  }

  /** What the splitting loops queue when the first n bytes of `bufs` are already out. */
  function Unsent(bufs: seq<Bytes>, n: nat): seq<Bytes> {
    if bufs == [] then []
    else if n >= |bufs[0]| then Unsent(bufs[1..], n - |bufs[0]|)
    else [bufs[0][n..]] + Unsent(bufs[1..], 0)
  }

  /** What the front-draining loop leaves of `queue` after n written bytes. */
  function Drained(queue: seq<Bytes>, n: nat): seq<Bytes> {
    if n == 0 || queue == [] then queue
    else if |queue[0]| <= n then Drained(queue[1..], n - |queue[0]|)
    else [queue[0][n..]] + queue[1..]
  }

  lemma ConcatBehind(first: Bytes, rest: seq<Bytes>)
    ensures Concat([first] + rest) == first + Concat(rest)
  {
    assert ([first] + rest)[1..] == rest;
  }

  lemma DropJoined(a: Bytes, b: Bytes, n: nat)
    requires n <= |a| + |b|
    ensures (a + b)[n..] == if n >= |a| then b[n - |a|..] else a[n..] + b
  {
  }

  /** The splitting loops keep exactly the bytes that were not written, in non-empty chunks. */
  lemma {:induction false} UnsentKeepsSuffix(bufs: seq<Bytes>, n: nat)
    requires n <= |Concat(bufs)|
    ensures Concat(Unsent(bufs, n)) == Concat(bufs)[n..]
    ensures [] !in Unsent(bufs, n)
  {
    if bufs != [] {
      var first, rest := bufs[0], bufs[1..];
      DropJoined(first, Concat(rest), n);
      UnsentKeepsSuffix(rest, if n >= |first| then n - |first| else 0);
      UnsentBehind(bufs, n);
    }
  }

  /** The first chunk goes whole, or what is left of it stays in front. */
  lemma UnsentBehind(bufs: seq<Bytes>, n: nat)
    requires bufs != []
    ensures var first, rest := bufs[0], bufs[1..];
            if n >= |first| then Unsent(bufs, n) == Unsent(rest, n - |first|)
            else && Unsent(bufs, n) == [first[n..]] + Unsent(rest, 0) && first[n..] != []
                 && Concat(Unsent(bufs, n)) == first[n..] + Concat(Unsent(rest, 0))
  {
    if n < |bufs[0]| {
      ConcatBehind(bufs[0][n..], Unsent(bufs[1..], 0));
    }
  }

  /** The draining loop keeps exactly the bytes that were not written. */
  lemma {:induction false} DrainedKeepsSuffix(queue: seq<Bytes>, n: nat)
    requires n <= |Concat(queue)|
    ensures Concat(Drained(queue, n)) == Concat(queue)[n..]
  {
    if n != 0 && queue != [] {
      if |queue[0]| <= n {
        DrainedKeepsSuffix(queue[1..], n - |queue[0]|);
      } else {
        assert Drained(queue, n)[1..] == queue[1..];
      }
    }
  }

  /** A write no longer than the offered window never touches a chunk outside it. */
  lemma {:induction false} DrainedStaysInside(offered: seq<Bytes>, rest: seq<Bytes>, n: nat)
    requires n <= |Concat(offered)|
    ensures Drained(offered + rest, n) == Drained(offered, n) + rest
  {
    if n != 0 {
      assert (offered + rest)[1..] == offered[1..] + rest;
      if |offered[0]| <= n {
        DrainedStaysInside(offered[1..], rest, n - |offered[0]|);
      }
    }
  }

  /** The queue without its empty chunks. */
  function NonEmpty(chunks: seq<Bytes>): seq<Bytes> {
    if chunks == [] then []
    else (if chunks[0] == [] then [] else [chunks[0]]) + NonEmpty(chunks[1..])
  }

  /** Splitting and draining agree on every short write, up to the empty chunks draining may leave. */
  lemma {:induction false} SplitAgreesWithDrain(bufs: seq<Bytes>, n: nat)
    requires n <= |Concat(bufs)|
    ensures Unsent(bufs, n) == NonEmpty(Drained(bufs, n))
  {
    if bufs != [] {
      if n >= |bufs[0]| {
        SplitAgreesWithDrain(bufs[1..], n - |bufs[0]|);
      } else {
        SplitAgreesWithDrain(bufs[1..], 0);
        var left := Drained(bufs, n);
        assert left[0] == bufs[0][n..] && left[1..] == bufs[1..];
      }
    }
  }

  /** The draining loop would stop at position p: everything it offers from there is empty. */
  predicate StallsAt(queue: seq<Bytes>, p: nat) {
    && p < |queue|
    && (p == 0 || queue[p - 1] != [])
    && (forall i :: p <= i < p + IO_MAX && i < |queue| ==> queue[i] == [])
  }

  /** No stop position: the queue neither ends in an empty chunk nor holds IO_MAX empty ones in a row. */
  predicate Flushable(queue: seq<Bytes>) {
    forall p: nat :: p < |queue| ==> !StallsAt(queue, p)
  }

  lemma {:induction false} EmptyConcat(chunks: seq<Bytes>)
    ensures Concat(chunks) == [] <==> forall i :: 0 <= i < |chunks| ==> chunks[i] == []
  {
    if chunks != [] {
      EmptyConcat(chunks[1..]);
      assert forall i :: 1 <= i < |chunks| ==> chunks[i] == chunks[1..][i - 1];
    }
  }

  /** One past the last non-empty chunk. */
  function LastData(chunks: seq<Bytes>): (j: nat)
    ensures j <= |chunks|
    ensures j > 0 ==> chunks[j - 1] != []
    ensures forall i :: j <= i < |chunks| ==> chunks[i] == []
  {
    if chunks == [] then 0
    else if chunks[|chunks| - 1] != [] then |chunks|
    else LastData(chunks[..|chunks| - 1])
  }

  /** From position p on there are n chunks, and all of them are empty. */
  predicate EmptyRun(queue: seq<Bytes>, p: nat, n: nat) {
    p + n <= |queue| && forall i :: p <= i < p + n ==> queue[i] == []
  }

  /** A queue can be emptied exactly if it neither ends in an empty chunk nor holds 1024 empty ones in a row. */
  lemma FlushableIff(queue: seq<Bytes>)
    ensures Flushable(queue) <==>
            (queue == [] || queue[|queue| - 1] != []) && forall p: nat :: p < |queue| ==> !EmptyRun(queue, p, 1024)
  {
    if queue != [] && queue[|queue| - 1] == [] {
      assert StallsAt(queue, LastData(queue));
    }
    forall p: nat | p < |queue| && EmptyRun(queue, p, 1024) ensures !Flushable(queue) {
      var start := LastData(queue[..p]);
      assert forall i :: start <= i < p ==> queue[..p][i] == queue[i];
      assert start > 0 ==> queue[..p][start - 1] == queue[start - 1];
      assert StallsAt(queue, start);
    }
    forall p: nat | p < |queue| && StallsAt(queue, p)
      ensures queue[|queue| - 1] == [] || EmptyRun(queue, p, 1024)
    {
    }
  }

  /** Dropping a front that ends in data moves the stop positions and removes none. */
  lemma FlushableBehind(queue: seq<Bytes>, j: nat)
    requires 0 < j <= |queue| && j <= IO_MAX && queue[j - 1] != []
    ensures Flushable(queue) <==> Flushable(queue[j..])
  {
    var left := queue[j..];
    forall p: nat | p < |left|
      ensures StallsAt(left, p) <==> StallsAt(queue, p + j)
    {
      StallMoves(queue, j, p);
    }
    forall p: nat | p < j ensures !StallsAt(queue, p) {
      assert queue[j - 1] != [];
    }
    if Flushable(left) {
      forall p: nat | p < |queue| ensures !StallsAt(queue, p) {
        if p >= j { assert !StallsAt(left, p - j); }
      }
    }
  }

  lemma StallMoves(queue: seq<Bytes>, j: nat, p: nat)
    requires 0 < j && j + p < |queue| && queue[j - 1] != []
    ensures StallsAt(queue[j..], p) <==> StallsAt(queue, p + j)
  {
    var left := queue[j..];
    assert p > 0 ==> left[p - 1] == queue[p + j - 1];
    if StallsAt(left, p) {
      forall i | p + j <= i < p + j + IO_MAX && i < |queue| ensures queue[i] == [] {
        assert left[i - j] == [];
      }
    }
  }

  /** What a write of n bytes leaves lies behind chunks that were popped whole and, maybe, one cut short. */
  lemma {:induction false} DrainedCut(chunks: seq<Bytes>, n: nat) returns (j: nat)
    requires 0 < n <= |Concat(chunks)|
    ensures 0 < j <= |chunks| && chunks[j - 1] != []
    ensures || Drained(chunks, n) == chunks[j..]
            || exists rest: Bytes :: rest != [] && Drained(chunks, n) == [rest] + chunks[j..]
  {
    var first, tail := chunks[0], chunks[1..];
    if n < |first| {
      assert first[n..] != [];
      return 1;
    }
    if n == |first| {
      assert Drained(tail, 0) == tail;
      return 1;
    }
    var i := DrainedCut(tail, n - |first|);
    assert tail[i..] == chunks[i + 1..];
    return i + 1;
  }

  /** A chunk with data in front neither adds a stop position nor hides one. */
  lemma FlushableBelow(first: Bytes, queue: seq<Bytes>)
    requires first != []
    ensures Flushable([first] + queue) <==> Flushable(queue)
  {
    FlushableBehind([first] + queue, 1);
    assert ([first] + queue)[1..] == queue;
  }

  /**
   Whether the queue can be emptied at all is decided by the next window: not if
   it is all empty, and otherwise any write that takes something leaves it open.
   */
  lemma FlushableStep(queue: seq<Bytes>, n: nat)
    requires queue != [] && n <= |Concat(Window(queue))|
    ensures Concat(Window(queue)) == [] ==> !Flushable(queue)
    ensures n > 0 ==> (Flushable(queue) <==> Flushable(Drained(queue, n)))
  {
    hide Flushable, Drained;
    if Concat(Window(queue)) == [] {
      EmptyWindowStalls(queue);
    } else if n > 0 {
      var j := DrainedCut(Window(queue), n);
      FlushableBehind(queue, j);
      DrainedQueue(queue, n, j);
      if Drained(queue, n) != queue[j..] {
        var left: Bytes :| left != [] && Drained(queue, n) == [left] + queue[j..];
        FlushableBelow(left, queue[j..]);
      }
    }
  }

  /** The next write offers nothing exactly if the next 1024 chunks, or all there are, are empty. */
  lemma StuckIff(queue: seq<Bytes>)
    ensures Stuck(queue) <==> queue != [] && forall i :: 0 <= i < 1024 && i < |queue| ==> queue[i] == []
  {
    EmptyConcat(Window(queue));
    assert forall i :: 0 <= i < |Window(queue)| ==> Window(queue)[i] == queue[i];
  }

  lemma EmptyWindowStalls(queue: seq<Bytes>)
    requires queue != [] && Concat(Window(queue)) == []
    ensures !Flushable(queue)
  {
    EmptyConcat(Window(queue));
    assert StallsAt(queue, 0);
  }

  /** What a write of the window leaves, with the chunks behind the window. */
  lemma DrainedQueue(queue: seq<Bytes>, n: nat, j: nat)
    requires n <= |Concat(Window(queue))| && j <= |Window(queue)|
    requires || Drained(Window(queue), n) == Window(queue)[j..]
             || exists rest: Bytes :: rest != [] && Drained(Window(queue), n) == [rest] + Window(queue)[j..]
    ensures || Drained(queue, n) == queue[j..]
            || exists rest: Bytes :: rest != [] && Drained(queue, n) == [rest] + queue[j..]
  {
    hide Drained;
    var w, rest := Window(queue), queue[|Window(queue)|..];
    assert w + rest == queue;
    DrainedStaysInside(w, rest, n);
    assert w[j..] + rest == queue[j..];
    if Drained(w, n) != w[j..] {
      var left: Bytes :| left != [] && Drained(w, n) == [left] + w[j..];
      assert Drained(queue, n) == [left] + queue[j..];
    }
  }
}
