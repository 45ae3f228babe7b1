/** Buffer and batch sizes, as the options builder rounds them. */
module Sizing {
  import opened Sockets

  const DEFAULT_BUFFER_SIZE: nat := 1024
  const MAX_STREAM_BUFFER_CAP: nat := 65536
  const DEFAULT_BATCH: nat := 0x10_0000
  const USIZE: nat := 0x1_0000_0000_0000_0000

  function Pow2(k: nat): (r: nat)
    ensures r > k
  {
    if k == 0 then 1 else 2 * Pow2(k - 1)
  }

  ghost predicate IsPow2(p: nat) {
    exists k: nat :: p == Pow2(k)
  }

  /** The least power of two at or above `floor`. */
  ghost predicate IsLeastPower(p: nat, floor: nat) {
    IsPow2(p) && p >= floor && forall q: nat :: IsPow2(q) && q >= floor ==> p <= q
  }

  /** Doubles from 2^k until n fits. */
  function NextPowerFrom(n: nat, k: nat): nat
    decreases n - k
  {
    if n <= Pow2(k) then Pow2(k) else NextPowerFrom(n, k + 1)
  }

  function NextPowerOfTwo(n: nat): nat {
    NextPowerFrom(n, 0)
  }

  function CeilToPowerOfTwo(n: nat): nat {
    if n <= 2 then 2 else NextPowerOfTwo(n)
  }

  function NormalizeBufferSize(size: nat): nat {
    if size == 0 then MAX_STREAM_BUFFER_CAP
    else if size <= DEFAULT_BUFFER_SIZE then DEFAULT_BUFFER_SIZE
    else CeilToPowerOfTwo(size)
  }

  lemma {:induction false} Pow2Monotone(a: nat, b: nat)
    ensures a <= b <==> Pow2(a) <= Pow2(b)
    ensures a < b ==> Pow2(a) < Pow2(b)
    decreases a + b
  {
    if a > 0 && b > 0 {
      Pow2Monotone(a - 1, b - 1);
    }
  }

  lemma {:induction false} NextPowerFromIsLeast(n: nat, k: nat, p: nat)
    requires IsPow2(p) && n <= p && Pow2(k) <= p
    ensures var r := NextPowerFrom(n, k); IsPow2(r) && n <= r <= p
    decreases n - k
  {
    if n > Pow2(k) {
      var j: nat :| p == Pow2(j);
      Pow2Monotone(k, j);
      Pow2Monotone(k + 1, j);
      NextPowerFromIsLeast(n, k + 1, p);
    }
  }

  /** The least power of two that is at least 2 and at least n. */
  lemma CeilIsLeast(n: nat, p: nat)
    requires IsPow2(p) && n <= p && 2 <= p
    ensures IsPow2(CeilToPowerOfTwo(n)) && n <= CeilToPowerOfTwo(n) && 2 <= CeilToPowerOfTwo(n) <= p
  {
    assert Pow2(1) == 2;
    NextPowerFromIsLeast(n, 0, p);
  }

  lemma CeilIsPow2(n: nat)
    ensures IsPow2(CeilToPowerOfTwo(n)) && n <= CeilToPowerOfTwo(n) && 2 <= CeilToPowerOfTwo(n)
  {
    var p := Pow2(n + 1);
    assert IsPow2(p);
    CeilIsLeast(n, p);
  }

  lemma Pow2Values()
    ensures Pow2(10) == DEFAULT_BUFFER_SIZE && Pow2(16) == MAX_STREAM_BUFFER_CAP
    ensures Pow2(20) == DEFAULT_BATCH && Pow2(63) == USIZE / 2 && Pow2(64) == USIZE
  {
    assert Pow2(4) == 16 && Pow2(10) == 1024 && Pow2(16) == 65536;
    Pow2Sum(16, 4);
    Pow2Sum(16, 16);
    Pow2Sum(32, 32);
  }

  lemma Doubled(x: nat, y: nat)
    ensures 2 * x * y == 2 * (x * y)
  {
  }

  lemma {:induction false} Pow2Sum(a: nat, b: nat)
    ensures Pow2(a + b) == Pow2(a) * Pow2(b)
  {
    if a > 0 {
      Pow2Sum(a - 1, b);
      assert Pow2(a + b) == 2 * Pow2(a - 1 + b);
      Doubled(Pow2(a - 1), Pow2(b));
    }
  }

  /** It fits in a machine word exactly up to 2^63; beyond, the library call overflows. */
  lemma CeilFitsIff(n: nat)
    ensures CeilToPowerOfTwo(n) < USIZE <==> n <= USIZE / 2
  {
    Pow2Values();
    CeilIsPow2(n);
    if n <= USIZE / 2 {
      assert IsPow2(Pow2(63));
      CeilIsLeast(n, Pow2(63));
    } else {
      var k: nat :| CeilToPowerOfTwo(n) == Pow2(k);
      Pow2Monotone(k, 63);
      Pow2Monotone(64, k);
    }
  }

  lemma CeilIdempotent(n: nat)
    ensures CeilToPowerOfTwo(CeilToPowerOfTwo(n)) == CeilToPowerOfTwo(n)
  {
    CeilIsPow2(n);
    CeilIsLeast(CeilToPowerOfTwo(n), CeilToPowerOfTwo(n));
  }

  /** A size is kept exactly when it is already a power of two of at least the default. */
  lemma NormalizeKeepsIff(size: nat)
    ensures NormalizeBufferSize(size) == size <==> IsPow2(size) && size >= DEFAULT_BUFFER_SIZE
  {
    assert Pow2(10) == DEFAULT_BUFFER_SIZE;
    if IsPow2(size) && size > DEFAULT_BUFFER_SIZE {
      CeilIsLeast(size, size);
    }
    CeilIsPow2(size);
  }

  lemma NormalizeIdempotent(size: nat)
    ensures NormalizeBufferSize(NormalizeBufferSize(size)) == NormalizeBufferSize(size)
  {
    assert Pow2(10) == DEFAULT_BUFFER_SIZE && Pow2(16) == MAX_STREAM_BUFFER_CAP;
    CeilIsPow2(size);
    NormalizeKeepsIff(NormalizeBufferSize(size));
  }

  datatype Options = Options(readBufferCap: nat, writeBufferCap: nat, maxBatchSize: nat)

  datatype Overrides = Overrides(readBufferCap: Option<nat>, writeBufferCap: Option<nat>, chunk: Option<nat>)

  function Override(value: nat, o: Option<nat>): nat {
    if o.Some? then o.value else value
  }

  function Built(base: Options, o: Overrides): Options {
    var batch := Override(base.maxBatchSize, o.chunk);
    Options(NormalizeBufferSize(Override(base.readBufferCap, o.readBufferCap)),
            NormalizeBufferSize(Override(base.writeBufferCap, o.writeBufferCap)),
            if batch > 0 then CeilToPowerOfTwo(batch) else DEFAULT_BATCH)
  }

  /** The smallest size a request for a buffer of this size may be met with. */
  function BufferFloor(size: nat): nat {
    if size == 0 then MAX_STREAM_BUFFER_CAP else if size < DEFAULT_BUFFER_SIZE then DEFAULT_BUFFER_SIZE else size
  }

  function BatchFloor(size: nat): nat {
    if size == 0 then DEFAULT_BATCH else if size < 2 then 2 else size
  }

  lemma NormalizeIsLeast(size: nat)
    ensures IsLeastPower(NormalizeBufferSize(size), BufferFloor(size))
  {
    var floor := BufferFloor(size);
    Pow2Values();
    assert IsPow2(Pow2(10)) && IsPow2(Pow2(16));
    CeilIsPow2(floor);
    forall q: nat | IsPow2(q) && q >= floor ensures NormalizeBufferSize(size) <= q {
      CeilIsLeast(floor, q);
    }
  }

  lemma BatchIsLeast(size: nat)
    ensures IsLeastPower(if size > 0 then CeilToPowerOfTwo(size) else DEFAULT_BATCH, BatchFloor(size))
  {
    var floor := BatchFloor(size);
    Pow2Values();
    assert IsPow2(Pow2(20));
    CeilIsPow2(size);
    forall q: nat | IsPow2(q) && q >= floor
      ensures (if size > 0 then CeilToPowerOfTwo(size) else DEFAULT_BATCH) <= q
    {
      CeilIsLeast(size, q);
    }
  }

  /**
   Every size becomes the least power of two that meets the request and its floor;
   what is requested is the override, or else what the base options had.
   */
  method Build(base: Options, o: Overrides) returns (opts: Options)
    ensures IsLeastPower(opts.readBufferCap, BufferFloor(Override(base.readBufferCap, o.readBufferCap)))
    ensures IsLeastPower(opts.writeBufferCap, BufferFloor(Override(base.writeBufferCap, o.writeBufferCap)))
    ensures IsLeastPower(opts.maxBatchSize, BatchFloor(Override(base.maxBatchSize, o.chunk)))
    ensures opts == Built(base, o)
  {
    NormalizeIsLeast(Override(base.readBufferCap, o.readBufferCap));
    NormalizeIsLeast(Override(base.writeBufferCap, o.writeBufferCap));
    BatchIsLeast(Override(base.maxBatchSize, o.chunk));
    hide IsLeastPower, NormalizeBufferSize, CeilToPowerOfTwo, BufferFloor, BatchFloor;
    opts := base;
    if o.readBufferCap.Some? {
      opts := opts.(readBufferCap := o.readBufferCap.value);
    }
    if o.writeBufferCap.Some? {
      opts := opts.(writeBufferCap := o.writeBufferCap.value);
    }
    if o.chunk.Some? {
      opts := opts.(maxBatchSize := o.chunk.value);
    }
    if opts.maxBatchSize > 0 {
      opts := opts.(maxBatchSize := CeilToPowerOfTwo(opts.maxBatchSize));
    } else {
      opts := opts.(maxBatchSize := DEFAULT_BATCH);
    }
    opts := opts.(readBufferCap := NormalizeBufferSize(opts.readBufferCap));
    opts := opts.(writeBufferCap := NormalizeBufferSize(opts.writeBufferCap));
  }

  /** Building from options that were already built changes nothing, and all sizes are positive powers of two. */
  lemma RebuildChangesNothing(base: Options, o: Overrides)
    ensures var built := Built(base, o);
            && Built(built, Overrides(None, None, None)) == built
            && IsPow2(built.readBufferCap) && IsPow2(built.writeBufferCap) && IsPow2(built.maxBatchSize)
            && built.readBufferCap >= DEFAULT_BUFFER_SIZE && built.writeBufferCap >= DEFAULT_BUFFER_SIZE
            && built.maxBatchSize >= 2
  {
    var built := Built(base, o);
    var read, write := Override(base.readBufferCap, o.readBufferCap), Override(base.writeBufferCap, o.writeBufferCap);
    NormalizeIdempotent(read);
    NormalizeIdempotent(write);
    NormalizeKeepsIff(built.readBufferCap);
    NormalizeKeepsIff(built.writeBufferCap);
    var batch := Override(base.maxBatchSize, o.chunk);
    CeilIsPow2(batch);
    CeilIdempotent(batch);
    Pow2Values();
    CeilIsLeast(DEFAULT_BATCH, DEFAULT_BATCH);
  }

  lemma CeilBelowDouble(n: nat)
    requires n >= 2
    ensures CeilToPowerOfTwo(n) < 2 * n
  {
    CeilIsPow2(n);
    var k: nat :| CeilToPowerOfTwo(n) == Pow2(k);
    if Pow2(k) >= 2 * n {
      assert k > 0 && IsPow2(Pow2(k - 1));
      CeilIsLeast(n, Pow2(k - 1));
    }
  }

  /** A buffer of 64 KiB if none was asked for, 1 KiB for any small one, else less than twice what was asked for. */
  lemma NormalizedSize(size: nat)
    ensures size == 0 ==> NormalizeBufferSize(size) == 65536
    ensures 0 < size <= 1024 ==> NormalizeBufferSize(size) == 1024
    ensures size > 1024 ==> IsPow2(NormalizeBufferSize(size)) && size <= NormalizeBufferSize(size) < 2 * size
  {
    if size > 1024 {
      CeilIsPow2(size);
      CeilBelowDouble(size);
    }
  }

  /** What the options come to: an override wins over the base, and each size is the one asked for or just above. */
  lemma BuiltSizes(base: Options, o: Overrides)
    ensures var built := Built(base, o);
            var read := if o.readBufferCap.Some? then o.readBufferCap.value else base.readBufferCap;
            var write := if o.writeBufferCap.Some? then o.writeBufferCap.value else base.writeBufferCap;
            var batch := if o.chunk.Some? then o.chunk.value else base.maxBatchSize;
            && (if read == 0 then built.readBufferCap == 65536 else if read <= 1024 then built.readBufferCap == 1024
                else read <= built.readBufferCap < 2 * read)
            && (if write == 0 then built.writeBufferCap == 65536 else if write <= 1024 then built.writeBufferCap == 1024
                else write <= built.writeBufferCap < 2 * write)
            && (if batch == 0 then built.maxBatchSize == 0x10_0000 else if batch <= 2 then built.maxBatchSize == 2
                else batch <= built.maxBatchSize < 2 * batch)
  {
    NormalizedSize(Override(base.readBufferCap, o.readBufferCap));
    NormalizedSize(Override(base.writeBufferCap, o.writeBufferCap));
    var batch := Override(base.maxBatchSize, o.chunk);
    CeilIsPow2(batch);
    if batch >= 2 {
      CeilBelowDouble(batch);
    }
  }
}
