/**
 Connection handles: a wrapping sequence number, the packed loop and slot, and
 the descriptor. Handles travel to other threads and come back in commands.
 */
module Gfds {
  const U32: nat := 0x1_0000_0000
  const SLOT_LIMIT: nat := 0x100_0000
  const LOOP_LIMIT: nat := 0x100

  datatype Gfd = Gfd(sequence: nat, indexInfo: nat, fd: int) {
    function EventLoopIndex(): nat {
      indexInfo / SLOT_LIMIT
    }

    function SlabIndex(): nat {
      indexInfo % SLOT_LIMIT
    }
  }

  /** The packed word, as the 32-bit shift, mask and or of the source. */
  function PackBits(loopId: bv32, token: bv32): bv32 {
    (loopId << 24) | (token & 0xFFFFFF)
  }

  /** The bit operations lose nothing: shift and mask recover both parts, for any 8-bit loop. */
  lemma PackBitsRoundTrip(loopId: bv32, token: bv32)
    requires loopId <= 0xFF
    ensures PackBits(loopId, token) >> 24 == loopId
    ensures PackBits(loopId, token) & 0xFFFFFF == token & 0xFFFFFF
    ensures PackBits(loopId, token) == (loopId << 24) + (token & 0xFFFFFF)
  {
  }

  /** Bit for bit: the low 24 are the slot's, the others the loop's. */
  lemma PackBitsBits(loopId: bv32, token: bv32, i: bv32)
    requires loopId <= 0xFF && i < 32
    ensures (PackBits(loopId, token) >> i) & 1 == (if i < 24 then token >> i else loopId >> (i - 24)) & 1
  {
  }

  /** The same word as a number; `serial` counts every handle made before by any loop. */
  function Make(fd: int, loopId: nat, token: nat, serial: nat): (g: Gfd)
    requires loopId < LOOP_LIMIT
    ensures g.fd == fd
  {
    Gfd(serial % U32, loopId * SLOT_LIMIT + token % SLOT_LIMIT, fd)
  }

  /** Bit i of a number. */
  function Bit(n: nat, i: nat): bool {
    if i == 0 then n % 2 == 1 else Bit(n / 2, i - 1)
  }

  function ShiftLeft(n: nat, k: nat): nat {
    if k == 0 then n else 2 * ShiftLeft(n, k - 1)
  }

  lemma {:induction false} ShiftIsMultiply(n: nat, k: nat)
    ensures ShiftLeft(n, k) == n * ShiftLeft(1, k)
  {
    if k > 0 {
      ShiftIsMultiply(n, k - 1);
      Twice(n, ShiftLeft(1, k - 1), ShiftLeft(n, k - 1));
    }
  }

  lemma Twice(n: nat, p: nat, product: nat)
    requires product == n * p
    ensures 2 * product == n * (2 * p)
  {
  }

  /** Adding a number to one shifted past it is joining their bits. */
  lemma {:induction false} JoinedBits(high: nat, low: nat, k: nat, i: nat)
    requires low < ShiftLeft(1, k)
    ensures Bit(ShiftLeft(high, k) + low, i) == if i < k then Bit(low, i) else Bit(high, i - k)
  {
    if k > 0 {
      assert (ShiftLeft(high, k) + low) / 2 == ShiftLeft(high, k - 1) + low / 2;
      if i > 0 {
        JoinedBits(high, low / 2, k - 1, i - 1);
      }
    }
  }

  /** The number in a handle has the bits that `PackBitsBits` finds in the packed word. */
  lemma WordBits(fd: int, loopId: nat, token: nat, serial: nat, i: nat)
    requires loopId < LOOP_LIMIT
    ensures Bit(Make(fd, loopId, token, serial).indexInfo, i) == if i < 24 then Bit(token, i) else Bit(loopId, i - 24)
  {
    hide Bit, ShiftLeft;
    var low, high := token % SLOT_LIMIT, token / SLOT_LIMIT;
    SlotLimitIsShift();
    ShiftIsMultiply(loopId, 24);
    ShiftIsMultiply(high, 24);
    JoinedBits(loopId, low, 24, i);
    JoinedBits(high, low, 24, i);
  }

  lemma SlotLimitIsShift()
    ensures ShiftLeft(1, 24) == SLOT_LIMIT
  {
    assert ShiftLeft(1, 12) == 0x1000 && ShiftLeft(0x1000, 12) == SLOT_LIMIT;
    ShiftTwice(1, 12, 12);
  }

  lemma {:induction false} ShiftTwice(n: nat, j: nat, k: nat)
    ensures ShiftLeft(ShiftLeft(n, j), k) == ShiftLeft(n, j + k)
  {
    if k > 0 {
      ShiftTwice(n, j, k - 1);
    }
  }

  /** The loop is always recovered; the slot exactly when it fits in 24 bits. */
  lemma AccessorsInvertMake(fd: int, loopId: nat, token: nat, serial: nat)
    requires loopId < LOOP_LIMIT
    ensures Make(fd, loopId, token, serial).EventLoopIndex() == loopId
    ensures Make(fd, loopId, token, serial).SlabIndex() == token <==> token < SLOT_LIMIT
    ensures Make(fd, loopId, token, serial).indexInfo < U32
  {
    var low := token % SLOT_LIMIT;
    assert (loopId * SLOT_LIMIT + low) / SLOT_LIMIT == loopId;
    assert (loopId * SLOT_LIMIT + low) % SLOT_LIMIT == low;
  }

  /** Exactly when two creations yield the same handle: the counter wrapped onto the same place. */
  lemma SameHandleIff(fd1: int, loop1: nat, token1: nat, serial1: nat,
                      fd2: int, loop2: nat, token2: nat, serial2: nat)
    requires loop1 < LOOP_LIMIT && loop2 < LOOP_LIMIT
    ensures Make(fd1, loop1, token1, serial1) == Make(fd2, loop2, token2, serial2) <==>
            && fd1 == fd2 && loop1 == loop2
            && token1 % SLOT_LIMIT == token2 % SLOT_LIMIT
            && serial1 % U32 == serial2 % U32
  {
    var low1, low2 := token1 % SLOT_LIMIT, token2 % SLOT_LIMIT;
    assert (loop1 * SLOT_LIMIT + low1) / SLOT_LIMIT == loop1;
    assert (loop2 * SLOT_LIMIT + low2) / SLOT_LIMIT == loop2;
  }

  /** Below 2^32 creations a handle names its creation, whatever slots and descriptors are reused. */
  lemma HandlesUnique(fd1: int, loop1: nat, token1: nat, serial1: nat,
                      fd2: int, loop2: nat, token2: nat, serial2: nat)
    requires loop1 < LOOP_LIMIT && loop2 < LOOP_LIMIT
    requires serial1 < U32 && serial2 < U32
    requires Make(fd1, loop1, token1, serial1) == Make(fd2, loop2, token2, serial2)
    ensures serial1 == serial2
  {
    SameHandleIff(fd1, loop1, token1, serial1, fd2, loop2, token2, serial2);
  }

  /** The bound is needed: creation 2^32 in the same place repeats the handle of creation 0. */
  lemma WrapRepeatsHandle(fd: int, loopId: nat, token: nat, serial: nat)
    requires loopId < LOOP_LIMIT
    ensures Make(fd, loopId, token, serial) == Make(fd, loopId, token, serial + U32)
  {
    assert (serial + U32) % U32 == serial % U32;
  }
}
