/** The frame pool as an object: one slab of bytes cut into frames, and the
    free list of their indices. */
module FrameSlab {
  import opened Types
  import opened FramePool

  // The smallest power of two that is at least two and at least the minimum.
  ghost predicate IsCapacity(minimum: nat, cap: nat) {
    2 <= cap && minimum <= cap && (cap == 2 || cap < 2 * minimum) && exists e :: cap == Pow2(e)
  }

  method CapacityFor(minimum: nat) returns (cap: nat)
    requires minimum <= TWO63
    ensures IsCapacity(minimum, cap) && cap <= TWO63
  {
    cap := 2;
    ghost var e := 1;
    assert Pow2(1) == 2;
    while cap < minimum
      invariant cap == Pow2(e) && 2 <= cap <= TWO63
      invariant cap == 2 || cap < 2 * minimum
      decreases minimum - cap
    {
      Pow2Constants();
      PowerBelow(e, 63);
      Pow2Monotone(e + 1, 63);
      cap, e := 2 * cap, e + 1;
    }
  }

  // What a new pool stores in a slot of its free list: the index cut to 32 bits.
  function InitialSlot(i: nat, cap: nat): u32 { if i < cap then i % TWO32 else EMPTY }

  /** A new pool's free list holds every index, none of them the mark of an
      empty slot, if and only if at most 2^31 frames are asked for. */
  lemma IndicesFitExactly(minimum: nat, cap: nat)
    requires IsCapacity(minimum, cap)
    ensures (forall i: nat :: i < cap ==> InitialSlot(i, cap) == i != EMPTY) <==> minimum <= TWO31
  {
    hide IsCapacity;
    if minimum <= TWO31 {
      CapacityBelow(minimum, cap);
    } else {
      CapacityAbove(minimum, cap);
      var i: nat := EMPTY;
      assert i < cap && InitialSlot(i, cap) == EMPTY;
    }
  }

  lemma CapacityAbove(minimum: nat, cap: nat)
    requires IsCapacity(minimum, cap) && minimum > TWO31
    ensures cap >= TWO32
  {
    hide Pow2;
    var e :| cap == Pow2(e);
    Pow2Constants();
    PowerBelow(31, e);
    Pow2Monotone(32, e);
    SmallPow2();
    Pow2Sum(31, 1);
  }

  lemma CapacityBelow(minimum: nat, cap: nat)
    requires IsCapacity(minimum, cap) && minimum <= TWO31
    ensures cap <= TWO31
  {
    var e :| cap == Pow2(e);
    Pow2Constants();
    if cap != 2 {
      assert Pow2(32) == 2 * Pow2(31);
      PowerBelow(e, 32);
      Pow2Monotone(e, 31);
    }
  }

  // Some frame of a slab of bytes.
  ghost function FrameIn(bytes: seq<u8>, size: nat, i: nat): seq<u8> {
    if FrameStart(i, size) + size <= |bytes| then bytes[FrameStart(i, size)..FrameStart(i, size) + size] else []
  }

  class FrameStore {
    const capacity: nat
    const frameSize: nat
    const buffer: array<u8>
    const freeList: array<u32>
    var freeHead: nat
    var freeTail: nat
    ghost var held: set<(Thread, u32)>
    ghost var log: seq<u32>

    /** The state between calls: nothing under way. */
    ghost function View(): Pool
      reads this, freeList
    {
      Pool(capacity, freeHead, freeTail, freeList[..], Idle, map[], held)
    }

    ghost predicate Valid()
      reads this, freeList
    {
      && Safe(View(), log)
      && frameSize >= 64 && buffer.Length == capacity * frameSize
      && (buffer as object) != freeList
    }

    /** Every request gets its slab and free list; up to 2^31 frames the list
        is a valid pool with every frame free. */
    constructor (minCapacity: nat, minFrameSize: nat)
      requires minCapacity <= TWO63
      ensures fresh(buffer) && fresh(freeList)
      ensures IsCapacity(minCapacity, capacity) && frameSize == Max(minFrameSize, 64)
      ensures buffer.Length == capacity * frameSize && freeList.Length == 2 * capacity
      ensures forall i :: 0 <= i < freeList.Length ==> freeList[i] == InitialSlot(i, capacity)
      ensures freeHead == capacity && freeTail == 0 && held == {}
      ensures minCapacity <= TWO31 ==> 2 <= capacity <= TWO31 && Valid() && View() == Fresh(capacity)
    {
      hide InitialSlot, Safe, IsCapacity, Fresh;
      var cap := CapacityFor(minCapacity);
      CapacityPositive(minCapacity, cap);
      var size := Max(minFrameSize, 64);
      capacity, frameSize := cap, size;
      var bytes := SlabBytes(cap, size);
      buffer := new u8[bytes](_ => 0);
      freeList := new u32[2 * cap](i requires 0 <= i < 2 * cap => InitialSlot(i, cap));
      freeHead, freeTail, held := cap, 0, {};
      log := if cap <= TWO31 then Numbers(cap) else [];
      new;
      if minCapacity <= TWO31 {
        CapacityBelow(minCapacity, cap);
        InitialIsFresh(cap);
        FreshSafe(cap);
        assert freeList[..] == Fresh(cap).slots;
        FreshShape(cap);
      }
    }

    method Alloc() returns (r: Option<u32>)
      requires Valid()
      modifies `freeTail, `held, freeList
      ensures Valid()
      ensures r.None? ==> View() == old(View()) && forall i: u32 :: i < capacity ==> FramePool.Held(View(), i)
      ensures r.Some? ==>
                && r.value < capacity && !FramePool.Held(old(View()), r.value)
                && held == old(held) + {(RX, r.value)}
                && Allocates(old(View()), View())
    {
      hide Safe;
      ghost var p0 := View();
      SafeShape(p0, log);
      ghost var p1 := After(p0, LoadTail);
      StepSafe(p0, log, LoadTail);
      StepSafe(p1, log, LoadHead);
      if freeTail >= freeHead {
        forall i: u32 | i < capacity
          ensures FramePool.Held(p0, i)
        {
          ExhaustedMeansAllHeld(p1, log, i);
        }
        return None;
      }
      ghost var p2 := After(p1, LoadHead);
      // With no free under way the first swap finds an index.
      SlotIsFull(p2, log);
      StepSafe(p2, log, Swap);
      var slot := freeTail % freeList.Length;
      var idx := freeList[slot];
      freeList[slot] := EMPTY;
      ghost var p3 := After(p2, Swap);
      TakenIsFree(p3, log);
      StepSafe(p3, log, StoreTail);
      freeTail := freeTail + 1;
      held := held + {(RX, idx)};
      assert View() == After(p3, StoreTail);
      return Some(idx);
    }

    method Free(t: Thread, idx: u32)
      requires Valid() && (t, idx) in held
      modifies `freeHead, `held, `log, freeList
      ensures Valid()
      ensures View() == After(After(old(View()), FetchAdd(t, idx)), Publish(t))
      ensures held == old(held) - {(t, idx)} && Published(View(), idx)
    {
      ghost var p0 := View();
      StepSafe(p0, log, FetchAdd(t, idx));
      ghost var p1 := After(p0, FetchAdd(t, idx));
      log := log + [idx];
      StepSafe(p1, log, Publish(t));
      var slot := freeHead % freeList.Length;
      freeHead := freeHead + 1;
      freeList[slot] := idx;
      held := held - {(t, idx)};
      assert p1.claims - {t} == map[];
      assert View() == After(p1, Publish(t));
      assert Slot(View(), freeHead - 1) == idx;
    }

    method FrameOf(idx: u32) returns (bytes: seq<u8>)
      requires Valid() && FramePool.Held(View(), idx)
      ensures |bytes| == frameSize && bytes == FrameIn(buffer[..], frameSize, idx)
    {
      assert idx < capacity;
      FrameInBuffer(idx, capacity, frameSize);
      return buffer[idx * frameSize..idx * frameSize + frameSize];
    }

    method CopyInto(idx: u32, data: seq<u8>)
      requires idx < capacity && buffer.Length == capacity * frameSize && |data| <= frameSize
      requires FrameStart(idx, frameSize) + frameSize <= buffer.Length
      modifies buffer
      ensures FrameIn(buffer[..], frameSize, idx) == data + FrameIn(old(buffer[..]), frameSize, idx)[|data|..]
      ensures forall j :: 0 <= j < capacity && j != idx ==>
                FrameIn(buffer[..], frameSize, j) == FrameIn(old(buffer[..]), frameSize, j)
    {
      hide FrameStart, FrameIn;
      var start := FrameStart(idx, frameSize);
      for k := 0 to |data|
        invariant forall b :: 0 <= b < buffer.Length ==>
                    buffer[b] == if start <= b < start + k then data[b - start] else old(buffer[b])
      {
        buffer[start + k] := data[k];
      }
      ghost var before, after := old(buffer[..]), buffer[..];
      CopiedFrame(before, after, idx, frameSize, data);
      OtherFramesKept(before, after, idx, capacity, frameSize);
    }

    /** Allocate a frame and fill it: the frame starts with as much of the
        data as fits, and no other frame changes. */
    method AllocCopy(data: seq<u8>) returns (r: Option<(u32, u16)>)
      requires Valid()
      modifies `freeTail, `held, freeList, buffer
      ensures Valid()
      ensures r.None? ==> buffer[..] == old(buffer[..]) && forall i: u32 :: i < capacity ==> FramePool.Held(View(), i)
      ensures r.Some? ==>
                && r.value.0 < capacity && !FramePool.Held(old(View()), r.value.0)
                && held == old(held) + {(RX, r.value.0)}
                && r.value.1 == Min(|data|, frameSize) % TWO16
                && data[..Min(|data|, frameSize)] <= FrameIn(buffer[..], frameSize, r.value.0)
                && forall j :: 0 <= j < capacity && j != r.value.0 ==>
                     FrameIn(buffer[..], frameSize, j) == FrameIn(old(buffer[..]), frameSize, j)
    {
      hide Safe, FrameIn;
      var got := Alloc();
      if got.None? {
        return None;
      }
      var n := Min(|data|, frameSize);
      FrameInBuffer(got.value, capacity, frameSize);
      CopyInto(got.value, data[..n]);
      return Some((got.value, n % TWO16));
    }
  }

  function SlabBytes(frames: nat, size: nat): (r: nat)
    ensures r == frames * size
  {
    assert frames * size >= 0;
    frames * size
  }

  lemma CapacityPositive(minimum: nat, cap: nat)
    requires IsCapacity(minimum, cap)
    ensures cap >= 2
  {
  }

  lemma FreshShape(cap: nat)
    requires 1 <= cap <= TWO31
    ensures Fresh(cap) == Pool(cap, cap, 0, Fresh(cap).slots, Idle, map[], {})
  {
  }

  lemma InitialIsFresh(cap: nat)
    requires 1 <= cap <= TWO31
    ensures |Fresh(cap).slots| == 2 * cap
    ensures forall i :: 0 <= i < 2 * cap ==> InitialSlot(i, cap) == Fresh(cap).slots[i]
  {
  }

  // Bytes changed inside one frame change no other.
  lemma OtherFrameKept(before: seq<u8>, after: seq<u8>, i: nat, j: nat, cap: nat, size: nat)
    requires |before| == |after| == cap * size && i < cap && j < cap && i != j
    requires forall b :: 0 <= b < |before| && !(FrameStart(i, size) <= b < FrameStart(i, size) + size) ==>
               before[b] == after[b]
    ensures FrameIn(after, size, j) == FrameIn(before, size, j)
  {
    hide FrameStart;
    FramesApart(i, j, cap, size);
  }

  lemma OtherFramesKept(before: seq<u8>, after: seq<u8>, i: nat, cap: nat, size: nat)
    requires |before| == |after| == cap * size && i < cap
    requires forall b :: 0 <= b < |before| && !(FrameStart(i, size) <= b < FrameStart(i, size) + size) ==>
               before[b] == after[b]
    ensures forall j :: 0 <= j < cap && j != i ==> FrameIn(after, size, j) == FrameIn(before, size, j)
  {
    hide FrameStart, FrameIn;
    forall j | 0 <= j < cap && j != i
      ensures FrameIn(after, size, j) == FrameIn(before, size, j)
    {
      OtherFrameKept(before, after, i, j, cap, size);
    }
  }

  // The copied frame starts with the data and goes on as it was.
  lemma CopiedFrame(before: seq<u8>, after: seq<u8>, i: nat, size: nat, data: seq<u8>)
    requires |before| == |after| && |data| <= size && FrameStart(i, size) + size <= |before|
    requires var start := FrameStart(i, size);
             forall b :: 0 <= b < |before| ==>
               after[b] == if start <= b < start + |data| then data[b - start] else before[b]
    ensures |FrameIn(before, size, i)| == size
    ensures FrameIn(after, size, i) == data + FrameIn(before, size, i)[|data|..]
  {
    hide FrameStart;
  }

  lemma FramesApart(i: nat, j: nat, cap: nat, size: nat)
    requires i < cap && j < cap && i != j
    ensures FrameStart(i, size) + size <= FrameStart(j, size) || FrameStart(j, size) + size <= FrameStart(i, size)
    ensures FrameStart(j, size) + size <= cap * size
  {
    if i < j {
      FramesDisjoint(i, j, cap, size);
    } else {
      FramesDisjoint(j, i, cap, size);
    }
  }

  lemma {:induction false} PowerBelow(e: nat, n: nat)
    requires Pow2(e) < Pow2(n)
    ensures e < n
  {
    if n <= e {
      Pow2Monotone(n, e);
    }
  }

  lemma FrameInBuffer(i: nat, cap: nat, frameSize: nat)
    requires i < cap
    ensures FrameStart(i, frameSize) + frameSize <= cap * frameSize
  {
    NextFrame(i, cap, frameSize);
  }

  lemma SafeShape(p: Pool, log: seq<u32>)
    requires Safe(p, log)
    ensures |p.slots| == 2 * p.cap && p.cap >= 1
  {
  }

  lemma SlotIsFull(p: Pool, log: seq<u32>)
    requires Safe(p, log) && p.alloc.Spinning? && p.claims == map[]
    ensures Slot(p, p.tail) != EMPTY
  {
    EmptySlotsAreClaimed(p, log, p.tail);
  }

  lemma TakenIsFree(p: Pool, log: seq<u32>)
    requires Safe(p, log) && p.alloc.Took?
    ensures p.alloc.idx < p.cap && !FramePool.Held(p, p.alloc.idx)
  {
  }
}
