/** The single-producer single-consumer byte ring that carries received and
    unsent bytes between the engine and the application. */
module ByteRing {
  import opened Types
  import opened Modular

  // usize counters wrap here.
  const USIZE_SPAN: nat := 0x1_0000_0000_0000_0000

  /** What a ring means: every byte ever written to it, and how many of them
      have been read. */
  datatype Ring = Ring(cap: nat, stream: seq<u8>, taken: nat) {
    ghost predicate Valid() { taken <= |stream| <= taken + cap }

    function Free(): nat { SaturatingSub(cap, SaturatingSub(|stream|, taken)) }

    function Pending(): nat { SaturatingSub(|stream|, taken) }

    function Accepted(data: seq<u8>): nat { Min(|data|, Free()) }

    function Put(data: seq<u8>): Ring { this.(stream := stream + data[..Accepted(data)]) }

    function Take(max: nat): Ring { this.(taken := taken + Min(max, Pending())) }
  }

  /** A ring fills up to its capacity and no further, and gives back all it
      holds, in order. */
  lemma RingHoldsItsCapacity(r: Ring, data: seq<u8>, max: nat)
    requires r.Valid()
    ensures var w := r.Put(data);
            && w.Valid() && w.taken == r.taken && w.Pending() == Min(r.cap, r.Pending() + |data|)
            && w.stream == r.stream + data[..w.Pending() - r.Pending()]
    ensures var t := r.Take(max);
            && t.Valid() && t.stream == r.stream && t.Pending() == (if max <= r.Pending() then r.Pending() - max else 0)
  {
    var w := r.Put(data);
    assert r.stream + data[..w.Pending() - r.Pending()] == w.stream;
  }

  /** The buffer holds these bytes at consecutive positions from a position on. */
  ghost predicate Holds(buf: seq<u8>, from: nat, bytes: seq<u8>) {
    |buf| >= 1 && forall k :: 0 <= k < |bytes| ==> buf[(from + k) % |buf|] == bytes[k]
  }

  lemma HoldsSuffix(buf: seq<u8>, from: nat, bytes: seq<u8>, k: nat)
    requires Holds(buf, from, bytes) && k <= |bytes|
    ensures Holds(buf, from + k, bytes[k..])
  {
    forall j | 0 <= j < |bytes| - k
      ensures buf[(from + k + j) % |buf|] == bytes[k..][j]
    {
      assert from + k + j == from + (k + j);
    }
  }

  lemma HoldsBoth(buf: seq<u8>, from: nat, a: seq<u8>, b: seq<u8>)
    requires Holds(buf, from, a) && Holds(buf, from + |a|, b)
    ensures Holds(buf, from, a + b)
  {
    forall j | 0 <= j < |a| + |b|
      ensures buf[(from + j) % |buf|] == (a + b)[j]
    {
      if j >= |a| {
        assert from + j == from + |a| + (j - |a|);
      }
    }
  }

  /** Storing at a position less than a lap beyond the held bytes leaves them alone. */
  lemma HoldsFrame(buf: seq<u8>, from: nat, bytes: seq<u8>, at: nat, b: u8)
    requires Holds(buf, from, bytes) && from + |bytes| <= at < from + |buf|
    ensures Holds(buf[at % |buf| := b], from, bytes)
  {
    forall k | 0 <= k < |bytes|
      ensures buf[at % |buf| := b][(from + k) % |buf|] == bytes[k]
    {
      DistinctWithinLap(from + k, at, |buf|);
    }
  }

  /** The effect of copying n bytes in at most two chunks. */
  lemma TwoChunks(before: seq<u8>, after: seq<u8>, from: nat, held: seq<u8>, data: seq<u8>)
    requires |after| == |before| && Holds(before, from, held)
    requires |held| + |data| <= |before|
    requires var start := (from + |held|) % |before|;
             var first := Min(|data|, |before| - start);
             forall k :: 0 <= k < |before| ==>
               after[k] == if start <= k < start + first then data[k - start]
                           else if k < |data| - first then data[first + k]
                           else before[k]
    ensures Holds(after, from, held + data)
  {
    forall j | 0 <= j < |held| + |data|
      ensures after[(from + j) % |after|] == (held + data)[j]
    {
      if j >= |held| {
        ChunkSlot(from + |held|, j - |held|, |data|, |before|);
      } else {
        OutsideChunks(from, j, |held|, |data|, |before|);
      }
    }
  }

  /** Reading n bytes back in at most two chunks. */
  lemma ReadChunks(buf: seq<u8>, from: nat, held: seq<u8>, n: nat)
    requires Holds(buf, from, held) && n <= |held| <= |buf|
    ensures var start := from % |buf|;
            var first := Min(n, |buf| - start);
            buf[start..start + first] + buf[..n - first] == held[..n]
  {
    var start := from % |buf|;
    var first := Min(n, |buf| - start);
    var out := buf[start..start + first] + buf[..n - first];
    forall i | 0 <= i < n
      ensures out[i] == held[i]
    {
      ChunkSlot(from, i, n, |buf|);
    }
  }

  // A held position's slot is outside both chunks of the copy behind it.
  lemma OutsideChunks(from: nat, j: nat, held: nat, n: nat, cap: nat)
    requires j < held && 1 <= cap && held + n <= cap
    ensures var start, slot := (from + held) % cap, (from + j) % cap;
            var first := Min(n, cap - start);
            !(start <= slot < start + first) && !(slot < n - first)
  {
    var h, slot := from + held, (from + j) % cap;
    var start := h % cap;
    var first := Min(n, cap - start);
    if start <= slot < start + first {
      var i := slot - start;
      ChunkSlot(h, i, n, cap);
      DistinctWithinLap(from + j, h + i, cap);
    } else if slot < n - first {
      var i := slot + first;
      ChunkSlot(h, i, n, cap);
      DistinctWithinLap(from + j, h + i, cap);
    }
  }

  /** The buffer with its wrapping counters. */
  class SpscByteRing {
    const buf: array<u8>
    const capacity: nat
    var head: nat
    var tail: nat
    ghost const laps: nat
    ghost var stream: seq<u8>
    ghost var taken: nat

    ghost predicate Valid()
      reads this, buf
    {
      && capacity >= 1
      && buf.Length == capacity
      && laps * capacity == USIZE_SPAN
      && taken <= |stream| <= taken + capacity
      && capacity < USIZE_SPAN
      && head == |stream| % USIZE_SPAN
      && tail == taken % USIZE_SPAN
      && Holds(buf[..], taken, stream[taken..])
    }

    ghost function View(): Ring
      reads this
    {
      Ring(capacity, stream, taken)
    }

    constructor (minimum: nat)
      requires minimum <= USIZE_SPAN / 2
      ensures Valid() && fresh(buf)
      ensures View() == Ring(capacity, [], 0)
      ensures minimum <= capacity && (minimum >= 1 ==> capacity < 2 * minimum)
    {
      var cap: nat := 1;
      ghost var e: nat := 0;
      while cap < minimum
        invariant e <= 63 && cap == Pow2(e)
        invariant cap == 1 || cap < 2 * minimum
        decreases minimum - cap
      {
        assert e < 63 by {
          Pow2Constants();
        }
        cap, e := 2 * cap, e + 1;
      }
      Pow2Sum(64 - e, e);
      Pow2Constants();
      Pow2Monotone(e, 63);
      ghost var n := Pow2(64 - e);
      buf := new u8[cap](_ => 0);
      capacity, laps, head, tail, stream, taken := cap, n, 0, 0, [], 0;
    }

    // copy_nonoverlapping into the buffer
    method CopyIn(at: nat, data: seq<u8>)
      requires at + |data| <= buf.Length
      modifies buf
      ensures forall k :: 0 <= k < buf.Length ==>
                buf[k] == if at <= k < at + |data| then data[k - at] else old(buf[k])
    {
      for i := 0 to |data|
        invariant forall k :: 0 <= k < buf.Length ==>
                    buf[k] == if at <= k < at + i then data[k - at] else old(buf[k])
      {
        buf[at + i] := data[i];
      }
    }

    // The two-chunk copy of write.
    method CopyWrapped(start: nat, data: seq<u8>)
      requires start < buf.Length && |data| <= buf.Length
      modifies buf
      ensures var first := Min(|data|, buf.Length - start);
              forall k :: 0 <= k < buf.Length ==>
                buf[k] == if start <= k < start + first then data[k - start]
                          else if k < |data| - first then data[first + k]
                          else old(buf[k])
    {
      var first := Min(|data|, buf.Length - start);
      CopyIn(start, data[..first]);
      if first < |data| {
        CopyIn(0, data[first..]);
      }
    }

    method Write(data: seq<u8>) returns (n: nat)
      requires Valid()
      modifies this`head, this`stream, buf
      ensures Valid()
      ensures View() == old(View()).Put(data)
      ensures n == old(View()).Accepted(data)
    {
      hide Holds;
      DifferenceOfWrapped(|stream|, taken, USIZE_SPAN);
      var free := capacity - (head - tail) % USIZE_SPAN;
      n := Min(|data|, free);
      if n == 0 {
        assert stream + data[..0] == stream;
        return;
      }
      WrapKeepsSlot(|stream|, capacity, laps, USIZE_SPAN);
      CopyWrapped(head % capacity, data[..n]);
      AddToWrapped(|stream|, n, USIZE_SPAN);
      TwoChunks(old(buf[..]), buf[..], taken, stream[taken..], data[..n]);
      assert stream[taken..] + data[..n] == (stream + data[..n])[taken..];
      head := (head + n) % USIZE_SPAN;
      stream := stream + data[..n];
    }

    method Read(max: nat) returns (out: seq<u8>)
      requires Valid()
      modifies this`tail, this`taken
      ensures Valid()
      ensures View() == old(View()).Take(max)
      ensures out == stream[old(taken)..taken]
    {
      out := Peek(max);
      AddToWrapped(taken, |out|, USIZE_SPAN);
      HoldsSuffix(buf[..], taken, stream[taken..], |out|);
      assert stream[taken..][|out|..] == stream[taken + |out|..];
      tail := (tail + |out|) % USIZE_SPAN;
      taken := taken + |out|;
    }

    // The two-chunk copy that read and peek share.
    method Peek(max: nat) returns (out: seq<u8>)
      requires Valid()
      ensures out == stream[taken..View().Take(max).taken]
    {
      hide Holds;
      DifferenceOfWrapped(|stream|, taken, USIZE_SPAN);
      var available := (head - tail) % USIZE_SPAN;
      var n := Min(max, available);
      if n == 0 {
        return [];
      }
      var start := tail % capacity;
      WrapKeepsSlot(taken, capacity, laps, USIZE_SPAN);
      var first := Min(n, capacity - start);
      out := buf[start..start + first];
      if first < n {
        out := out + buf[..n - first];
      } else {
        assert out + buf[..0] == out;
      }
      ReadChunks(buf[..], taken, stream[taken..], n);
      assert stream[taken..][..n] == stream[taken..taken + n];
    }
  }
}
