/** The frame pool's free list under every interleaving of one allocator with
    any number of freeing threads. Each step is one atomic access; the 64-bit
    counters are unbounded here, and masking with the free list's size, a power
    of two, is the remainder. */
module FramePool {
  import opened Types
  import opened Modular

  // The value of a slot that holds no index.
  const EMPTY: u32 := U32_MAX

  type Thread = nat

  // The single thread that allocates.
  const RX: Thread := 0

  // A free whose fetch_add has happened and whose store has not.
  datatype Claim = Claim(pos: nat, idx: u32)

  datatype Alloc = Idle | SawTail(at: nat) | Spinning(at: nat) | Took(at: nat, idx: u32)

  datatype Pool = Pool(
    cap: nat,
    head: nat,
    tail: nat,
    slots: seq<u32>,
    alloc: Alloc,
    claims: map<Thread, Claim>,
    held: set<(Thread, u32)>)

  datatype Step =
    | LoadTail
    | LoadHead
    | Swap
    | StoreTail
    | FetchAdd(t: Thread, idx: u32)
    | Publish(t: Thread)
    | Pass(from: Thread, to: Thread, idx: u32)

  function Slot(p: Pool, q: nat): u32
    requires |p.slots| > 0
  {
    p.slots[q % |p.slots|]
  }

  /** What the program order allows; a thread frees and passes on only an
      index it holds. */
  predicate Enabled(p: Pool, s: Step) {
    && |p.slots| > 0
    && match s
       case LoadTail => p.alloc.Idle?
       case LoadHead => p.alloc.SawTail?
       case Swap => p.alloc.Spinning?
       case StoreTail => p.alloc.Took?
       case FetchAdd(t, idx) => (t, idx) in p.held && t !in p.claims
       case Publish(t) => t in p.claims
       case Pass(from, to, idx) => (from, idx) in p.held
  }

  function After(p: Pool, s: Step): Pool
    requires Enabled(p, s)
  {
    match s
    case LoadTail => p.(alloc := SawTail(p.tail))
    case LoadHead => p.(alloc := if p.alloc.at >= p.head then Idle else Spinning(p.alloc.at))
    case Swap =>
      var at := p.alloc.at;
      p.(slots := p.slots[at % |p.slots| := EMPTY],
         alloc := if Slot(p, at) == EMPTY then p.alloc else Took(at, Slot(p, at)))
    case StoreTail => p.(tail := p.alloc.at + 1, held := p.held + {(RX, p.alloc.idx)}, alloc := Idle)
    case FetchAdd(t, idx) => p.(head := p.head + 1, held := p.held - {(t, idx)},
         claims := p.claims[t := Claim(p.head, idx)])
    case Publish(t) =>
      p.(slots := p.slots[p.claims[t].pos % |p.slots| := p.claims[t].idx], claims := p.claims - {t})
    case Pass(from, to, idx) => p.(held := p.held - {(from, idx)} + {(to, idx)})
  }

  /** An allocation that runs undisturbed. */
  ghost predicate Allocates(p: Pool, t: Pool) {
    && Enabled(p, LoadTail)
    && var a := After(p, LoadTail);
       && Enabled(a, LoadHead)
       && var b := After(a, LoadHead);
          && Enabled(b, Swap)
          && var c := After(b, Swap);
             Enabled(c, StoreTail) && t == After(c, StoreTail)
  }

  function Fresh(cap: nat): Pool
    requires 1 <= cap <= EMPTY
  {
    Pool(cap, cap, 0, seq(2 * cap, i requires 0 <= i < 2 * cap => if i < cap then i else EMPTY), Idle, map[], {})
  }

  // ---------------------------------------------------------------- the invariant

  // The log lists the index freed at every position of the free list so far.
  function Log(p: Pool, log: seq<u32>, s: Step): seq<u32> { if s.FetchAdd? then log + [s.idx] else log }

  ghost predicate Shape(p: Pool, log: seq<u32>) {
    && 1 <= p.cap <= EMPTY && |p.slots| == 2 * p.cap
    && |log| == p.head && p.tail <= p.head
    && (forall q :: p.tail <= q < p.head ==> log[q] < p.cap)
    && (forall h :: h in p.held ==> h.1 < p.cap)
  }

  // No index is listed twice, held twice, or both.
  ghost predicate Apart(p: Pool, log: seq<u32>)
    requires Shape(p, log)
  {
    && (forall q, r :: p.tail <= q < r < p.head ==> log[q] != log[r])
    && (forall h, q :: h in p.held && p.tail <= q < p.head ==> log[q] != h.1)
    && (forall g, h :: g in p.held && h in p.held && g.1 == h.1 ==> g == h)
  }

  ghost predicate Listed(p: Pool, log: seq<u32>, i: u32)
    requires Shape(p, log)
  {
    exists q :: p.tail <= q < p.head && log[q] == i
  }

  ghost predicate Held(p: Pool, i: u32) { exists t: Thread :: (t, i) in p.held }

  ghost predicate Complete(p: Pool, log: seq<u32>)
    requires Shape(p, log)
  {
    forall i: u32 :: i < p.cap ==> Listed(p, log, i) || Held(p, i)
  }

  ghost predicate Claimed(p: Pool, q: nat) { exists t :: t in p.claims && p.claims[t].pos == q }

  ghost predicate ClaimsListed(p: Pool, log: seq<u32>)
    requires Shape(p, log)
  {
    && (forall t :: t in p.claims ==> p.tail <= p.claims[t].pos < p.head && log[p.claims[t].pos] == p.claims[t].idx)
    && (forall t, u :: t in p.claims && u in p.claims && p.claims[t].pos == p.claims[u].pos ==> t == u)
  }

  ghost predicate AllocFollows(p: Pool, log: seq<u32>)
    requires Shape(p, log)
  {
    && (p.alloc.Idle? || p.alloc.at == p.tail)
    && (p.alloc.Spinning? || p.alloc.Took? ==> p.tail < p.head)
    && (p.alloc.Took? ==> p.alloc.idx == log[p.tail] && !Claimed(p, p.tail))
  }

  // What the slot of a position must hold.
  ghost function Expected(p: Pool, log: seq<u32>, q: nat): u32
    requires Shape(p, log) && p.tail <= q
  {
    if q >= p.head || Claimed(p, q) || (p.alloc.Took? && q == p.tail) then EMPTY else log[q]
  }

  ghost predicate SlotsMatch(p: Pool, log: seq<u32>)
    requires Shape(p, log)
  {
    forall q :: p.tail <= q < p.tail + |p.slots| ==> Slot(p, q) == Expected(p, log, q)
  }

  ghost predicate Safe(p: Pool, log: seq<u32>) {
    && Shape(p, log) && Apart(p, log) && Complete(p, log) && ClaimsListed(p, log) && AllocFollows(p, log)
    && SlotsMatch(p, log)
  }

  // ---------------------------------------------------------------- counting

  ghost function Below(n: nat): (b: set<int>)
    ensures |b| == n
    ensures forall x :: x in b <==> 0 <= x < n
  {
    if n == 0 then {} else Below(n - 1) + {n - 1}
  }

  lemma Pigeonhole(s: seq<u32>, n: nat)
    requires forall i :: 0 <= i < |s| ==> s[i] < n
    requires forall i, j :: 0 <= i < j < |s| ==> s[i] != s[j]
    ensures |s| <= n
  {
    ElementsSize(s);
    var elements := set i | 0 <= i < |s| :: s[i];
    assert elements <= Below(n);
    assert Below(n) == elements + (Below(n) - elements);
  }

  lemma {:induction false} ElementsSize(s: seq<u32>)
    requires forall i, j :: 0 <= i < j < |s| ==> s[i] != s[j]
    ensures |set i | 0 <= i < |s| :: s[i]| == |s|
  {
    if s != [] {
      var last := |s| - 1;
      var front := s[..last];
      ElementsSize(front);
      var smaller := set i | 0 <= i < |front| :: front[i];
      assert (set i | 0 <= i < |s| :: s[i]) == smaller + {s[last]} by {
        assert forall i :: 0 <= i < last ==> front[i] == s[i];
      }
      assert s[last] !in smaller;
    }
  }

  /** The free list never holds more than the pool's frames. */
  lemma ListFits(p: Pool, log: seq<u32>)
    requires Shape(p, log) && Apart(p, log)
    ensures p.head - p.tail <= p.cap
  {
    Pigeonhole(log[p.tail..], p.cap);
  }

  // ---------------------------------------------------------------- one step

  lemma SlotWritten(slots: seq<u32>, tail: nat, at: nat, v: u32, q: nat)
    requires |slots| > 0 && tail <= at < tail + |slots| && tail <= q < tail + |slots|
    ensures slots[at % |slots| := v][q % |slots|] == if q == at then v else slots[q % |slots|]
  {
    if q < at {
      DistinctWithinLap(q, at, |slots|);
    } else if at < q {
      DistinctWithinLap(at, q, |slots|);
    }
  }

  lemma SwapSafe(p: Pool, log: seq<u32>)
    requires Safe(p, log) && Enabled(p, Swap)
    ensures Safe(After(p, Swap), log)
  {
    var t := After(p, Swap);
    assert Slot(p, p.tail) == Expected(p, log, p.tail);
    assert t.alloc.Took? <==> !Claimed(p, p.tail);
    assert forall q :: Claimed(t, q) == Claimed(p, q);
    assert Complete(t, log) by {
      SameIndices(p, t, log);
    }
    forall q | t.tail <= q < t.tail + |t.slots|
      ensures Slot(t, q) == Expected(t, log, q)
    {
      SlotWritten(p.slots, p.tail, p.tail, EMPTY, q);
      assert Slot(p, q) == Expected(p, log, q);
    }
  }

  lemma SameIndices(p: Pool, t: Pool, log: seq<u32>)
    requires Shape(p, log) && Shape(t, log) && Complete(p, log)
    requires p.cap == t.cap && p.tail == t.tail && p.head == t.head && p.held == t.held
    ensures Complete(t, log)
  {
    forall i: u32 | i < t.cap
      ensures Listed(t, log, i) || Held(t, i)
    {
      assert Listed(p, log, i) || Held(p, i);
    }
  }

  lemma PublishSafe(p: Pool, log: seq<u32>, th: Thread)
    requires Safe(p, log) && Enabled(p, Publish(th))
    ensures Safe(After(p, Publish(th)), log)
  {
    var t := After(p, Publish(th));
    var at := p.claims[th].pos;
    ListFits(p, log);
    assert Complete(t, log) by {
      SameIndices(p, t, log);
    }
    forall q
      ensures Claimed(t, q) <==> Claimed(p, q) && q != at
    {
      if Claimed(p, q) && q != at {
        var u :| u in p.claims && p.claims[u].pos == q;
        assert u in t.claims;
      }
    }
    assert Claimed(p, at);
    forall q | t.tail <= q < t.tail + |t.slots|
      ensures Slot(t, q) == Expected(t, log, q)
    {
      SlotWritten(p.slots, p.tail, at, p.claims[th].idx, q);
      assert Slot(p, q) == Expected(p, log, q);
    }
  }

  lemma FetchAddSafe(p: Pool, log: seq<u32>, th: Thread, idx: u32)
    requires Safe(p, log) && Enabled(p, FetchAdd(th, idx))
    ensures Safe(After(p, FetchAdd(th, idx)), log + [idx])
  {
    hide Complete, SlotsMatch, AllocFollows;
    var t := After(p, FetchAdd(th, idx));
    var log' := log + [idx];
    assert Shape(t, log');
    assert Apart(t, log');
    FetchAddComplete(p, log, th, idx);
    assert ClaimsListed(t, log');
    FetchAddSlots(p, log, th, idx);
  }

  lemma FetchAddComplete(p: Pool, log: seq<u32>, th: Thread, idx: u32)
    requires Shape(p, log) && Complete(p, log) && Enabled(p, FetchAdd(th, idx))
    requires Shape(After(p, FetchAdd(th, idx)), log + [idx])
    ensures Complete(After(p, FetchAdd(th, idx)), log + [idx])
  {
    var t := After(p, FetchAdd(th, idx));
    var log' := log + [idx];
    forall i: u32 | i < t.cap
      ensures Listed(t, log', i) || Held(t, i)
    {
      if i == idx {
        assert log'[p.head] == i;
      } else if Listed(p, log, i) {
        var q :| p.tail <= q < p.head && log[q] == i;
        assert log'[q] == i;
      } else {
        assert Held(p, i);
        var u: Thread :| (u, i) in p.held;
        assert (u, i) in t.held;
      }
    }
  }

  lemma FetchAddSlots(p: Pool, log: seq<u32>, th: Thread, idx: u32)
    requires Safe(p, log) && Enabled(p, FetchAdd(th, idx))
    requires Shape(After(p, FetchAdd(th, idx)), log + [idx])
    ensures SlotsMatch(After(p, FetchAdd(th, idx)), log + [idx])
    ensures AllocFollows(After(p, FetchAdd(th, idx)), log + [idx])
  {
    hide Apart, Complete;
    var t := After(p, FetchAdd(th, idx));
    forall q
      ensures Claimed(t, q) <==> Claimed(p, q) || q == p.head
    {
      if Claimed(p, q) {
        var u :| u in p.claims && p.claims[u].pos == q;
        assert u in t.claims && t.claims[u].pos == q;
      }
      if q == p.head {
        assert th in t.claims && t.claims[th].pos == q;
      }
    }
    forall q | t.tail <= q < t.tail + |t.slots|
      ensures Slot(t, q) == Expected(t, log + [idx], q)
    {
      assert Slot(p, q) == Expected(p, log, q);
    }
  }

  lemma StoreTailSafe(p: Pool, log: seq<u32>)
    requires Safe(p, log) && Enabled(p, StoreTail)
    ensures Safe(After(p, StoreTail), log)
  {
    hide Complete, SlotsMatch;
    var t := After(p, StoreTail);
    assert Apart(t, log);
    assert forall q :: Claimed(t, q) == Claimed(p, q);
    assert ClaimsListed(t, log) by {
      assert forall u :: u in p.claims ==> Claimed(p, p.claims[u].pos);
    }
    StoreTailComplete(p, log);
    StoreTailSlots(p, log);
  }

  lemma StoreTailComplete(p: Pool, log: seq<u32>)
    requires Shape(p, log) && Complete(p, log) && AllocFollows(p, log) && Enabled(p, StoreTail)
    requires Shape(After(p, StoreTail), log)
    ensures Complete(After(p, StoreTail), log)
  {
    var t := After(p, StoreTail);
    forall i: u32 | i < t.cap
      ensures Listed(t, log, i) || Held(t, i)
    {
      if i == log[p.tail] {
        assert (RX, i) in t.held;
      } else if Listed(p, log, i) {
        var q :| p.tail <= q < p.head && log[q] == i;
        assert t.tail <= q;
      } else {
        assert Held(p, i);
        var u: Thread :| (u, i) in p.held;
        assert (u, i) in t.held;
      }
    }
  }

  lemma StoreTailSlots(p: Pool, log: seq<u32>)
    requires Safe(p, log) && Enabled(p, StoreTail)
    requires Shape(After(p, StoreTail), log)
    ensures SlotsMatch(After(p, StoreTail), log)
  {
    hide Complete;
    var t := After(p, StoreTail);
    var F := |p.slots|;
    ListFits(p, log);
    forall q | t.tail <= q < t.tail + F
      ensures Slot(t, q) == Expected(t, log, q)
    {
      assert Claimed(t, q) == Claimed(p, q);
      if q == p.tail + F {
        assert Slot(p, p.tail) == Expected(p, log, p.tail);
        SameSlotNextLap(p.tail, F);
      } else {
        assert Slot(p, q) == Expected(p, log, q);
      }
    }
  }

  lemma SameSlotNextLap(q: nat, m: int)
    requires m >= 1
    ensures (q + m) % m == q % m
  {
    RemainderUnique(q + m, q / m + 1, q % m, m);
  }

  lemma PassSafe(p: Pool, log: seq<u32>, from: Thread, to: Thread, idx: u32)
    requires Safe(p, log) && Enabled(p, Pass(from, to, idx))
    ensures Safe(After(p, Pass(from, to, idx)), log)
  {
    var t := After(p, Pass(from, to, idx));
    assert forall q :: Claimed(t, q) == Claimed(p, q);
    forall i: u32 | i < t.cap
      ensures Listed(t, log, i) || Held(t, i)
    {
      if Listed(p, log, i) {
        assert Listed(t, log, i);
      } else if i == idx {
        assert (to, i) in t.held;
      } else {
        assert Held(p, i);
        var u: Thread :| (u, i) in p.held;
        assert (u, i) in t.held;
      }
    }
    forall q | t.tail <= q < t.tail + |t.slots|
      ensures Slot(t, q) == Expected(t, log, q)
    {
      assert Slot(p, q) == Expected(p, log, q);
    }
  }

  lemma LoadSafe(p: Pool, log: seq<u32>, s: Step)
    requires Safe(p, log) && Enabled(p, s) && (s.LoadTail? || s.LoadHead?)
    ensures Safe(After(p, s), log)
  {
    var t := After(p, s);
    assert forall q :: Claimed(t, q) == Claimed(p, q);
    SameIndices(p, t, log);
    forall q | t.tail <= q < t.tail + |t.slots|
      ensures Slot(t, q) == Expected(t, log, q)
    {
      assert Slot(p, q) == Expected(p, log, q);
    }
  }

  lemma StepSafe(p: Pool, log: seq<u32>, s: Step)
    requires Safe(p, log) && Enabled(p, s)
    ensures Safe(After(p, s), Log(p, log, s))
  {
    hide Safe, After;
    match s
    case LoadTail => LoadSafe(p, log, s);
    case LoadHead => LoadSafe(p, log, s);
    case Swap => SwapSafe(p, log);
    case StoreTail => StoreTailSafe(p, log);
    case FetchAdd(t, idx) => FetchAddSafe(p, log, t, idx);
    case Publish(t) => PublishSafe(p, log, t);
    case Pass(from, to, idx) => PassSafe(p, log, from, to, idx);
  }

  // ---------------------------------------------------------------- every interleaving

  function Numbers(n: nat): (s: seq<u32>)
    requires n <= EMPTY
    ensures |s| == n && forall i :: 0 <= i < n ==> s[i] == i
  {
    if n == 0 then [] else Numbers(n - 1) + [n - 1]
  }

  lemma FreshSafe(cap: nat)
    requires 1 <= cap <= EMPTY
    ensures Safe(Fresh(cap), Numbers(cap))
  {
    var p, log := Fresh(cap), Numbers(cap);
    forall i: u32 | i < cap
      ensures Listed(p, log, i)
    {
      assert log[i] == i;
    }
    forall q | p.tail <= q < p.tail + |p.slots|
      ensures Slot(p, q) == Expected(p, log, q)
    {
      RemainderUnique(q, 0, q, |p.slots|);
    }
  }

  // The pool and its log after these steps; None when a step is not enabled.
  function Run(cap: nat, steps: seq<Step>): Option<(Pool, seq<u32>)>
    requires 1 <= cap <= EMPTY
  {
    if steps == [] then Some((Fresh(cap), Numbers(cap)))
    else
      var before := Run(cap, steps[..|steps| - 1]);
      var s := steps[|steps| - 1];
      if before.None? || !Enabled(before.value.0, s) then None
      else Some((After(before.value.0, s), Log(before.value.0, before.value.1, s)))
  }

  lemma {:induction false} EveryInterleavingIsSafe(cap: nat, steps: seq<Step>)
    requires 1 <= cap <= EMPTY
    ensures var end := Run(cap, steps);
            end.Some? ==> Safe(end.value.0, end.value.1)
  {
    hide Safe, After, Enabled;
    if steps == [] {
      FreshSafe(cap);
    } else {
      EveryInterleavingIsSafe(cap, steps[..|steps| - 1]);
      var before, s := Run(cap, steps[..|steps| - 1]), steps[|steps| - 1];
      if before.Some? && Enabled(before.value.0, s) {
        StepSafe(before.value.0, before.value.1, s);
      }
    }
  }

  // ---------------------------------------------------------------- what safety means

  // The index is in a slot between tail and head.
  ghost predicate Published(p: Pool, i: u32)
    requires |p.slots| > 0
  {
    exists q :: p.tail <= q < p.head && Slot(p, q) == i
  }

  ghost predicate BeingFreed(p: Pool, i: u32) { exists t :: t in p.claims && p.claims[t].idx == i }

  predicate InHand(p: Pool, i: u32) { p.alloc.Took? && p.alloc.idx == i }

  function Count(b: bool): nat { if b then 1 else 0 }

  lemma ListedIsOnePlace(p: Pool, log: seq<u32>, q: nat)
    requires Safe(p, log) && p.tail <= q < p.head
    ensures Count(Published(p, log[q])) + Count(BeingFreed(p, log[q])) + Count(InHand(p, log[q])) == 1
  {
    hide Complete;
    var i := log[q];
    ListFits(p, log);
    assert Slot(p, q) == Expected(p, log, q);
    if Published(p, i) {
      var r :| p.tail <= r < p.head && Slot(p, r) == i;
      assert Slot(p, r) == Expected(p, log, r);
      assert r == q;
    }
    if BeingFreed(p, i) {
      var t :| t in p.claims && p.claims[t].idx == i;
      assert p.claims[t].pos == q;
    }
    if Claimed(p, q) {
      var t :| t in p.claims && p.claims[t].pos == q;
      assert p.claims[t].idx == i;
    }
  }

  lemma HeldIsNoOther(p: Pool, log: seq<u32>, i: u32)
    requires Safe(p, log) && Held(p, i)
    ensures !Published(p, i) && !BeingFreed(p, i) && !InHand(p, i)
  {
    hide Complete;
    var t: Thread :| (t, i) in p.held;
    ListFits(p, log);
    assert forall q :: p.tail <= q < p.head ==> log[q] != (t, i).1;
    forall q | p.tail <= q < p.head
      ensures Slot(p, q) != i
    {
      assert Slot(p, q) == Expected(p, log, q);
    }
  }

  /** Every frame is in exactly one place: published, being freed, in the
      allocator's hand, or held, and then by one thread. */
  lemma EveryFrameInOnePlace(p: Pool, log: seq<u32>, i: u32)
    requires Safe(p, log) && i < p.cap
    ensures Count(Published(p, i)) + Count(BeingFreed(p, i)) + Count(InHand(p, i)) + Count(Held(p, i)) == 1
    ensures forall t: Thread, u: Thread :: (t, i) in p.held && (u, i) in p.held ==> t == u
  {
    hide Published, BeingFreed, SlotsMatch, ClaimsListed, AllocFollows;
    if Held(p, i) {
      HeldIsNoOther(p, log, i);
    } else {
      assert Listed(p, log, i);
      var q :| p.tail <= q < p.head && log[q] == i;
      ListedIsOnePlace(p, log, q);
    }
  }

  /** A claimed slot is empty until its free stores the index, and an empty
      slot between tail and head has exactly such a free under way or has just
      been emptied by the allocator. */
  lemma EmptySlotsAreClaimed(p: Pool, log: seq<u32>, q: nat)
    requires Safe(p, log) && p.tail <= q < p.head
    ensures Slot(p, q) == EMPTY <==> Claimed(p, q) || (p.alloc.Took? && p.alloc.at == q)
  {
    ListFits(p, log);
    assert Slot(p, q) == Expected(p, log, q);
  }

  /** A spinning allocator waits for a free already under way, and once that
      free stores its index the next swap takes it. */
  lemma SpinEnds(p: Pool, log: seq<u32>)
    requires Safe(p, log) && p.alloc.Spinning? && Slot(p, p.tail) == EMPTY
    ensures exists t :: t in p.claims && p.claims[t].pos == p.tail &&
                        var after := After(After(p, Publish(t)), Swap);
                        after.alloc == Took(p.tail, p.claims[t].idx)
  {
    ListFits(p, log);
    assert Slot(p, p.tail) == Expected(p, log, p.tail);
    var t :| t in p.claims && p.claims[t].pos == p.tail;
    SlotWritten(p.slots, p.tail, p.tail, p.claims[t].idx, p.tail);
    assert After(After(p, Publish(t)), Swap).alloc == Took(p.tail, p.claims[t].idx);
  }

  /** The pool reports exhaustion only when every frame is held. */
  lemma ExhaustedMeansAllHeld(p: Pool, log: seq<u32>, i: u32)
    requires Safe(p, log) && p.alloc.SawTail? && After(p, LoadHead).alloc.Idle? && i < p.cap
    ensures Held(p, i)
  {
    assert Listed(p, log, i) || Held(p, i);
  }

  /** A frame's bytes. */
  function FrameStart(idx: nat, frameSize: nat): nat { idx * frameSize }

  /** Different frames lie in the buffer and do not overlap. */
  lemma FramesDisjoint(i: nat, j: nat, cap: nat, frameSize: nat)
    requires i < j < cap
    ensures FrameStart(i, frameSize) + frameSize <= FrameStart(j, frameSize)
    ensures FrameStart(i, frameSize) + frameSize <= cap * frameSize
    ensures FrameStart(j, frameSize) + frameSize <= cap * frameSize
  {
    NextFrame(i, j, frameSize);
    NextFrame(j, cap, frameSize);
    NextFrame(i, cap, frameSize);
  }

  lemma NextFrame(i: nat, j: nat, frameSize: nat)
    requires i < j
    ensures i * frameSize + frameSize <= j * frameSize
  {
    var d := j - i - 1;
    assert d * frameSize >= 0;
    assert j * frameSize == i * frameSize + d * frameSize + frameSize;
  }

  /** Two holdings never share a byte of the buffer. */
  lemma HeldFramesApart(p: Pool, log: seq<u32>, g: (Thread, u32), h: (Thread, u32), frameSize: nat)
    requires Safe(p, log) && g in p.held && h in p.held && g != h
    ensures || FrameStart(g.1, frameSize) + frameSize <= FrameStart(h.1, frameSize)
            || FrameStart(h.1, frameSize) + frameSize <= FrameStart(g.1, frameSize)
    ensures FrameStart(g.1, frameSize) + frameSize <= p.cap * frameSize
  {
    hide FrameStart;
    if g.1 < h.1 {
      FramesDisjoint(g.1, h.1, p.cap, frameSize);
    } else {
      FramesDisjoint(h.1, g.1, p.cap, frameSize);
    }
  }
}
