/** The byte ring under every interleaving of one producer and one consumer,
    at the granularity of single loads, byte copies and counter stores. */
module RingInterleaving {
  import opened Types
  import opened Modular
  import opened ByteRing

  // Where the producer stands inside write.
  datatype Producer =
    | Resting
    | KnowsHead(data: seq<u8>, head: nat)
    | Copying(data: seq<u8>, head: nat, n: nat, done: nat)

  // Where the consumer stands inside read.
  datatype Consumer =
    | Waiting
    | KnowsTail(max: nat, tail: nat)
    | Fetching(tail: nat, n: nat, out: seq<u8>)

  /** The shared memory, both threads, and two histories: the bytes published
      by completed writes and the bytes returned by completed reads. `fault`
      latches the first store over an unread byte, the first load of a byte
      that is not published and unread, and any access outside the buffer. */
  datatype Machine = Machine(
    buf: seq<u8>,
    head: nat,
    tail: nat,
    producer: Producer,
    consumer: Consumer,
    published: seq<u8>,
    returned: seq<u8>,
    fault: bool)

  datatype Step =
    | BeginWrite(data: seq<u8>)
    | LoadTail
    | CopyByteIn
    | PublishHead
    | BeginRead(max: nat)
    | LoadHead
    | CopyByteOut
    | PublishTail

  // Slot of byte i of an n-byte transfer that starts at a counter value.
  function Slot(counter: nat, i: nat, n: nat, cap: nat): int {
    if cap == 0 then 0
    else
      var start := counter % cap;
      var first := Min(n, cap - start);
      if i < first then start + i else i - first
  }

  predicate Enabled(m: Machine, s: Step) {
    match s
    case BeginWrite(_) => m.producer.Resting?
    case LoadTail => m.producer.KnowsHead?
    case CopyByteIn => m.producer.Copying? && m.producer.done < m.producer.n
    case PublishHead => m.producer.Copying? && m.producer.done == m.producer.n
    case BeginRead(_) => m.consumer.Waiting?
    case LoadHead => m.consumer.KnowsTail?
    case CopyByteOut => m.consumer.Fetching? && |m.consumer.out| < m.consumer.n
    case PublishTail => m.consumer.Fetching? && |m.consumer.out| == m.consumer.n
  }

  // A published byte that no completed read has returned lives in this slot.
  ghost predicate Unread(m: Machine, slot: int) {
    exists x :: |m.returned| <= x < |m.published| && Lives(x, |m.buf|, slot)
  }

  ghost predicate Lives(x: nat, cap: nat, slot: int) { cap >= 1 && x % cap == slot }

  /** One atomic step of either thread; a step that is not enabled does nothing. */
  ghost function After(m: Machine, s: Step): Machine {
    if !Enabled(m, s) then m
    else
      match s
      case BeginWrite(data) => m.(producer := KnowsHead(data, m.head))
      case LoadTail =>
        var p := m.producer;
        var n := Min(|p.data|, |m.buf| - (p.head - m.tail) % USIZE_SPAN);
        m.(producer := if n <= 0 then Resting else Copying(p.data, p.head, n, 0))
      case CopyByteIn => StoreByte(m)
      case PublishHead =>
        var p := m.producer;
        m.(head := (p.head + p.n) % USIZE_SPAN, producer := Resting,
           published := m.published + p.data[..Min(p.n, |p.data|)])
      case BeginRead(max) => m.(consumer := KnowsTail(max, m.tail))
      case LoadHead =>
        var c := m.consumer;
        var n := Min(c.max, (m.head - c.tail) % USIZE_SPAN);
        m.(consumer := if n == 0 then Waiting else Fetching(c.tail, n, []))
      case CopyByteOut => LoadByte(m)
      case PublishTail =>
        var c := m.consumer;
        m.(tail := (c.tail + c.n) % USIZE_SPAN, consumer := Waiting, returned := m.returned + c.out)
  }

  ghost function StoreByte(m: Machine): Machine
    requires Enabled(m, CopyByteIn)
  {
    var p := m.producer;
    var slot := Slot(p.head, p.done, p.n, |m.buf|);
    if 0 <= slot < |m.buf| && p.done < |p.data| then
      m.(buf := m.buf[slot := p.data[p.done]], producer := p.(done := p.done + 1), fault := m.fault || Unread(m, slot))
    else
      m.(fault := true)
  }

  ghost function LoadByte(m: Machine): Machine
    requires Enabled(m, CopyByteOut)
  {
    var c := m.consumer;
    var slot := Slot(c.tail, |c.out|, c.n, |m.buf|);
    if 0 <= slot < |m.buf| then
      m.(consumer := c.(out := c.out + [m.buf[slot]]), fault := m.fault || !Unread(m, slot))
    else
      m.(fault := true)
  }

  ghost predicate Divides(cap: nat) { 1 <= cap < USIZE_SPAN && exists laps: nat :: laps * cap == USIZE_SPAN }

  ghost predicate Safe(m: Machine) {
    var written, read := |m.published|, |m.returned|;
    && !m.fault && Divides(|m.buf|)
    && m.head == written % USIZE_SPAN && m.tail == read % USIZE_SPAN
    && read <= written <= read + |m.buf|
    && m.returned == m.published[..read]
    && Holds(m.buf, read, m.published[read..])
    && ProducerSafe(m) && ConsumerSafe(m)
  }

  ghost predicate ProducerSafe(m: Machine) {
    match m.producer
    case Resting => true
    case KnowsHead(_, head) => head == m.head
    case Copying(data, head, n, done) =>
      && head == m.head && done <= n <= |data|
      && |m.published| + n <= |m.returned| + |m.buf|
      && Holds(m.buf, |m.published|, data[..done])
  }

  ghost predicate ConsumerSafe(m: Machine) {
    match m.consumer
    case Waiting => true
    case KnowsTail(_, tail) => tail == m.tail
    case Fetching(tail, n, out) =>
      && tail == m.tail && |out| <= n
      && |m.returned| + n <= |m.published|
      && out == m.published[|m.returned|..|m.returned| + |out|]
  }

  lemma SlotOfCounter(x: nat, i: nat, n: nat, cap: nat)
    requires Divides(cap) && i < n <= cap
    ensures Slot(x % USIZE_SPAN, i, n, cap) == (x + i) % cap
  {
    var laps: nat :| laps * cap == USIZE_SPAN;
    WrapKeepsSlot(x, cap, laps, USIZE_SPAN);
    ChunkSlot(x, i, n, cap);
  }

  lemma LoadTailSafe(m: Machine)
    requires Safe(m) && Enabled(m, LoadTail)
    ensures Safe(After(m, LoadTail))
  {
    DifferenceOfWrapped(|m.published|, |m.returned|, USIZE_SPAN);
    assert m.producer.data[..0] == [];
  }

  lemma BeyondUnread(m: Machine, at: nat)
    requires |m.buf| >= 1 && |m.published| <= at < |m.returned| + |m.buf|
    ensures !Unread(m, at % |m.buf|)
  {
    forall x | |m.returned| <= x < |m.published|
      ensures !Lives(x, |m.buf|, at % |m.buf|)
    {
      DistinctWithinLap(x, at, |m.buf|);
    }
  }

  lemma StoreByteSafe(m: Machine)
    requires Safe(m) && Enabled(m, CopyByteIn)
    ensures Safe(After(m, CopyByteIn))
  {
    var p, cap := m.producer, |m.buf|;
    var at := |m.published| + p.done;
    SlotOfCounter(|m.published|, p.done, p.n, cap);
    BeyondUnread(m, at);
    HoldsFrame(m.buf, |m.returned|, m.published[|m.returned|..], at, p.data[p.done]);
    HoldsFrame(m.buf, |m.published|, p.data[..p.done], at, p.data[p.done]);
    var buf' := m.buf[at % cap := p.data[p.done]];
    HoldsBoth(buf', |m.published|, p.data[..p.done], [p.data[p.done]]);
    assert p.data[..p.done] + [p.data[p.done]] == p.data[..p.done + 1];
    var m' := m.(buf := buf', producer := p.(done := p.done + 1));
    assert After(m, CopyByteIn) == m';
  }

  // Publishing more bytes does not disturb a read under way.
  lemma ConsumerUndisturbed(m: Machine, t: Machine)
    requires ConsumerSafe(m) && m.published <= t.published
    requires t.consumer == m.consumer && t.tail == m.tail && t.returned == m.returned
    ensures ConsumerSafe(t)
  {
    if m.consumer.Fetching? {
      var read, k := |m.returned|, |m.consumer.out|;
      assert t.published[read..read + k] == m.published[read..read + k];
    }
  }

  lemma PublishHeadSafe(m: Machine)
    requires Safe(m) && Enabled(m, PublishHead)
    ensures Safe(After(m, PublishHead))
  {
    hide Holds, Divides, ConsumerSafe;
    var p, read := m.producer, |m.returned|;
    var more := m.published + p.data[..p.n];
    AddToWrapped(|m.published|, p.n, USIZE_SPAN);
    HoldsBoth(m.buf, read, m.published[read..], p.data[..p.n]);
    assert m.published[read..] + p.data[..p.n] == more[read..];
    assert more[..read] == m.published[..read];
    ConsumerUndisturbed(m, After(m, PublishHead));
  }

  lemma LoadHeadSafe(m: Machine)
    requires Safe(m) && Enabled(m, LoadHead)
    ensures Safe(After(m, LoadHead))
  {
    DifferenceOfWrapped(|m.published|, |m.returned|, USIZE_SPAN);
  }

  lemma LoadByteSafe(m: Machine)
    requires Safe(m) && Enabled(m, CopyByteOut)
    ensures Safe(After(m, CopyByteOut))
  {
    var c, read := m.consumer, |m.returned|;
    SlotOfCounter(read, |c.out|, c.n, |m.buf|);
    var x := read + |c.out|;
    assert Lives(x, |m.buf|, x % |m.buf|);
    assert m.published[read..][|c.out|] == m.published[x];
    var m' := m.(consumer := c.(out := c.out + [m.published[x]]));
    assert After(m, CopyByteOut) == m';
  }

  lemma PublishTailSafe(m: Machine)
    requires Safe(m) && Enabled(m, PublishTail)
    ensures Safe(After(m, PublishTail))
  {
    var c, read := m.consumer, |m.returned|;
    AddToWrapped(read, c.n, USIZE_SPAN);
    HoldsSuffix(m.buf, read, m.published[read..], c.n);
    assert m.published[read..][c.n..] == m.published[read + c.n..];
  }

  lemma StepSafe(m: Machine, s: Step)
    requires Safe(m)
    ensures Safe(After(m, s))
  {
    if Enabled(m, s) {
      match s
      case BeginWrite(_) =>
      case LoadTail => LoadTailSafe(m);
      case CopyByteIn => StoreByteSafe(m);
      case PublishHead => PublishHeadSafe(m);
      case BeginRead(_) =>
      case LoadHead => LoadHeadSafe(m);
      case CopyByteOut => LoadByteSafe(m);
      case PublishTail => PublishTailSafe(m);
    }
  }

  ghost function Run(m: Machine, steps: seq<Step>): Machine
    decreases |steps|
  {
    if steps == [] then m else After(Run(m, steps[..|steps| - 1]), steps[|steps| - 1])
  }

  function Fresh(buf: seq<u8>): Machine { Machine(buf, 0, 0, Resting, Waiting, [], [], false) }

  lemma {:induction false} RunSafe(buf: seq<u8>, steps: seq<Step>)
    requires Divides(|buf|)
    ensures Safe(Run(Fresh(buf), steps))
  {
    if steps != [] {
      RunSafe(buf, steps[..|steps| - 1]);
      StepSafe(Run(Fresh(buf), steps[..|steps| - 1]), steps[|steps| - 1]);
    }
  }

  /** In every interleaving, through counter wrap-around: no access goes
      wrong, occupancy never exceeds the capacity, and what has been read is
      a prefix of what has been written. */
  lemma EveryInterleavingIsFifo(buf: seq<u8>, steps: seq<Step>)
    requires Divides(|buf|)
    ensures var m := Run(Fresh(buf), steps);
            && !m.fault
            && m.returned <= m.published
            && |m.published| - |m.returned| <= |buf|
            && (m.head - m.tail) % USIZE_SPAN == |m.published| - |m.returned|
  {
    RunSafe(buf, steps);
    var m := Run(Fresh(buf), steps);
    DifferenceOfWrapped(|m.published|, |m.returned|, USIZE_SPAN);
    BufferLengthKept(buf, steps);
  }

  lemma {:induction false} BufferLengthKept(buf: seq<u8>, steps: seq<Step>)
    ensures |Run(Fresh(buf), steps).buf| == |buf|
  {
    if steps != [] {
      BufferLengthKept(buf, steps[..|steps| - 1]);
    }
  }

  // ---------------------------------------------------------------- what a write and a read achieve

  function Space(m: Machine): int { |m.buf| - (|m.published| - |m.returned|) }

  // A write of these bytes, begun with this much published and at least this much space, under way or done.
  ghost predicate Writing(m: Machine, data: seq<u8>, was: seq<u8>, space: int) {
    match m.producer
    case KnowsHead(d, _) => d == data && m.published == was && Space(m) >= space
    case Copying(d, _, n, _) => d == data && m.published == was && n >= Min(|data|, space)
    case Resting => exists k: nat :: Wrote(m, data, was, k) && k >= Min(|data|, space)
  }

  ghost predicate Wrote(m: Machine, data: seq<u8>, was: seq<u8>, k: nat) {
    k <= |data| && m.published == was + data[..k]
  }

  lemma LoadTailWrites(m: Machine, data: seq<u8>, was: seq<u8>, space: int)
    requires Safe(m) && Enabled(m, LoadTail) && Writing(m, data, was, space)
    ensures Writing(After(m, LoadTail), data, was, space)
  {
    hide Holds;
    DifferenceOfWrapped(|m.published|, |m.returned|, USIZE_SPAN);
    assert was + data[..0] == was;
    assert After(m, LoadTail).producer.Resting? ==> Wrote(After(m, LoadTail), data, was, 0);
  }

  lemma StepWrites(m: Machine, s: Step, data: seq<u8>, was: seq<u8>, space: int)
    requires Safe(m) && Writing(m, data, was, space) && !s.BeginWrite?
    ensures Writing(After(m, s), data, was, space)
  {
    hide Holds, Unread, Slot;
    if Enabled(m, s) {
      if s.LoadTail? {
        LoadTailWrites(m, data, was, space);
      } else if s.PublishHead? {
        assert Wrote(After(m, s), data, was, m.producer.n);
      } else if m.producer.Resting? {
        var k: nat :| Wrote(m, data, was, k) && k >= Min(|data|, space);
        assert Wrote(After(m, s), data, was, k);
      }
    }
  }

  /** Whatever the consumer does meanwhile, a write that has come to its end
      has published a prefix of its bytes, in one piece, and at least as many
      of them as there was space for when it began. */
  lemma {:induction false} WritesTakeWhatFits(m: Machine, data: seq<u8>, steps: seq<Step>)
    requires Safe(m) && m.producer.Resting? && forall i :: 0 <= i < |steps| ==> !steps[i].BeginWrite?
    ensures var end := Run(After(m, BeginWrite(data)), steps);
            Safe(end) && Writing(end, data, m.published, Space(m))
    decreases |steps|
  {
    hide Safe, Writing, After;
    var start := After(m, BeginWrite(data));
    if steps == [] {
      WriteBegins(m, data);
    } else {
      var last := |steps| - 1;
      WritesTakeWhatFits(m, data, steps[..last]);
      StepSafe(Run(start, steps[..last]), steps[last]);
      StepWrites(Run(start, steps[..last]), steps[last], data, m.published, Space(m));
    }
  }

  lemma WriteBegins(m: Machine, data: seq<u8>)
    requires Safe(m) && m.producer.Resting?
    ensures var start := After(m, BeginWrite(data)); Safe(start) && Writing(start, data, m.published, Space(m))
  {
    StepSafe(m, BeginWrite(data));
  }

  // A read of up to max bytes, begun with this much returned and at least this much waiting, under way or done.
  ghost predicate Reading(m: Machine, max: nat, was: nat, waiting: int) {
    match m.consumer
    case KnowsTail(x, _) => x == max && |m.returned| == was && |m.published| - |m.returned| >= waiting
    case Fetching(_, n, _) => |m.returned| == was && Min(max, waiting) <= n <= max
    case Waiting => Min(max, waiting) <= |m.returned| - was <= max
  }

  lemma StepReads(m: Machine, s: Step, max: nat, was: nat, waiting: int)
    requires Safe(m) && Reading(m, max, was, waiting) && !s.BeginRead?
    ensures Reading(After(m, s), max, was, waiting)
  {
    hide Holds, Unread, Slot;
    if s.LoadHead? {
      DifferenceOfWrapped(|m.published|, |m.returned|, USIZE_SPAN);
    }
  }

  /** Whatever the producer does meanwhile, a read that has come to its end has
      returned at most what it asked for, and at least what was waiting when it
      began. Which bytes they are, EveryInterleavingIsFifo says. */
  lemma {:induction false} ReadsTakeWhatIsThere(m: Machine, max: nat, steps: seq<Step>)
    requires Safe(m) && m.consumer.Waiting? && forall i :: 0 <= i < |steps| ==> !steps[i].BeginRead?
    ensures var end := Run(After(m, BeginRead(max)), steps);
            Safe(end) && Reading(end, max, |m.returned|, |m.published| - |m.returned|)
    decreases |steps|
  {
    hide Safe, Reading, After;
    var start := After(m, BeginRead(max));
    if steps == [] {
      ReadBegins(m, max);
    } else {
      var last := |steps| - 1;
      ReadsTakeWhatIsThere(m, max, steps[..last]);
      StepSafe(Run(start, steps[..last]), steps[last]);
      StepReads(Run(start, steps[..last]), steps[last], max, |m.returned|, |m.published| - |m.returned|);
    }
  }

  lemma ReadBegins(m: Machine, max: nat)
    requires Safe(m) && m.consumer.Waiting?
    ensures var start := After(m, BeginRead(max));
            Safe(start) && Reading(start, max, |m.returned|, |m.published| - |m.returned|)
  {
    StepSafe(m, BeginRead(max));
  }

  // Steps a thread has left, at most, until its operation ends.
  function ProducerLeft(m: Machine): int {
    match m.producer
    case Resting => 0
    case KnowsHead(data, _) => |data| + 2
    case Copying(_, _, n, done) => n - done + 1
  }

  function ConsumerLeft(m: Machine): int {
    match m.consumer
    case Waiting => 0
    case KnowsTail(max, _) => max + 2
    case Fetching(_, n, out) => n - |out| + 1
  }

  predicate OfProducer(s: Step) { s.LoadTail? || s.CopyByteIn? || s.PublishHead? }

  predicate OfConsumer(s: Step) { s.LoadHead? || s.CopyByteOut? || s.PublishTail? }

  /** Neither thread ever waits for the other: while an operation is under way
      one of its own steps is enabled, every such step brings it closer to its
      end, and no step of the other thread sets it back. */
  lemma OperationsAreWaitFree(m: Machine, s: Step)
    requires Safe(m) && Enabled(m, s)
    ensures !m.producer.Resting? <==> Enabled(m, LoadTail) || Enabled(m, CopyByteIn) || Enabled(m, PublishHead)
    ensures !m.consumer.Waiting? <==> Enabled(m, LoadHead) || Enabled(m, CopyByteOut) || Enabled(m, PublishTail)
    ensures OfProducer(s) ==> 0 <= ProducerLeft(After(m, s)) < ProducerLeft(m)
    ensures OfConsumer(s) ==> 0 <= ConsumerLeft(After(m, s)) < ConsumerLeft(m)
    ensures !OfProducer(s) && !s.BeginWrite? ==> After(m, s).producer == m.producer
    ensures !OfConsumer(s) && !s.BeginRead? ==> After(m, s).consumer == m.consumer
  {
    hide Holds, Unread;
    if s.LoadHead? || s.LoadTail? {
      DifferenceOfWrapped(|m.published|, |m.returned|, USIZE_SPAN);
    } else if s.CopyByteIn? {
      SlotOfCounter(|m.published|, m.producer.done, m.producer.n, |m.buf|);
    } else if s.CopyByteOut? {
      SlotOfCounter(|m.returned|, |m.consumer.out|, m.consumer.n, |m.buf|);
    }
  }
}
