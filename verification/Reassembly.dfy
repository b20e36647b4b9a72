/** The receiving half of a connection, against a peer stream that arrives in
    the segments of one fixed partition. `parts` maps the position where each
    segment starts to the position where it ends. */
module Reassembly {
  import opened Types
  import opened SeqNum
  import opened ByteRing
  import opened Tcb
  import opened SendStream

  type Parts = map<nat, nat>

  ghost predicate Disjoint(parts: Parts, stream: seq<u8>) {
    && (forall p :: p in parts ==> p < parts[p] <= |stream|)
    && (forall p, q :: p in parts && q in parts && p < q ==> parts[p] <= q)
  }

  // The segments received so far, by position.
  type Received = map<nat, seq<u8>>

  ghost predicate Genuine(got: Received, parts: Parts, stream: seq<u8>) {
    && Disjoint(parts, stream)
    && forall p :: p in got ==> p in parts && got[p] == stream[p..parts[p]]
  }

  /** Reference definition: how far the received segments reach without a gap. */
  ghost function Reach(got: Received, parts: Parts, stream: seq<u8>, from: nat): nat
    requires Disjoint(parts, stream)
    decreases |stream| - from
  {
    if from in got && from in parts then Reach(got, parts, stream, parts[from]) else from
  }

  // Every key is the distance from n of a received segment from position `from` on.
  ghost predicate KeysGenuine(m: map<u32, seq<u8>>, got: Received, n: nat, from: nat) {
    forall k {:trigger m[k]} :: k in m ==> n + k in got && from <= n + k && m[k] == got[n + k]
  }

  // Every received segment from position `from` on is there.
  ghost predicate NoneMissing(m: map<u32, seq<u8>>, got: Received, n: nat, from: nat)
    requires n <= from
  {
    forall p :: p in got && p >= from ==> p - n < TWO31 && p - n in m
  }

  /** The map holds exactly the segments from position `from` on, each under
      its distance from n. */
  ghost predicate Keyed(m: map<u32, seq<u8>>, got: Received, n: nat, from: nat) {
    n <= from && KeysGenuine(m, got, n, from) && NoneMissing(m, got, n, from)
  }

  /** Received segments lead from one position to another without a gap. */
  ghost predicate Through(got: Received, parts: Parts, stream: seq<u8>, from: nat, n: nat)
    requires Disjoint(parts, stream)
    decreases |stream| - from
  {
    from == n || (from < n && from in got && from in parts && Through(got, parts, stream, parts[from], n))
  }

  /** The first n bytes have been handed to the application, through
      received segments only; what was received beyond is in the reorder buffer. */
  ghost predicate Delivered(r: Receiver, stream: seq<u8>, parts: Parts, n: nat, got: Received) {
    && Genuine(got, parts, stream) && n <= |stream|
    && r.nxt == SeqAt(r.irs, n)
    && r.rx.stream == stream[..n]
    && Through(got, parts, stream, 0, n)
    && Keyed(r.reorder, got, n, n)
  }

  /** ... and the segment at n is missing, so n is as far as they reach. */
  ghost predicate Settled(r: Receiver, stream: seq<u8>, parts: Parts, n: nat, got: Received) {
    Delivered(r, stream, parts, n, got) && n !in got
  }

  ghost predicate RingSane(rx: Ring) { rx.taken <= |rx.stream| && rx.cap < TWO31 }

  // ---------------------------------------------------------------- the reference definition

  lemma {:induction false} ThroughReach(got: Received, parts: Parts, stream: seq<u8>, from: nat, n: nat)
    requires Disjoint(parts, stream) && Through(got, parts, stream, from, n)
    ensures Reach(got, parts, stream, from) == Reach(got, parts, stream, n)
    decreases |stream| - from
  {
    if from < n {
      ThroughReach(got, parts, stream, parts[from], n);
    }
  }

  // Only the segments before n matter.
  lemma {:induction false} ThroughOther(got: Received, other: Received, parts: Parts, stream: seq<u8>, from: nat,
                                        n: nat)
    requires Disjoint(parts, stream) && Through(got, parts, stream, from, n)
    requires forall p :: p in got && p < n ==> p in other
    ensures Through(other, parts, stream, from, n)
    decreases |stream| - from
  {
    if from < n {
      ThroughOther(got, other, parts, stream, parts[from], n);
    }
  }

  lemma {:induction false} ThroughNext(got: Received, parts: Parts, stream: seq<u8>, from: nat, n: nat)
    requires Disjoint(parts, stream) && Through(got, parts, stream, from, n) && n in got && n in parts
    ensures Through(got, parts, stream, from, parts[n])
    decreases |stream| - from
  {
    if from < n {
      ThroughNext(got, parts, stream, parts[from], n);
    }
  }

  // Whatever starts before the reached point has been received.
  lemma {:induction false} ThroughBefore(got: Received, parts: Parts, stream: seq<u8>, from: nat, n: nat, p: nat)
    requires Disjoint(parts, stream) && Through(got, parts, stream, from, n) && p in parts && from <= p < n
    ensures p in got
    decreases |stream| - from
  {
    if from < p {
      ThroughBefore(got, parts, stream, parts[from], n, p);
    }
  }

  lemma SettledReach(r: Receiver, stream: seq<u8>, parts: Parts, n: nat, got: Received)
    requires Settled(r, stream, parts, n, got)
    ensures |r.rx.stream| == n && Genuine(got, parts, stream) && Reach(got, parts, stream, 0) == n
  {
    hide Keyed, SeqAt;
    ThroughReach(got, parts, stream, 0, n);
  }

  // ---------------------------------------------------------------- the reorder buffer

  lemma FirstKey(m: map<u32, seq<u8>>, got: Received, n: nat)
    requires Keyed(m, got, n, n)
    ensures 0 in m <==> n in got
    ensures 0 in m ==> m[0] == got[n]
    ensures Keyed(m - {0}, got, n, n + 1)
  {
    assert n - n == 0 && n + 0 == n;
  }

  lemma NoFirstKey(m: map<u32, seq<u8>>, got: Received, n: nat, data: seq<u8>)
    requires Keyed(m, got, n, n) && n !in got
    ensures Keyed(m, got[n := data], n, n + 1)
  {
  }

  /** Advancing past a segment of w bytes at n re-keys without underflow,
      since no other received segment starts inside it. */
  lemma RekeyedSegments(m: map<u32, seq<u8>>, got: Received, n: nat, w: u32)
    requires Keyed(m, got, n, n + 1)
    requires forall p :: p in got && p > n ==> n + w <= p
    requires w >= 1
    ensures forall k :: k in m ==> w <= k
    ensures Keyed(Rekeyed(m, w), got, n + w, n + w)
  {
    hide Rekeyed, Keyed, KeysGenuine, NoneMissing;
    forall k | k in m
      ensures w <= k
    {
      KeyPast(m, got, n, w, k);
    }
    MovedKeysGenuine(m, got, n, w);
    MovedNoneMissing(m, got, n, w);
    KeyedFrom(Rekeyed(m, w), got, n + w, n + w);
  }

  lemma KeyedFrom(m: map<u32, seq<u8>>, got: Received, n: nat, from: nat)
    requires n <= from && KeysGenuine(m, got, n, from) && NoneMissing(m, got, n, from)
    ensures Keyed(m, got, n, from)
  {
  }

  lemma MovedKeysGenuine(m: map<u32, seq<u8>>, got: Received, n: nat, w: u32)
    requires Keyed(m, got, n, n + 1) && w >= 1
    requires forall p :: p in got && p > n ==> n + w <= p
    ensures KeysGenuine(Rekeyed(m, w), got, n + w, n + w)
  {
    hide Rekeyed, Keyed, Add;
    var moved := Rekeyed(m, w);
    forall k | k in moved
      ensures n + w + k in got && moved[k] == got[n + w + k]
    {
      RekeyedUp(m, w, k);
      KeyPast(m, got, n, w, Add(k, w));
      AddPast(k, w);
      assert n + (k + w) == n + w + k;
    }
  }

  lemma MovedNoneMissing(m: map<u32, seq<u8>>, got: Received, n: nat, w: u32)
    requires Keyed(m, got, n, n + 1) && w >= 1
    ensures NoneMissing(Rekeyed(m, w), got, n + w, n + w)
  {
    hide Rekeyed, Keyed;
    forall p | p in got && p >= n + w
      ensures p - (n + w) < TWO31 && p - (n + w) in Rekeyed(m, w)
    {
      PositionKept(m, got, n, w, p);
    }
  }

  // A key of the reorder buffer names a received segment behind the one at n.
  lemma KeyPast(m: map<u32, seq<u8>>, got: Received, n: nat, w: u32, k: u32)
    requires Keyed(m, got, n, n + 1) && k in m
    requires forall p :: p in got && p > n ==> n + w <= p
    ensures w <= k && n + k in got && m[k] == got[n + k]
  {
    var data := m[k];
  }

  // An addition that does not fall below its summand did not wrap.
  lemma AddPast(k: u32, w: u32)
    requires w <= Add(k, w)
    ensures Add(k, w) == k + w
  {
  }

  lemma PositionKept(m: map<u32, seq<u8>>, got: Received, n: nat, w: u32, p: nat)
    requires Keyed(m, got, n, n + 1) && w >= 1 && p in got && p >= n + w
    ensures p - (n + w) < TWO31 && p - (n + w) in Rekeyed(m, w)
  {
    hide Rekeyed;
    assert p - n in m;
    RekeyedDown(m, w, p - n);
    assert Diff(p - n, w) == p - n - w;
  }

  // Handing the bytes from n to end to a ring that takes them all.
  lemma AcceptBytes(r: Receiver, stream: seq<u8>, n: nat, end: nat)
    requires n <= end <= |stream| && RingSane(r.rx)
    requires r.nxt == SeqAt(r.irs, n) && r.rx.stream == stream[..n]
    requires r.rx.Accepted(stream[n..end]) == end - n
    ensures end - n < TWO31
    ensures var a := Accept(r, stream[n..end]);
            && a.nxt == SeqAt(r.irs, end)
            && a.rx == r.rx.(stream := stream[..end])
  {
    hide SeqAt, Add;
    SeqAtAdd(r.irs, n, end - n);
    var data := stream[n..end];
    assert data[..end - n] == data;
    assert stream[..n] + stream[n..end] == stream[..end];
    assert (end - n) % TWO32 == end - n;
  }

  lemma AcceptFrame(r: Receiver, m: map<u32, seq<u8>>, data: seq<u8>)
    ensures Accept(r.(reorder := m), data) == Accept(r, data).(reorder := m)
    ensures Accept(r, data).(rx := r.rx, nxt := r.nxt) == r
  {
  }

  // What accepting data leaves alone.
  ghost predicate OnlyDelivers(before: Receiver, after: Receiver) {
    && after.(nxt := before.nxt, reorder := before.reorder, rx := before.rx) == before
    && after.rx.(stream := before.rx.stream) == before.rx
    && |before.rx.stream| <= |after.rx.stream|
  }

  lemma SegmentFacts(stream: seq<u8>, parts: Parts, n: nat, got: Received)
    requires Genuine(got, parts, stream) && n in got
    ensures n in parts && got[n] == stream[n..parts[n]] && n < parts[n] <= |stream|
    ensures forall p :: p in got && p > n ==> parts[n] <= p
  {
  }

  /** Accepting the received segment at n whole advances the delivered point past it. */
  lemma AdvanceSegment(r: Receiver, m: map<u32, seq<u8>>, stream: seq<u8>, parts: Parts, n: nat, got: Received)
    requires Genuine(got, parts, stream) && n in got && RingSane(r.rx) && n <= |stream|
    requires r.nxt == SeqAt(r.irs, n) && r.rx.stream == stream[..n]
    requires Through(got, parts, stream, 0, n)
    requires Keyed(m, got, n, n + 1)
    requires r.rx.Accepted(got[n]) == |got[n]|
    ensures 0 < |got[n]| < TWO31
    ensures var a := Accept(r.(reorder := Rekeyed(m, |got[n]|)), got[n]);
            && Delivered(a, stream, parts, parts[n], got)
            && RingSane(a.rx) && OnlyDelivers(r, a)
  {
    hide Rekeyed, SeqAt, Accept, Keyed, Genuine, Disjoint, Through;
    SegmentFacts(stream, parts, n, got);
    var w := parts[n] - n;
    AcceptBytes(r, stream, n, parts[n]);
    RekeyedSegments(m, got, n, w);
    AcceptFrame(r, Rekeyed(m, w), got[n]);
    GenuineDisjoint(got, parts, stream);
    ThroughNext(got, parts, stream, 0, n);
  }

  lemma GenuineDisjoint(got: Received, parts: Parts, stream: seq<u8>)
    requires Genuine(got, parts, stream)
    ensures Disjoint(parts, stream)
  {
  }

  lemma DrainOneAdvances(r: Receiver, stream: seq<u8>, parts: Parts, n: nat, got: Received)
    requires Delivered(r, stream, parts, n, got) && RingSane(r.rx) && n in got && r.rx.Accepted(got[n]) == |got[n]|
    ensures 0 in r.reorder && n in parts
    ensures Delivered(DrainOne(r), stream, parts, parts[n], got)
    ensures RingSane(DrainOne(r).rx) && OnlyDelivers(r, DrainOne(r))
  {
    hide Rekeyed, SeqAt, Accept, Keyed, Through, OnlyDelivers, DrainOne;
    FirstKey(r.reorder, got, n);
    AdvanceSegment(r, r.reorder - {0}, stream, parts, n, got);
    DrainOneIs(r, got[n]);
  }

  lemma DrainOneIs(r: Receiver, data: seq<u8>)
    requires 0 in r.reorder && r.reorder[0] == data
    requires r.rx.Accepted(data) == |data| && 0 < |data| < TWO31
    ensures DrainOne(r) == Accept(r.(reorder := Rekeyed(r.reorder - {0}, |data|)), data)
  {
    hide Rekeyed, Accept;
  }

  // A full ring takes nothing: the segment leaves the reorder buffer undelivered.
  lemma DrainOneDrops(r: Receiver, stream: seq<u8>, parts: Parts, n: nat, got: Received)
    requires Delivered(r, stream, parts, n, got) && n in got && r.rx.Accepted(got[n]) == 0
    ensures 0 in r.reorder
    ensures DrainOne(r) == r.(reorder := r.reorder - {0})
    ensures Settled(DrainOne(r), stream, parts, n, got - {n}) && r.rx.Free() == 0
  {
    hide Rekeyed, SeqAt, Keyed, Through;
    FirstKey(r.reorder, got, n);
    assert 0 < |got[n]|;
    AcceptNothing(r.(reorder := r.reorder - {0}), got[n]);
    KeyedForgets(r.reorder - {0}, got, n);
    ThroughOther(got, got - {n}, parts, stream, 0, n);
  }

  lemma AcceptNothing(r: Receiver, data: seq<u8>)
    requires r.rx.Accepted(data) == 0
    ensures Accept(r, data) == r
  {
    assert r.rx.stream + data[..0] == r.rx.stream;
  }

  lemma KeyedForgets(m: map<u32, seq<u8>>, got: Received, n: nat)
    requires Keyed(m, got, n, n + 1)
    ensures Keyed(m, got - {n}, n, n)
  {
  }

  /** A write takes all of a payload or none of it. */
  predicate WholeOrNone(rx: Ring, data: seq<u8>) { rx.Accepted(data) == |data| || rx.Accepted(data) == 0 }

  /** No write of the drain loop is cut short. */
  ghost predicate DrainClean(r: Receiver)
    decreases |r.reorder|
  {
    0 in r.reorder ==>
      WholeOrNone(r.rx, r.reorder[0]) && (DrainOneShrinks(r); DrainClean(DrainOne(r)))
  }

  // Either everything received counts, or a full ring has turned the segment at n away.
  ghost predicate Kept(got: Received, n: nat, got': Received, rx: Ring) {
    got' == got || (n in got && got' == got - {n} && rx.Free() == 0)
  }

  lemma {:induction false} DrainedSettles(r: Receiver, stream: seq<u8>, parts: Parts, n: nat, got: Received)
    returns (n': nat, got': Received)
    requires Delivered(r, stream, parts, n, got) && RingSane(r.rx) && DrainClean(r)
    ensures Settled(Drained(r).0, stream, parts, n', got') && n <= n' && RingSane(Drained(r).0.rx)
    ensures Kept(got, n', got', Drained(r).0.rx)
    ensures OnlyDelivers(r, Drained(r).0)
    decreases |r.reorder|
  {
    hide DrainOne, SeqAt, Keyed, Through;
    FirstKey(r.reorder, got, n);
    if n !in got {
      n', got' := n, got;
    } else {
      DrainOneShrinks(r);
      if r.rx.Accepted(got[n]) == |got[n]| {
        DrainOneAdvances(r, stream, parts, n, got);
        n', got' := DrainedSettles(DrainOne(r), stream, parts, parts[n], got);
      } else {
        DrainOneDrops(r, stream, parts, n, got);
        n', got' := n, got - {n};
        NothingFirst((r.reorder - {0}), got', n);
        assert Drained(DrainOne(r)) == (DrainOne(r), 0);
      }
    }
  }

  lemma NothingFirst(m: map<u32, seq<u8>>, got: Received, n: nat)
    requires Keyed(m, got, n, n) && n !in got
    ensures 0 !in m
  {
    FirstKey(m, got, n);
  }

  // ---------------------------------------------------------------- arrivals

  // A segment that carries the part at position p.
  ghost predicate Carries(seg: Segment, irs: Seq, stream: seq<u8>, parts: Parts, p: nat) {
    && Disjoint(parts, stream) && p in parts
    && seg.seqNo == SeqAt(irs, p)
    && seg.payload == stream[p..parts[p]]
  }

  ghost predicate Near(a: nat, b: nat) { -TWO31 < a - b < TWO31 }

  /** No write that this arrival leads to is cut short. */
  ghost predicate CleanReceive(r: Receiver, seg: Segment) {
    seg.payload != [] && seg.seqNo == r.nxt ==>
      && WholeOrNone(r.rx, seg.payload)
      && DrainClean(Accept(r.(reorder := Rekeyed(r.reorder, r.rx.Accepted(seg.payload) % TWO32)), seg.payload))
  }

  lemma InOrderSettles(r: Receiver, stream: seq<u8>, parts: Parts, n: nat, got: Received, data: seq<u8>)
    returns (n': nat, got': Received)
    requires Settled(r, stream, parts, n, got) && n in parts && data == stream[n..parts[n]] && RingSane(r.rx)
    requires r.rx.Accepted(data) == |data|
    requires DrainClean(Accept(r.(reorder := Rekeyed(r.reorder, |data| % TWO32)), data))
    ensures |data| < TWO31
    ensures var end := Drained(Accept(r.(reorder := Rekeyed(r.reorder, |data|)), data)).0;
            && Settled(end, stream, parts, n', got') && n <= n' && RingSane(end.rx)
            && Kept(got[n := data], n', got', end.rx)
            && OnlyDelivers(r, end)
  {
    hide Rekeyed, Accept, Drained, SeqAt, Keyed, Through, DrainClean;
    var more := got[n := data];
    NoFirstKey(r.reorder, got, n, data);
    ThroughOther(got, more, parts, stream, 0, n);
    AdvanceSegment(r, r.reorder, stream, parts, n, more);
    var first := Accept(r.(reorder := Rekeyed(r.reorder, |data|)), data);
    n', got' := DrainedSettles(first, stream, parts, parts[n], more);
  }

  lemma RekeyedByZero(m: map<u32, seq<u8>>)
    ensures Rekeyed(m, 0) == m
  {
    hide Rekeyed, Add, Diff;
    forall k: u32 | k in m
      ensures k in Rekeyed(m, 0)
    {
      RekeyedDown(m, 0, k);
      ShiftByZero(k);
    }
    forall k: u32 | k in Rekeyed(m, 0)
      ensures k in m && Rekeyed(m, 0)[k] == m[k]
    {
      RekeyedUp(m, 0, k);
      ShiftByZero(k);
    }
  }

  lemma ShiftByZero(k: u32)
    ensures Add(k, 0) == k && Diff(k, 0) == k
  {
  }

  // A full ring turns an in-order segment away and nothing else happens.
  lemma InOrderTurnedAway(r: Receiver, seg: Segment, now: Time, stream: seq<u8>, parts: Parts, n: nat, got: Received)
    requires Settled(r, stream, parts, n, got) && seg.payload != [] && seg.seqNo == r.nxt
    requires r.rx.Accepted(seg.payload) == 0
    ensures var r' := Receive(r, seg, now).0;
            r' == r.(sinceAck := r'.sinceAck, delayedAck := r'.delayedAck) && r.rx.Free() == 0
  {
    hide Rekeyed, Keyed, SeqAt, Through, Accept;
    RekeyedByZero(r.reorder);
    AcceptNothing(r.(reorder := Rekeyed(r.reorder, 0)), seg.payload);
    NothingFirst(r.reorder, got, n);
  }

  lemma KeyedInsert(m: map<u32, seq<u8>>, got: Received, n: nat, p: nat, data: seq<u8>)
    requires Keyed(m, got, n, n) && n < p < n + TWO31
    ensures Keyed(m[p - n := data], got[p := data], n, n)
  {
    assert n + (p - n) == p;
  }

  lemma BufferSettles(r: Receiver, stream: seq<u8>, parts: Parts, n: nat, got: Received, p: nat, data: seq<u8>)
    requires Settled(r, stream, parts, n, got) && p in parts && data == stream[p..parts[p]]
    requires n < p < n + TWO31
    ensures Settled(r.(reorder := r.reorder[p - n := data]), stream, parts, n, got[p := data])
  {
    hide Keyed, SeqAt, Through;
    ThroughOther(got, got[p := data], parts, stream, 0, n);
    KeyedInsert(r.reorder, got, n, p, data);
  }

  lemma OldIsReceived(r: Receiver, stream: seq<u8>, parts: Parts, n: nat, got: Received, p: nat)
    requires Settled(r, stream, parts, n, got) && p in parts && p < n
    ensures p in got && got[p] == stream[p..parts[p]]
  {
    hide Keyed, SeqAt;
    ThroughBefore(got, parts, stream, 0, n, p);
  }

  // The acknowledgment bookkeeping plays no part in delivery.
  lemma SettledIgnoresAcks(r: Receiver, stream: seq<u8>, parts: Parts, n: nat, got: Received, since: nat, dl: Deadline)
    requires Settled(r, stream, parts, n, got)
    ensures Settled(r.(sinceAck := since, delayedAck := dl), stream, parts, n, got)
  {
  }

  /** Any segment of the partition, new or repeated, in or out of order,
      takes the receiver to the point the received segments now reach; a full
      ring may turn the segment at that point away, to be sent again. */
  lemma ArrivalSettles(r: Receiver, seg: Segment, now: Time, stream: seq<u8>, parts: Parts, n: nat, got: Received,
                       p: nat)
    returns (n': nat, got': Received)
    requires Settled(r, stream, parts, n, got) && Carries(seg, r.irs, stream, parts, p)
    requires Near(p, n) && RingSane(r.rx) && CleanReceive(r, seg)
    ensures var r' := Receive(r, seg, now).0;
            && Settled(r', stream, parts, n', got') && n <= n' && RingSane(r'.rx)
            && Kept(got[p := seg.payload], n', got', r'.rx)
            && OnlyDelivers(r.(sinceAck := r'.sinceAck, delayedAck := r'.delayedAck), r')
  {
    hide Delivered, SeqAt, Receive, Lt, Diff, DrainClean, Accept, Rekeyed, Drained;
    var more := got[p := seg.payload];
    NumbersAgree(r, seg, stream, parts, n, got, p);
    var r' := Receive(r, seg, now).0;
    if p == n && r.rx.Accepted(seg.payload) == 0 {
      InOrderTurnedAway(r, seg, now, stream, parts, n, got);
      SettledIgnoresAcks(r, stream, parts, n, got, r'.sinceAck, r'.delayedAck);
      assert more - {n} == got;
      n', got' := n, got;
    } else if p == n {
      n', got' := InOrderSettles(r, stream, parts, n, got, seg.payload);
      var end := Drained(Accept(r.(reorder := Rekeyed(r.reorder, |seg.payload|)), seg.payload)).0;
      SettledIgnoresAcks(end, stream, parts, n', got', r'.sinceAck, r'.delayedAck);
      ReceiveInOrder(r, seg, now);
    } else if p > n {
      BufferSettles(r, stream, parts, n, got, p, seg.payload);
      SettledIgnoresAcks(r.(reorder := r.reorder[p - n := seg.payload]), stream, parts, n, more, 0, None);
      ReceiveAhead(r, seg, now);
      n', got' := n, more;
    } else {
      OldIsReceived(r, stream, parts, n, got, p);
      ReceiveOld(r, seg, now);
      assert more == got;
      n', got' := n, got;
    }
  }

  lemma NumbersAgree(r: Receiver, seg: Segment, stream: seq<u8>, parts: Parts, n: nat, got: Received, p: nat)
    requires Settled(r, stream, parts, n, got) && Carries(seg, r.irs, stream, parts, p) && Near(p, n)
    ensures seg.payload != [] && n <= |stream|
    ensures seg.seqNo == r.nxt <==> p == n
    ensures Gt(seg.seqNo, r.nxt) <==> p > n
    ensures p > n ==> Diff(seg.seqNo, r.nxt) == p - n
  {
    SeqAtAgrees(r.irs, p, n);
  }

  // The three fates of a payload.
  lemma ReceiveInOrder(r: Receiver, seg: Segment, now: Time)
    requires seg.payload != [] && seg.seqNo == r.nxt && r.rx.Accepted(seg.payload) == |seg.payload| < TWO32
    ensures var r' := Receive(r, seg, now).0;
            var end := Drained(Accept(r.(reorder := Rekeyed(r.reorder, |seg.payload|)), seg.payload)).0;
            r' == end.(sinceAck := r'.sinceAck, delayedAck := r'.delayedAck)
  {
    hide Drained, Rekeyed, Accept;
  }

  lemma ReceiveAhead(r: Receiver, seg: Segment, now: Time)
    requires seg.payload != [] && seg.seqNo != r.nxt && Gt(seg.seqNo, r.nxt)
    ensures Receive(r, seg, now).0 ==
            r.(reorder := r.reorder[Diff(seg.seqNo, r.nxt) := seg.payload], sinceAck := 0, delayedAck := None)
  {
  }

  lemma ReceiveOld(r: Receiver, seg: Segment, now: Time)
    requires seg.seqNo != r.nxt && !Gt(seg.seqNo, r.nxt)
    ensures Receive(r, seg, now).0 == r
  {
  }

  // ---------------------------------------------------------------- writes cut short

  // A position strictly inside a segment.
  ghost predicate Inside(parts: Parts, m: nat) { exists p :: p in parts && p < m < parts[p] }

  // A write cut short leaves the delivered point inside the segment, and nothing more to drain.
  lemma CutShort(r: Receiver, m: map<u32, seq<u8>>, stream: seq<u8>, parts: Parts, n: nat, got: Received)
    requires Genuine(got, parts, stream) && n in got && r.rx.stream == stream[..n] && RingSane(r.rx) && n <= |stream|
    requires Keyed(m, got, n, n + 1) && 0 < r.rx.Accepted(got[n]) < |got[n]|
    ensures var w := r.rx.Accepted(got[n]) % TWO32;
            var a := Accept(r.(reorder := Rekeyed(m, w)), got[n]);
            && Drained(a) == (a, 0)
            && n < |a.rx.stream| < parts[n]
  {
    hide Rekeyed, Keyed, Add;
    SegmentFacts(stream, parts, n, got);
    var w := r.rx.Accepted(got[n]);
    assert w % TWO32 == w;
    var moved := Rekeyed(m, w);
    if 0 in moved {
      RekeyedUp(m, w, 0);
      KeyPast(m, got, n, |got[n]| % TWO32, Add(0, w));
      SumFromZero(w);
    }
  }

  lemma SumFromZero(w: u32)
    ensures Add(0, w) == w
  {
  }

  lemma {:induction false} ThroughOnBoundary(got: Received, parts: Parts, stream: seq<u8>, from: nat, n: nat)
    requires Disjoint(parts, stream) && Through(got, parts, stream, from, n) && !Inside(parts, from)
    ensures !Inside(parts, n)
    decreases |stream| - from
  {
    if from < n {
      forall p | p in parts
        ensures !(p < parts[from] < parts[p])
      {
      }
      ThroughOnBoundary(got, parts, stream, parts[from], n);
    }
  }

  /** The drain loop leaves RCV.NXT on a segment boundary if and only if none
      of its writes is cut short. */
  lemma {:induction false} DrainOnBoundaryExactly(r: Receiver, stream: seq<u8>, parts: Parts, n: nat, got: Received)
    requires Delivered(r, stream, parts, n, got) && RingSane(r.rx)
    ensures DrainClean(r) <==> !Inside(parts, |Drained(r).0.rx.stream|)
    decreases |r.reorder|
  {
    hide DrainOne, SeqAt, Keyed, Through, Inside;
    FirstKey(r.reorder, got, n);
    DeliveredOnBoundary(r, stream, parts, n, got);
    if n in got {
      DrainOneShrinks(r);
      if r.rx.Accepted(got[n]) == |got[n]| {
        DrainOneAdvances(r, stream, parts, n, got);
        DrainOnBoundaryExactly(DrainOne(r), stream, parts, parts[n], got);
      } else if r.rx.Accepted(got[n]) == 0 {
        DrainOneDrops(r, stream, parts, n, got);
        NothingFirst(r.reorder - {0}, got - {n}, n);
      } else {
        CutDrain(r, stream, parts, n, got);
      }
    }
  }

  lemma DeliveredOnBoundary(r: Receiver, stream: seq<u8>, parts: Parts, n: nat, got: Received)
    requires Delivered(r, stream, parts, n, got)
    ensures !Inside(parts, n) && |r.rx.stream| == n
  {
    hide Keyed, SeqAt;
    assert !Inside(parts, 0);
    ThroughOnBoundary(got, parts, stream, 0, n);
  }

  lemma CutDrain(r: Receiver, stream: seq<u8>, parts: Parts, n: nat, got: Received)
    requires Delivered(r, stream, parts, n, got) && RingSane(r.rx) && n in got
    requires 0 < r.rx.Accepted(got[n]) < |got[n]|
    ensures 0 in r.reorder && Inside(parts, |Drained(r).0.rx.stream|) && !DrainClean(r)
  {
    hide Keyed, SeqAt, Through, Rekeyed, Accept;
    FirstKey(r.reorder, got, n);
    DrainOneShrinks(r);
    CutShort(r, r.reorder - {0}, stream, parts, n, got);
    var w := r.rx.Accepted(got[n]) % TWO32;
    assert w > 0;
    assert DrainOne(r) == Accept(r.(reorder := Rekeyed(r.reorder - {0}, w)), got[n]);
    assert n < |Drained(r).0.rx.stream| < parts[n];
  }

  /** An arrival leaves RCV.NXT on a segment boundary if and only if none of
      the writes it leads to is cut short. */
  lemma ReceiveOnBoundaryExactly(r: Receiver, seg: Segment, now: Time, stream: seq<u8>, parts: Parts, n: nat,
                                 got: Received, p: nat)
    requires Settled(r, stream, parts, n, got) && Carries(seg, r.irs, stream, parts, p) && Near(p, n) && RingSane(r.rx)
    ensures CleanReceive(r, seg) <==> !Inside(parts, |Receive(r, seg, now).0.rx.stream|)
  {
    hide Delivered, SeqAt, Receive, Lt, Diff, Accept, Rekeyed, Drained, Inside, DrainClean;
    NumbersAgree(r, seg, stream, parts, n, got, p);
    DeliveredOnBoundary(r, stream, parts, n, got);
    if p > n {
      ReceiveAhead(r, seg, now);
    } else if p < n {
      ReceiveOld(r, seg, now);
    } else if r.rx.Accepted(seg.payload) == 0 {
      InOrderTurnedAway(r, seg, now, stream, parts, n, got);
      TurnedAwayClean(r, seg, stream, parts, n, got);
    } else {
      WrittenOnBoundaryExactly(r, seg, now, stream, parts, n, got);
    }
  }

  lemma TurnedAwayClean(r: Receiver, seg: Segment, stream: seq<u8>, parts: Parts, n: nat, got: Received)
    requires Settled(r, stream, parts, n, got) && r.rx.Accepted(seg.payload) == 0
    ensures CleanReceive(r, seg)
  {
    hide Rekeyed, Keyed, SeqAt, Through, Accept;
    RekeyedByZero(r.reorder);
    AcceptNothing(r.(reorder := Rekeyed(r.reorder, 0)), seg.payload);
    NothingFirst(r.reorder, got, n);
  }

  lemma WrittenOnBoundaryExactly(r: Receiver, seg: Segment, now: Time, stream: seq<u8>, parts: Parts, n: nat,
                                 got: Received)
    requires Settled(r, stream, parts, n, got) && n in parts && seg.payload == stream[n..parts[n]] && seg.seqNo == r.nxt
    requires RingSane(r.rx) && r.rx.Accepted(seg.payload) > 0
    ensures CleanReceive(r, seg) <==> !Inside(parts, |Receive(r, seg, now).0.rx.stream|)
  {
    hide SeqAt, Receive, Accept, Rekeyed, Drained, Inside, DrainClean, Keyed, Through;
    var more := got[n := seg.payload];
    var w := r.rx.Accepted(seg.payload);
    NoFirstKey(r.reorder, got, n, seg.payload);
    ThroughOther(got, more, parts, stream, 0, n);
    ReceiveWrites(r, seg, now);
    if w == |seg.payload| {
      AdvanceSegment(r, r.reorder, stream, parts, n, more);
      DrainOnBoundaryExactly(Accept(r.(reorder := Rekeyed(r.reorder, w)), seg.payload), stream, parts, parts[n], more);
    } else {
      CutShort(r, r.reorder, stream, parts, n, more);
      InsideAt(parts, n, |Receive(r, seg, now).0.rx.stream|);
    }
  }

  lemma InsideAt(parts: Parts, p: nat, m: nat)
    requires p in parts && p < m < parts[p]
    ensures Inside(parts, m)
  {
  }

  lemma ReceiveWrites(r: Receiver, seg: Segment, now: Time)
    requires seg.payload != [] && seg.seqNo == r.nxt
    ensures Receive(r, seg, now).0.rx ==
            Drained(Accept(r.(reorder := Rekeyed(r.reorder, r.rx.Accepted(seg.payload) % TWO32)), seg.payload)).0.rx
  {
    hide Drained, Rekeyed, Accept;
  }
}
