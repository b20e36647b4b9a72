/** A peer that stays within the windows it has been told never overruns the
    receive ring, so reassembly is complete and independent of arrival order. */
module WindowSafety {
  import opened Types
  import opened SeqNum
  import opened ByteRing
  import opened Congestion
  import opened Tcb
  import opened SendStream
  import opened Reassembly

  /** The right edge that a segment sent now advertises, as a stream position. */
  function Edge(r: Receiver, mss: u16): nat {
    |r.rx.stream| + AdvertisedWindow(r, mss) * Pow2(r.scale % 32)
  }

  /** The right edge of a passive opener's SYN-ACK, whose window is unscaled. */
  function HandshakeEdge(r: Receiver): nat { HandshakeWindow(r.wnd) }

  /** The advertised window always fits the free space: no edge lies beyond
      the bytes read plus the capacity. */
  lemma EdgeWithinRing(r: Receiver, mss: u16)
    requires r.rx.Valid() && r.rx.cap < TWO32
    ensures Edge(r, mss) <= r.rx.taken + r.rx.cap
  {
    hide Pow2;
    var available := r.rx.Free();
    var wnd: u32 := if available < Min(mss, (r.bufSize % TWO32) / 2) then 0 else Min(available, r.wnd);
    var w, unit := AdvertisedWindow(r, mss), Pow2(r.scale % 32);
    assert available % TWO32 == available;
    assert w == Min(wnd / unit, 0xFFFF);
    ScaledDown(wnd, unit, w);
  }

  /** Nor is space held back: below the silly-window threshold nothing is
      advertised, and above it one unit more would pass the free space, the
      window cap or the 16-bit field. */
  lemma WindowIsLargest(r: Receiver, mss: u16)
    requires r.rx.cap < TWO32
    ensures var w, unit := AdvertisedWindow(r, mss), Pow2(r.scale % 32);
            if r.rx.Free() < Min(mss, (r.bufSize % TWO32) / 2) then w == 0
            else w == 0xFFFF || Min(r.rx.Free(), r.wnd) < (w + 1) * unit
  {
    hide Pow2;
    var wnd, unit := Min(r.rx.Free(), r.wnd), Pow2(r.scale % 32);
    QuotientBelow(wnd, unit);
    assert r.rx.Free() % TWO32 == r.rx.Free();
    if r.rx.Free() >= Min(mss, (r.bufSize % TWO32) / 2) {
      assert AdvertisedWindow(r, mss) == Min(wnd / unit, 0xFFFF);
    }
  }

  lemma QuotientBelow(a: nat, b: nat)
    requires b >= 1
    ensures a < (a / b + 1) * b
  {
    var q := a / b;
    assert (q + 1) * b == q * b + b;
  }

  lemma ScaledDown(wnd: nat, unit: nat, w: nat)
    requires unit >= 1 && w <= wnd / unit
    ensures w * unit <= wnd
  {
    QuotientTimesDivisor(wnd, unit);
    var spare: nat := wnd / unit - w;
    assert spare * unit >= 0;
    assert (wnd / unit) * unit == w * unit + spare * unit;
  }

  // ---------------------------------------------------------------- runs

  /** What can happen to the receiving half: a segment of the partition
      arrives (again), the application reads, the buffer option changes. */
  datatype RxEvent =
    | Arrive(p: nat, now: Time)
    | Read(max: nat)
    | Resize(size: nat)

  ghost function Carrier(irs: Seq, stream: seq<u8>, parts: Parts, p: nat): Segment
    requires Disjoint(parts, stream) && p in parts
  {
    Segment(Addr(0, 0), Addr(0, 0), SeqAt(irs, p), 0, ACK, 0, NO_OPTIONS, stream[p..parts[p]])
  }

  ghost function After(r: Receiver, e: RxEvent, stream: seq<u8>, parts: Parts): Receiver
    requires Disjoint(parts, stream)
  {
    match e
    case Arrive(p, now) => if p in parts then Receive(r, Carrier(r.irs, stream, parts, p), now).0 else r
    case Read(max) => r.(rx := r.rx.Take(max))
    case Resize(size) => r.(bufSize := size, wnd := Min(r.wnd, size % TWO32))
  }

  ghost function Run(r: Receiver, events: seq<RxEvent>, stream: seq<u8>, parts: Parts): Receiver
    requires Disjoint(parts, stream)
    decreases |events|
  {
    if events == [] then r
    else After(Run(r, events[..|events| - 1], stream, parts), events[|events| - 1], stream, parts)
  }

  /** The segments that have arrived, whatever the order. */
  ghost function Arrived(events: seq<RxEvent>, stream: seq<u8>, parts: Parts): Received
    requires Disjoint(parts, stream)
    decreases |events|
  {
    if events == [] then map[]
    else
      var got, e := Arrived(events[..|events| - 1], stream, parts), events[|events| - 1];
      if e.Arrive? && e.p in parts then got[e.p := stream[e.p..parts[e.p]]] else got
  }

  /** Every arrival lies within half the number space of the current point
      and within some right edge advertised up to then. */
  ghost predicate Honours(r: Receiver, events: seq<RxEvent>, stream: seq<u8>, parts: Parts, mss: u16)
    requires Disjoint(parts, stream)
  {
    forall i :: 0 <= i < |events| && events[i].Arrive? ==>
      Allowed(r, events, stream, parts, mss, i, events[i].p)
  }

  ghost predicate Allowed(r: Receiver, events: seq<RxEvent>, stream: seq<u8>, parts: Parts, mss: u16, i: nat, p: nat)
    requires Disjoint(parts, stream) && i <= |events|
  {
    && p in parts
    && Near(p, |Run(r, events[..i], stream, parts).rx.stream|)
    && (|| parts[p] <= HandshakeEdge(r)
        || exists k :: 0 <= k <= i && parts[p] <= Edge(Run(r, events[..k], stream, parts), mss))
  }

  // A receiver fresh from the handshake, with the ring of an accepted connection.
  ghost predicate FreshReceiver(r: Receiver) {
    && r.nxt == SeqAt(r.irs, 0) && r.reorder == map[]
    && r.rx.stream == [] && r.rx.taken == 0
    && 0xFFFF <= r.rx.cap < TWO31
  }

  // Every received byte lies within what the application has read plus the capacity.
  ghost predicate InRoom(rx: Ring, got: Received) {
    RingSane(rx) && forall p :: p in got ==> p + |got[p]| <= rx.taken + rx.cap
  }

  /** Within that room no write of the drain loop is cut short. */
  lemma {:induction false} RoomMeansCleanDrain(r: Receiver, stream: seq<u8>, parts: Parts, n: nat, got: Received)
    requires Delivered(r, stream, parts, n, got) && InRoom(r.rx, got)
    ensures DrainClean(r)
    decreases |r.reorder|
  {
    hide DrainOne, SeqAt, Keyed, Through;
    FirstKey(r.reorder, got, n);
    if n in got {
      assert r.rx.Accepted(got[n]) == |got[n]|;
      DrainOneAdvances(r, stream, parts, n, got);
      DrainOneShrinks(r);
      RoomMeansCleanDrain(DrainOne(r), stream, parts, parts[n], got);
    }
  }

  /** ... nor of an arrival. */
  lemma RoomMeansCleanReceive(r: Receiver, seg: Segment, stream: seq<u8>, parts: Parts, n: nat, got: Received, p: nat)
    requires Settled(r, stream, parts, n, got) && Carries(seg, r.irs, stream, parts, p) && Near(p, n)
    requires InRoom(r.rx, got[p := seg.payload])
    ensures CleanReceive(r, seg)
  {
    hide SeqAt, Keyed, Through, Accept, Rekeyed, DrainClean, Diff;
    NumbersAgree(r, seg, stream, parts, n, got, p);
    if p == n {
      var more := got[n := seg.payload];
      assert more[n] == seg.payload && r.rx.Accepted(seg.payload) == |seg.payload|;
      NoFirstKey(r.reorder, got, n, seg.payload);
      ThroughOther(got, more, parts, stream, 0, n);
      AdvanceSegment(r, r.reorder, stream, parts, n, more);
      RoomMeansCleanDrain(Accept(r.(reorder := Rekeyed(r.reorder, |seg.payload|)), seg.payload),
                          stream, parts, parts[n], more);
    }
  }

  ghost predicate Good(r0: Receiver, r: Receiver, stream: seq<u8>, parts: Parts, got: Received)
  {
    && Disjoint(parts, stream)
    && Settled(r, stream, parts, Reach(got, parts, stream, 0), got)
    && InRoom(r.rx, got) && r.rx.Valid()
    && r.rx.cap == r0.rx.cap && r.irs == r0.irs
  }

  lemma {:induction false} TakenMonotone(r: Receiver, events: seq<RxEvent>, stream: seq<u8>, parts: Parts, k: nat)
    requires Disjoint(parts, stream) && k <= |events|
    ensures Run(r, events[..k], stream, parts).rx.taken <= Run(r, events, stream, parts).rx.taken
    decreases |events|
  {
    if k == |events| {
      assert events[..k] == events;
    } else {
      var front := events[..|events| - 1];
      TakenMonotone(r, front, stream, parts, k);
      assert front[..k] == events[..k];
      AfterTaken(Run(r, front, stream, parts), events[|events| - 1], stream, parts);
    }
  }

  lemma AfterTaken(r: Receiver, e: RxEvent, stream: seq<u8>, parts: Parts)
    requires Disjoint(parts, stream)
    ensures r.rx.taken <= After(r, e, stream, parts).rx.taken
  {
    if e.Arrive? && e.p in parts {
      ReceiveKeepsTaken(r, Carrier(r.irs, stream, parts, e.p), e.now);
    }
  }

  lemma {:induction false} DrainedKeepsTaken(r: Receiver)
    ensures Drained(r).0.rx.taken == r.rx.taken
    decreases |r.reorder|
  {
    if 0 in r.reorder {
      DrainOneShrinks(r);
      DrainedKeepsTaken(DrainOne(r));
    }
  }

  lemma ReceiveKeepsTaken(r: Receiver, seg: Segment, now: Time)
    ensures Receive(r, seg, now).0.rx.taken == r.rx.taken
  {
    var w := r.rx.Accepted(seg.payload) % TWO32;
    DrainedKeepsTaken(Accept(r.(reorder := Rekeyed(r.reorder, w)), seg.payload));
  }

  lemma ArrivalGood(r0: Receiver, r: Receiver, e: RxEvent, stream: seq<u8>, parts: Parts, got: Received)
    requires Good(r0, r, stream, parts, got) && e.Arrive? && e.p in parts
    requires Near(e.p, |r.rx.stream|) && parts[e.p] <= r.rx.taken + r.rx.cap
    ensures Good(r0, After(r, e, stream, parts), stream, parts, got[e.p := stream[e.p..parts[e.p]]])
  {
    hide Receive, Keyed, SeqAt, Through, CleanReceive;
    var n := Reach(got, parts, stream, 0);
    SettledReach(r, stream, parts, n, got);
    var seg := Carrier(r.irs, stream, parts, e.p);
    var more := got[e.p := seg.payload];
    RoomMeansCleanReceive(r, seg, stream, parts, n, got, e.p);
    var n', got' := ArrivalSettles(r, seg, e.now, stream, parts, n, got, e.p);
    var r' := Receive(r, seg, e.now).0;
    SettledReach(r', stream, parts, n', got');
    assert InRoom(r'.rx, more);
    NothingTurnedAway(r'.rx, stream, parts, more, n', got');
    ReachInRoom(r'.rx, more, parts, stream, 0);
  }

  // With room for everything received, the ring is not full where something is missing.
  lemma NothingTurnedAway(rx: Ring, stream: seq<u8>, parts: Parts, got: Received, n: nat, got': Received)
    requires InRoom(rx, got) && Genuine(got, parts, stream) && |rx.stream| == n && Kept(got, n, got', rx)
    ensures got' == got
  {
    if n in got {
      assert |got[n]| > 0;
    }
  }

  // What the received segments reach lies within the room they were received in.
  lemma {:induction false} ReachInRoom(rx: Ring, got: Received, parts: Parts, stream: seq<u8>, from: nat)
    requires InRoom(rx, got) && Genuine(got, parts, stream) && from <= rx.taken + rx.cap
    ensures Reach(got, parts, stream, from) <= rx.taken + rx.cap
    decreases |stream| - from
  {
    if from in got {
      ReachInRoom(rx, got, parts, stream, parts[from]);
    }
  }

  lemma QuietGood(r0: Receiver, r: Receiver, e: RxEvent, stream: seq<u8>, parts: Parts, got: Received)
    requires Good(r0, r, stream, parts, got) && !e.Arrive?
    ensures Good(r0, After(r, e, stream, parts), stream, parts, got)
  {
    hide Keyed, SeqAt, Through;
  }

  lemma FreshGood(r: Receiver, stream: seq<u8>, parts: Parts)
    requires Disjoint(parts, stream) && FreshReceiver(r)
    ensures Good(r, r, stream, parts, map[])
  {
  }

  lemma {:induction false} RunGood(r: Receiver, events: seq<RxEvent>, stream: seq<u8>, parts: Parts, mss: u16)
    requires Disjoint(parts, stream) && FreshReceiver(r) && Honours(r, events, stream, parts, mss)
    ensures Good(r, Run(r, events, stream, parts), stream, parts, Arrived(events, stream, parts))
    decreases |events|, 1
  {
    hide Settled, InRoom, FreshReceiver, Edge, Reach, After;
    if events == [] {
      FreshGood(r, stream, parts);
    } else {
      var last := |events| - 1;
      var front := events[..last];
      HonoursPrefix(r, events, stream, parts, mss, last);
      RunGood(r, front, stream, parts, mss);
      if events[last].Arrive? {
        assert Allowed(r, events, stream, parts, mss, last, events[last].p);
        EndInRoom(r, events, stream, parts, mss, events[last].p);
        ArrivalGood(r, Run(r, front, stream, parts), events[last], stream, parts, Arrived(front, stream, parts));
      } else {
        QuietGood(r, Run(r, front, stream, parts), events[last], stream, parts, Arrived(front, stream, parts));
      }
    }
  }

  lemma HonoursPrefix(r: Receiver, events: seq<RxEvent>, stream: seq<u8>, parts: Parts, mss: u16, m: nat)
    requires Disjoint(parts, stream) && m <= |events| && Honours(r, events, stream, parts, mss)
    ensures Honours(r, events[..m], stream, parts, mss)
  {
    hide Run, Edge;
    var front := events[..m];
    forall i | 0 <= i < |front| && front[i].Arrive?
      ensures Allowed(r, front, stream, parts, mss, i, front[i].p)
    {
      assert Allowed(r, events, stream, parts, mss, i, events[i].p);
      assert forall k :: 0 <= k <= i ==> front[..k] == events[..k];
    }
  }

  /** An honoured segment ends within the bytes read plus the capacity. */
  lemma EndInRoom(r: Receiver, events: seq<RxEvent>, stream: seq<u8>, parts: Parts, mss: u16, p: nat)
    requires Disjoint(parts, stream) && FreshReceiver(r) && events != [] && Honours(r, events, stream, parts, mss)
    requires Allowed(r, events, stream, parts, mss, |events| - 1, p)
    ensures parts[p] <= Run(r, events[..|events| - 1], stream, parts).rx.taken + r.rx.cap
    decreases |events|, 0
  {
    hide Run, Edge, Settled, Reach, Arrived;
    var last := |events| - 1;
    if parts[p] > HandshakeEdge(r) {
      var k :| 0 <= k <= last && parts[p] <= Edge(Run(r, events[..k], stream, parts), mss);
      HonoursPrefix(r, events, stream, parts, mss, k);
      RunGood(r, events[..k], stream, parts, mss);
      EdgeWithinRing(Run(r, events[..k], stream, parts), mss);
      TakenMonotone(r, events[..last], stream, parts, k);
      assert events[..last][..k] == events[..k];
    } else {
      assert parts[p] <= r.rx.cap;
    }
  }

  /** For every arrival order, with repeats: the application has been handed
      exactly the longest gapless prefix of what arrived, nothing was
      dropped for lack of room, and the reorder buffer holds exactly the
      rest, each segment under its nonzero distance from RCV.NXT. */
  lemma ReassemblyIsComplete(r: Receiver, events: seq<RxEvent>, stream: seq<u8>, parts: Parts, mss: u16)
    requires Disjoint(parts, stream) && FreshReceiver(r) && Honours(r, events, stream, parts, mss)
    ensures var got, end := Arrived(events, stream, parts), Run(r, events, stream, parts);
            var n := Reach(got, parts, stream, 0);
            && n <= |stream|
            && end.rx.stream == stream[..n]
            && end.nxt == SeqAt(r.irs, n)
            && end.rx.Valid()
            && Keyed(end.reorder, got, n, n + 1)
  {
    hide Run, Reach, Arrived, SeqAt, Keyed, FreshReceiver, Honours, InRoom;
    RunGood(r, events, stream, parts, mss);
    var got := Arrived(events, stream, parts);
    NothingAtReach(Run(r, events, stream, parts).reorder, got, Reach(got, parts, stream, 0));
  }

  lemma NothingAtReach(m: map<u32, seq<u8>>, got: Received, n: nat)
    requires Keyed(m, got, n, n) && n !in got
    ensures Keyed(m, got, n, n + 1)
  {
  }

  /** Two runs that received the same segments delivered the same bytes and
      hold the same rest. */
  lemma OrderDoesNotMatter(r: Receiver, a: seq<RxEvent>, b: seq<RxEvent>, stream: seq<u8>, parts: Parts, mss: u16)
    requires Disjoint(parts, stream) && FreshReceiver(r)
    requires Honours(r, a, stream, parts, mss) && Honours(r, b, stream, parts, mss)
    requires Arrived(a, stream, parts) == Arrived(b, stream, parts)
    ensures Run(r, a, stream, parts).rx.stream == Run(r, b, stream, parts).rx.stream
    ensures Run(r, a, stream, parts).reorder == Run(r, b, stream, parts).reorder
  {
    hide Run, Reach, Arrived, SeqAt, Honours, Keyed, FreshReceiver, Disjoint;
    ReassemblyIsComplete(r, a, stream, parts, mss);
    ReassemblyIsComplete(r, b, stream, parts, mss);
    var got := Arrived(a, stream, parts);
    var n := Reach(got, parts, stream, 0);
    KeyedUnique(Run(r, a, stream, parts).reorder, Run(r, b, stream, parts).reorder, got, n);
  }

  lemma KeyedUnique(m1: map<u32, seq<u8>>, m2: map<u32, seq<u8>>, got: Received, n: nat)
    requires Keyed(m1, got, n, n + 1) && Keyed(m2, got, n, n + 1)
    ensures m1 == m2
  {
    forall k: u32 | k in m1
      ensures k in m2 && m1[k] == m2[k]
    {
      assert n + k - n == k;
    }
    forall k: u32 | k in m2
      ensures k in m1
    {
      assert n + k - n == k;
    }
  }
}
