/** How much the transmit phase sends, in which segments, and what keeps the
    rest from waiting for ever. */
module Transmission {
  import opened Types
  import opened SeqNum
  import opened Congestion
  import opened Tcb
  import opened SendStream
  import opened Lifecycle
  import opened Timers

  // ---------------------------------------------------------------- one segment

  lemma AdvancedFlight(nxt: Seq, una: Seq, len: nat)
    requires Diff(nxt, una) + len <= U32_MAX
    ensures Diff(Add(nxt, len), una) == Diff(nxt, una) + len
  {
  }

  // A segment uses up as much of the window as of the unsent bytes.
  lemma SendNextUses(s: Sender, now: Time)
    requires CanSend(s)
    ensures var len, t := NextLen(s), SendNext(s, now);
            && 1 <= len <= SendMss(s) && |NextPayload(s)| == len
            && len <= Unsent(s) && len <= AvailableWindow(s)
            && (len == SendMss(s) || len == Unsent(s) || len == AvailableWindow(s))
            && Unsent(t) == Unsent(s) - len && AvailableWindow(t) == AvailableWindow(s) - len
            && t.hasUnacked && t.nodelay == s.nodelay && SendMss(t) == SendMss(s)
  {
    hide Diff, Add;
    AdvancedFlight(s.nxt, s.una, NextLen(s));
  }

  function Total(sent: seq<(Seq, seq<u8>)>): nat {
    if sent == [] then 0 else |sent[0].1| + Total(sent[1..])
  }

  // ---------------------------------------------------------------- the loop

  /** Segments are never empty and never above the segment size, and only the
      last of a burst may be smaller. */
  lemma {:induction false} SegmentsAreFull(s: Sender, now: Time, i: nat)
    requires i < |SendAll(s, now).1|
    ensures var sent := SendAll(s, now).1;
            && 1 <= |sent[i].1| <= SendMss(s)
            && (i + 1 < |sent| ==> |sent[i].1| == SendMss(s))
    decreases Unsent(s)
  {
    hide NextLen, NextPayload, SendNext, Unsent, AvailableWindow, SendMss;
    SendNextUses(s, now);
    var t := SendNext(s, now);
    var rest := SendAll(t, now).1;
    assert SendAll(s, now).1 == [(s.nxt, NextPayload(s))] + rest;
    if i > 0 {
      SegmentsAreFull(t, now, i - 1);
      assert SendAll(s, now).1[i] == rest[i - 1];
    }
  }

  /** No segment is larger than either end allows. */
  lemma SegmentsFitBothEnds(s: Sender, now: Time, i: nat)
    requires i < |SendAll(s, now).1|
    ensures |SendAll(s, now).1[i].1| <= s.localMss && |SendAll(s, now).1[i].1| <= s.peerMss
  {
    hide SendAll;
    SegmentsAreFull(s, now, i);
  }

  /** What is sent leaves the unsent bytes and the window together, and the
      loop ends only when one of them is used up or Nagle's rule holds back
      less than a segment behind data in flight. */
  lemma {:induction false} SendAllUses(s: Sender, now: Time)
    ensures var (end, sent) := SendAll(s, now);
            && Total(sent) <= Unsent(s) && Total(sent) <= AvailableWindow(s)
            && Unsent(end) == Unsent(s) - Total(sent) && AvailableWindow(end) == AvailableWindow(s) - Total(sent)
            && end.nodelay == s.nodelay && SendMss(end) == SendMss(s)
            && (sent != [] ==> end.hasUnacked) && (sent == [] ==> end == s)
    decreases Unsent(s)
  {
    hide NextLen, NextPayload, SendNext, Unsent, AvailableWindow, SendMss;
    if CanSend(s) {
      SendNextUses(s, now);
      SendAllUses(SendNext(s, now), now);
      var rest := SendAll(SendNext(s, now), now).1;
      var all := [(s.nxt, NextPayload(s))] + rest;
      assert all[1..] == rest;
      assert SendAll(s, now).1 == all;
    }
  }

  lemma {:induction false} SendAllStuck(s: Sender, now: Time)
    ensures !CanSend(SendAll(s, now).0)
    decreases Unsent(s)
  {
    hide NextLen, NextPayload, SendNext, Unsent, AvailableWindow, CanSend;
    if CanSend(s) {
      UnsentShrinks(s, now);
      SendAllStuck(SendNext(s, now), now);
    }
  }

  /** Without Nagle's rule the loop sends exactly what the data and the two
      windows allow; with it, that much or less by a part of a segment held
      back behind data in flight. */
  lemma SendsExactly(s: Sender, now: Time)
    requires SendMss(s) >= 1
    ensures var (end, sent) := SendAll(s, now);
            var allowed := Min(Unsent(s), AvailableWindow(s));
            && Total(sent) <= allowed
            && (s.nodelay ==> Total(sent) == allowed)
            && (Total(sent) < allowed ==> !s.nodelay && end.hasUnacked && 0 < Unsent(end) < SendMss(s))
  {
    hide SendAll, AvailableWindow, SentOffset, SendMss;
    SendAllUses(s, now);
    SendAllStuck(s, now);
    var end := SendAll(s, now).0;
    if AvailableWindow(end) > 0 && Unsent(end) > 0 {
      UnsentMeansBuffered(end);
    }
  }

  lemma UnsentMeansBuffered(s: Sender)
    requires Unsent(s) > 0
    ensures s.buf != []
  {
  }

  /** The law of the sliding window: with Nagle's rule off, the loop sends up
      to SND.UNA plus the smaller of the two windows, or to the last byte
      written, whichever comes first, and never takes anything back. */
  lemma SlidingWindowIsFilled(s: Sender, now: Time, cuts: seq<nat>, base: nat, u: nat) returns (cuts': seq<nat>)
    requires TracksFrom(s, cuts, base, u) && SendMss(s) >= 1 && s.nodelay
    ensures cuts <= cuts' && TracksFrom(SendAll(s, now).0, cuts', base, u)
    ensures Last(cuts') == Max(Last(cuts), Min(s.tx.taken, cuts[u] + Min(s.cong.cwnd, s.wnd)))
  {
    hide SendAll, TracksFrom, SentAs, Partition;
    cuts' := SendAllTracks(s, now, cuts, base, u);
    var end := SendAll(s, now).0;
    SendAllFrame(s, now);
    TracksBoundaries(s, cuts, base, u);
    TracksBoundaries(end, cuts', base, u);
    TracksBasics(s, cuts, base, u);
    TracksBasics(end, cuts', base, u);
    SendsExactly(s, now);
    SendAllUses(s, now);
  }

  // ---------------------------------------------------------------- Nagle's rule

  /** Less than a segment waits while anything is in flight. */
  lemma NagleHolds(s: Sender, now: Time)
    requires !s.nodelay && s.hasUnacked && Unsent(s) < SendMss(s)
    ensures SendAll(s, now) == (s, [])
  {
  }

  /** A segment smaller than the segment size leaves only with Nagle's rule
      off, with the window used up, or alone with nothing in flight. */
  lemma {:induction false} SmallSegmentsOnlyAlone(s: Sender, now: Time)
    requires SendAll(s, now).1 != [] && !s.nodelay
    ensures var (end, sent) := SendAll(s, now);
            |sent[|sent| - 1].1| < SendMss(s) ==> AvailableWindow(end) == 0 || (|sent| == 1 && !s.hasUnacked)
    decreases Unsent(s)
  {
    hide NextPayload, SendNext, Unsent, AvailableWindow, SendMss;
    SendNextUses(s, now);
    var t := SendNext(s, now);
    var rest := SendAll(t, now).1;
    var all := [(s.nxt, NextPayload(s))] + rest;
    assert SendAll(s, now).1 == all;
    if rest != [] {
      SmallSegmentsOnlyAlone(t, now);
      assert all[|all| - 1] == rest[|rest| - 1];
    } else {
      SendAllUses(t, now);
      assert SendAll(t, now).0 == t;
    }
  }

  // ---------------------------------------------------------------- nothing waits for ever

  /** After the transmit phase the persist timer runs exactly if it must: it is
      armed when unsent bytes face a closed window and stopped when the window
      is open. */
  lemma PersistRunsWhenBlocked(s: Sender, now: Time)
    ensures var t := PersistTimer(s, now);
            && (AvailableWindow(s) > 0 ==> t.persist == None)
            && (AvailableWindow(s) > 0 && s.persist.Some? ==> t.persistBackoff == 1_000_000_000)
            && (AvailableWindow(s) > 0 && s.persist.None? ==> t == s)
            && (AvailableWindow(s) == 0 && Unsent(s) > 0 ==> t.persist.Some?)
            && (AvailableWindow(s) == 0 && s.persist.Some? ==> t == s)
            && (AvailableWindow(s) == 0 && Unsent(s) > 0 && s.persist.None? ==>
                  t.persist == Some(now + s.cong.rto) && t.persistBackoff == s.cong.rto)
            && (AvailableWindow(s) == 0 && Unsent(s) == 0 ==> t == s)
            && t == s.(persist := t.persist, persistBackoff := t.persistBackoff)
  {
    hide Diff;
  }

  // A timer will serve the unsent bytes, or an acknowledgment of data in flight will.
  predicate Awaited(s: Sender) { s.persist.Some? || (s.queue != [] && s.rto.Some?) }

  // The state after the transmit phase, before any FIN.
  function Transmitted(c: Connection, now: Time): Sender { PersistTimer(SendAll(DrainTx(c.snd), now).0, now) }

  lemma TransmitLeaves(c: Connection, now: Time)
    requires c.state == Established || c.state == CloseWait
    ensures var t, o := Transmitted(c, now), Transmit(c, now);
            && o.Keep? && (o.conn.state != c.state <==> t.finPending && Unsent(t) == 0)
            && (o.conn.state == c.state ==> o.conn.snd == t)
            && (o.conn.state != c.state ==> SentFin(o.conn.state))
  {
    hide SendAll, Frames, Unsent, PersistTimer, Emit, Add, ArmKeepalive;
    SendAllFrame(DrainTx(c.snd), now);
    PersistTimerShape(SendAll(DrainTx(c.snd), now).0, now);
  }

  /** The exact condition for a silent stall, in ESTABLISHED and CLOSE_WAIT:
      bytes stay unsent with no timer to serve them if and only if Nagle's
      latch still says that data is in flight when none is. */
  lemma StallsExactly(c: Connection, now: Time)
    requires (c.state == Established || c.state == CloseWait) && SendMss(c.snd) >= 1 && Armed(c)
    ensures var t := Transmitted(c, now);
            Unsent(t) > 0 && !Awaited(t) <==>
              !t.nodelay && t.hasUnacked && t.queue == [] && 0 < Unsent(t) < SendMss(t) && AvailableWindow(t) > 0
  {
    hide SendAll, DrainTx, Unsent, AvailableWindow, PersistTimer, SendMss;
    var start := DrainTx(c.snd);
    var (end, sent) := SendAll(start, now);
    DrainTxTimers(c.snd);
    SameMss(c.snd);
    SendAllArms(start, now);
    SendAllUses(start, now);
    SendsExactly(start, now);
    PersistRunsWhenBlocked(end, now);
    SameSizes(end, PersistTimer(end, now));
  }

  lemma SameMss(s: Sender)
    ensures SendMss(DrainTx(s)) == SendMss(s)
  {
  }

  lemma SameSizes(s: Sender, t: Sender)
    requires t == s.(persist := t.persist, persistBackoff := t.persistBackoff)
    ensures Unsent(t) == Unsent(s) && SendMss(t) == SendMss(s) && AvailableWindow(t) == AvailableWindow(s)
  {
  }

  /** In ESTABLISHED that never happens: Nagle's latch follows the queue, so
      bytes left unsent always have a timer. */
  lemma EstablishedNeverStalls(c: Connection, now: Time)
    requires c.state == Established && SendMss(c.snd) >= 1 && Armed(c) && Latched(c.snd)
    ensures Unsent(Transmitted(c, now)) > 0 ==> Awaited(Transmitted(c, now))
  {
    hide SendAll, DrainTx, Unsent, AvailableWindow, PersistTimer, SendMss;
    StallsExactly(c, now);
    DrainTxFrame(c.snd);
    SendAllLatched(DrainTx(c.snd), now);
    PersistTimerShape(SendAll(DrainTx(c.snd), now).0, now);
  }

  // A peer in CLOSE_WAIT whose four bytes have been acknowledged, with Nagle's rule on.
  function SampleStalled(): Connection {
    var c := SampleCloseWait();
    c.(snd := c.snd.(nodelay := false, una := 5, queue := []))
  }

  lemma SampleStalledIsReached(now: Time)
    ensures var c := SampleCloseWait().(snd := SampleSender().(nodelay := false));
            var d := OnSegment(c, SampleAck(), now);
            d.Keep? && d.conn == SampleStalled().(snd := SampleStalled().snd.(cong := d.conn.snd.cong))
  {
    hide AfterAck;
    var q := SampleSender().queue;
    assert q[1..] == [];
    assert Retained(q, 5) == [];
  }

  /** In CLOSE_WAIT it does: after an acknowledgment of everything, what is in
      the buffer waits for ever, with no timer and no data in flight. */
  lemma CloseWaitStalls(now: Time)
    ensures var t := Transmitted(SampleStalled(), now);
            Armed(SampleStalled()) && Unsent(t) == 4 && !Awaited(t) && !CanSend(t)
  {
    var c := SampleStalled();
    var s := DrainTx(c.snd);
    assert s.buf == [1, 2, 3, 4];
    NagleHolds(s, now);
    assert SendAll(s, now).0 == s;
  }

  // ---------------------------------------------------------------- addresses

  ghost predicate Addressed(out: seq<Segment>, key: FourTuple) {
    forall i :: 0 <= i < |out| ==>
      out[i].src == key.local && out[i].dst == key.remote && out[i].options == NO_OPTIONS && !Has(out[i].flags, SYN)
  }

  lemma EmitAddressed(c: Connection, seqNo: Seq, flags: u8, payload: seq<u8>)
    requires flags in {ACK, FIN + ACK, RST + ACK}
    ensures Addressed([Emit(c, seqNo, flags, payload)], c.key)
  {
    hide AdvertisedWindow;
  }

  lemma FramesAddressed(c: Connection, sent: seq<(Seq, seq<u8>)>)
    ensures Addressed(Frames(c, sent), c.key)
  {
    hide AdvertisedWindow, Frames;
  }

  lemma TransmitAddressed(c: Connection, now: Time)
    requires c.state == Established || c.state == CloseWait
    ensures Transmit(c, now).Keep? && Addressed(Transmit(c, now).out, c.key)
  {
    hide SendAll, Unsent, Frames, PersistTimer, DrainTx, ArmKeepalive, Emit, Add, Addressed;
    var (s, pieces) := SendAll(DrainTx(c.snd), now);
    var d := c.(snd := PersistTimer(s, now), keepalive := ArmKeepalive(c, now));
    FramesAddressed(c, pieces);
    var e := d.(snd := d.snd.(finPending := false));
    EmitAddressed(e, e.snd.nxt, FIN + ACK, []);
    BothAddressed(Frames(c, pieces), [Emit(e, e.snd.nxt, FIN + ACK, [])], c.key);
  }

  lemma BothAddressed(a: seq<Segment>, b: seq<Segment>, key: FourTuple)
    requires Addressed(a, key) && Addressed(b, key)
    ensures Addressed(a + b, key)
  {
    hide Has;
  }

  lemma NoneAddressed(key: FourTuple)
    ensures Addressed([], key)
  {
  }

  lemma RtoAddressed(c: Connection, now: Time, maxRetries: nat)
    requires c.snd.queue != []
    ensures Addressed(OnRtoFired(c, now, maxRetries).out, c.key)
  {
    hide AdvertisedWindow, OldestPayload, Addressed;
    NoneAddressed(c.key);
    var o := OnRtoFired(c, now, maxRetries);
    if o.out != [] {
      OneAddressed(o.out[0], c.key);
      assert o.out == [o.out[0]];
    }
  }

  lemma TickAddressed(c: Connection, now: Time, maxRetries: nat)
    ensures Addressed(OnTick(c, now, maxRetries).out, c.key)
  {
    hide Transmit, Emit, Addressed, OldestPayload, Due, Add;
    NoneAddressed(c.key);
    if Expired(c, now) {
    } else if RtoFires(c, now) {
      RtoAddressed(c, now, maxRetries);
    } else if PersistFires(c, now) {
      EmitAddressed(c, Add(c.snd.una, FlightSize(c.snd)), ACK, [0]);
    } else if KeepaliveFires(c, now) {
      EmitAddressed(c, Add(c.snd.una, U32_MAX), ACK, []);
    } else {
      var (d, acks) := FireDelayedAck(c, now);
      EmitAddressed(d, d.snd.nxt, ACK, []);
      if d.state == Established || d.state == CloseWait {
        TransmitAddressed(d, now);
        BothAddressed(acks, Transmit(d, now).out, c.key);
      }
    }
  }

  lemma InboundAddressed(c: Connection, seg: Segment, now: Time)
    ensures Addressed(OnSegment(c, seg, now).out, c.key)
  {
    hide Receive, Acknowledge, UpdateWindow, AcknowledgeOnly, AcceptInOrder, FinInOrder, AcksEverything,
      AdvertisedWindow, Add, TouchKeepalive, Has, Addressed, InWindow, ShiftLeft, New;
    var o := OnSegment(c, seg, now);
    NoneAddressed(c.key);
    assert |o.out| <= 1;
    if o.out != [] {
      var x := o.out[0];
      assert x.src == c.key.local && x.dst == c.key.remote && x.options == NO_OPTIONS && x.flags == ACK;
      OneAddressed(x, c.key);
      assert o.out == [x];
    }
  }

  lemma OneAddressed(x: Segment, key: FourTuple)
    requires x.src == key.local && x.dst == key.remote && x.options == NO_OPTIONS
    requires x.flags in {ACK, FIN + ACK, RST + ACK}
    ensures Addressed([x], key)
  {
  }

  /** Everything a connection ever sends goes from its own address to its
      peer's, without options. */
  lemma EverySegmentIsAddressed(c: Connection, e: Event, now: Time, maxRetries: nat)
    ensures Addressed(Step(c, e, now, maxRetries).out, c.key)
  {
    hide OnSegment, OnTick, DrainTx, Unsent, AdvertisedWindow, Add, Addressed;
    NoneAddressed(c.key);
    if e.Inbound? {
      InboundAddressed(c, e.seg, now);
    } else if e.Tick? {
      TickAddressed(c, now, maxRetries);
    } else if Step(c, e, now, maxRetries).out != [] {
      var x := Step(c, e, now, maxRetries).out[0];
      OneAddressed(x, c.key);
      assert Step(c, e, now, maxRetries).out == [x];
    }
  }
}
