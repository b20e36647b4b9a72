/** What every connection keeps, whatever segments arrive and whatever the
    application and the clock do. */
module Lifecycle {
  import opened Types
  import opened SeqNum
  import opened Congestion
  import opened Tcb
  import opened SendStream

  // A peer may not offer a window scale above 14 (section 2.3 of RFC 7323).
  predicate ScaleLegal(e: Event) {
    e.Inbound? && e.seg.options.windowScale.Some? ==> e.seg.options.windowScale.value <= 14
  }

  // ---------------------------------------------------------------- the state diagram

  /** The edges of section 3.3.2 of RFC 9293 between states of one connection. */
  predicate DiagramEdge(s: TcpState, t: TcpState) {
    match s
    case SynSent => t == Established || t == SynReceived
    case SynReceived => t == Established || t == FinWait1
    case Established => t == FinWait1 || t == CloseWait
    case FinWait1 => t == FinWait2 || t == Closing || t == TimeWait
    case FinWait2 => t == TimeWait
    case CloseWait => t == LastAck
    case Closing => t == TimeWait
    case LastAck => t == Closed
    case TimeWait => t == Closed
    case Closed => t == Listen || t == SynSent
    case Listen => t == SynSent || t == SynReceived || t == Closed
  }

  lemma StepFollowsDiagram(c: Connection, e: Event, now: Time, maxRetries: nat)
    ensures var o := Step(c, e, now, maxRetries);
            o.Keep? ==> o.conn.state == c.state || DiagramEdge(c.state, o.conn.state)
  {
    hide Acknowledge, AcknowledgeOnly, UpdateWindow, Receive, Accept, SendAll, DrainTx, AdvertisedWindow, Emit, Frames;
  }

  /** A connection is removed only along an edge to CLOSED, when FIN_WAIT_2
      times out, or with an error the application can see. */
  lemma RemovalIsGracefulOrReported(c: Connection, e: Event, now: Time, maxRetries: nat)
    ensures var o := Step(c, e, now, maxRetries);
            o.Drop? ==>
              && o.last.state == Closed
              && (o.last.error.Some? || DiagramEdge(c.state, Closed) || (c.state == FinWait2 && Due(c.finWait2, now)))
  {
    hide Acknowledge, AcknowledgeOnly, UpdateWindow, Receive, Accept, Transmit, DrainTx, AdvertisedWindow, Emit, Frames,
      AfterTimeout, AfterBackoff, OldestPayload, Unsent;
  }

  /** A reset ends a synchronized connection exactly when it names RCV.NXT;
      elsewhere in the window it draws a challenge ACK of RCV.NXT and
      changes nothing, and outside the window it does nothing at all. */
  lemma ResetOnlyAtRcvNxt(c: Connection, seg: Segment, now: Time)
    requires Synchronized(c.state) && Has(seg.flags, RST)
    ensures var o := OnSegment(c, seg, now);
            && (o.Drop? <==> seg.seqNo == c.rcv.nxt)
            && (o.Drop? ==> o.last.state == Closed && o.last.eof && o.last.error.Some? && o.out == [])
            && (o.Keep? ==> o.conn == c && (o.out == [] || o.out == [PlainAck(c)]))
            && (o.Keep? ==> (o.out != [] <==> InWindow(seg.seqNo, c.rcv.nxt, c.rcv.wnd)))
  {
  }

  /** The window test is membership of an interval of stream positions. */
  lemma InWindowIsInterval(x: int, nxt: int, wnd: nat)
    requires wnd < TWO31 && -TWO31 < x - nxt < TWO31
    ensures InWindow(Wrap(x), Wrap(nxt), wnd) <==> x == nxt || nxt <= x < nxt + wnd
  {
    AgreesWithPositions(x, nxt);
    AddOfWrap(nxt, wnd);
    InRangeIsInterval(x, nxt, wnd);
  }

  // ---------------------------------------------------------------- handle and deadlines

  /** The application's view mirrors the state, and the two waiting states
      have their deadline armed. */
  ghost predicate Mirrored(c: Connection) {
    && c.handle.state == c.state
    && c.state != Closed && c.state != Listen
    && (c.state == TimeWait ==> c.timeWait.Some?)
    && (c.state == FinWait2 ==> c.finWait2.Some?)
  }

  lemma InboundMirrored(c: Connection, seg: Segment, now: Time)
    requires Mirrored(c)
    ensures var o := OnSegment(c, seg, now);
            if o.Keep? then Mirrored(o.conn) else o.last.state == Closed
  {
    hide Acknowledge, AcknowledgeOnly, UpdateWindow, Receive, Accept, Emit, ShiftLeft, New, Has, Add, InWindow, FinSeq;
  }

  lemma TransmitMirrored(c: Connection, now: Time)
    requires Mirrored(c)
    ensures Transmit(c, now).Keep? && Mirrored(Transmit(c, now).conn)
  {
    hide SendAll, DrainTx, Emit, Frames, PersistTimer, Unsent, Add, ArmKeepalive;
  }

  lemma TickMirrored(c: Connection, now: Time, maxRetries: nat)
    requires Mirrored(c)
    ensures var o := OnTick(c, now, maxRetries);
            if o.Keep? then Mirrored(o.conn) else o.last.state == Closed
  {
    hide Transmit, Emit, AfterTimeout, AfterBackoff, OldestPayload, FlightSize, SendMss, Due;
    TransmitMirrored(FireDelayedAck(c, now).0, now);
  }

  lemma StepMirrored(c: Connection, e: Event, now: Time, maxRetries: nat)
    requires Mirrored(c)
    ensures var o := Step(c, e, now, maxRetries);
            if o.Keep? then Mirrored(o.conn) else o.last.state == Closed
  {
    hide OnSegment, OnTick, DrainTx, Emit, Unsent, Add;
    if e.Inbound? {
      InboundMirrored(c, e.seg, now);
    } else if e.Tick? {
      TickMirrored(c, now, maxRetries);
    }
  }

  /** The first tick at or past the deadline releases a waiting connection. */
  lemma WaitingStatesExpire(c: Connection, now: Time, maxRetries: nat)
    requires Mirrored(c) && (c.state == TimeWait || c.state == FinWait2)
    ensures var deadline := if c.state == TimeWait then c.timeWait.value else c.finWait2.value;
            now >= deadline ==> OnTick(c, now, maxRetries) == Drop(c.handle.(state := Closed, eof := true), [])
  {
    hide OnRtoFired, OnPersistFired, OnKeepaliveFired, Transmit;
  }

  // ---------------------------------------------------------------- delayed acknowledgments

  /** At most one segment is unacknowledged, and then the timer runs. */
  ghost predicate AckPaced(r: Receiver) {
    r.sinceAck <= 1 && (r.sinceAck == 1 <==> r.delayedAck.Some?)
  }

  lemma {:induction false} DrainedKeepsPacing(r: Receiver)
    ensures Drained(r).0.sinceAck == r.sinceAck && Drained(r).0.delayedAck == r.delayedAck
    ensures Drained(r).0.irs == r.irs
    decreases |r.reorder|
  {
    if 0 in r.reorder {
      DrainOneShrinks(r);
      DrainedKeepsPacing(DrainOne(r));
    }
  }

  lemma ReceivePaced(r: Receiver, seg: Segment, now: Time)
    requires AckPaced(r)
    ensures AckPaced(Receive(r, seg, now).0)
  {
    hide Drained, Rekeyed, Accept;
    if seg.payload != [] && seg.seqNo == r.nxt {
      var w := r.rx.Accepted(seg.payload) % TWO32;
      var d := Drained(Accept(r.(reorder := Rekeyed(r.reorder, w)), seg.payload));
      assert d.1 >= 0;
    }
  }

  // The pacing of acknowledgments is as it was.
  predicate SamePacing(r: Receiver, t: Receiver) { t.sinceAck == r.sinceAck && t.delayedAck == r.delayedAck }

  lemma ClosingKeepsPacing(c: Connection, seg: Segment, now: Time)
    ensures OnFinWait1(c, seg, now).Keep? && SamePacing(c.rcv, OnFinWait1(c, seg, now).conn.rcv)
    ensures OnFinWait2(c, seg, now).Keep? && SamePacing(c.rcv, OnFinWait2(c, seg, now).conn.rcv)
    ensures OnSynSent(c, seg).Keep? && SamePacing(c.rcv, OnSynSent(c, seg).conn.rcv)
  {
    hide Acknowledge, AcknowledgeOnly, UpdateWindow, Emit, ShiftLeft, New, Has, Add, FinSeq;
  }

  lemma EstablishedPaced(c: Connection, seg: Segment, now: Time)
    requires AckPaced(c.rcv)
    ensures OnEstablished(c, seg, now).Keep? && AckPaced(OnEstablished(c, seg, now).conn.rcv)
  {
    hide Acknowledge, UpdateWindow, Receive, Emit, Has, Add, FinSeq;
    ReceivePaced(c.rcv, seg, now);
  }

  lemma InboundPaced(c: Connection, seg: Segment, now: Time)
    requires AckPaced(c.rcv)
    ensures var o := OnSegment(c, seg, now);
            o.Keep? ==> AckPaced(o.conn.rcv)
  {
    hide OnEstablished, OnFinWait1, OnFinWait2, OnSynSent, AcknowledgeOnly, Emit, Has, Add, InWindow;
    EstablishedPaced(c, seg, now);
    ClosingKeepsPacing(c, seg, now);
  }

  lemma StepPaced(c: Connection, e: Event, now: Time, maxRetries: nat)
    requires AckPaced(c.rcv)
    ensures var o := Step(c, e, now, maxRetries);
            o.Keep? ==> AckPaced(o.conn.rcv)
  {
    hide OnSegment, SendAll, DrainTx, Emit, Frames, AfterTimeout, AfterBackoff, OldestPayload, PersistTimer, FlightSize,
      SendMss, Unsent, Add;
    if e.Inbound? {
      InboundPaced(c, e.seg, now);
    }
  }

  // ---------------------------------------------------------------- sequence numbers in flight

  // The number after an entry's last byte.
  function End(e: RetransmitEntry): Seq { Add(e.seqNo, e.len % TWO32) }

  /** Every queued segment can be retransmitted: it has bytes in the buffer. */
  ghost predicate Resendable(s: Sender) {
    forall i :: 0 <= i < |s.queue| ==> s.queue[i].len > 0 && s.queue[i].offset < |s.buf|
  }

  /** What a sender that may still send data keeps, boundary or no boundary:
      no more in flight than the largest window and than the buffer holds,
      and a queue that ends at SND.NXT. */
  ghost predicate InFlight(s: Sender) {
    && FlightSize(s) <= MAX_WINDOW && FlightSize(s) <= |s.buf|
    && (s.queue == [] ==> s.una == s.nxt)
    && (s.queue != [] ==> FlightSize(s) <= SentOffset(s) && End(s.queue[|s.queue| - 1]) == s.nxt)
    && (forall i :: 0 <= i < |s.queue| ==> 0 < Diff(End(s.queue[i]), s.una) <= FlightSize(s))
  }

  ghost predicate SendSafe(state: TcpState, s: Sender) {
    && WindowSane(s) && Resendable(s)
    && match state
       case SynSent => s.una == s.iss && s.nxt == Add(s.iss, 1) && s.buf == [] && s.queue == []
       case SynReceived => s.una == s.iss && s.nxt == Add(s.iss, 1) && s.buf == [] && s.queue == []
       case Established => InFlight(s)
       case CloseWait => InFlight(s)
       case _ => FlightSize(s) <= MAX_WINDOW + 1
  }

  /** SND.UNA advanced by a and SND.NXT by k. */
  ghost predicate Moved(s: Sender, t: Sender, a: nat, k: nat) {
    && a <= MAX_WINDOW + 1 && k <= MAX_WINDOW + 1
    && t.iss == s.iss && t.una == Add(s.una, a) && t.nxt == Add(s.nxt, k)
    && a <= FlightSize(s) && FlightSize(t) == FlightSize(s) - a + k
  }

  lemma NumbersFromBase(base: Seq, x: Seq)
    ensures x == Wrap(base + Diff(x, base))
  {
  }

  lemma AcceptableRange(s: Sender, ackNo: Seq)
    requires FlightSize(s) <= MAX_WINDOW + 1
    ensures Acceptable(s, ackNo) <==> 0 < Diff(ackNo, s.una) <= FlightSize(s)
    ensures Acceptable(s, ackNo) ==>
              && Diff(s.nxt, ackNo) == FlightSize(s) - Diff(ackNo, s.una)
              && ackNo == Add(s.una, Diff(ackNo, s.una))
              && (ackNo == s.nxt <==> Diff(ackNo, s.una) == FlightSize(s))
  {
    hide Diff, Add;
    var f, d := FlightSize(s), Diff(ackNo, s.una);
    SplitDifference(s.nxt, ackNo, s.una);
    AddBack(s.una, ackNo);
    assert Diff(s.nxt, ackNo) == if d <= f then f - d else f - d + TWO32;
    NoDifference(s.nxt, ackNo);
  }

  lemma SplitDifference(a: Seq, b: Seq, c: Seq)
    ensures Diff(a, b) == if Diff(b, c) <= Diff(a, c) then Diff(a, c) - Diff(b, c) else Diff(a, c) - Diff(b, c) + TWO32
  {
  }

  lemma AddBack(a: Seq, b: Seq)
    ensures b == Add(a, Diff(b, a))
  {
  }

  lemma NoDifference(a: Seq, b: Seq)
    ensures Diff(a, b) == 0 <==> a == b
  {
  }

  lemma ZeroFlight(s: Sender)
    ensures FlightSize(s) == 0 <==> s.una == s.nxt
  {
  }

  // Where a queued segment's end stands after an acknowledgment.
  lemma EndAfterAck(s: Sender, ackNo: Seq, end: Seq)
    requires FlightSize(s) <= MAX_WINDOW + 1 && Acceptable(s, ackNo) && Diff(end, s.una) <= FlightSize(s)
    ensures Gt(end, ackNo) ==> 0 < Diff(end, ackNo) <= FlightSize(s) - Diff(ackNo, s.una)
    ensures Gt(end, ackNo) ==> ackNo != s.nxt
    ensures end == s.nxt && ackNo != s.nxt ==> Gt(end, ackNo)
  {
    hide Diff, Lt, Wrap;
    AcceptableRange(s, ackNo);
    NumbersFromBase(s.una, end);
    NumbersFromBase(s.una, ackNo);
    AgreesWithPositions(s.una + Diff(end, s.una), s.una + Diff(ackNo, s.una));
  }

  lemma {:induction false} RetainedEntry(q: seq<RetransmitEntry>, ackNo: Seq, i: nat)
    requires i < |Retained(q, ackNo)|
    ensures Retained(q, ackNo)[i] in q && Gt(End(Retained(q, ackNo)[i]), ackNo)
  {
    hide Add, Lt;
    if Gt(End(q[0]), ackNo) {
      if i > 0 {
        RetainedEntry(q[1..], ackNo, i - 1);
      }
    } else {
      RetainedEntry(q[1..], ackNo, i);
    }
  }

  lemma {:induction false} RetainedLast(q: seq<RetransmitEntry>, ackNo: Seq)
    requires q != [] && Gt(End(q[|q| - 1]), ackNo)
    ensures Retained(q, ackNo) != []
    ensures Retained(q, ackNo)[|Retained(q, ackNo)| - 1] == q[|q| - 1]
  {
    hide Add, Lt;
    if |q| > 1 {
      assert q[|q| - 1] == q[1..][|q| - 2];
      RetainedLast(q[1..], ackNo);
    }
  }

  lemma EntryAfterAck(s: Sender, ackNo: Seq, e: RetransmitEntry)
    requires InFlight(s) && Resendable(s) && Acceptable(s, ackNo)
    requires e in s.queue && Gt(End(e), ackNo)
    ensures var a := Diff(ackNo, s.una);
            && e.len > 0 && SaturatingSub(e.offset, a) < |s.buf| - a
            && 0 < Diff(End(e), ackNo) <= FlightSize(s) - a
  {
    hide Diff, Gt, Le, Lt, End;
    AcceptableRange(s, ackNo);
    EndAfterAck(s, ackNo, End(e));
  }

  lemma AddDifference(a: Seq, b: Seq, c: Seq)
    ensures Add(a, Diff(b, a)) == b && Add(c, 0) == c
  {
  }

  lemma AcknowledgeSafe(s: Sender, ackNo: Seq)
    requires InFlight(s) && Resendable(s) && Acceptable(s, ackNo)
    ensures InFlight(Acknowledge(s, ackNo)) && Resendable(Acknowledge(s, ackNo))
    ensures Moved(s, Acknowledge(s, ackNo), Diff(ackNo, s.una), 0)
  {
    hide AfterAck, Retained, Diff, Gt, Le, Lt, Add;
    AddDifference(s.una, ackNo, s.nxt);
    AcceptableRange(s, ackNo);
    ZeroFlight(s);
    var t := Acknowledge(s, ackNo);
    var a := Diff(ackNo, s.una);
    var r := Retained(s.queue, ackNo);
    assert |t.buf| == |s.buf| - a && FlightSize(t) == FlightSize(s) - a;
    forall i | 0 <= i < |t.queue|
      ensures t.queue[i].len > 0 && t.queue[i].offset < |t.buf|
      ensures 0 < Diff(End(t.queue[i]), t.una) <= FlightSize(t)
    {
      RetainedEntry(s.queue, ackNo, i);
      EntryAfterAck(s, ackNo, r[i]);
    }
    if s.queue != [] && ackNo != s.nxt {
      EndAfterAck(s, ackNo, s.nxt);
      RetainedLast(s.queue, ackNo);
    }
  }

  lemma AcknowledgeOnlySafe(s: Sender, ackNo: Seq)
    requires FlightSize(s) <= MAX_WINDOW + 1 && Resendable(s) && Acceptable(s, ackNo)
    ensures Resendable(AcknowledgeOnly(s, ackNo))
    ensures Moved(s, AcknowledgeOnly(s, ackNo), Diff(ackNo, s.una), 0)
    ensures InFlight(s) ==> InFlight(AcknowledgeOnly(s, ackNo))
  {
    hide AfterAck, Retained, Diff, Gt, Le, Lt;
    AcceptableRange(s, ackNo);
    ZeroFlight(s);
    var t := AcknowledgeOnly(s, ackNo);
    assert FlightSize(t) == FlightSize(s) - Diff(ackNo, s.una);
    forall i | 0 <= i < |t.queue|
      ensures t.queue[i] in s.queue
      ensures InFlight(s) ==> 0 < Diff(End(t.queue[i]), t.una) <= FlightSize(t)
    {
      RetainedEntry(s.queue, ackNo, i);
      if InFlight(s) {
        EndAfterAck(s, ackNo, End(t.queue[i]));
      }
    }
    if InFlight(s) && s.queue != [] && ackNo != s.nxt {
      EndAfterAck(s, ackNo, s.nxt);
      RetainedLast(s.queue, ackNo);
    }
  }

  lemma AdvanceNxt(s: Sender, len: nat)
    requires FlightSize(s) + len <= MAX_WINDOW + 1
    ensures Diff(Add(s.nxt, len), s.una) == FlightSize(s) + len
  {
  }

  lemma SendNextSafe(s: Sender, now: Time)
    requires InFlight(s) && Resendable(s) && WindowSane(s) && CanSend(s)
    ensures var t := SendNext(s, now);
            && InFlight(t) && Resendable(t) && WindowSane(t)
            && Moved(s, t, 0, NextLen(s))
            && FlightSize(t) <= EffectiveWindow(s.cong, s.wnd)
  {
    hide Diff, Lt, Add;
    AddDifference(s.una, s.una, s.una);
    ZeroFlight(s);
    var len := NextLen(s);
    assert FlightSize(s) + len <= EffectiveWindow(s.cong, s.wnd) <= MAX_WINDOW;
    AdvanceNxt(s, len);
    assert Add(s.una, 0) == s.una;
  }

  lemma MovedTwice(s: Sender, t: Sender, u: Sender, k: nat, l: nat)
    requires Moved(s, t, 0, k) && Moved(t, u, 0, l) && FlightSize(u) <= MAX_WINDOW + 1
    ensures Moved(s, u, 0, k + l)
  {
    hide FlightSize;
    assert k + l <= FlightSize(u);
  }

  /** Under any acknowledgments whatever, the transmit loop stays within the
      congestion and receive windows. */
  lemma {:induction false} SendAllSafe(s: Sender, now: Time) returns (k: nat)
    requires InFlight(s) && Resendable(s) && WindowSane(s)
    ensures var t := SendAll(s, now).0;
            && InFlight(t) && Resendable(t) && WindowSane(t) && Moved(s, t, 0, k)
            && (SendAll(s, now).1 != [] ==> FlightSize(t) <= EffectiveWindow(s.cong, s.wnd))
    decreases Unsent(s)
  {
    hide InFlight, Resendable, EffectiveWindow, WindowSane, Diff, CanSend, NextLen;
    if CanSend(s) {
      SendNextSafe(s, now);
      var t := SendNext(s, now);
      UnsentShrinks(s, now);
      var l := SendAllSafe(t, now);
      k := NextLen(s) + l;
      var u := SendAll(t, now).0;
      FlightBound(u);
      MovedTwice(s, t, u, NextLen(s), l);
    } else {
      k := 0;
      NotMoved(s);
    }
  }

  lemma UnsentShrinks(s: Sender, now: Time)
    requires CanSend(s)
    ensures Unsent(SendNext(s, now)) < Unsent(s)
    ensures SendNext(s, now).cong == s.cong && SendNext(s, now).wnd == s.wnd
  {
  }

  lemma FlightBound(s: Sender)
    requires InFlight(s)
    ensures FlightSize(s) <= MAX_WINDOW
  {
  }

  lemma NotMoved(s: Sender)
    ensures Moved(s, s, 0, 0)
  {
  }

  lemma UpdateWindowSafe(s: Sender, seg: Segment)
    requires WindowSane(s)
    ensures var t := UpdateWindow(s, seg);
            WindowSane(t) && t == s.(wnd := t.wnd, wl1 := t.wl1, wl2 := t.wl2)
  {
    hide ShiftLeft;
    ShiftBound(seg.window, s.scale);
  }

  lemma IgnoresWindow(s: Sender, t: Sender)
    requires t == s.(wnd := t.wnd, wl1 := t.wl1, wl2 := t.wl2)
    ensures InFlight(s) ==> InFlight(t)
    ensures Resendable(s) ==> Resendable(t)
  {
    hide Diff;
  }

  // The acknowledgment part of ESTABLISHED.
  lemma EstablishedSafe(s: Sender, seg: Segment) returns (a: nat)
    requires SendSafe(Established, s)
    ensures var t := UpdateWindow(Acknowledge(s, seg.ackNo), seg);
            SendSafe(Established, t) && Moved(s, t, a, 0)
  {
    hide InFlight, Resendable, Acceptable, Diff;
    var t := Acknowledge(s, seg.ackNo);
    if Acceptable(s, seg.ackNo) {
      AcknowledgeSafe(s, seg.ackNo);
      a := Diff(seg.ackNo, s.una);
    } else {
      NotMoved(s);
      a := 0;
    }
    assert WindowSane(t);
    UpdateWindowSafe(t, seg);
    IgnoresWindow(t, UpdateWindow(t, seg));
  }

  // The acknowledgment part of FIN_WAIT_1 and CLOSE_WAIT.
  lemma TeardownSafe(state: TcpState, s: Sender, ackNo: Seq) returns (a: nat)
    requires SendSafe(state, s) && (state == FinWait1 || state == CloseWait)
    ensures SendSafe(state, AcknowledgeOnly(s, ackNo)) && Moved(s, AcknowledgeOnly(s, ackNo), a, 0)
  {
    hide InFlight, Resendable, Acceptable, Diff;
    if state == CloseWait {
      FlightBound(s);
    }
    if Acceptable(s, ackNo) {
      AcknowledgeOnlySafe(s, ackNo);
      a := Diff(ackNo, s.una);
    } else {
      NotMoved(s);
      a := 0;
    }
  }

  // A step that touches the sending half only in its timer.
  lemma TimerSafe(c: Connection, d: Connection)
    requires SendSafe(c.state, c.snd) && (d.snd == c.snd || d.snd == c.snd.(rto := None))
    requires d.state == c.state || (FlightSize(c.snd) <= MAX_WINDOW + 1 && SentFin(c.state) && SentFin(d.state))
    ensures SendSafe(d.state, d.snd) && Moved(c.snd, d.snd, 0, 0)
  {
    hide Diff, Moved, InFlight, Resendable;
    NotMoved(c.snd);
    IgnoresTimer(c.snd, c.snd, c.snd.(rto := None), 0, 0);
    if c.state == d.state {
      IgnoresFlags(c.snd, d.snd);
    }
  }

  lemma EstablishedStep(c: Connection, seg: Segment, now: Time) returns (a: nat)
    requires c.state == Established && SendSafe(c.state, c.snd)
    ensures var o := OnEstablished(c, seg, now);
            o.Keep? && SendSafe(o.conn.state, o.conn.snd) && Moved(c.snd, o.conn.snd, a, 0)
  {
    hide Acknowledge, UpdateWindow, Receive, PlainAck, InFlight, Resendable, Moved, FinInOrder, TouchKeepalive, Add;
    if Has(seg.flags, ACK) {
      a := EstablishedSafe(c.snd, seg);
    } else {
      NotMoved(c.snd);
      a := 0;
    }
  }

  lemma FinWait1Step(c: Connection, seg: Segment, now: Time) returns (a: nat)
    requires c.state == FinWait1 && SendSafe(c.state, c.snd)
    ensures var o := OnFinWait1(c, seg, now);
            o.Keep? && SendSafe(o.conn.state, o.conn.snd) && Moved(c.snd, o.conn.snd, a, 0)
  {
    hide AcknowledgeOnly, AcceptInOrder, PlainAck, Resendable, Moved, FinInOrder, AcksEverything, Add, Diff;
    if Has(seg.flags, ACK) {
      a := TeardownSafe(FinWait1, c.snd, seg.ackNo);
    } else {
      NotMoved(c.snd);
      a := 0;
    }
    var t := if Has(seg.flags, ACK) then AcknowledgeOnly(c.snd, seg.ackNo) else c.snd;
    IgnoresTimer(c.snd, t, t.(rto := None), a, 0);
  }

  lemma ClosingStep(c: Connection, seg: Segment, now: Time)
    requires SentFin(c.state) && c.state != FinWait1 && SendSafe(c.state, c.snd) && !Has(seg.flags, RST)
    ensures var o := OnSegment(c, seg, now);
            o.Keep? ==> SendSafe(o.conn.state, o.conn.snd) && Moved(c.snd, o.conn.snd, 0, 0)
  {
    hide AcceptInOrder, PlainAck, FinInOrder, AcksEverything, Moved, Resendable, Add, Diff;
    var o := OnSegment(c, seg, now);
    if o.Keep? {
      TimerSafe(c, o.conn);
    }
  }

  lemma InboundSafe(c: Connection, seg: Segment, now: Time) returns (a: nat)
    requires SendSafe(c.state, c.snd) && ScaleLegal(Inbound(seg))
    ensures var o := OnSegment(c, seg, now);
            o.Keep? ==> SendSafe(o.conn.state, o.conn.snd) && Moved(c.snd, o.conn.snd, a, 0)
  {
    hide OnEstablished, OnFinWait1, OnFinWait2, OnClosing, OnLastAck, OnTimeWait, OnSynSent, OnSynReceived, SendSafe,
      Moved,
      AcknowledgeOnly, PlainAck, InWindow;
    NotMoved(c.snd);
    a := 0;
    if Has(seg.flags, RST) {
    } else if c.state == Established {
      a := EstablishedStep(c, seg, now);
    } else if c.state == FinWait1 {
      a := FinWait1Step(c, seg, now);
    } else if c.state == CloseWait && Has(seg.flags, ACK) {
      a := TeardownSafe(CloseWait, c.snd, seg.ackNo);
    } else if c.state == SynSent || c.state == SynReceived {
      a := HandshakeSafe(c, seg);
    } else if SentFin(c.state) {
      hide OnSegment;
      ClosingStep(c, seg, now);
    }
  }

  lemma IgnoresTimer(s: Sender, t: Sender, t': Sender, a: nat, k: nat)
    requires t' == t.(rto := t'.rto) && Moved(s, t, a, k)
    ensures Moved(s, t', a, k)
    ensures Resendable(t) ==> Resendable(t')
  {
    hide Diff;
  }

  // The acknowledgment of the SYN.
  lemma SynAcknowledged(s: Sender, t: Sender)
    requires s.una == s.iss && s.nxt == Add(s.iss, 1) && t.iss == s.iss && t.una == t.nxt == s.nxt
    requires t.buf == [] && t.queue == []
    ensures Moved(s, t, 1, 0) && InFlight(t) && Resendable(t)
  {
  }

  lemma HandshakeSafe(c: Connection, seg: Segment) returns (a: nat)
    requires SendSafe(c.state, c.snd) && ScaleLegal(Inbound(seg)) && (c.state == SynSent || c.state == SynReceived)
    ensures var o := if c.state == SynSent then OnSynSent(c, seg) else OnSynReceived(c, seg);
            o.Keep? && SendSafe(o.conn.state, o.conn.snd) && Moved(c.snd, o.conn.snd, a, 0)
  {
    hide ShiftLeft, New, Emit, Moved, InFlight, Resendable, Add;
    ShiftBound(seg.window, if OfferedScale(seg.options) <= 14 then OfferedScale(seg.options) else 0);
    var o := if c.state == SynSent then OnSynSent(c, seg) else OnSynReceived(c, seg);
    if o.conn.state == Established {
      SynAcknowledged(c.snd, o.conn.snd);
      a := 1;
    } else {
      NotMoved(c.snd);
      a := 0;
    }
  }

  lemma SendFinSafe(c: Connection, now: Time)
    requires InFlight(c.snd) && Resendable(c.snd) && WindowSane(c.snd)
    requires (c.state == Established || c.state == CloseWait)
    ensures var o := SendFin(c, now);
            && o.Keep? && SendSafe(o.conn.state, o.conn.snd) && Moved(c.snd, o.conn.snd, 0, 1)
            && FlightSize(o.conn.snd) <= MAX_WINDOW + 1
  {
    hide Diff, AdvertisedWindow;
    AdvanceNxt(c.snd, 1);
    assert Add(c.snd.una, 0) == c.snd.una;
  }

  lemma DrainTxSafe(s: Sender)
    requires InFlight(s) && Resendable(s) && WindowSane(s)
    ensures var t := DrainTx(s);
            InFlight(t) && Resendable(t) && WindowSane(t) && Moved(s, t, 0, 0)
  {
    hide Diff;
    assert Add(s.una, 0) == s.una && Add(s.nxt, 0) == s.nxt;
  }

  // Timers and flags of the sender play no part in its numbers.
  lemma IgnoresFlags(s: Sender, t: Sender)
    requires t == s.(finPending := t.finPending, persist := t.persist, persistBackoff := t.persistBackoff,
                     nodelay := t.nodelay, tx := t.tx, cong := t.cong, rto := t.rto, retries := t.retries)
    ensures InFlight(s) ==> InFlight(t)
    ensures Resendable(s) ==> Resendable(t)
    ensures WindowSane(s) ==> WindowSane(t)
    ensures Moved(s, t, 0, 0)
    ensures forall state :: SendSafe(state, s) ==> SendSafe(state, t)
  {
    hide Diff;
    assert Add(s.una, 0) == s.una && Add(s.nxt, 0) == s.nxt;
  }

  lemma TransmitSafe(c: Connection, now: Time) returns (k: nat)
    requires SendSafe(c.state, c.snd) && (c.state == Established || c.state == CloseWait)
    ensures var o := Transmit(c, now);
            o.Keep? && SendSafe(o.conn.state, o.conn.snd) && Moved(c.snd, o.conn.snd, 0, k)
  {
    hide InFlight, Resendable, WindowSane, Moved, SendAll, SendFin, DrainTx, AvailableWindow, Frames, Unsent,
      SentOffset;
    var s := DrainTx(c.snd);
    DrainTxSafe(c.snd);
    k := SendAllSafe(s, now);
    var t := SendAll(s, now).0;
    FlightBound(t);
    MovedTwice(c.snd, s, t, 0, k);
    var u := PersistTimer(t, now);
    IgnoresFlags(t, u);
    FlightBound(u);
    MovedTwice(c.snd, t, u, k, 0);
    var d := c.(snd := u, keepalive := ArmKeepalive(c, now));
    if u.finPending && Unsent(u) == 0 && u.tx.Pending() == 0 {
      SendFinSafe(d, now);
      MovedTwice(c.snd, u, SendFin(d, now).conn.snd, k, 1);
      k := k + 1;
    }
  }

  lemma ShutdownSafe(c: Connection, now: Time) returns (k: nat)
    requires SendSafe(c.state, c.snd)
    ensures var o := OnShutdownWrite(c, now);
            o.Keep? && SendSafe(o.conn.state, o.conn.snd) && Moved(c.snd, o.conn.snd, 0, k)
  {
    hide InFlight, Resendable, WindowSane, Moved, SendFin, DrainTx, Unsent;
    NotMoved(c.snd);
    k := 0;
    if c.state == Established || c.state == CloseWait {
      var s := c.snd.(finPending := true);
      IgnoresFlags(c.snd, s);
      DrainTxSafe(s);
      FlightBound(DrainTx(s));
      MovedTwice(c.snd, s, DrainTx(s), 0, 0);
      var d := c.(snd := DrainTx(s));
      if Unsent(d.snd) == 0 {
        SendFinSafe(d, now);
        MovedTwice(c.snd, d.snd, SendFin(d, now).conn.snd, 0, 1);
        k := 1;
      }
    }
  }

  /** For any event whatever: SND.UNA and SND.NXT only advance, SND.UNA never
      passes SND.NXT, and no more than the largest window is in flight. */
  lemma StepSendSafe(c: Connection, e: Event, now: Time, maxRetries: nat) returns (a: nat, k: nat)
    requires SendSafe(c.state, c.snd) && ScaleLegal(e)
    ensures var o := Step(c, e, now, maxRetries);
            o.Keep? ==> SendSafe(o.conn.state, o.conn.snd) && Moved(c.snd, o.conn.snd, a, k)
  {
    hide InFlight, Resendable, WindowSane, Moved, OnSegment, Transmit, OnShutdownWrite, SendSafe, OldestPayload,
      AfterTimeout, AfterBackoff, AdvertisedWindow, FlightSize;
    a, k := 0, 0;
    var o := Step(c, e, now, maxRetries);
    match e
    case Inbound(seg) => a := InboundSafe(c, seg, now);
    case ShutdownWrite => k := ShutdownSafe(c, now);
    case Tick =>
      if o.Keep? {
        if Transmits(c, now) {
          var d := FireDelayedAck(c, now).0;
          k := TransmitSafe(d, now);
        } else {
          IgnoresFlags(c.snd, o.conn.snd);
        }
      }
    case Abort =>
    case ShutdownRead => IgnoresFlags(c.snd, o.conn.snd);
    case SetOption(_) => IgnoresFlags(c.snd, o.conn.snd);
    case AppWrite(_) => IgnoresFlags(c.snd, o.conn.snd);
    case AppRead(_) => IgnoresFlags(c.snd, o.conn.snd);
  }

  // The tick reaches the transmit phase.
  predicate Transmits(c: Connection, now: Time) {
    && !Expired(c, now) && !RtoFires(c, now) && !PersistFires(c, now) && !KeepaliveFires(c, now)
    && (c.state == Established || c.state == CloseWait)
  }

  /** A tick at or past the delayed-ACK deadline acknowledges RCV.NXT or ends
      the connection, whichever timer it serves first. */
  lemma DelayedAckIsSent(c: Connection, now: Time, maxRetries: nat)
    requires Resendable(c.snd) && Due(c.rcv.delayedAck, now)
    ensures var o := OnTick(c, now, maxRetries);
            o.Keep? ==> o.out != [] && o.out[0].ackNo == c.rcv.nxt && Has(o.out[0].flags, ACK)
  {
    hide Transmit, AdvertisedWindow, AfterTimeout, AfterBackoff, FlightSize;
    if RtoFires(c, now) {
      assert c.snd.queue[0].len > 0;
      assert OldestPayload(c.snd) != [];
    }
  }

  // ---------------------------------------------------------------- delivered bytes and the peer's FIN

  /** RCV.NXT counts the bytes handed to the application, plus one once the
      peer's FIN has been taken. */
  ghost predicate Counts(c: Connection) {
    && (c.state == SynSent ==> c.rcv.rx.stream == [])
    && (c.state != SynSent ==>
          c.rcv.nxt == SeqAt(c.rcv.irs, |c.rcv.rx.stream| + if TookFin(c.state) then 1 else 0))
  }

  ghost predicate InOrder(r: Receiver) { r.nxt == SeqAt(r.irs, |r.rx.stream|) }

  lemma AcceptCounts(r: Receiver, data: seq<u8>)
    requires InOrder(r)
    ensures InOrder(Accept(r, data))
  {
    hide Add, Wrap;
    var n := r.rx.Accepted(data);
    var laps := n / TWO32;
    SeqAtAdd(r.irs, |r.rx.stream|, n % TWO32);
    SeqAtLaps(r.irs, |r.rx.stream| + n % TWO32, laps);
  }

  lemma SeqAtLaps(isn: Seq, a: nat, laps: nat)
    ensures SeqAt(isn, a + laps * TWO32) == SeqAt(isn, a)
  {
    ModShift(isn + 1 + a, laps);
  }

  lemma {:induction false} DrainedCounts(r: Receiver)
    requires InOrder(r)
    ensures InOrder(Drained(r).0)
    decreases |r.reorder|
  {
    hide SeqAt, Rekeyed, Accept;
    if 0 in r.reorder {
      DrainOneShrinks(r);
      var w := r.rx.Accepted(r.reorder[0]) % TWO32;
      var rest := r.reorder - {0};
      AcceptCounts(r.(reorder := if w > 0 then Rekeyed(rest, w) else rest), r.reorder[0]);
      DrainedCounts(DrainOne(r));
    }
  }

  lemma ReceiveCounts(r: Receiver, seg: Segment, now: Time)
    requires InOrder(r)
    ensures InOrder(Receive(r, seg, now).0)
    ensures Receive(r, seg, now).0.irs == r.irs
  {
    hide SeqAt, Rekeyed, Drained, Accept, Lt;
    var w := r.rx.Accepted(seg.payload) % TWO32;
    var first := Accept(r.(reorder := Rekeyed(r.reorder, w)), seg.payload);
    AcceptCounts(r.(reorder := Rekeyed(r.reorder, w)), seg.payload);
    AcceptIrs(r.(reorder := Rekeyed(r.reorder, w)), seg.payload);
    DrainedCounts(first);
    DrainedKeepsPacing(first);
  }

  lemma AcceptIrs(r: Receiver, data: seq<u8>)
    ensures Accept(r, data).irs == r.irs
  {
  }

  // The delivery part of a step on an inbound segment, before any FIN.
  function DeliveredBy(c: Connection, seg: Segment, now: Time): Receiver {
    if c.state == Established then Receive(c.rcv, seg, now).0
    else if c.state == FinWait1 || c.state == FinWait2 then AcceptInOrder(c.rcv, seg)
    else c.rcv
  }

  lemma DeliveredCounts(c: Connection, seg: Segment, now: Time)
    requires Counts(c) && (c.state == Established || c.state == FinWait1 || c.state == FinWait2)
    ensures InOrder(DeliveredBy(c, seg, now)) && DeliveredBy(c, seg, now).irs == c.rcv.irs
  {
    hide SeqAt, Receive, Accept;
    ReceiveCounts(c.rcv, seg, now);
    AcceptCounts(c.rcv, seg.payload);
    AcceptIrs(c.rcv, seg.payload);
  }

  lemma FinCounts(r: Receiver)
    requires InOrder(r)
    ensures Add(r.nxt, 1) == SeqAt(r.irs, |r.rx.stream| + 1)
  {
    SeqAtAdd(r.irs, |r.rx.stream|, 1);
  }

  lemma DataCounts(c: Connection, seg: Segment, now: Time)
    requires Counts(c) && c.state == Established
    ensures OnEstablished(c, seg, now).Keep? && Counts(OnEstablished(c, seg, now).conn)
  {
    hide SeqAt, Receive, Acknowledge, UpdateWindow, Emit, Add, TouchKeepalive;
    DeliveredCounts(c, seg, now);
    FinCounts(DeliveredBy(c, seg, now));
  }

  lemma FinWaitCounts(c: Connection, seg: Segment, now: Time)
    requires Counts(c)
    ensures c.state == FinWait1 ==> OnFinWait1(c, seg, now).Keep? && Counts(OnFinWait1(c, seg, now).conn)
    ensures c.state == FinWait2 ==> OnFinWait2(c, seg, now).Keep? && Counts(OnFinWait2(c, seg, now).conn)
  {
    hide SeqAt, AcceptInOrder, AcknowledgeOnly, Emit, Add, AcksEverything, FinSeq;
    if c.state == FinWait1 || c.state == FinWait2 {
      DeliveredCounts(c, seg, now);
      FinCounts(DeliveredBy(c, seg, now));
    }
  }

  lemma InboundCounts(c: Connection, seg: Segment, now: Time)
    requires Counts(c)
    ensures var o := OnSegment(c, seg, now);
            o.Keep? ==> Counts(o.conn)
  {
    hide SeqAt, OnEstablished, OnFinWait1, OnFinWait2, AcknowledgeOnly, Emit, ShiftLeft, New, Add, AcksEverything,
      InWindow;
    if c.state == Established {
      DataCounts(c, seg, now);
    } else if c.state == FinWait1 || c.state == FinWait2 {
      FinWaitCounts(c, seg, now);
    } else if c.state == SynSent {
      SynCounts(seg.seqNo);
    }
  }

  lemma SynCounts(s: Seq)
    ensures Add(s, 1) == SeqAt(s, 0)
  {
  }

  lemma TransmitCounts(c: Connection, now: Time)
    requires c.state == Established || c.state == CloseWait
    ensures var o := Transmit(c, now);
            && o.Keep? && o.conn.rcv == c.rcv
            && (TookFin(o.conn.state) <==> TookFin(c.state)) && o.conn.state != SynSent
  {
    hide SendAll, DrainTx, Emit, Frames, PersistTimer, Unsent, Add, ArmKeepalive;
  }

  // What the count depends on is as it was.
  predicate SameCounting(c: Connection, d: Connection) {
    && d.rcv.nxt == c.rcv.nxt && d.rcv.irs == c.rcv.irs && d.rcv.rx == c.rcv.rx
    && (TookFin(d.state) <==> TookFin(c.state)) && (d.state == SynSent <==> c.state == SynSent)
  }

  lemma SameCounts(c: Connection, d: Connection)
    requires Counts(c) && SameCounting(c, d)
    ensures Counts(d)
  {
    hide SeqAt;
  }

  lemma TimerCounts(c: Connection, now: Time, maxRetries: nat)
    ensures c.snd.queue != [] && OnRtoFired(c, now, maxRetries).Keep? ==>
              SameCounting(c, OnRtoFired(c, now, maxRetries).conn)
    ensures OnPersistFired(c, now).Keep? && SameCounting(c, OnPersistFired(c, now).conn)
    ensures c.keepalive.config.Some? && OnKeepaliveFired(c, now).Keep? ==>
              SameCounting(c, OnKeepaliveFired(c, now).conn)
    ensures var d := FireDelayedAck(c, now).0; SameCounting(c, d) && d.state == c.state
  {
    hide Emit, AfterTimeout, AfterBackoff, OldestPayload, FlightSize, SendMss, Due;
  }

  lemma TickCounts(c: Connection, now: Time, maxRetries: nat)
    requires Counts(c)
    ensures var o := OnTick(c, now, maxRetries);
            o.Keep? ==> Counts(o.conn)
  {
    hide Counts, Transmit, OnRtoFired, OnPersistFired, OnKeepaliveFired, FireDelayedAck, Due;
    TimerCounts(c, now, maxRetries);
    if c.state == Established || c.state == CloseWait {
      TransmitCounts(FireDelayedAck(c, now).0, now);
    }
    if OnTick(c, now, maxRetries).Keep? {
      SameCounts(c, OnTick(c, now, maxRetries).conn);
    }
  }

  lemma StepCounts(c: Connection, e: Event, now: Time, maxRetries: nat)
    requires Counts(c)
    ensures var o := Step(c, e, now, maxRetries);
            o.Keep? ==> Counts(o.conn)
  {
    hide SeqAt, OnSegment, OnTick, DrainTx, Emit, Unsent;
    if e.Inbound? {
      InboundCounts(c, e.seg, now);
    } else if e.Tick? {
      TickCounts(c, now, maxRetries);
    }
  }

  // ---------------------------------------------------------------- what the states mean

  /** What an observer of the wire has seen of the teardown. */
  datatype Seen = Seen(finSent: bool, finAcked: bool, peerFin: bool)

  // An inbound segment that is not a reset.
  predicate Heard(e: Event) { e.Inbound? && !Has(e.seg.flags, RST) }

  ghost predicate CarriesFin(out: seq<Segment>) { exists i :: 0 <= i < |out| && Has(out[i].flags, FIN) }

  /** Update from one step: our FIN is seen leaving; after that, a segment
      acknowledging all we ever numbered acknowledges the FIN; the peer's FIN
      counts once it directly follows the bytes delivered. */
  ghost function Observe(b: Seen, c: Connection, e: Event, o: Outcome): Seen
    requires o.Keep?
  {
    Seen(
      b.finSent || CarriesFin(o.out),
      b.finAcked || (b.finSent && Heard(e) && AcksEverything(c.snd, e.seg)),
      b.peerFin || (Heard(e) && Has(e.seg.flags, FIN) && FinSeq(e.seg) == SeqAt(c.rcv.irs, |o.conn.rcv.rx.stream|)))
  }

  ghost predicate Means(s: TcpState, b: Seen) {
    match s
    case Established => b == Seen(false, false, false)
    case CloseWait => b == Seen(false, false, true)
    case FinWait1 => b == Seen(true, false, false)
    case FinWait2 => b == Seen(true, true, false)
    case Closing => b == Seen(true, false, true)
    case LastAck => b == Seen(true, false, true)
    case TimeWait => b == Seen(true, true, true)
    case _ => false
  }

  lemma InboundMeans(c: Connection, seg: Segment, now: Time, b: Seen)
    requires Means(c.state, b) && Counts(c) && !Has(seg.flags, RST)
    ensures var o := OnSegment(c, seg, now);
            o.Keep? ==> Means(o.conn.state, Observe(b, c, Inbound(seg), o))
  {
    hide SeqAt, Receive, Accept, Acknowledge, AcknowledgeOnly, UpdateWindow, AdvertisedWindow, Add, Counts;
    if c.state == Established || c.state == FinWait1 || c.state == FinWait2 {
      DeliveredCounts(c, seg, now);
    }
  }

  lemma TransmitMeans(c: Connection, now: Time, acks: seq<Segment>)
    requires forall i :: 0 <= i < |acks| ==> acks[i].flags == ACK
    requires c.state == Established || c.state == CloseWait
    ensures var o := Transmit(c, now);
            && o.Keep?
            && o.conn.state == if !CarriesFin(acks + o.out) then c.state
                else if c.state == Established then FinWait1 else LastAck
  {
    hide SendAll, DrainTx, AdvertisedWindow, PersistTimer, Unsent;
    var o := Transmit(c, now);
    var out := acks + o.out;
    if o.conn.state != c.state {
      assert Has(out[|out| - 1].flags, FIN);
    }
  }

  // Segments without a FIN show nothing.
  lemma NoFinShown(out: seq<Segment>)
    requires forall i :: 0 <= i < |out| ==> !Has(out[i].flags, FIN)
    ensures !CarriesFin(out)
  {
  }

  lemma TickMeans(c: Connection, now: Time, maxRetries: nat, b: Seen)
    requires Means(c.state, b)
    ensures var o := OnTick(c, now, maxRetries);
            o.Keep? ==> Means(o.conn.state, Observe(b, c, Tick, o))
  {
    hide SeqAt, Transmit, AdvertisedWindow, AfterTimeout, AfterBackoff, OldestPayload, FlightSize;
    if Transmits(c, now) {
      var (d, acks) := FireDelayedAck(c, now);
      TransmitMeans(d, now, acks);
    } else {
      NoFinShown(OnTick(c, now, maxRetries).out);
    }
  }

  lemma LocalMeans(c: Connection, e: Event, now: Time, maxRetries: nat, b: Seen)
    requires Means(c.state, b) && !e.Inbound?
    ensures var o := Step(c, e, now, maxRetries);
            o.Keep? ==> Means(o.conn.state, Observe(b, c, e, o))
  {
    hide SeqAt, OnTick, DrainTx, AdvertisedWindow, Unsent;
    var o := Step(c, e, now, maxRetries);
    if e.Tick? {
      TickMeans(c, now, maxRetries, b);
    } else if e == ShutdownWrite && o.conn.state != c.state {
      assert Has(o.out[0].flags, FIN);
    }
  }

  /** The state is exactly what the wire has shown: in particular TIME_WAIT
      means our FIN is acknowledged and the peer's FIN taken. */
  lemma StepMeans(c: Connection, e: Event, now: Time, maxRetries: nat, b: Seen)
    requires Means(c.state, b) && Counts(c)
    ensures var o := Step(c, e, now, maxRetries);
            o.Keep? ==> Means(o.conn.state, Observe(b, c, e, o))
  {
    hide SeqAt, Counts, AdvertisedWindow;
    if !e.Inbound? {
      LocalMeans(c, e, now, maxRetries, b);
    } else if !Has(e.seg.flags, RST) {
      InboundMeans(c, e.seg, now, b);
    }
  }

  // ---------------------------------------------------------------- timeouts

  /** Retransmission and persist timeouts stay within 60 seconds. */
  predicate Bounded(s: Sender) { s.cong.rto <= MAX_RTO && s.persistBackoff <= MAX_RTO }

  lemma {:induction false} SendAllBounded(s: Sender, now: Time)
    requires Bounded(s)
    ensures Bounded(SendAll(s, now).0)
    decreases Unsent(s)
  {
    hide CanSend, NextLen, SentOffset;
    if CanSend(s) {
      UnsentShrinks(s, now);
      SendAllBounded(SendNext(s, now), now);
    }
  }

  lemma InboundBounded(c: Connection, seg: Segment, now: Time)
    requires Bounded(c.snd)
    ensures var o := OnSegment(c, seg, now);
            o.Keep? ==> Bounded(o.conn.snd)
  {
    hide OnEstablished, OnFinWait1, OnSynSent, OnSynReceived, OnFinWait2, OnCloseWait, OnLastAck, OnClosing,
      OnTimeWait, OnReset,
      Has;
    DataBounded(c, seg, now);
    HandshakeBounded(c, seg);
    ClosingBounded(c, seg, now);
    ResetBounded(c, seg);
  }

  lemma ClosingBounded(c: Connection, seg: Segment, now: Time)
    requires Bounded(c.snd)
    ensures OnFinWait2(c, seg, now).Keep? && OnFinWait2(c, seg, now).conn.snd == c.snd
    ensures OnCloseWait(c, seg).Keep? && Bounded(OnCloseWait(c, seg).conn.snd)
    ensures OnLastAck(c, seg).Keep? ==> OnLastAck(c, seg).conn == c
    ensures OnClosing(c, seg, now).Keep? && Bounded(OnClosing(c, seg, now).conn.snd)
    ensures OnTimeWait(c, seg, now).Keep? && OnTimeWait(c, seg, now).conn.snd == c.snd
  {
    hide Accept, Emit, Has, AcknowledgeOnly, UpdateWindow, Acknowledge, Add, FinSeq;
    AcknowledgeKeepsTimers(c.snd, seg);
  }

  lemma ResetBounded(c: Connection, seg: Segment)
    ensures OnReset(c, seg).Keep? ==> OnReset(c, seg).conn == c
  {
    hide Emit, Has, Add, InWindow;
  }

  lemma DataBounded(c: Connection, seg: Segment, now: Time)
    requires Bounded(c.snd)
    ensures OnEstablished(c, seg, now).Keep? && Bounded(OnEstablished(c, seg, now).conn.snd)
    ensures OnFinWait1(c, seg, now).Keep? && Bounded(OnFinWait1(c, seg, now).conn.snd)
  {
    hide Receive, Accept, Emit, Has, Acknowledge, AcknowledgeOnly, UpdateWindow, Add, FinSeq;
    AcknowledgeKeepsTimers(c.snd, seg);
  }

  lemma HandshakeBounded(c: Connection, seg: Segment)
    requires Bounded(c.snd)
    ensures OnSynSent(c, seg).Keep? && Bounded(OnSynSent(c, seg).conn.snd)
    ensures OnSynReceived(c, seg).Keep? && Bounded(OnSynReceived(c, seg).conn.snd)
  {
    hide Emit, Has, Add, ShiftLeft, New;
    NewBounded(Min(c.snd.localMss, OfferedMss(seg.options)));
  }

  lemma NewBounded(mss: u16)
    ensures New(mss).rto <= MAX_RTO
  {
  }

  lemma AcknowledgeKeepsTimers(s: Sender, seg: Segment)
    requires Bounded(s)
    ensures Bounded(UpdateWindow(Acknowledge(s, seg.ackNo), seg)) && Bounded(AcknowledgeOnly(s, seg.ackNo))
  {
    hide Acceptable, Retained, Rebased, AvoidanceStep, Diff, WindowUpdateApplies, ShiftLeft;
  }

  lemma TransmitBounded(c: Connection, now: Time)
    requires Bounded(c.snd)
    ensures Transmit(c, now).Keep? && Bounded(Transmit(c, now).conn.snd)
  {
    hide SendAll, Emit, Frames, Unsent, AvailableWindow, SentOffset, Add, DrainTx;
    assert Bounded(DrainTx(c.snd)) by {
      DrainTxKeepsTimers(c.snd);
    }
    SendAllBounded(DrainTx(c.snd), now);
  }

  lemma DrainTxKeepsTimers(s: Sender)
    ensures DrainTx(s).cong == s.cong && DrainTx(s).persistBackoff == s.persistBackoff
  {
  }

  lemma StepBounded(c: Connection, e: Event, now: Time, maxRetries: nat)
    requires Bounded(c.snd)
    ensures var o := Step(c, e, now, maxRetries);
            o.Keep? ==> Bounded(o.conn.snd)
  {
    hide OnSegment, OnTick, Emit, Unsent, DrainTx, Add;
    if e.Inbound? {
      InboundBounded(c, e.seg, now);
    } else if e.Tick? {
      TickBounded(c, now, maxRetries);
    }
    DrainTxKeepsTimers(c.snd.(finPending := true));
  }

  lemma TickBounded(c: Connection, now: Time, maxRetries: nat)
    requires Bounded(c.snd)
    ensures var o := OnTick(c, now, maxRetries);
            o.Keep? ==> Bounded(o.conn.snd)
  {
    hide Transmit, Emit, OldestPayload, FlightSize, SendMss, Due;
    TransmitBounded(FireDelayedAck(c, now).0, now);
  }

  // The persist timer alone firing, n ticks in a row.
  function AfterProbes(c: Connection, times: seq<Time>): Connection {
    if times == [] then c
    else OnPersistFired(AfterProbes(c, times[..|times| - 1]), times[|times| - 1]).conn
  }

  /** Every probe doubles the wait until the next, up to 60 seconds. */
  lemma {:induction false} ProbesBackOffExponentially(c: Connection, times: seq<Time>)
    requires c.snd.persistBackoff <= MAX_RTO
    ensures AfterProbes(c, times).snd.persistBackoff == Min(c.snd.persistBackoff * Pow2(|times|), MAX_RTO)
    ensures times != [] ==>
              AfterProbes(c, times).snd.persist == Some(times[|times| - 1] + AfterProbes(c, times).snd.persistBackoff)
  {
    hide Emit;
    if times != [] {
      var front := times[..|times| - 1];
      ProbesBackOffExponentially(c, front);
      var b, p := c.snd.persistBackoff, Pow2(|front|);
      assert b * Pow2(|times|) == 2 * (b * p);
    }
  }

  // ---------------------------------------------------------------- runs

  ghost predicate Healthy(c: Connection) {
    Mirrored(c) && AckPaced(c.rcv) && SendSafe(c.state, c.snd) && Counts(c) && Bounded(c.snd)
  }

  datatype Timed = Timed(e: Event, now: Time)

  datatype Watched = Watched(conn: Connection, seen: Seen)

  // The run of one connection, for as long as the engine keeps it.
  ghost function Run(w: Watched, events: seq<Timed>, maxRetries: nat): Option<Watched>
    decreases |events|
  {
    if events == [] then Some(w)
    else
      var before := Run(w, events[..|events| - 1], maxRetries);
      var t := events[|events| - 1];
      if before.None? then None
      else
        var o := Step(before.value.conn, t.e, t.now, maxRetries);
        if o.Drop? then None
        else Some(Watched(o.conn, Observe(before.value.seen, before.value.conn, t.e, o)))
  }

  /** Every connection stays healthy on every run that begins healthy. */
  lemma {:induction false} RunsStayHealthy(w: Watched, events: seq<Timed>, maxRetries: nat)
    requires Healthy(w.conn)
    requires forall i :: 0 <= i < |events| ==> ScaleLegal(events[i].e)
    ensures var end := Run(w, events, maxRetries);
            end.Some? ==> Healthy(end.value.conn)
    decreases |events|
  {
    hide Mirrored, AckPaced, SendSafe, Counts, Bounded, Step, Observe;
    if events != [] {
      RunsStayHealthy(w, events[..|events| - 1], maxRetries);
      var before, t := Run(w, events[..|events| - 1], maxRetries), events[|events| - 1];
      if before.Some? {
        var c := before.value.conn;
        StepMirrored(c, t.e, t.now, maxRetries);
        StepPaced(c, t.e, t.now, maxRetries);
        StepCounts(c, t.e, t.now, maxRetries);
        StepBounded(c, t.e, t.now, maxRetries);
        var a, k := StepSendSafe(c, t.e, t.now, maxRetries);
      }
    }
  }

  /** On every run from ESTABLISHED the state names exactly which FINs have
      been sent, acknowledged and taken. */
  lemma {:induction false} RunsKeepMeaning(c: Connection, events: seq<Timed>, maxRetries: nat)
    requires Healthy(c) && c.state == Established
    requires forall i :: 0 <= i < |events| ==> ScaleLegal(events[i].e)
    ensures var end := Run(Watched(c, Seen(false, false, false)), events, maxRetries);
            end.Some? ==> Means(end.value.conn.state, end.value.seen)
    decreases |events|
  {
    hide Healthy, Step, Observe;
    var w := Watched(c, Seen(false, false, false));
    if events != [] {
      var front := events[..|events| - 1];
      RunsKeepMeaning(c, front, maxRetries);
      RunsStayHealthy(w, front, maxRetries);
      var before, t := Run(w, front, maxRetries), events[|events| - 1];
      if before.Some? {
        HealthyCounts(before.value.conn);
        StepMeans(before.value.conn, t.e, t.now, maxRetries, before.value.seen);
      }
    }
  }

  lemma HealthyCounts(c: Connection)
    requires Healthy(c)
    ensures Counts(c)
  {
  }

  // SND.UNA and SND.NXT name these unbounded positions.
  ghost predicate At(s: Sender, una: nat, nxt: nat) {
    && s.una == Wrap(s.iss + una) && s.nxt == Wrap(s.iss + nxt)
    && una <= nxt <= una + MAX_WINDOW + 1
  }

  lemma MovedPositions(s: Sender, t: Sender, a: nat, k: nat, una: nat, nxt: nat)
    requires At(s, una, nxt) && Moved(s, t, a, k) && FlightSize(t) <= MAX_WINDOW + 1
    ensures At(t, una + a, nxt + k)
  {
    AgreesWithPositions(s.iss + nxt, s.iss + una);
    AddOfWrap(s.iss + una, a);
    AddOfWrap(s.iss + nxt, k);
  }

  /** On every run, from any inbound segments whatever, SND.UNA <= SND.NXT as
      unbounded positions, neither ever retreats, and the flight is exactly
      their distance and at most 2^30. */
  lemma {:induction false} NumbersNeverRetreat(w: Watched, events: seq<Timed>, maxRetries: nat, una: nat, nxt: nat)
    returns (una': nat, nxt': nat)
    requires Healthy(w.conn) && At(w.conn.snd, una, nxt)
    requires forall i :: 0 <= i < |events| ==> ScaleLegal(events[i].e)
    ensures una <= una' && nxt <= nxt'
    ensures var end := Run(w, events, maxRetries);
            end.Some? ==>
              && At(end.value.conn.snd, una', nxt')
              && FlightSize(end.value.conn.snd) == nxt' - una' <= 0x4000_0000
    decreases |events|
  {
    hide Mirrored, AckPaced, SendSafe, Counts, Step, Observe, Moved;
    if events == [] {
      una', nxt' := una, nxt;
      FlightIs(w.conn.snd, una, nxt);
    } else {
      var front := events[..|events| - 1];
      una', nxt' := NumbersNeverRetreat(w, front, maxRetries, una, nxt);
      RunsStayHealthy(w, front, maxRetries);
      var before, t := Run(w, front, maxRetries), events[|events| - 1];
      if before.Some? {
        var c := before.value.conn;
        var o := Step(c, t.e, t.now, maxRetries);
        var a, k := StepSendSafe(c, t.e, t.now, maxRetries);
        if o.Keep? {
          FlightOfSafe(o.conn);
          MovedPositions(c.snd, o.conn.snd, a, k, una', nxt');
          una', nxt' := una' + a, nxt' + k;
          FlightIs(o.conn.snd, una', nxt');
        }
      }
    }
  }

  lemma FlightOfSafe(c: Connection)
    requires SendSafe(c.state, c.snd)
    ensures FlightSize(c.snd) <= MAX_WINDOW + 1
  {
  }

  lemma FlightIs(s: Sender, una: nat, nxt: nat)
    requires At(s, una, nxt)
    ensures FlightSize(s) == nxt - una
  {
    AgreesWithPositions(s.iss + nxt, s.iss + una);
  }
}
