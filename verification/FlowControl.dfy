/** Two engines that heed each other's windows: nothing ever sent ends beyond
    the room of the receiver's ring, so no write into it is cut short. */
module FlowControl {
  import opened Types
  import opened SeqNum
  import opened Congestion
  import opened Tcb
  import opened SendStream
  import opened Reassembly
  import opened Network
  import opened SenderSteps
  import opened ReceiverSteps
  import opened EndToEnd
  import PeerWindow
  import WindowSafety

  // The bytes the application has read plus the capacity of the ring.
  function Room(c: Connection): nat { c.rcv.rx.taken + c.rcv.rx.cap }

  // ---------------------------------------------------------------- the premise

  // This segment updates the send window.
  predicate Updates(c: Connection, seg: Segment) {
    c.state == Established && WindowUpdateApplies(Acknowledge(c.snd, seg.ackNo), seg)
  }

  function ToldWindow(c: Connection, seg: Segment): u32 { ShiftLeft(seg.window, c.snd.scale) }

  /** An acknowledgment that moves SND.UNA updates the window too or finds it
      no larger than the one it tells; one that does not move SND.UNA enlarges
      the window only if it acknowledges SND.UNA itself. */
  predicate Heeds(c: Connection, seg: Segment) {
    if Acceptable(c.snd, seg.ackNo)
    then Updates(c, seg) || c.snd.wnd <= ToldWindow(c, seg)
    else !Updates(c, seg) || ToldWindow(c, seg) <= c.snd.wnd || seg.ackNo == c.snd.una
  }

  // A segment whose acknowledgment a sender of data takes.
  predicate Acks(c: Connection, seg: Segment) { !SentFin(c.state) && Has(seg.flags, ACK) && !Has(seg.flags, RST) }

  lemma AckMoves(c: Connection, seg: Segment, now: Time)
    requires (c.state == Established || c.state == CloseWait) && Acks(c, seg)
    ensures OnSegment(c, seg, now).Keep?
    ensures var d := OnSegment(c, seg, now).conn;
            && d.snd.una == (if Acceptable(c.snd, seg.ackNo) then seg.ackNo else c.snd.una)
            && d.snd.wnd == (if Updates(c, seg) then ToldWindow(c, seg) else c.snd.wnd)
            && (d.state == Established || d.state == CloseWait)
  {
    hide Receive, PlainAck, FinInOrder, TouchKeepalive, Rebased, Retained, AfterAck, Acceptable, Add, Diff, Lt;
    AcknowledgedWindow(c.snd, seg.ackNo);
  }

  lemma AcknowledgedWindow(s: Sender, ackNo: Seq)
    ensures var a := Acknowledge(s, ackNo);
            && a.una == (if Acceptable(s, ackNo) then ackNo else s.una)
            && a.wnd == s.wnd && a.scale == s.scale && a.iss == s.iss
  {
    hide Rebased, Retained, AfterAck, Acceptable, Diff;
  }

  // ---------------------------------------------------------------- the sender's limit

  // Two numbers of the same connection's stream, both near its acknowledged point.
  lemma SamePosition(iss: Seq, p: nat, q: nat)
    requires SeqAt(iss, p) == SeqAt(iss, q) && p <= q + 2 * MAX_WINDOW && q <= p + 2 * MAX_WINDOW
    ensures p == q
  {
    hide SeqAt;
    SeqAtAgrees(iss, p, q);
  }

  // The acknowledged points before and after a step lie close together.
  lemma StaysNear(c: Connection, d: Connection, w: Progress, w': Progress)
    requires Sending(c, w) && Sending(d, w') && Advances(c, d, w, w') && !SentFin(c.state) && !SentFin(d.state)
    requires c.snd.wnd <= MAX_WINDOW
    ensures UnaPos(c) <= UnaPos(d) + MAX_WINDOW && UnaPos(d) <= UnaPos(c) + MAX_WINDOW
    ensures Last(w.cuts) <= UnaPos(c) + MAX_WINDOW && |w.cuts| >= 1
    ensures d.snd.una == SeqAt(c.snd.iss, UnaPos(d)) && c.snd.una == SeqAt(c.snd.iss, UnaPos(c))
  {
    hide SeqAt, Sending, UnaPos, NxtPos;
    SendingNumbers(c, w);
    SendingNumbers(d, w');
    assert w.cuts[|w.cuts| - 1] == w'.cuts[|w.cuts| - 1] <= Last(w'.cuts);
  }

  lemma SendingWindow(c: Connection, w: Progress)
    requires Sending(c, w) && !SentFin(c.state)
    ensures WindowSane(c.snd) && (c.state == Established || c.state == CloseWait) && !w.acked
  {
  }

  // An acknowledgment of a boundary is acceptable exactly when it lies beyond SND.UNA.
  lemma AcceptableBeyond(c: Connection, w: Progress, ackPos: nat)
    requires Sending(c, w) && !SentFin(c.state) && ackPos in w.cuts && UnaPos(c) - ackPos < TWO31
    ensures Acceptable(c.snd, SeqAt(c.snd.iss, ackPos)) <==> UnaPos(c) < ackPos
    ensures SeqAt(c.snd.iss, ackPos) == c.snd.una <==> UnaPos(c) == ackPos
    ensures |w.cuts| >= 1 && ackPos <= Last(w.cuts)
  {
    hide SeqAt, UnaPos, NxtPos, Acceptable, Partition;
    SendingNumbers(c, w);
    var v := CutIndex(w.cuts, ackPos);
    assert ackPos <= Last(w.cuts);
    AcceptableIsInFlight(c.snd, w.cuts, w.base, w.u, ackPos);
    SeqAtAgrees(c.snd.iss, ackPos, UnaPos(c));
  }

  lemma LimitMoves(c: Connection, seg: Segment, now: Time, ackPos: nat, w: Progress, w': Progress)
    requires Sending(c, w) && Acks(c, seg) && ackPos in w.cuts && UnaPos(c) - ackPos < TWO31
    requires seg.ackNo == SeqAt(c.snd.iss, ackPos)
    requires OnSegment(c, seg, now).Keep? && !SentFin(OnSegment(c, seg, now).conn.state)
    requires Sending(OnSegment(c, seg, now).conn, w') && Advances(c, OnSegment(c, seg, now).conn, w, w')
    ensures var d := OnSegment(c, seg, now).conn;
            UnaPos(d) + d.snd.wnd <= Max(UnaPos(c) + c.snd.wnd, ackPos + ToldWindow(c, seg)) <==> Heeds(c, seg)
  {
    hide SeqAt, Sending, Advances, UnaPos, OnSegment, Acceptable, WindowUpdateApplies, Acknowledge, ToldWindow, Updates;
    SendingWindow(c, w);
    AckMoves(c, seg, now);
    var d := OnSegment(c, seg, now).conn;
    AcceptableBeyond(c, w, ackPos);
    StaysNear(c, d, w, w');
    SamePosition(c.snd.iss, UnaPos(d), if Acceptable(c.snd, seg.ackNo) then ackPos else UnaPos(c));
  }

  /** The exact condition: an acknowledgment leaves the limit SND.UNA + SND.WND
      within the old limit or the edge it tells if and only if the sender
      heeds it. */
  lemma HeedsExactly(c: Connection, seg: Segment, now: Time, ackPos: nat, w: Progress)
    requires Sending(c, w) && AckedIsDelivered(w, false) && Acks(c, seg) && AckFits(c, seg, ackPos, w, false)
    ensures OnSegment(c, seg, now).Keep?
    ensures var d := OnSegment(c, seg, now).conn;
            UnaPos(d) + d.snd.wnd <= Max(UnaPos(c) + c.snd.wnd, ackPos + ToldWindow(c, seg)) <==> Heeds(c, seg)
  {
    hide Sending, OnSegment, Heeds, UnaPos, Advances, SeqAt, Slips, PlainOut, ToldWindow;
    SendingWindow(c, w);
    AckMoves(c, seg, now);
    var w' := SenderInbound(c, seg, now, ackPos, w, false);
    LimitMoves(c, seg, now, ackPos, w, w');
  }

  // Nothing but an acknowledgment touches SND.UNA and SND.WND.
  lemma QuietStep(c: Connection, e: Event, now: Time, maxRetries: nat)
    requires c.state == Established || c.state == CloseWait
    requires e.Inbound? ==> !Acks(c, e.seg)
    requires Step(c, e, now, maxRetries).Keep?
    ensures var d := Step(c, e, now, maxRetries).conn;
            d.snd.una == c.snd.una && d.snd.wnd == c.snd.wnd
  {
    hide OnTick, OnReset, OnEstablished, OnShutdownWrite;
    if e.Tick? {
      QuietTicks(c, now, maxRetries);
    } else if e.Inbound? {
      ResetShape(c, e.seg);
      if !Has(e.seg.flags, RST) {
        EstablishedShape(c, e.seg, now);
      }
    } else if e.ShutdownWrite? {
      QuietShutdown(c, now);
    }
  }

  lemma QuietShutdown(c: Connection, now: Time)
    ensures var o := OnShutdownWrite(c, now);
            o.Keep? && o.conn.snd.una == c.snd.una && o.conn.snd.wnd == c.snd.wnd && o.conn.snd.scale == c.snd.scale
  {
    hide Unsent, Add, Emit;
  }

  lemma QuietTransmit(c: Connection, now: Time)
    ensures var o := Transmit(c, now);
            o.Keep? && o.conn.snd.una == c.snd.una && o.conn.snd.wnd == c.snd.wnd && o.conn.snd.scale == c.snd.scale
  {
    hide SendAll, Unsent, Add, Emit, Frames, AvailableWindow, SentOffset, ArmKeepalive;
    SendAllFrame(DrainTx(c.snd), now);
  }

  lemma QuietTicks(c: Connection, now: Time, maxRetries: nat)
    ensures var o := OnTick(c, now, maxRetries);
            o.Keep? ==> o.conn.snd.una == c.snd.una && o.conn.snd.wnd == c.snd.wnd && o.conn.snd.scale == c.snd.scale
  {
    hide Transmit, AfterTimeout, AfterBackoff, OldestPayload, Emit, Due, FlightSize, SendMss;
    QuietTransmit(FireDelayedAck(c, now).0, now);
  }

  // ---------------------------------------------------------------- what a step leaves alone

  // The ring keeps its capacity, reading only advances, and the scales stay as negotiated.
  ghost predicate SameTerms(c: Connection, d: Connection) {
    && d.rcv.rx.cap == c.rcv.rx.cap && c.rcv.rx.taken <= d.rcv.rx.taken
    && d.rcv.scale == c.rcv.scale && d.snd.scale == c.snd.scale
  }

  lemma {:induction false} DrainedTerms(r: Receiver)
    ensures var t := Drained(r).0; t.rx.cap == r.rx.cap && t.rx.taken == r.rx.taken && t.scale == r.scale
    decreases |r.reorder|
  {
    hide Rekeyed, Add;
    if 0 in r.reorder {
      DrainOneShrinks(r);
      DrainedTerms(DrainOne(r));
    }
  }

  lemma ReceiveTerms(r: Receiver, seg: Segment, now: Time)
    ensures var t := Receive(r, seg, now).0; t.rx.cap == r.rx.cap && t.rx.taken == r.rx.taken && t.scale == r.scale
  {
    hide Rekeyed, Drained, Add, Lt, Diff;
    var w := r.rx.Accepted(seg.payload) % TWO32;
    DrainedTerms(Accept(r.(reorder := Rekeyed(r.reorder, w)), seg.payload));
  }

  lemma EstablishedTerms(c: Connection, seg: Segment, now: Time)
    ensures var o := OnEstablished(c, seg, now); o.Keep? && SameTerms(c, o.conn)
  {
    hide Receive, Acknowledge, UpdateWindow, PlainAck, FinInOrder, TouchKeepalive, Add;
    ReceiveTerms(c.rcv, seg, now);
    AcknowledgedWindow(c.snd, seg.ackNo);
    UpdatedScale(Acknowledge(c.snd, seg.ackNo), seg);
  }

  lemma InboundTerms(c: Connection, seg: Segment, now: Time)
    requires Synchronized(c.state)
    ensures var o := OnSegment(c, seg, now); o.Keep? ==> SameTerms(c, o.conn)
  {
    hide OnEstablished, OnFinWait1, OnFinWait2, AcknowledgeOnly, PlainAck, AcksEverything, InWindow;
    EstablishedTerms(c, seg, now);
    FinWaitTerms(c, seg, now);
    AcknowledgeOnlyFrame(c.snd, seg.ackNo);
  }

  lemma FinWaitTerms(c: Connection, seg: Segment, now: Time)
    ensures var o := OnFinWait1(c, seg, now); o.Keep? && SameTerms(c, o.conn)
    ensures var o := OnFinWait2(c, seg, now); o.Keep? && SameTerms(c, o.conn)
  {
    hide AcknowledgeOnly, PlainAck, FinInOrder, AcksEverything, AcceptInOrder, Add;
    AcknowledgeOnlyFrame(c.snd, seg.ackNo);
    InOrderTerms(c.rcv, seg);
  }

  lemma InOrderTerms(r: Receiver, seg: Segment)
    ensures var t := AcceptInOrder(r, seg); t.rx.cap == r.rx.cap && t.rx.taken == r.rx.taken && t.scale == r.scale
  {
    hide Add;
  }

  lemma UpdatedScale(s: Sender, seg: Segment)
    ensures UpdateWindow(s, seg).scale == s.scale
  {
    hide WindowUpdateApplies, ShiftLeft;
  }

  lemma StepTerms(c: Connection, e: Event, now: Time, maxRetries: nat)
    requires Synchronized(c.state)
    ensures var o := Step(c, e, now, maxRetries); o.Keep? ==> SameTerms(c, o.conn)
  {
    hide OnSegment, OnTick, OnShutdownWrite;
    if e.Inbound? {
      InboundTerms(c, e.seg, now);
    } else if e.Tick? {
      QuietTicks(c, now, maxRetries);
      TickRing(c, now, maxRetries);
    } else if e.ShutdownWrite? {
      QuietShutdown(c, now);
      ShutdownAcks(c, now);
    }
  }

  lemma TickRing(c: Connection, now: Time, maxRetries: nat)
    requires Synchronized(c.state)
    ensures var o := OnTick(c, now, maxRetries);
            o.Keep? ==> o.conn.rcv.rx == c.rcv.rx && o.conn.rcv.scale == c.rcv.scale
  {
    hide Transmit, AfterTimeout, AfterBackoff, OldestPayload, Emit, Due, FlightSize, SendMss;
    var d := FireDelayedAck(c, now).0;
    if d.state == Established || d.state == CloseWait {
      TransmitAcks(d, now);
    }
  }

  // ---------------------------------------------------------------- what the receiver tells

  // Every segment leaving a step advertises the window of the receiver it leaves behind, or none.
  ghost predicate AllTell(out: seq<Segment>, c: Connection) {
    forall i :: 0 <= i < |out| ==>
      out[i].window == 0 || exists mss: u16 :: out[i].window == AdvertisedWindow(c.rcv, mss)
  }

  lemma EmitTells(c: Connection, d: Connection, seqNo: Seq, flags: u8, payload: seq<u8>)
    requires d.rcv.(sinceAck := c.rcv.sinceAck, delayedAck := c.rcv.delayedAck) == c.rcv
    ensures AllTell([Emit(c, seqNo, flags, payload)], d)
  {
    var mss := SendMss(c.snd);
    assert AdvertisedWindow(c.rcv, mss) == AdvertisedWindow(d.rcv, mss);
  }

  lemma NothingTells(c: Connection)
    ensures AllTell([], c)
  {
  }

  lemma TellConcat(a: seq<Segment>, b: seq<Segment>, c: Connection)
    requires AllTell(a, c) && AllTell(b, c)
    ensures AllTell(a + b, c)
  {
    hide AdvertisedWindow;
  }

  lemma FramesTell(c: Connection, d: Connection, pieces: seq<(Seq, seq<u8>)>)
    requires d.rcv == c.rcv
    ensures AllTell(Frames(c, pieces), d)
  {
    var out := Frames(c, pieces);
    forall i | 0 <= i < |out|
      ensures exists mss: u16 :: out[i].window == AdvertisedWindow(d.rcv, mss)
    {
      assert out[i].window == AdvertisedWindow(d.rcv, SendMss(c.snd));
    }
  }

  lemma FinTells(c: Connection, now: Time)
    ensures var o := SendFin(c, now);
            o.Keep? && o.conn.rcv == c.rcv && AllTell(o.out, o.conn)
  {
    hide Emit, AllTell, Add;
    NothingTells(SendFin(c, now).conn);
    EmitTells(c.(snd := c.snd.(finPending := false)), SendFin(c, now).conn, c.snd.nxt, FIN + ACK, []);
  }

  lemma TransmitTells(c: Connection, now: Time)
    ensures var o := Transmit(c, now);
            o.Keep? && o.conn.rcv == c.rcv && AllTell(o.out, o.conn)
  {
    hide SendAll, DrainTx, PersistTimer, Unsent, Frames, AllTell, SendFin, ArmKeepalive;
    var (sent, pieces) := SendAll(DrainTx(c.snd), now);
    var d := c.(snd := PersistTimer(sent, now), keepalive := ArmKeepalive(c, now));
    FinTells(d, now);
    FramesTell(c, Transmit(c, now).conn, pieces);
    if d.snd.finPending && Unsent(d.snd) == 0 && d.snd.tx.Pending() == 0 {
      TellConcat(Frames(c, pieces), SendFin(d, now).out, SendFin(d, now).conn);
    }
  }

  lemma TimersTell(c: Connection, now: Time, maxRetries: nat)
    ensures c.snd.queue != [] ==>
              var o := OnRtoFired(c, now, maxRetries); if o.Keep? then AllTell(o.out, o.conn) else o.out == []
    ensures var o := OnPersistFired(c, now); o.Keep? && AllTell(o.out, o.conn)
    ensures c.keepalive.config.Some? ==>
              var o := OnKeepaliveFired(c, now); if o.Keep? then AllTell(o.out, o.conn) else o.out == []
    ensures var (d, acks) := FireDelayedAck(c, now); AllTell(acks, d)
  {
    hide Emit, AllTell, AfterTimeout, AfterBackoff, OldestPayload, FlightSize, Due, Add;
    NothingTells(c);
    NothingTells(FireDelayedAck(c, now).0);
    EmitTells(FireDelayedAck(c, now).0, FireDelayedAck(c, now).0, c.snd.nxt, ACK, []);
    EmitTells(c, OnPersistFired(c, now).conn, Add(c.snd.una, FlightSize(c.snd)), ACK, [0]);
    if c.keepalive.config.Some? && OnKeepaliveFired(c, now).Keep? {
      EmitTells(c, OnKeepaliveFired(c, now).conn, Add(c.snd.una, U32_MAX), ACK, []);
    }
    if c.snd.queue != [] && OnRtoFired(c, now, maxRetries).Keep? {
      var d := OnRtoFired(c, now, maxRetries).conn;
      NothingTells(d);
      EmitTells(d, d, c.snd.queue[0].seqNo, ACK, OldestPayload(c.snd.(retries := c.snd.retries + 1)));
    }
  }

  lemma TickTells(c: Connection, now: Time, maxRetries: nat)
    ensures var o := OnTick(c, now, maxRetries); if o.Keep? then AllTell(o.out, o.conn) else o.out == []
  {
    hide OnRtoFired, OnPersistFired, OnKeepaliveFired, Transmit, FireDelayedAck, AllTell, Due;
    TimersTell(c, now, maxRetries);
    var (d, acks) := FireDelayedAck(c, now);
    TransmitTells(d, now);
    SameWindow(acks, d, Transmit(d, now).conn);
    TellConcat(acks, Transmit(d, now).out, Transmit(d, now).conn);
  }

  lemma SameWindow(out: seq<Segment>, c: Connection, d: Connection)
    requires AllTell(out, c) && d.rcv == c.rcv
    ensures AllTell(out, d)
  {
    hide AdvertisedWindow;
  }

  lemma PlainAckTells(c: Connection, d: Connection)
    requires d.rcv == c.rcv
    ensures AllTell([PlainAck(c)], d)
  {
    hide AllTell, Emit;
    EmitTells(c, d, c.snd.nxt, ACK, []);
  }

  lemma InboundTells(c: Connection, seg: Segment, now: Time)
    requires Synchronized(c.state)
    ensures var o := OnSegment(c, seg, now); if o.Keep? then AllTell(o.out, o.conn) else o.out == []
  {
    hide Receive, Acknowledge, UpdateWindow, AcknowledgeOnly, AcceptInOrder, PlainAck, FinInOrder, AcksEverything,
      TouchKeepalive,
      Add, InWindow, AllTell;
    var o := OnSegment(c, seg, now);
    PlainAckTells(c, c);
    if o.Keep? {
      NothingTells(o.conn);
      PlainAckTells(o.conn, o.conn);
      if c.state == TimeWait || Has(seg.flags, RST) {
        PlainAckTells(c, o.conn);
      }
    }
  }

  lemma StepTells(c: Connection, e: Event, now: Time, maxRetries: nat)
    requires Synchronized(c.state)
    ensures var o := Step(c, e, now, maxRetries);
            if o.Keep? then AllTell(o.out, o.conn) else AllTell(o.out, c)
  {
    hide OnSegment, OnTick, AllTell, DrainTx, Unsent, SendFin;
    var o := Step(c, e, now, maxRetries);
    NothingTells(c);
    if e.Inbound? {
      InboundTells(c, e.seg, now);
    } else if e.Tick? {
      TickTells(c, now, maxRetries);
    } else if e.ShutdownWrite? {
      QuietShutdown(c, now);
      NothingTells(o.conn);
      FinTells(c.(snd := DrainTx(c.snd.(finPending := true))), now);
    } else if e.Abort? {
      AbortTells(c);
    } else {
      NothingTells(o.conn);
    }
  }

  lemma AbortTells(c: Connection)
    ensures AllTell(OnAbort(c).out, c)
  {
    hide AdvertisedWindow;
  }

  // ---------------------------------------------------------------- room

  // Every acknowledgment under way tells an edge within the room.
  ghost predicate EdgesWithin(fs: set<Flight>, scale: u8, room: nat) {
    forall f :: f in fs && Has(f.seg.flags, ACK) ==> f.ackPos + ShiftLeft(f.seg.window, scale) <= room
  }

  /** Nothing has been sent beyond the receiver's room, and as long as the
      sender may send data its limit and every edge it may still be told lie
      within it. */
  ghost predicate WithinRoom(net: Net, w: Progress) {
    && net.a.snd.scale == net.b.rcv.scale <= 14
    && |w.cuts| >= 1 && Last(w.cuts) <= Room(net.b)
    && (!SentFin(net.a.state) ==>
          && UnaPos(net.a) + net.a.snd.wnd <= Room(net.b)
          && EdgesWithin(net.ba, net.a.snd.scale, Room(net.b)))
  }

  lemma EdgesGrow(fs: set<Flight>, scale: u8, room: nat, room': nat)
    requires EdgesWithin(fs, scale, room) && room <= room'
    ensures EdgesWithin(fs, scale, room')
  {
    hide ShiftLeft, Has;
  }

  // What a receiver tells fits its room.
  lemma ToldWithin(c: Connection, out: seq<Segment>, i: nat)
    requires i < |out| && AllTell(out, c) && c.rcv.scale <= 14 && c.rcv.rx.Valid() && c.rcv.rx.cap < TWO31
    ensures |c.rcv.rx.stream| + ShiftLeft(out[i].window, c.rcv.scale) <= Room(c)
  {
    hide AdvertisedWindow, Pow2;
    PeerWindow.ScaledUp(out[i].window, c.rcv.scale);
    if out[i].window != 0 {
      var mss: u16 :| out[i].window == AdvertisedWindow(c.rcv, mss);
      WindowSafety.EdgeWithinRing(c.rcv, mss);
      assert c.rcv.scale % 32 == c.rcv.scale;
    }
  }

  lemma NewEdgesWithin(fs: set<Flight>, c: Connection, out: seq<Segment>)
    requires EdgesWithin(fs, c.rcv.scale, Room(c)) && AllTell(out, c) && !TookFin(c.state)
    requires c.rcv.scale <= 14 && c.rcv.rx.Valid() && c.rcv.rx.cap < TWO31
    ensures EdgesWithin(fs + Tagged(c, out), c.rcv.scale, Room(c))
  {
    hide ShiftLeft, Has, AllTell, NxtPos, Diff;
    forall f | f in Tagged(c, out)
      ensures f.ackPos + ShiftLeft(f.seg.window, c.rcv.scale) <= Room(c)
    {
      var i :| 0 <= i < |out| && f == Tag(c, out[i]);
      ToldWithin(c, out, i);
    }
  }

  /** Within the room, no write of the receiver is cut short. */
  lemma RoomMeansCleanWrites(net: Net, w: Progress, seg: Segment, pos: nat, ackPos: nat)
    requires Linked(net, w) && WithinRoom(net, w) && Flight(seg, pos, ackPos) in net.ab
    requires |net.b.rcv.rx.stream| - pos < TWO31
    ensures CleanWrites(net.b, seg)
  {
    hide Sending, DataGenuine, AcksGenuine, EverySent, Receiving, GenuineData, CleanReceive, EdgesWithin, UnaPos, SeqAt;
    var b, iss, stream := net.b, net.a.snd.iss, net.a.snd.tx.stream;
    SendingNumbers(net.a, w);
    ReceivingFacts(b, iss, stream, w, SentFin(net.a.state));
    DataArrives(net.ab, Flight(seg, pos, ackPos), iss, stream, w.cuts, SentFin(net.a.state));
    if seg.payload == [] {
      NothingToWrite(b.rcv, seg);
    } else {
      DataHasNoFin(seg, pos, iss, stream, w.cuts, SentFin(net.a.state));
      PartBelowLast(w.cuts, pos);
      if b.state == Established {
        RoomMeansCleanArrival(b, w, seg, pos, iss, stream, SentFin(net.a.state));
      } else if b.state == FinWait1 || b.state == FinWait2 {
        RoomMeansWholeWrite(b, w, seg, pos, iss, stream, SentFin(net.a.state));
      }
    }
  }

  lemma NothingToWrite(r: Receiver, seg: Segment)
    requires seg.payload == []
    ensures CleanReceive(r, seg)
  {
  }

  lemma RoomMeansCleanArrival(b: Connection, w: Progress, seg: Segment, pos: nat, iss: Seq, stream: seq<u8>, fin: bool)
    requires b.state == Established && Receiving(b, iss, stream, w, fin) && Last(w.cuts) <= Room(b)
    requires Carries(seg, iss, stream, PartsOf(w.cuts), pos) && pos < Last(w.cuts) <= w.n + MAX_WINDOW
    requires w.n - pos < TWO31
    ensures CleanReceive(b.rcv, seg)
  {
    hide PartsOf, SeqAt, CleanReceive, Keyed, Through, Boundaries;
    var parts := PartsOf(w.cuts);
    var more := w.got[pos := seg.payload];
    forall p | p in more
      ensures p + |more[p]| <= Room(b)
    {
      PartBelowLast(w.cuts, p);
    }
    WindowSafety.RoomMeansCleanReceive(b.rcv, seg, stream, parts, w.n, w.got, pos);
  }

  lemma RoomMeansWholeWrite(b: Connection, w: Progress, seg: Segment, pos: nat, iss: Seq, stream: seq<u8>, fin: bool)
    requires (b.state == FinWait1 || b.state == FinWait2) && Receiving(b, iss, stream, w, fin)
    requires Last(w.cuts) <= Room(b)
    requires Carries(seg, iss, stream, PartsOf(w.cuts), pos) && PartsOf(w.cuts)[pos] <= Last(w.cuts) <= w.n + MAX_WINDOW
    requires w.n - pos < TWO31
    ensures seg.seqNo == b.rcv.nxt ==> b.rcv.rx.Accepted(seg.payload) == |seg.payload|
  {
    hide PartsOf, SeqAt, Settled, Boundaries;
    SeqAtAgrees(iss, pos, w.n);
  }

  // ---------------------------------------------------------------- steps

  /** The premises of a run without any about the receiver's writes: the
      sender heeds what it is told instead. */
  ghost predicate Heeded(net: Net, ev: NetEvent) {
    match ev
    case AtA(e, now, pos, ackPos) =>
      net.aLive ==>
        SenderFair(net, e, now, pos, ackPos) && (e.Inbound? && Acks(net.a, e.seg) ==> Heeds(net.a, e.seg))
    case AtB(e, now, pos, ackPos) =>
      net.bLive && e.Inbound? ==>
        Flight(e.seg, pos, ackPos) in net.ab && |net.b.rcv.rx.stream| - pos < TWO31
  }

  lemma HeededIsFair(net: Net, ev: NetEvent, w: Progress)
    requires Linked(net, w) && WithinRoom(net, w) && Heeded(net, ev)
    ensures Fair(net, ev)
  {
    hide Linked, WithinRoom, SenderFair, CleanWrites, Heeds;
    if ev.AtB? && net.bLive && ev.e.Inbound? {
      RoomMeansCleanWrites(net, w, ev.e.seg, ev.pos, ev.ackPos);
    }
  }

  // The limit after a step at the sender.
  lemma LimitKept(net: Net, e: Event, now: Time, pos: nat, ackPos: nat, maxRetries: nat, w: Progress, d: Connection,
                  w': Progress)
    requires Linked(net, w) && WithinRoom(net, w) && SenderFair(net, e, now, pos, ackPos)
    requires e.Inbound? && Acks(net.a, e.seg) ==> Heeds(net.a, e.seg)
    requires Step(net.a, e, now, maxRetries).Keep? && d == Step(net.a, e, now, maxRetries).conn
    requires Sending(d, w') && Advances(net.a, d, w, w') && !SentFin(d.state)
    ensures UnaPos(d) + d.snd.wnd <= Room(net.b)
  {
    hide Sending, Receiving, DataGenuine, AcksGenuine, EverySent, Step, Heeds, Advances, UnaPos, SeqAt,
      AckedIsDelivered, EdgesWithin,
      PersistFires, Slips;
    NotFinYet(net.a, d, w, w');
    SendingWindow(net.a, w);
    if e.Inbound? && Acks(net.a, e.seg) {
      var took := TookFin(net.b.state);
      ReceivingFacts(net.b, net.a.snd.iss, net.a.snd.tx.stream, w, SentFin(net.a.state));
      AckArrives(net.ba, Flight(e.seg, pos, ackPos), net.a.snd.iss, w.cuts, w.n, took);
      SegmentStep(net.a, e.seg, now, maxRetries);
      LimitMoves(net.a, e.seg, now, ackPos, w, w');
      EdgeWithin(net.ba, Flight(e.seg, pos, ackPos), net.a.snd.scale, Room(net.b));
    } else {
      QuietStep(net.a, e, now, maxRetries);
      StaysNear(net.a, d, w, w');
      SamePosition(net.a.snd.iss, UnaPos(d), UnaPos(net.a));
    }
  }

  lemma NotFinYet(c: Connection, d: Connection, w: Progress, w': Progress)
    requires Advances(c, d, w, w') && !SentFin(d.state)
    ensures !SentFin(c.state)
  {
  }

  lemma SegmentStep(c: Connection, seg: Segment, now: Time, maxRetries: nat)
    ensures Step(c, Inbound(seg), now, maxRetries) == OnSegment(c, seg, now)
  {
    hide OnSegment;
  }

  lemma EdgeWithin(fs: set<Flight>, f: Flight, scale: u8, room: nat)
    requires EdgesWithin(fs, scale, room) && f in fs && Has(f.seg.flags, ACK)
    ensures f.ackPos + ShiftLeft(f.seg.window, scale) <= room
  {
    hide ShiftLeft;
  }

  // What a step adds to the partition ends within the limit.
  lemma CutsWithin(c: Connection, d: Connection, w: Progress, w': Progress, room: nat)
    requires Sending(c, w) && Advances(c, d, w, w') && |w.cuts| >= 1 && Last(w.cuts) <= room
    requires !SentFin(c.state) ==> UnaPos(c) + c.snd.wnd <= room
    ensures |w'.cuts| >= 1 && Last(w'.cuts) <= room
  {
    hide Sending, UnaPos;
    SendingNumbers(c, w);
  }

  lemma SenderKeepsRoom(net: Net, e: Event, now: Time, pos: nat, ackPos: nat, maxRetries: nat, w: Progress)
    returns (w': Progress)
    requires Linked(net, w) && WithinRoom(net, w) && net.aLive && SenderFair(net, e, now, pos, ackPos)
    requires e.Inbound? && Acks(net.a, e.seg) ==> Heeds(net.a, e.seg)
    ensures var next := StepA(net, e, now, maxRetries);
            Linked(next, w') && WithinRoom(next, w')
  {
    hide Linked, SenderFair, Heeds, Acks, Step, Tagged, EdgesWithin, UnaPos, Sending, Receiving, Advances, Room;
    w' := StepAtSender(net, e, now, pos, ackPos, maxRetries, w);
    var o := Step(net.a, e, now, maxRetries);
    LinkedParts(net, w);
    LinkedParts(StepA(net, e, now, maxRetries), w');
    CutsWithin(net.a, StepA(net, e, now, maxRetries).a, w, w', Room(net.b));
    if o.Keep? {
      StepTerms(net.a, e, now, maxRetries);
      if !SentFin(o.conn.state) {
        NotFinYet(net.a, o.conn, w, w');
        LimitKept(net, e, now, pos, ackPos, maxRetries, w, o.conn, w');
      }
    }
  }

  lemma LinkedParts(net: Net, w: Progress)
    requires Linked(net, w)
    ensures Sending(net.a, w) && Synchronized(net.a.state) && Synchronized(net.b.state)
    ensures Receiving(net.b, net.a.snd.iss, net.a.snd.tx.stream, w, SentFin(net.a.state))
    ensures TookFin(net.b.state) ==> SentFin(net.a.state)
    ensures |net.b.rcv.rx.stream| == w.n && |w.cuts| >= 1 && w.n <= Last(w.cuts) && RingSane(net.b.rcv.rx)
  {
    hide Settled, TracksFrom, Finished, DataGenuine, AcksGenuine, EverySent, SeqAt;
  }

  // A step at b on the sender's side of the network.
  lemma ReceiverKeepsRoom(net: Net, d: Connection, out: seq<Segment>, w: Progress, w': Progress, live: bool)
    requires WithinRoom(net, w) && w'.cuts == w.cuts && SameTerms(net.b, d) && AllTell(out, d)
    requires var next := net.(b := d, bLive := live, ba := net.ba + Tagged(d, out)); Linked(next, w')
    ensures WithinRoom(net.(b := d, bLive := live, ba := net.ba + Tagged(d, out)), w')
  {
    hide Linked, AllTell, Tagged, EdgesWithin, UnaPos;
    var next := net.(b := d, bLive := live, ba := net.ba + Tagged(d, out));
    LinkedParts(next, w');
    if !SentFin(net.a.state) {
      EdgesGrow(net.ba, d.rcv.scale, Room(net.b), Room(d));
      NewEdgesWithin(net.ba, d, out);
    }
  }

  lemma SameTermsSelf(c: Connection)
    ensures SameTerms(c, c)
  {
  }

  lemma ReceiverStepKeepsRoom(net: Net, e: Event, now: Time, pos: nat, ackPos: nat, maxRetries: nat, w: Progress)
    returns (w': Progress)
    requires Linked(net, w) && WithinRoom(net, w) && net.bLive && ReceiverFair(net, e, pos, ackPos)
    ensures var next := Flip(StepA(Flip(net), e, now, maxRetries));
            Linked(next, w') && WithinRoom(next, w')
  {
    hide Linked, WithinRoom, ReceiverFair, Step, Tagged, StepA, Flip, AllTell, SameTerms;
    w' := StepAtReceiver(net, e, now, pos, ackPos, maxRetries, w);
    var o := Step(net.b, e, now, maxRetries);
    LinkedParts(net, w);
    StepB(net, e, now, maxRetries);
    StepTerms(net.b, e, now, maxRetries);
    StepTells(net.b, e, now, maxRetries);
    if o.Keep? {
      assert Flip(StepA(Flip(net), e, now, maxRetries)) ==
             net.(b := o.conn, bLive := true, ba := net.ba + Tagged(o.conn, o.out));
      ReceiverKeepsRoom(net, o.conn, o.out, w, w', true);
    } else {
      SameTermsSelf(net.b);
      assert Flip(StepA(Flip(net), e, now, maxRetries)) ==
             net.(b := net.b, bLive := false, ba := net.ba + Tagged(net.b, o.out));
      ReceiverKeepsRoom(net, net.b, o.out, w, w', false);
    }
  }

  /** One step at either side. */
  lemma StepKeepsRoom(net: Net, ev: NetEvent, maxRetries: nat, w: Progress) returns (w': Progress)
    requires Linked(net, w) && WithinRoom(net, w) && Heeded(net, ev)
    ensures Linked(NetStep(net, ev, maxRetries), w') && WithinRoom(NetStep(net, ev, maxRetries), w')
  {
    hide Linked, WithinRoom, StepA, SenderFair, CleanWrites, Heeds, Acks;
    w' := w;
    HeededIsFair(net, ev, w);
    match ev {
      case AtA(e, now, pos, ackPos) =>
        if net.aLive {
          w' := SenderKeepsRoom(net, e, now, pos, ackPos, maxRetries, w);
        } else {
          DeadStep(net, e, now, maxRetries);
        }
      case AtB(e, now, pos, ackPos) =>
        if net.bLive {
          w' := ReceiverStepKeepsRoom(net, e, now, pos, ackPos, maxRetries, w);
        } else {
          DeadStep(Flip(net), e, now, maxRetries);
        }
    }
  }

  // ---------------------------------------------------------------- runs

  ghost predicate AllHeeded(net: Net, events: seq<NetEvent>, maxRetries: nat)
    decreases |events|
  {
    events == [] ||
    (Heeded(net, events[0]) && AllHeeded(NetStep(net, events[0], maxRetries), events[1..], maxRetries))
  }

  lemma {:induction false} RunKeepsRoom(net: Net, events: seq<NetEvent>, maxRetries: nat, w: Progress)
    returns (w': Progress)
    requires Linked(net, w) && WithinRoom(net, w) && AllHeeded(net, events, maxRetries)
    ensures Behaved(net, events, maxRetries)
    ensures var end := NetRun(net, events, maxRetries); Linked(end, w') && WithinRoom(end, w')
    decreases |events|
  {
    hide Linked, WithinRoom, NetStep, Heeded, Fair;
    w' := w;
    if events != [] {
      HeededIsFair(net, events[0], w);
      w' := StepKeepsRoom(net, events[0], maxRetries, w);
      w' := RunKeepsRoom(NetStep(net, events[0], maxRetries), events[1..], maxRetries, w');
    }
  }

  // The windows of the handshake fit the ring they are about.
  ghost predicate Fits(net: Net) {
    && net.a.snd.scale == net.b.rcv.scale && net.a.snd.wnd <= net.b.rcv.rx.cap
    && EdgesWithin(net.ba, net.a.snd.scale, net.b.rcv.rx.cap)
  }

  // Nothing a has ever sent ends beyond b's room.
  ghost predicate NeverOverruns(net: Net) {
    forall f :: f in net.ab && f.seg.payload != [] ==> f.pos + |f.seg.payload| <= Room(net.b)
  }

  lemma FitsWithinRoom(net: Net)
    requires Connected(net) && Fits(net)
    ensures WithinRoom(net, START)
  {
    hide EdgesWithin, Handshaking, SeqAt;
    PairedSending(net.a);
    SendingNumbers(net.a, START);
  }

  // A segment under way ends at or before the last boundary.
  lemma EndsInRoom(net: Net, w: Progress, f: Flight)
    requires Linked(net, w) && WithinRoom(net, w) && f in net.ab && f.seg.payload != []
    ensures f.pos + |f.seg.payload| <= Room(net.b)
  {
    hide Sending, Receiving, AcksGenuine, EverySent, DataGenuine, GenuineData, EdgesWithin, UnaPos, PartsOf, SeqAt,
      Boundaries;
    SendingNumbers(net.a, w);
    DataArrives(net.ab, f, net.a.snd.iss, net.a.snd.tx.stream, w.cuts, SentFin(net.a.state));
    DataHasNoFin(f.seg, f.pos, net.a.snd.iss, net.a.snd.tx.stream, w.cuts, SentFin(net.a.state));
    PartBelowLast(w.cuts, f.pos);
  }

  /** Over every run in which the sender heeds what it is told, from a
      handshake whose windows fit: nothing is ever sent beyond the room of the
      receiver's ring, no write is cut short, and the stream stays intact. */
  lemma HeededRunsNeverOverrun(net: Net, events: seq<NetEvent>, maxRetries: nat)
    requires Connected(net) && Fits(net) && AllHeeded(net, events, maxRetries)
    ensures Behaved(net, events, maxRetries)
    ensures var end := NetRun(net, events, maxRetries);
            NeverOverruns(end) && Intact(end)
  {
    hide Connected, Linked, WithinRoom, NetRun, Behaved, AllHeeded, Fits, Intact;
    ConnectedLinked(net);
    FitsWithinRoom(net);
    var w := RunKeepsRoom(net, events, maxRetries, START);
    var end := NetRun(net, events, maxRetries);
    forall f | f in end.ab && f.seg.payload != []
      ensures f.pos + |f.seg.payload| <= Room(end.b)
    {
      EndsInRoom(end, w, f);
    }
    LinkedIntact(end, w);
  }
}
