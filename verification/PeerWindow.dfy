/** How the sender follows the window its peer advertises: where window
    updates keep it within the advertised edge, where they do not apply, and
    what the zero-window probe puts into the stream. */
module PeerWindow {
  import opened Types
  import opened SeqNum
  import opened ByteRing
  import opened Congestion
  import opened Tcb
  import opened SendStream
  import opened WindowSafety

  // ---------------------------------------------------------------- window updates

  lemma ScaledUp(w: u16, scale: u8)
    requires scale <= 14
    ensures ShiftLeft(w, scale) == w * Pow2(scale) <= MAX_WINDOW
  {
    hide Pow2;
    Pow2Monotone(scale, 14);
    Pow2Constants();
    ScaledBy(w, scale, Pow2(scale));
  }

  lemma ScaledBy(w: u16, scale: u8, p: nat)
    requires scale <= 14 && p == Pow2(scale) && p <= 0x4000
    ensures ShiftLeft(w, scale) == w * p <= MAX_WINDOW
  {
    hide Pow2;
    ProductMonotone(w, p, 0x4000);
    SmallModulo(w * p);
  }

  // A segment that acknowledges everything this receiver has and advertises its window.
  ghost predicate Tells(seg: Segment, iss: Seq, r: Receiver, mss: u16) {
    seg.ackNo == SeqAt(iss, |r.rx.stream|) && seg.window == AdvertisedWindow(r, mss)
  }

  lemma ToldWindow(s: Sender, seg: Segment, r: Receiver, mss: u16)
    requires WindowSane(s) && s.scale == r.scale && Tells(seg, s.iss, r, mss) && WindowUpdateApplies(s, seg)
    ensures |r.rx.stream| + UpdateWindow(s, seg).wnd == Edge(r, mss)
  {
    hide AdvertisedWindow, Pow2, WindowUpdateApplies, SeqAt;
    ScaledUp(seg.window, s.scale);
    assert s.scale % 32 == s.scale;
  }

  /** When the acknowledgment point and the window come from the same
      segment, SND.UNA + SND.WND is the edge the peer advertised, and what the
      transmit loop sends ends within it: within the bytes the peer's
      application had read plus the capacity of its ring. */
  lemma SenderStaysWithinEdge(s: Sender, seg: Segment, r: Receiver, mss: u16, now: Time, cuts: seq<nat>, u: nat, v: nat)
    returns (cuts': seq<nat>)
    requires Tracks(s, cuts, u) && u <= v < |cuts| && cuts[v] == |r.rx.stream| && s.scale == r.scale
    requires Tells(seg, s.iss, r, mss) && WindowUpdateApplies(Acknowledge(s, seg.ackNo), seg)
    ensures var t := UpdateWindow(Acknowledge(s, seg.ackNo), seg);
            var (end, sent) := SendAll(DrainTx(t), now);
            && cuts[v] + t.wnd == Edge(r, mss)
            && cuts <= cuts' && TracksFrom(end, cuts', cuts[v], v)
            && (sent != [] ==> Last(cuts') <= Edge(r, mss))
            && (sent != [] && r.rx.Valid() && r.rx.cap < TWO32 ==> Last(cuts') <= r.rx.taken + r.rx.cap)
  {
    hide SeqAt, Acknowledge, WindowUpdateApplies, UpdateWindow, TracksFrom, SendAll, DrainTx, SentAs,
      AdvertisedWindow, Edge, Latched;
    SelfWithin(s, cuts, u, v);
    AcknowledgeTracks(s, cuts, u, v);
    var a := Acknowledge(s, seg.ackNo);
    AcknowledgedScale(s, seg.ackNo);
    TracksSane(a, cuts, cuts[v], v);
    ToldWindow(a, seg, r, mss);
    var t := UpdateWindow(a, seg);
    UpdateTracks(a, seg, cuts, v);
    DrainTxTracks(t, cuts, cuts[v], v);
    DrainTxFrame(t);
    cuts' := SendAllTracks(DrainTx(t), now, cuts, cuts[v], v);
    if r.rx.Valid() && r.rx.cap < TWO32 {
      EdgeWithinRing(r, mss);
    }
  }

  /** Exactly when SND.UNA + SND.WND ends up within the edge that an
      acknowledgment advertises: when the segment updates the window, or the
      window it leaves in place is no larger. */
  lemma EdgeRespectedExactly(s: Sender, seg: Segment, r: Receiver, mss: u16, cuts: seq<nat>, u: nat, v: nat)
    requires Tracks(s, cuts, u) && u <= v < |cuts| && cuts[v] == |r.rx.stream| && s.scale == r.scale
    requires Tells(seg, s.iss, r, mss)
    ensures var a := Acknowledge(s, seg.ackNo);
            && a.una == SeqAt(s.iss, cuts[v])
            && (cuts[v] + UpdateWindow(a, seg).wnd <= Edge(r, mss) <==>
                WindowUpdateApplies(a, seg) || s.wnd <= ShiftLeft(seg.window, s.scale))
  {
    hide SeqAt, Acknowledge, WindowUpdateApplies, AdvertisedWindow, Latched, TracksFrom, Pow2, ShiftLeft;
    SelfWithin(s, cuts, u, v);
    AcknowledgeTracks(s, cuts, u, v);
    var a := Acknowledge(s, seg.ackNo);
    AcknowledgedScale(s, seg.ackNo);
    TracksSane(a, cuts, cuts[v], v);
    TracksBoundaries(a, cuts, cuts[v], v);
    ScaledUp(seg.window, s.scale);
    assert s.scale % 32 == s.scale;
  }

  lemma SelfWithin(s: Sender, cuts: seq<nat>, u: nat, v: nat)
    requires Tracks(s, cuts, u) && u <= v < |cuts|
    ensures cuts[u] - cuts[v] < TWO31 && (if v > u then v else u) == v
  {
    assert cuts[u] <= cuts[v];
  }

  lemma TracksSane(s: Sender, cuts: seq<nat>, base: nat, u: nat)
    requires TracksFrom(s, cuts, base, u)
    ensures WindowSane(s)
  {
  }

  lemma AcknowledgedScale(s: Sender, ackNo: Seq)
    ensures var a := Acknowledge(s, ackNo);
            a.scale == s.scale && a.iss == s.iss && a.wnd == s.wnd && a.tx == s.tx
  {
    hide Retained, Rebased, AfterAck;
  }

  lemma UpdateTracks(s: Sender, seg: Segment, cuts: seq<nat>, u: nat)
    requires u < |cuts| && TracksFrom(s, cuts, cuts[u], u)
    ensures TracksFrom(UpdateWindow(s, seg), cuts, cuts[u], u)
  {
    hide Partition, SeqAt, ShiftLeft, Boundaries;
    ShiftBound(seg.window, s.scale);
  }

  /** The handshake leaves SND.WL1 and SND.WL2 at zero instead of the peer's
      numbers, so until the first update only these segments update the window. */
  lemma FirstUpdateExactly(s: Sender, seg: Segment)
    requires s.wl1 == s.wl2 == 0
    ensures WindowUpdateApplies(s, seg) <==>
            || 0 < seg.seqNo < TWO31
            || seg.ackNo == 0
            || (seg.seqNo == 0 && seg.ackNo < TWO31 && Le(seg.ackNo, s.nxt))
  {
  }

  /** A peer whose numbers start in the upper half is not heard: its
      acknowledgments move SND.UNA and its window advertisements, even of
      zero, change nothing. */
  lemma UpperHalfIsNotHeard(s: Sender, seg: Segment)
    requires s.wl1 == s.wl2 == 0 && seg.seqNo >= TWO31 && seg.ackNo != 0
    ensures UpdateWindow(s, seg) == s && UpdateWindow(Acknowledge(s, seg.ackNo), seg) == Acknowledge(s, seg.ackNo)
  {
    hide Retained, Rebased, AfterAck;
  }

  // An acknowledgment that carries nothing else.
  predicate BareAck(seg: Segment) {
    Has(seg.flags, ACK) && !Has(seg.flags, RST) && !Has(seg.flags, FIN) && seg.payload == []
  }

  lemma BareAckStep(c: Connection, seg: Segment, now: Time)
    requires c.state == Established && BareAck(seg)
    ensures OnSegment(c, seg, now) == Keep(c.(snd := UpdateWindow(Acknowledge(c.snd, seg.ackNo), seg)), [])
  {
    hide Acknowledge, UpdateWindow;
  }

  /** On the connection: after an acknowledgment that closes the window but
      does not update it, whatever the next quiet tick sends lies beyond the
      edge. */
  lemma ClosedWindowOverrun(c: Connection, seg: Segment, r: Receiver, mss: u16, now: Time, later: Time, maxRetries: nat,
                            cuts: seq<nat>, u: nat, v: nat)
    requires c.state == Established && Tracks(c.snd, cuts, u) && u <= v < |cuts| && cuts[v] == |r.rx.stream|
    requires BareAck(seg) && Tells(seg, c.snd.iss, r, mss) && seg.window == 0
    requires !WindowUpdateApplies(Acknowledge(c.snd, seg.ackNo), seg)
    ensures OnSegment(c, seg, now).Keep?
    ensures var d := OnSegment(c, seg, now).conn;
            && d.snd.wnd == c.snd.wnd && Edge(r, mss) == cuts[v] <= Last(cuts)
            && (Quiet(d, later) && CanSend(DrainTx(d.snd)) ==>
                  var len, out := NextLen(DrainTx(d.snd)), OnTick(d, later, maxRetries).out;
                  && |out| >= 1 && len >= 1 && Last(cuts) + len <= |c.snd.tx.stream|
                  && out[0].seqNo == SeqAt(c.snd.iss, Last(cuts))
                  && out[0].payload == c.snd.tx.stream[Last(cuts)..Last(cuts) + len])
  {
    hide SeqAt, Acknowledge, WindowUpdateApplies, AdvertisedWindow, TracksFrom, OnTick, OnSegment, CanSend, DrainTx,
      NextLen,
      NextPayload, Quiet, Pow2, Latched, BareAck, EffectiveWindow;
    SelfWithin(c.snd, cuts, u, v);
    AcknowledgeTracks(c.snd, cuts, u, v);
    var t := Acknowledge(c.snd, seg.ackNo);
    AcknowledgedScale(c.snd, seg.ackNo);
    BareAckStep(c, seg, now);
    TracksBoundaries(t, cuts, cuts[v], v);
    var d := c.(snd := t);
    assert OnSegment(c, seg, now) == Keep(d, []);
    if Quiet(d, later) && CanSend(DrainTx(t)) {
      QuietTick(d, later, maxRetries);
      TransmitFirst(d, later);
      DrainTxTracks(t, cuts, cuts[v], v);
      DrainTxFrame(t);
      NextFits(DrainTx(t), cuts, cuts[v], v);
      TracksBoundaries(DrainTx(t), cuts, cuts[v], v);
    }
  }

  // An established connection with four bytes of six in flight to a peer that allowed four.
  function SampleEstablished(): Connection {
    var s := SampleSender().(wnd := 4, tx := Ring(65536, [1, 2, 3, 4, 5, 6], 6), buf := [1, 2, 3, 4, 5, 6]);
    Connection(FourTuple(Addr(1, 1), Addr(2, 2)), Established, s, NewReceiver(65536, 0, Ring(65536, [], 0)),
               Keepalive(None, None, 0), None, None, Handle(Established, false, None))
  }

  // The peer, numbered in the upper half, acknowledges them and closes its window.
  function SampleClosing(): Segment { Segment(Addr(2, 2), Addr(1, 1), TWO31, 5, ACK, 0, NO_OPTIONS, []) }

  /** One input: the connection takes the acknowledgment, and the next tick
      sends two more bytes, past every edge the peer has advertised. */
  lemma ClosedWindowIgnored(now: Time, maxRetries: nat)
    ensures Tracks(SampleEstablished().snd, [0, 4], 0)
    ensures var d := OnSegment(SampleEstablished(), SampleClosing(), now).conn;
            var out := OnTick(d, now, maxRetries).out;
            d.snd.una == SeqAt(0, 4) && |out| >= 1 && out[0].seqNo == SeqAt(0, 4) && out[0].payload == [5, 6]
  {
    hide OnTick, OnSegment, NextPayload, CanSend, DrainTx, Tracks, WindowUpdateApplies;
    var c, seg := SampleEstablished(), SampleClosing();
    ClosedSampleTracks();
    ClosedSampleBare();
    BareAckStep(c, seg, now);
    UpperHalfIsNotHeard(c.snd, seg);
    var d := c.(snd := Acknowledge(c.snd, seg.ackNo));
    ClosedSampleSends(d, now);
    QuietTick(d, now, maxRetries);
    TransmitFirst(d, now);
  }

  lemma ClosedSampleTracks()
    ensures Tracks(SampleEstablished().snd, [0, 4], 0)
  {
    var s := SampleEstablished().snd;
    assert s.tx.stream[0..6] == s.buf;
  }

  lemma ClosedSampleBare()
    ensures BareAck(SampleClosing())
  {
  }

  lemma ClosedSampleSends(d: Connection, now: Time)
    requires d == SampleEstablished().(snd := Acknowledge(SampleEstablished().snd, 5))
    ensures Quiet(d, now) && CanSend(DrainTx(d.snd)) && NextPayload(DrainTx(d.snd)) == [5, 6]
    ensures d.snd.una == DrainTx(d.snd).nxt == SeqAt(0, 4)
  {
    hide AfterAck, DrainTx, AvailableWindow;
    var s := SampleEstablished().snd;
    var q := s.queue;
    assert q[1..] == [];
    assert Retained(q, 5) == [];
    ClosedSampleRoom(d.snd);
  }

  lemma ClosedSampleRoom(t: Sender)
    requires t == Acknowledge(SampleEstablished().snd, 5) && t.queue == []
    ensures AvailableWindow(DrainTx(t)) == 4 && DrainTx(t).buf == [5, 6] && SendMss(DrainTx(t)) == 536
    ensures DrainTx(t).(buf := t.buf, tx := t.tx) == t
  {
    hide Retained, Rebased;
  }

  // ---------------------------------------------------------------- the zero-window probe

  /** The probe carries a zero byte under the number SND.NXT: it is the next
      byte of the stream if and only if that byte is zero. */
  lemma ProbeCarriesExactly(c: Connection, now: Time, cuts: seq<nat>, base: nat, u: nat)
    requires TracksFrom(c.snd, cuts, base, u) && Unsent(c.snd) > 0
    ensures var o := OnPersistFired(c, now);
            var p := Last(cuts);
            && o.Keep? && |o.out| == 1 && p < |c.snd.tx.stream|
            && o.out[0].seqNo == SeqAt(c.snd.iss, p)
            && (o.out[0].payload == c.snd.tx.stream[p..p + 1] <==> c.snd.tx.stream[p] == 0)
  {
    hide SeqAt, AdvertisedWindow, Partition, Boundaries;
    TracksBasics(c.snd, cuts, base, u);
    TracksBoundaries(c.snd, cuts, base, u);
    SeqAtAdd(c.snd.iss, cuts[u], Last(cuts) - cuts[u]);
    var p := Last(cuts);
    assert c.snd.tx.stream[p..p + 1] == [c.snd.tx.stream[p]];
  }

  /** A receiver with room takes the probe as data: its stream stays a prefix
      of the written one if and only if the next byte is zero. It then
      acknowledges a number the sender has not sent, which the sender does
      not accept. */
  lemma ProbeIsDelivered(c: Connection, r: Receiver, now: Time, cuts: seq<nat>, base: nat, u: nat)
    requires TracksFrom(c.snd, cuts, base, u) && Unsent(c.snd) > 0
    requires r.irs == c.snd.iss && r.nxt == c.snd.nxt && r.reorder == map[]
    requires |r.rx.stream| == Last(cuts) && r.rx.stream <= c.snd.tx.stream && r.rx.Free() >= 1
    ensures var probe := Emit(c, Add(c.snd.una, FlightSize(c.snd)), ACK, [0]);
            var r' := Receive(r, probe, now).0;
            && OnPersistFired(c, now).out == [probe]
            && r'.rx.stream == r.rx.stream + [0] && r'.nxt == SeqAt(c.snd.iss, Last(cuts) + 1)
            && (r'.rx.stream <= c.snd.tx.stream <==> c.snd.tx.stream[Last(cuts)] == 0)
            && !Acceptable(c.snd, r'.nxt)
  {
    hide SeqAt, AdvertisedWindow, TracksFrom, Receive, Lt, Add;
    ProbeCarriesExactly(c, now, cuts, base, u);
    TracksBoundaries(c.snd, cuts, base, u);
    TracksBasics(c.snd, cuts, base, u);
    var probe := Emit(c, Add(c.snd.una, FlightSize(c.snd)), ACK, [0]);
    var p := Last(cuts);
    OneByteTaken(r, probe, now);
    SeqAtAdd(c.snd.iss, p, 1);
    SeqAtAgrees(c.snd.iss, p + 1, p);
    assert c.snd.tx.stream[..p] == r.rx.stream;
    assert c.snd.tx.stream[..p + 1] == r.rx.stream + [c.snd.tx.stream[p]];
  }

  lemma OneByteTaken(r: Receiver, seg: Segment, now: Time)
    requires |seg.payload| == 1 && seg.seqNo == r.nxt && r.reorder == map[] && r.rx.Free() >= 1
    ensures var r' := Receive(r, seg, now).0;
            r'.rx.stream == r.rx.stream + seg.payload && r'.nxt == Add(r.nxt, 1)
  {
    hide Add, Rekeyed, Diff;
    NothingToRekey();
    assert r.rx.Accepted(seg.payload) == 1;
    var a := Accept(r.(reorder := map[]), seg.payload);
    assert seg.payload[..1] == seg.payload;
    assert Drained(a) == (a, 0);
  }

  lemma NothingToRekey()
    ensures Rekeyed(map[], 1) == map[]
  {
  }

  // ---------------------------------------------------------------- stale updates

  /** After an update from x the window is x's, scaled; a segment y that is
      older by its number replaces it if and only if it acknowledges the same
      number, one of the same number if and only if it acknowledges at least as
      much and nothing not sent, and a newer one always. */
  lemma StaleUpdateExactly(s: Sender, x: Segment, y: Segment)
    requires WindowUpdateApplies(s, x)
    ensures var t := UpdateWindow(s, x);
            && t.wnd == ShiftLeft(x.window, s.scale) && t == s.(wnd := t.wnd, wl1 := t.wl1, wl2 := t.wl2)
            && (Gt(x.seqNo, y.seqNo) ==> (WindowUpdateApplies(t, y) <==> y.ackNo == x.ackNo))
            && (x.seqNo == y.seqNo ==>
                  (WindowUpdateApplies(t, y) <==> y.ackNo == x.ackNo || (Gt(y.ackNo, x.ackNo) && Le(y.ackNo, s.nxt))))
            && (Gt(y.seqNo, x.seqNo) ==> WindowUpdateApplies(t, y))
            && (!WindowUpdateApplies(t, y) ==> UpdateWindow(t, y) == t)
  {
    hide ShiftLeft;
  }
}
