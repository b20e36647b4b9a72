/** The three-way handshake, carried out by two engines on each other's
    segments, leaves a pair of connections from which every run is intact. */
module Handshake {
  import opened Types
  import opened SeqNum
  import opened Congestion
  import opened Tcb
  import opened SendStream
  import opened Network
  import opened EndToEnd
  import opened Engine
  import FlowControl
  import PeerWindow

  // The two ends and everything they sent on the way.
  datatype Exchange = Exchange(a: State, b: State, syn: Segment, synAck: Segment, ack: Segment)

  /** Connect, SYN, SYN-ACK, ACK, each handed to the other engine. */
  ghost function ShakeHands(ca: Config, cb: Config, a: State, b: State, local: Addr, remote: Addr, x: Seq, y: Seq,
                            now: Time): Option<Exchange> {
    var (a1, syn) := Commanded(ca, a, Connect(local, remote, x), now);
    if |syn.out| != 1 then None
    else
      var (b1, synAck) := Received(cb, b, syn.out[0], y, now);
      if |synAck.out| != 1 then None
      else
        var (a2, ack) := Received(ca, a1, synAck.out[0], 0, now);
        if |ack.out| != 1 then None
        else
          var (b2, _) := Received(cb, b1, ack.out[0], 0, now);
          Some(Exchange(a2, b2, syn.out[0], synAck.out[0], ack.out[0]))
  }

  // The initiator after the SYN-ACK.
  ghost function Initiator(ca: Config, cb: Config, local: Addr, remote: Addr, x: Seq, y: Seq, now: Time): Outcome {
    var c := Opened(ca, FourTuple(local, remote), x, now);
    OnSynSent(c, SynAckFor(Embryo(cb, SynFor(c), y, now)))
  }

  // The responder after the ACK.
  ghost function Responder(ca: Config, cb: Config, local: Addr, remote: Addr, x: Seq, y: Seq, now: Time): Connection {
    var d := Embryo(cb, SynFor(Opened(ca, FourTuple(local, remote), x, now)), y, now);
    Enter(d.(snd := d.snd.(una := Add(y, 1), rto := None)), Established)
  }

  lemma SynFlags()
    ensures Has(SYN, SYN) && !Has(SYN, ACK) && !Has(SYN, RST) && !Has(SYN, FIN)
    ensures Has(SYN + ACK, SYN) && Has(SYN + ACK, ACK) && !Has(SYN + ACK, RST) && !Has(SYN + ACK, FIN)
    ensures Has(ACK, ACK) && !Has(ACK, SYN) && !Has(ACK, RST) && !Has(ACK, FIN)
  {
  }

  // The SYN-ACK is for the SYN, and completes the active open.
  lemma InitiatorConnects(ca: Config, cb: Config, local: Addr, remote: Addr, x: Seq, y: Seq, now: Time)
    requires cb.defaultRcvScale <= 14
    ensures var o := Initiator(ca, cb, local, remote, x, y, now);
            && o.Keep? && |o.out| == 1 && o.conn.state == Established && o.conn.key == FourTuple(local, remote)
            && WindowSane(o.conn.snd) && o.conn.snd.iss == x
            && o.conn.snd.una == o.conn.snd.nxt == Add(x, 1) && o.conn.snd.buf == [] && o.conn.snd.queue == []
            && !o.conn.snd.hasUnacked && o.conn.snd.tx == EmptyRing()
            && o.conn.rcv.irs == y && o.conn.rcv.nxt == Add(y, 1) && o.conn.rcv.reorder == map[]
            && o.conn.rcv.rx == EmptyRing()
            && o.out[0].src == local && o.out[0].dst == remote && o.out[0].flags == ACK && o.out[0].payload == []
            && o.out[0].ackNo == Add(y, 1) && o.out[0].window == HandshakeWindow(ca.defaultRcvWnd)
            && o.conn.snd.scale == cb.defaultRcvScale && o.conn.rcv.scale == ca.defaultRcvScale
            && o.conn.snd.wnd == ShiftLeft(HandshakeWindow(cb.defaultRcvWnd), cb.defaultRcvScale)
            && o.conn.snd.localMss == ca.localMss && o.conn.snd.peerMss == cb.localMss
            && o.conn.snd.cong == New(Min(ca.localMss, cb.localMss)) && o.conn.snd.rto == None
            && o.conn.handle == Handle(Established, false, None)
  {
    hide New, ShiftLeft, HandshakeWindow, AdvertisedWindow;
    SynFlags();
    ShiftBound(HandshakeWindow(cb.defaultRcvWnd), cb.defaultRcvScale);
  }

  // The ACK is for the SYN-ACK, and completes the passive open.
  lemma ResponderConnects(ca: Config, cb: Config, local: Addr, remote: Addr, x: Seq, y: Seq, now: Time, ack: Segment)
    requires ca.defaultRcvScale <= 14 && ack.flags == ACK && ack.ackNo == Add(y, 1)
    ensures var d := Embryo(cb, SynFor(Opened(ca, FourTuple(local, remote), x, now)), y, now);
            var e := Responder(ca, cb, local, remote, x, y, now);
            && OnSegment(d, ack, now) == Keep(e, []) && d.state == SynReceived && d.key == FourTuple(remote, local)
            && CompletesPassiveOpen(d, ack)
            && e.state == Established && e.key == d.key && WindowSane(e.snd) && e.snd.iss == y
            && e.snd.una == e.snd.nxt == Add(y, 1) && e.snd.buf == [] && e.snd.queue == [] && !e.snd.hasUnacked
            && e.snd.tx == EmptyRing()
            && e.rcv.irs == x && e.rcv.nxt == Add(x, 1) && e.rcv.reorder == map[] && e.rcv.rx == EmptyRing()
            && e.snd.scale == ca.defaultRcvScale && e.rcv.scale == cb.defaultRcvScale
            && e.snd.wnd == ShiftLeft(HandshakeWindow(ca.defaultRcvWnd), ca.defaultRcvScale)
            && e.snd.localMss == cb.localMss && e.snd.peerMss == ca.localMss
            && e.snd.cong == New(Min(cb.localMss, ca.localMss)) && e.snd.rto == None
            && e.handle == Handle(Established, false, None)
  {
    hide New, ShiftLeft, HandshakeWindow;
    SynFlags();
    ShiftBound(HandshakeWindow(ca.defaultRcvWnd), ca.defaultRcvScale);
  }

  ghost function Meeting(e: Exchange, ka: FourTuple, kb: FourTuple): Net
    requires ka in e.a.tcbs && kb in e.b.tcbs
  {
    Net(e.a.tcbs[ka], e.b.tcbs[kb], true, true, {Flight(e.syn, 0, 0), Flight(e.ack, 0, 0)}, {Flight(e.synAck, 0, 0)})
  }

  // Engine a has room for a connection, engine b a listener that admits one.
  predicate CanMeet(ca: Config, cb: Config, a: State, b: State, local: Addr, remote: Addr, x: Seq, now: Time) {
    && |a.tcbs| < ca.maxTcbs && FourTuple(remote, local) !in b.tcbs
    && Admits(cb, b, SynFor(Opened(ca, FourTuple(local, remote), x, now)))
  }

  // The window that an engine's peer starts with: what the SYN carried, scaled.
  function FirstWindow(cfg: Config): u32 { ShiftLeft(HandshakeWindow(cfg.defaultRcvWnd), cfg.defaultRcvScale) }

  ghost predicate TermsExchanged(net: Net, ca: Config, cb: Config) {
    && net.a.snd.localMss == net.b.snd.peerMss == ca.localMss && net.b.snd.localMss == net.a.snd.peerMss == cb.localMss
    && net.a.snd.cong == net.b.snd.cong == New(Min(ca.localMss, cb.localMss))
    && net.a.snd.rto == net.b.snd.rto == None && net.a.snd.tx == net.b.snd.tx == EmptyRing()
    && net.a.handle == net.b.handle == Handle(Established, false, None)
    && net.a.snd.scale == net.b.rcv.scale == cb.defaultRcvScale && net.a.snd.wnd == FirstWindow(cb)
    && net.b.snd.scale == net.a.rcv.scale == ca.defaultRcvScale && net.b.snd.wnd == FirstWindow(ca)
    && net.a.rcv.rx.cap == net.b.rcv.rx.cap == RING_CAPACITY
    && (forall f :: f in net.ba && Has(f.seg.flags, ACK) ==>
          f.ackPos == 0 && f.seg.window == HandshakeWindow(cb.defaultRcvWnd))
    && (forall f :: f in net.ab && Has(f.seg.flags, ACK) ==>
          f.ackPos == 0 && f.seg.window == HandshakeWindow(ca.defaultRcvWnd))
  }

  /** A connect against a listening engine that admits it leaves the two
      connections facing each other, with only handshake segments under way
      and each sender holding its peer's window and scale. */
  lemma HandshakeConnects(ca: Config, cb: Config, a: State, b: State, local: Addr, remote: Addr, x: Seq, y: Seq,
                          now: Time)
    requires CanMeet(ca, cb, a, b, local, remote, x, now) && ca.defaultRcvScale <= 14 && cb.defaultRcvScale <= 14
    ensures var e := ShakeHands(ca, cb, a, b, local, remote, x, y, now);
            var ka, kb := FourTuple(local, remote), FourTuple(remote, local);
            && e.Some? && ka in e.value.a.tcbs && kb in e.value.b.tcbs
            && Connected(Meeting(e.value, ka, kb)) && TermsExchanged(Meeting(e.value, ka, kb), ca, cb)
  {
    hide Connected, Opened, Embryo, OnSynSent, Admits, Completed, Initiator, Responder, WindowSane, SynFor,
      SynAckFor, ResetFor;
    hide CompletesPassiveOpen, OnSynReceived, OnReset, TermsExchanged, ShiftLeft, HandshakeWindow;
    var ka, kb := FourTuple(local, remote), FourTuple(remote, local);
    var c := Opened(ca, ka, x, now);
    var syn := SynFor(c);
    OpenedSends(ca, ka, x, now);
    var d := Embryo(cb, syn, y, now);
    EmbryoSends(cb, syn, y, now);
    SynFlags();
    InitiatorConnects(ca, cb, local, remote, x, y, now);
    InitiatorIs(ca, cb, local, remote, x, y, now);
    var o := Initiator(ca, cb, local, remote, x, y, now);
    NotPassive(c, SynAckFor(d));
    assert OnSegment(c, SynAckFor(d), now) == o;
    ResponderConnects(ca, cb, local, remote, x, y, now, o.out[0]);
    var e := Responder(ca, cb, local, remote, x, y, now);
    var result := Exchange(a.(tcbs := a.tcbs[ka := c][ka := o.conn]),
                           b.(tcbs := b.tcbs[kb := d][kb := e], listeners := Completed(b.listeners, kb).0),
                           syn, SynAckFor(d), o.out[0]);
    assert ShakeHands(ca, cb, a, b, local, remote, x, y, now) == Some(result);
    MeetingConnected(result, ka, kb, x, y);
    MeetingTerms(result, ka, kb, ca, cb);
  }

  lemma MeetingTerms(e: Exchange, ka: FourTuple, kb: FourTuple, ca: Config, cb: Config)
    requires ka in e.a.tcbs && kb in e.b.tcbs
    requires var c, d := e.a.tcbs[ka], e.b.tcbs[kb];
             && c.snd.scale == d.rcv.scale == cb.defaultRcvScale && d.snd.scale == c.rcv.scale == ca.defaultRcvScale
             && c.snd.wnd == FirstWindow(cb) && d.snd.wnd == FirstWindow(ca) && c.rcv.rx == d.rcv.rx == EmptyRing()
             && c.snd.localMss == d.snd.peerMss == ca.localMss && d.snd.localMss == c.snd.peerMss == cb.localMss
             && c.snd.cong == New(Min(ca.localMss, cb.localMss)) && d.snd.cong == New(Min(cb.localMss, ca.localMss))
             && c.snd.rto == d.snd.rto == None && c.snd.tx == d.snd.tx == EmptyRing()
             && c.handle == d.handle == Handle(Established, false, None)
    requires e.syn.flags == SYN && e.ack.window == HandshakeWindow(ca.defaultRcvWnd)
    requires e.synAck.window == HandshakeWindow(cb.defaultRcvWnd)
    ensures TermsExchanged(Meeting(e, ka, kb), ca, cb)
  {
    hide Has, FirstWindow, HandshakeWindow;
    SynFlags();
  }

  /** The first window fits the peer's ring, and with it everything that the
      handshake leaves under way, if and only if the 16-bit window shifted by
      the scale is at most the capacity. */
  lemma FirstWindowFitsExactly(net: Net, ca: Config, cb: Config)
    requires TermsExchanged(net, ca, cb) && cb.defaultRcvScale <= 14
    ensures FlowControl.Fits(net) <==> Min(cb.defaultRcvWnd, 0xFFFF) * Pow2(cb.defaultRcvScale) <= RING_CAPACITY
  {
    hide Pow2, Has, ShiftLeft;
    PeerWindow.ScaledUp(HandshakeWindow(cb.defaultRcvWnd), cb.defaultRcvScale);
  }

  /** With the default window of 65535 bytes and scale 7 it does not: the
      first window is 128 times what the ring can hold. */
  lemma DefaultsDoNotFit(net: Net, ca: Config, cb: Config)
    requires TermsExchanged(net, ca, cb) && cb.defaultRcvWnd == 65535 && cb.defaultRcvScale == 7
    ensures net.a.snd.wnd == 65535 * 128 > net.b.rcv.rx.cap && !FlowControl.Fits(net)
  {
    hide Has;
    SmallPow2();
    PeerWindow.ScaledUp(65535, 7);
  }

  // Both engines' windows fit the rings they are about.
  predicate WindowsFit(ca: Config, cb: Config) {
    && ca.defaultRcvScale <= 14 && Min(ca.defaultRcvWnd, 0xFFFF) * Pow2(ca.defaultRcvScale) <= RING_CAPACITY
    && cb.defaultRcvScale <= 14 && Min(cb.defaultRcvWnd, 0xFFFF) * Pow2(cb.defaultRcvScale) <= RING_CAPACITY
  }

  lemma TermsFlip(net: Net, ca: Config, cb: Config)
    requires TermsExchanged(net, ca, cb)
    ensures TermsExchanged(Flip(net), cb, ca)
  {
    hide FirstWindow, HandshakeWindow, Has;
  }

  lemma ConnectedFlip(net: Net)
    requires Connected(net)
    ensures Connected(Flip(net))
  {
    hide Paired, Handshaking;
  }

  /** From the connect on, for engines whose windows fit their rings: as long
      as both senders heed what they are told, neither ever overruns the other
      and both streams stay intact. */
  lemma FittingRunsNeverOverrun(ca: Config, cb: Config, a: State, b: State, local: Addr, remote: Addr, x: Seq, y: Seq,
                                now: Time, events: seq<NetEvent>, maxRetries: nat)
    requires CanMeet(ca, cb, a, b, local, remote, x, now) && WindowsFit(ca, cb)
    requires var e := ShakeHands(ca, cb, a, b, local, remote, x, y, now);
             var ka, kb := FourTuple(local, remote), FourTuple(remote, local);
             e.Some? && ka in e.value.a.tcbs && kb in e.value.b.tcbs ==>
               var net := Meeting(e.value, ka, kb);
               && FlowControl.AllHeeded(net, events, maxRetries)
               && FlowControl.AllHeeded(Flip(net), FlipEvents(events), maxRetries)
    ensures var e := ShakeHands(ca, cb, a, b, local, remote, x, y, now);
            var ka, kb := FourTuple(local, remote), FourTuple(remote, local);
            && e.Some? && ka in e.value.a.tcbs && kb in e.value.b.tcbs
            && var end := NetRun(Meeting(e.value, ka, kb), events, maxRetries);
               && Intact(end) && FlowControl.NeverOverruns(end)
               && Intact(Flip(end)) && FlowControl.NeverOverruns(Flip(end))
  {
    hide Connected, ShakeHands, CanMeet, NetRun, Intact, Meeting, TermsExchanged, FlowControl.AllHeeded,
      FlowControl.NeverOverruns, FlowControl.Fits, Pow2, Behaved;
    HandshakeConnects(ca, cb, a, b, local, remote, x, y, now);
    var e := ShakeHands(ca, cb, a, b, local, remote, x, y, now);
    var net := Meeting(e.value, FourTuple(local, remote), FourTuple(remote, local));
    FirstWindowFitsExactly(net, ca, cb);
    FlowControl.HeededRunsNeverOverrun(net, events, maxRetries);
    TermsFlip(net, ca, cb);
    ConnectedFlip(net);
    FirstWindowFitsExactly(Flip(net), cb, ca);
    FlowControl.HeededRunsNeverOverrun(Flip(net), FlipEvents(events), maxRetries);
    RunFlips(net, events, maxRetries);
  }

  /** From the connect on: whatever happens after the handshake, under the
      premises of each direction, both streams stay intact. */
  lemma ConnectedRunsStayIntact(ca: Config, cb: Config, a: State, b: State, local: Addr, remote: Addr, x: Seq,
                                y: Seq, now: Time,
                                events: seq<NetEvent>, maxRetries: nat)
    requires CanMeet(ca, cb, a, b, local, remote, x, now) && ca.defaultRcvScale <= 14 && cb.defaultRcvScale <= 14
    requires var e := ShakeHands(ca, cb, a, b, local, remote, x, y, now);
             var ka, kb := FourTuple(local, remote), FourTuple(remote, local);
             e.Some? && ka in e.value.a.tcbs && kb in e.value.b.tcbs ==>
               var net := Meeting(e.value, ka, kb);
               Behaved(net, events, maxRetries) && Behaved(Flip(net), FlipEvents(events), maxRetries)
    ensures var e := ShakeHands(ca, cb, a, b, local, remote, x, y, now);
            var ka, kb := FourTuple(local, remote), FourTuple(remote, local);
            && e.Some? && ka in e.value.a.tcbs && kb in e.value.b.tcbs
            && var end := NetRun(Meeting(e.value, ka, kb), events, maxRetries);
               Intact(end) && Intact(Flip(end))
  {
    hide Connected, ShakeHands, CanMeet, Behaved, NetRun, Intact, Meeting;
    HandshakeConnects(ca, cb, a, b, local, remote, x, y, now);
    var e := ShakeHands(ca, cb, a, b, local, remote, x, y, now);
    StreamsStayIntact(Meeting(e.value, FourTuple(local, remote), FourTuple(remote, local)), events, maxRetries);
  }

  lemma OpenedSends(ca: Config, ka: FourTuple, x: Seq, now: Time)
    ensures var c := Opened(ca, ka, x, now);
            var syn := SynFor(c);
            && c.key == ka && c.state == SynSent
            && syn.src == ka.local && syn.dst == ka.remote && syn.flags == SYN && syn.payload == []
  {
  }

  lemma EmbryoSends(cb: Config, syn: Segment, y: Seq, now: Time)
    ensures var d := Embryo(cb, syn, y, now);
            var synAck := SynAckFor(d);
            && d.key == FourTuple(syn.dst, syn.src)
            && synAck.src == syn.dst && synAck.dst == syn.src && synAck.flags == SYN + ACK && synAck.payload == []
            && synAck.ackNo == Add(syn.seqNo, 1) && synAck.window == HandshakeWindow(cb.defaultRcvWnd)
  {
    hide ShiftLeft, New;
  }

  lemma InitiatorIs(ca: Config, cb: Config, local: Addr, remote: Addr, x: Seq, y: Seq, now: Time)
    ensures var c := Opened(ca, FourTuple(local, remote), x, now);
            && Initiator(ca, cb, local, remote, x, y, now) == OnSynSent(c, SynAckFor(Embryo(cb, SynFor(c), y, now)))
            && SynFor(c).seqNo == x
  {
    hide OnSynSent, Embryo;
  }

  lemma NotPassive(c: Connection, seg: Segment)
    requires c.state == SynSent
    ensures !CompletesPassiveOpen(c, seg)
  {
  }

  lemma MeetingConnected(e: Exchange, ka: FourTuple, kb: FourTuple, x: Seq, y: Seq)
    requires ka in e.a.tcbs && kb in e.b.tcbs
    requires var c, d := e.a.tcbs[ka], e.b.tcbs[kb];
             && c.state == d.state == Established && WindowSane(c.snd) && WindowSane(d.snd)
             && c.snd.iss == x && d.snd.iss == y && d.rcv.irs == x && c.rcv.irs == y
             && c.snd.una == c.snd.nxt == d.rcv.nxt == Add(x, 1) && d.snd.una == d.snd.nxt == c.rcv.nxt == Add(y, 1)
             && c.snd.buf == d.snd.buf == [] && c.snd.queue == d.snd.queue == [] && !c.snd.hasUnacked
             && !d.snd.hasUnacked
             && c.snd.tx == d.snd.tx == c.rcv.rx == d.rcv.rx == EmptyRing()
             && c.rcv.reorder == d.rcv.reorder == map[]
    requires e.syn.flags == SYN && e.syn.payload == []
    requires e.synAck.flags == SYN + ACK && e.synAck.payload == [] && e.synAck.ackNo == Add(x, 1)
    requires e.ack.flags == ACK && e.ack.payload == [] && e.ack.ackNo == Add(y, 1)
    ensures Connected(Meeting(e, ka, kb))
  {
    hide Has, Add, WindowSane;
    SynFlags();
    assert SeqAt(x, 0) == Add(x, 1) by { FirstNumber(x); }
    assert SeqAt(y, 0) == Add(y, 1) by { FirstNumber(y); }
  }

  lemma FirstNumber(s: Seq)
    ensures SeqAt(s, 0) == Add(s, 1)
  {
  }
}
