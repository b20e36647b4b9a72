/** What a connection starts with, and what the socket options change. */
module Settings {
  import opened Types
  import opened SeqNum
  import opened ByteRing
  import opened Congestion
  import opened Tcb
  import opened Engine
  import Bytes
  import TcpOptionsCodec
  import opened Transmission

  // ---------------------------------------------------------------- creation

  /** A new connection, either way it opens: its SYN takes the first number,
      its timer is set, both rings hold 65536 bytes, Nagle's rule is on,
      keepalive and every other timer is off. */
  lemma FreshConnection(cfg: Config, key: FourTuple, iss: Seq, now: Time, seg: Segment)
    ensures var c := Opened(cfg, key, iss, now);
            c.state == SynSent && c.key == key && StartsFresh(c, cfg, iss, now)
    ensures var c := Embryo(cfg, seg, iss, now);
            && c.state == SynReceived && c.key == FourTuple(seg.dst, seg.src) && StartsFresh(c, cfg, iss, now)
            && c.rcv.irs == seg.seqNo && c.rcv.nxt == Add(seg.seqNo, 1)
  {
    hide InitialWindow, ShiftLeft, Add;
  }

  ghost predicate StartsFresh(c: Connection, cfg: Config, iss: Seq, now: Time) {
    && c.handle == Handle(c.state, false, None)
    && c.snd.iss == c.snd.una == iss && c.snd.nxt == Add(iss, 1) && c.snd.localMss == cfg.localMss
    && c.snd.buf == [] && c.snd.queue == [] && !c.snd.nodelay && !c.snd.hasUnacked && !c.snd.finPending
    && c.snd.rto == Some(now + cfg.initialRto) && c.snd.retries == 0 && c.snd.persist == None
    && c.snd.cong.rto == 1_000_000_000 && c.snd.cong.ssthresh == 0xFFFF_FFFF && !c.snd.cong.inRecovery
    && c.snd.tx == c.rcv.rx == Ring(65536, [], 0) && c.rcv.bufSize == 65536
    && c.rcv.wnd == cfg.defaultRcvWnd && c.rcv.scale == cfg.defaultRcvScale
    && c.rcv.reorder == map[] && c.rcv.sinceAck == 0 && c.rcv.delayedAck == None
    && c.keepalive == Keepalive(None, None, 0) && c.timeWait == None && c.finWait2 == None
  }

  /** The segments that open a connection: where they stand in the number
      space, the unscaled window, and the 24 bytes of options. */
  lemma OpeningSegments(c: Connection)
    ensures var syn, synAck := SynFor(c), SynAckFor(c);
            && syn.flags == 2 && syn.seqNo == c.snd.iss && synAck.flags == 18 && synAck.seqNo == c.snd.iss
            && synAck.ackNo == c.rcv.nxt && syn.payload == synAck.payload == []
            && syn.src == synAck.src == c.key.local && syn.dst == synAck.dst == c.key.remote
            && syn.window == synAck.window == Min(c.rcv.wnd, 65535) && syn.options == synAck.options
            && TcpOptionsCodec.Encoded(syn.options) ==
               [2, 4, c.snd.localMss / 256, c.snd.localMss % 256, 1, 3, 3, c.rcv.scale, 1, 1, 4, 2, 1, 1, 8, 10,
                0, 0, 0, 0, 0, 0, 0, 0]
  {
    hide Bytes.Be16, Bytes.Be32;
    StampAndSize(c.snd.localMss);
  }

  lemma StampAndSize(mss: u16)
    ensures Bytes.Be16(mss) == [mss / 256, mss % 256] && Bytes.Be32(0) == [0, 0, 0, 0]
  {
  }

  /** A peer that states no segment size is taken to accept 536 bytes, and one
      that states no scale to use none: on either side of the handshake. */
  lemma UnstatedTerms(cfg: Config, seg: Segment, iss: Seq, now: Time, c: Connection)
    requires seg.options.mss == None && seg.options.windowScale == None
    ensures var d := Embryo(cfg, seg, iss, now);
            d.snd.peerMss == 536 && d.snd.scale == 0 && d.snd.wnd == seg.window
    ensures OnSynSent(c, seg).conn.state == Established && c.state == SynSent ==>
              var d := OnSynSent(c, seg).conn;
              d.snd.peerMss == 536 && d.snd.scale == 0 && d.snd.wnd == seg.window
  {
    hide New, Emit, Add, Has;
    assert ShiftLeft(seg.window, 0) == seg.window;
  }

  /** The active open completes exactly on a SYN-ACK of its own SYN, the
      passive one exactly on an acknowledgment of its SYN-ACK without SYN. */
  lemma OpensExactly(c: Connection, seg: Segment, now: Time)
    requires (c.state == SynSent || c.state == SynReceived) && !Has(seg.flags, RST)
    ensures var o := OnSegment(c, seg, now);
            && o.Keep?
            && (o.conn.state == Established <==>
                  && Has(seg.flags, ACK) && (Has(seg.flags, SYN) <==> c.state == SynSent)
                  && seg.ackNo == Add(c.snd.iss, 1))
            && (o.conn.state != Established ==> o == Keep(c, []))
  {
    hide New, Emit, Add, Has, ShiftLeft;
  }

  // ---------------------------------------------------------------- options

  /** Nodelay switches Nagle's rule: with it on, the next transmit loop sends
      all that the windows allow; nothing else changes. */
  lemma NodelayTakesEffect(c: Connection, on: bool, now: Time)
    ensures var o := OnSetOption(c, Nodelay(on));
            && o.Keep? && o.out == [] && o.conn == c.(snd := o.conn.snd) && o.conn.snd == c.snd.(nodelay := on)
            && (on && SendMss(c.snd) >= 1 ==>
                  var (end, sent) := SendAll(o.conn.snd, now);
                  Total(sent) == Min(Unsent(c.snd), AvailableWindow(c.snd)))
  {
    hide SendAll, Total;
    var s := c.snd.(nodelay := on);
    if on && SendMss(c.snd) >= 1 {
      SendsExactly(s, now);
    }
  }

  /** Turning keepalive off stops its timer for good; turning it on leaves a
      running one to go on. */
  lemma KeepaliveSwitches(c: Connection, config: Option<KeepaliveConfig>, later: Time)
    ensures var o := OnSetOption(c, SetKeepalive(config));
            && o.Keep? && o.out == [] && o.conn == c.(keepalive := o.conn.keepalive)
            && o.conn.keepalive.config == config
            && (config.None? ==> !KeepaliveFires(o.conn, later) && o.conn.keepalive == Keepalive(None, None, 0))
            && (config.Some? ==>
                  o.conn.keepalive.deadline == c.keepalive.deadline && o.conn.keepalive.probes == c.keepalive.probes)
  {
  }

  /** The receive buffer size only ever narrows the window: no window told
      afterwards, scaled up, exceeds it. */
  lemma RecvBufSizeNarrows(c: Connection, size: nat, mss: u16)
    requires size < TWO32 && c.rcv.scale <= 14
    ensures var o := OnSetOption(c, RecvBufSize(size));
            && o.Keep? && o.out == [] && o.conn == c.(rcv := o.conn.rcv)
            && o.conn.rcv == c.rcv.(bufSize := size, wnd := o.conn.rcv.wnd)
            && o.conn.rcv.wnd <= c.rcv.wnd && o.conn.rcv.wnd <= size
            && (o.conn.rcv.wnd == c.rcv.wnd || o.conn.rcv.wnd == size)
            && AdvertisedWindow(o.conn.rcv, mss) * Pow2(c.rcv.scale) <= size
  {
    hide Pow2;
    var r := c.rcv.(bufSize := size, wnd := Min(c.rcv.wnd, size));
    assert size % TWO32 == size;
    ScaledDown(Min(r.rx.Free() % TWO32, r.wnd), r.scale);
    ScaledDown(0, r.scale);
  }

  lemma ScaledDown(w: u32, scale: u8)
    requires scale <= 14
    ensures Min(ShiftRight(w, scale), 0xFFFF) * Pow2(scale) <= w
  {
    hide Pow2;
    var p := Pow2(scale);
    assert scale % 32 == scale;
    assert w / p * p <= w;
    Less(Min(w / p, 0xFFFF), w / p, p);
  }

  lemma Less(a: nat, b: nat, p: nat)
    requires a <= b
    ensures a * p <= b * p
  {
  }

  /** Closing the read side marks the end of the stream and says nothing to
      the peer; reads and writes of the application touch only its rings. */
  lemma LocalEvents(c: Connection, data: seq<u8>, max: nat, now: Time, maxRetries: nat)
    ensures Step(c, ShutdownRead, now, maxRetries) == Keep(c.(handle := c.handle.(eof := true)), [])
    ensures var o := Step(c, AppWrite(data), now, maxRetries);
            && o.Keep? && o.out == [] && o.conn == c.(snd := c.snd.(tx := o.conn.snd.tx))
            && o.conn.snd.tx.stream == c.snd.tx.stream + data[..Min(|data|, c.snd.tx.Free())]
    ensures var o := Step(c, AppRead(max), now, maxRetries);
            && o.Keep? && o.out == [] && o.conn == c.(rcv := c.rcv.(rx := o.conn.rcv.rx))
            && o.conn.rcv.rx == c.rcv.rx.(taken := c.rcv.rx.taken + Min(max, c.rcv.rx.Pending()))
  {
  }
}
