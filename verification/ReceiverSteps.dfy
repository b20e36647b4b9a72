/** Steps at the receiving side of a direction: delivery advances over whole
    segments, the FIN is taken only behind the last byte, and every segment
    that leaves acknowledges exactly what has been delivered. */
module ReceiverSteps {
  import opened Types
  import opened SeqNum
  import opened Tcb
  import opened SendStream
  import opened Reassembly
  import opened Network

  // Every segment leaving a step acknowledges this number.
  ghost predicate AllAck(out: seq<Segment>, nxt: Seq) {
    forall i :: 0 <= i < |out| ==> out[i].ackNo == nxt
  }

  // ---------------------------------------------------------------- steps that deliver nothing

  // The receiver is as it was, up to acknowledgment pacing, buffer sizes and reading.
  ghost predicate SameDelivery(r: Receiver, r': Receiver) {
    && r' == r.(sinceAck := r'.sinceAck, delayedAck := r'.delayedAck, bufSize := r'.bufSize, wnd := r'.wnd, rx := r'.rx)
    && r'.rx == r.rx.(taken := r'.rx.taken) && (r.rx.taken <= |r.rx.stream| ==> r'.rx.taken <= |r.rx.stream|)
  }

  ghost predicate SameTaking(c: Connection, d: Connection) {
    && (c.handle.eof ==> d.handle.eof)
    && Synchronized(d.state) && (TookFin(d.state) <==> TookFin(c.state))
    && (d.state == Established ==> c.state == Established)
  }

  lemma SettledSame(r: Receiver, r': Receiver, stream: seq<u8>, parts: Parts, n: nat, got: Received)
    requires Settled(r, stream, parts, n, got) && SameDelivery(r, r')
    ensures Settled(r', stream, parts, n, got)
  {
    hide Genuine, Keyed, SeqAt, Through;
  }

  lemma SameKeeps(c: Connection, d: Connection, iss: Seq, stream: seq<u8>, w: Progress, fin: bool)
    requires Receiving(c, iss, stream, w, fin) && SameDelivery(c.rcv, d.rcv) && SameTaking(c, d)
    ensures Receiving(d, iss, stream, w, fin)
  {
    hide Settled, SeqAt, PartsOf, Boundaries;
    if d.state == Established {
      SettledSame(c.rcv, d.rcv, stream, PartsOf(w.cuts), w.n, w.got);
    }
  }

  // The acknowledgment number of a segment built now.
  lemma TickShape(c: Connection, now: Time, maxRetries: nat)
    requires Synchronized(c.state)
    ensures var o := OnTick(c, now, maxRetries);
            && (o.Keep? ==> SameDelivery(c.rcv, o.conn.rcv) && SameTaking(c, o.conn) && AllAck(o.out, o.conn.rcv.nxt))
            && (o.Drop? ==> o.out == [])
  {
    hide OnRtoFired, OnKeepaliveFired, OnPersistFired, Transmit, FireDelayedAck, SameDelivery, Due;
    if RtoFires(c, now) {
      RtoAcks(c, now, maxRetries);
    } else if PersistFires(c, now) {
      PersistAcks(c, now);
    } else if KeepaliveFires(c, now) {
      KeepaliveAcks(c, now);
    } else if !Expired(c, now) {
      DelayedAcks(c, now);
      var d := FireDelayedAck(c, now).0;
      if d.state == Established || d.state == CloseWait {
        TransmitAcks(d, now);
        SameDeliveryChain(c.rcv, d.rcv, Transmit(d, now).conn.rcv);
      }
    }
  }

  lemma SameDeliveryChain(r: Receiver, r': Receiver, r'': Receiver)
    requires SameDelivery(r, r') && r'' == r'
    ensures SameDelivery(r, r'')
  {
  }

  lemma RtoAcks(c: Connection, now: Time, maxRetries: nat)
    requires c.snd.queue != [] && Synchronized(c.state)
    ensures var o := OnRtoFired(c, now, maxRetries);
            && (o.Keep? ==> SameDelivery(c.rcv, o.conn.rcv) && SameTaking(c, o.conn) && AllAck(o.out, o.conn.rcv.nxt))
            && (o.Drop? ==> o.out == [])
  {
  }

  lemma PersistAcks(c: Connection, now: Time)
    requires Synchronized(c.state)
    ensures var o := OnPersistFired(c, now);
            o.Keep? && SameDelivery(c.rcv, o.conn.rcv) && SameTaking(c, o.conn) && AllAck(o.out, o.conn.rcv.nxt)
  {
  }

  lemma KeepaliveAcks(c: Connection, now: Time)
    requires c.keepalive.config.Some? && Synchronized(c.state)
    ensures var o := OnKeepaliveFired(c, now);
            && (o.Keep? ==> SameDelivery(c.rcv, o.conn.rcv) && SameTaking(c, o.conn) && AllAck(o.out, o.conn.rcv.nxt))
            && (o.Drop? ==> o.out == [])
  {
  }

  lemma DelayedAcks(c: Connection, now: Time)
    ensures var (d, acks) := FireDelayedAck(c, now);
            && d == c.(rcv := d.rcv) && SameDelivery(c.rcv, d.rcv) && AllAck(acks, d.rcv.nxt) && d.rcv.nxt == c.rcv.nxt
  {
  }

  lemma TransmitAcks(c: Connection, now: Time)
    requires c.state == Established || c.state == CloseWait
    ensures var o := Transmit(c, now);
            && o.Keep? && o.conn.rcv == c.rcv && SameTaking(c, o.conn) && AllAck(o.out, c.rcv.nxt)
  {
    hide SendAll, PersistTimer, DrainTx, ArmKeepalive, AdvertisedWindow, Unsent;
  }

  lemma ShutdownAcks(c: Connection, now: Time)
    requires Synchronized(c.state)
    ensures var o := OnShutdownWrite(c, now);
            && o.Keep? && o.conn.rcv == c.rcv && SameTaking(c, o.conn) && AllAck(o.out, c.rcv.nxt)
  {
    hide DrainTx, Unsent, AdvertisedWindow;
  }

  lemma LocalAcks(c: Connection, e: Event, now: Time, maxRetries: nat)
    requires Synchronized(c.state) && !e.Inbound? && !e.Tick?
    ensures var o := Step(c, e, now, maxRetries);
            && (o.Keep? ==> SameDelivery(c.rcv, o.conn.rcv) && SameTaking(c, o.conn) && AllAck(o.out, o.conn.rcv.nxt))
            && (o.Drop? ==> AllAck(o.out, c.rcv.nxt))
  {
    hide OnShutdownWrite, AdvertisedWindow;
    if e.ShutdownWrite? {
      ShutdownAcks(c, now);
    }
  }

  // ---------------------------------------------------------------- arrivals

  // How the receiving half is told to react: new delivery state, then the FIN.
  ghost predicate Reacts(c: Connection, o: Outcome, r: Receiver, seg: Segment) {
    && o.Keep? && AllAck(o.out, o.conn.rcv.nxt)
    && (if FinInOrder(r, seg) then
          && TookFin(o.conn.state) && o.conn.handle.eof
          && SameDelivery(r.(nxt := Add(r.nxt, 1)), o.conn.rcv)
        else
          SameTaking(c, o.conn) && SameDelivery(r, o.conn.rcv))
  }

  lemma EstablishedReacts(c: Connection, seg: Segment, now: Time)
    requires c.state == Established
    ensures Reacts(c, OnEstablished(c, seg, now), Receive(c.rcv, seg, now).0, seg)
  {
    hide Receive, UpdateWindow, Acknowledge, AdvertisedWindow, TouchKeepalive, Add;
  }

  lemma FinWait1Reacts(c: Connection, seg: Segment, now: Time)
    requires c.state == FinWait1
    ensures Reacts(c, OnFinWait1(c, seg, now), AcceptInOrder(c.rcv, seg), seg)
  {
    hide AcceptInOrder, AcknowledgeOnly, AdvertisedWindow, AcksEverything, Add;
  }

  lemma FinWait2Reacts(c: Connection, seg: Segment, now: Time)
    requires c.state == FinWait2
    ensures Reacts(c, OnFinWait2(c, seg, now), AcceptInOrder(c.rcv, seg), seg)
  {
    hide AcceptInOrder, AdvertisedWindow, Add;
  }

  // After the FIN is taken nothing is delivered any more.
  lemma TookShape(c: Connection, seg: Segment, now: Time)
    requires TookFin(c.state) && !Has(seg.flags, RST)
    ensures var o := OnSegment(c, seg, now);
            && (o.Keep? ==> SameDelivery(c.rcv, o.conn.rcv) && SameTaking(c, o.conn) && AllAck(o.out, o.conn.rcv.nxt))
            && (o.Drop? ==> o.out == [])
  {
    hide AcknowledgeOnly, AdvertisedWindow, AcksEverything;
  }

  lemma ResetAcks(c: Connection, seg: Segment)
    ensures var o := OnReset(c, seg);
            && (o.Keep? ==> o.conn == c && AllAck(o.out, c.rcv.nxt))
            && (o.Drop? ==> o.out == [])
  {
    hide AdvertisedWindow, InWindow;
  }

  // ---------------------------------------------------------------- delivery

  // Delivery only ever stops at a boundary.
  lemma {:induction false} ThroughIsCut(got: Received, cuts: seq<nat>, stream: seq<u8>, from: nat, n: nat)
    requires Boundaries(cuts) && Last(cuts) <= |stream| && Disjoint(PartsOf(cuts), stream) && from in cuts
    requires Through(got, PartsOf(cuts), stream, from, n)
    ensures n in cuts && n <= Last(cuts)
    decreases |stream| - from
  {
    hide PartsOf;
    if from < n {
      var i := PartsOfKey(cuts, from);
      assert cuts[i + 1] in cuts;
      ThroughIsCut(got, cuts, stream, PartsOf(cuts)[from], n);
    }
  }

  lemma SettledCut(r: Receiver, stream: seq<u8>, cuts: seq<nat>, n: nat, got: Received)
    requires Boundaries(cuts) && Last(cuts) <= |stream| && Settled(r, stream, PartsOf(cuts), n, got)
    ensures n in cuts && n <= Last(cuts) && r.rx.stream == stream[..n] && r.nxt == SeqAt(r.irs, n)
  {
    hide PartsOf, SeqAt, Keyed;
    assert cuts[0] in cuts;
    ThroughIsCut(got, cuts, stream, 0, n);
  }

  // A segment of the stream that carries data carries no FIN.
  lemma DataHasNoFin(seg: Segment, pos: nat, iss: Seq, stream: seq<u8>, cuts: seq<nat>, fin: bool)
    requires GenuineData(seg, pos, iss, stream, cuts, fin) && seg.payload != []
    ensures !Has(seg.flags, FIN) && Carries(seg, iss, stream, PartsOf(cuts), pos)
    ensures pos in PartsOf(cuts)
  {
  }

  lemma PartBelowLast(cuts: seq<nat>, p: nat)
    requires Boundaries(cuts) && p in PartsOf(cuts)
    ensures p < PartsOf(cuts)[p] <= Last(cuts) && PartsOf(cuts)[p] in cuts
  {
    hide PartsOf;
    var i := PartsOfKey(cuts, p);
    assert cuts[i + 1] in cuts;
  }

  // Delivery of data, in the three states that take it.
  lemma DataEstablished(c: Connection, seg: Segment, now: Time, pos: nat, iss: Seq, stream: seq<u8>, w: Progress,
                        fin: bool)
    returns (w': Progress)
    requires c.state == Established && Receiving(c, iss, stream, w, fin) && Last(w.cuts) <= w.n + MAX_WINDOW
    requires seg.payload != [] && Carries(seg, iss, stream, PartsOf(w.cuts), pos) && w.n - pos < TWO31
    requires CleanReceive(c.rcv, seg)
    ensures w' == w.(n := w'.n, got := w'.got) && w.n <= w'.n
    ensures Receiving(c.(rcv := Receive(c.rcv, seg, now).0), iss, stream, w', fin)
  {
    hide Settled, SeqAt, PartsOf, Boundaries, Receive, CleanReceive, Carries, Disjoint;
    CarriesPart(seg, iss, stream, PartsOf(w.cuts), pos);
    PartBelowLast(w.cuts, pos);
    var n', got' := ArrivalSettles(c.rcv, seg, now, stream, PartsOf(w.cuts), w.n, w.got, pos);
    w' := w.(n := n', got := got');
    SettledCut(Receive(c.rcv, seg, now).0, stream, w.cuts, n', got');
  }

  lemma CarriesPart(seg: Segment, iss: Seq, stream: seq<u8>, parts: Parts, p: nat)
    requires Carries(seg, iss, stream, parts, p)
    ensures p in parts
  {
  }

  lemma DataFinWait(c: Connection, seg: Segment, pos: nat, iss: Seq, stream: seq<u8>, w: Progress, fin: bool)
    returns (w': Progress)
    requires (c.state == FinWait1 || c.state == FinWait2) && Receiving(c, iss, stream, w, fin)
    requires Last(w.cuts) <= w.n + MAX_WINDOW
    requires seg.payload != [] && Carries(seg, iss, stream, PartsOf(w.cuts), pos) && w.n - pos < TWO31
    requires seg.seqNo == c.rcv.nxt ==> WholeOrNone(c.rcv.rx, seg.payload)
    ensures w' == w.(n := w'.n) && w.n <= w'.n
    ensures Receiving(c.(rcv := AcceptInOrder(c.rcv, seg)), iss, stream, w', fin)
  {
    hide SeqAt, PartsOf, Boundaries, Accept, Settled;
    w' := w;
    PartBelowLast(w.cuts, pos);
    SeqAtAgrees(iss, pos, w.n);
    if seg.seqNo == c.rcv.nxt {
      if c.rcv.rx.Accepted(seg.payload) == |seg.payload| {
        var end := PartsOf(w.cuts)[pos];
        AcceptBytes(c.rcv, stream, w.n, end);
        AcceptFrame(c.rcv, c.rcv.reorder, seg.payload);
        w' := w.(n := end);
      } else {
        AcceptNothing(c.rcv, seg.payload);
      }
    }
  }

  // ---------------------------------------------------------------- the FIN

  /** A FIN in order finds everything before it delivered. */
  lemma FinMeansAll(r: Receiver, seg: Segment, iss: Seq, n: nat, last: nat)
    requires seg.payload == [] && seg.seqNo == SeqAt(iss, last) && FinInOrder(r, seg)
    requires r.nxt == SeqAt(iss, n) && n <= last <= n + MAX_WINDOW
    ensures n == last
  {
    hide SeqAt;
    AddNothing(seg.seqNo);
    SeqAtAgrees(iss, last, n);
  }

  lemma AddNothing(s: Seq)
    ensures Add(s, 0) == s
  {
  }

  // Reacting to a segment whose data, if any, has been delivered.
  lemma ReactionKeeps(c: Connection, o: Outcome, r: Receiver, seg: Segment, pos: nat, iss: Seq, stream: seq<u8>,
                      w: Progress, fin: bool)
    requires (c.state == Established || c.state == FinWait1 || c.state == FinWait2)
    requires Receiving(c.(rcv := r), iss, stream, w, fin) && Last(w.cuts) <= w.n + MAX_WINDOW
    requires GenuineData(seg, pos, iss, stream, w.cuts, fin) && Reacts(c, o, r, seg)
    ensures Receiving(o.conn, iss, stream, w, fin) && AllAck(o.out, o.conn.rcv.nxt)
  {
    hide SeqAt, PartsOf, Boundaries, Settled, AllAck, Add, Carries, FinInOrder;
    if FinInOrder(r, seg) {
      FinFlag(r, seg);
      FinMeansAll(r, seg, iss, w.n, Last(w.cuts));
      SeqAtAdd(iss, w.n, 1);
    } else {
      SameKeeps(c.(rcv := r), o.conn, iss, stream, w, fin);
    }
  }

  lemma FinFlag(r: Receiver, seg: Segment)
    requires FinInOrder(r, seg)
    ensures Has(seg.flags, FIN)
  {
  }

  ghost predicate DataFits(c: Connection, seg: Segment, pos: nat, iss: Seq, stream: seq<u8>, w: Progress, fin: bool) {
    GenuineData(seg, pos, iss, stream, w.cuts, fin) && w.n - pos < TWO31 && CleanWrites(c, seg)
  }

  /** An arrival delivers whole segments or nothing, and takes a FIN only
      when everything before it has been delivered. */
  lemma ReceiverInbound(c: Connection, seg: Segment, now: Time, pos: nat, iss: Seq, stream: seq<u8>, w: Progress,
                        fin: bool)
    returns (w': Progress)
    requires Receiving(c, iss, stream, w, fin) && Last(w.cuts) <= w.n + MAX_WINDOW
    requires DataFits(c, seg, pos, iss, stream, w, fin) && !Has(seg.flags, RST)
    ensures w' == w.(n := w'.n, got := w'.got) && w.n <= w'.n
    ensures var o := OnSegment(c, seg, now);
            && (o.Keep? ==> && Receiving(o.conn, iss, stream, w', fin) && AllAck(o.out, o.conn.rcv.nxt)
                            && (TookFin(c.state) ==> TookFin(o.conn.state) && w' == w))
            && (o.Drop? ==> o.out == [])
  {
    hide Receiving, OnEstablished, OnFinWait1, OnFinWait2, OnClosing, OnLastAck, OnTimeWait, OnCloseWait,
      GenuineData, AllAck;
    hide Receive, AcceptInOrder, SameTaking, SameDelivery, WholeOrNone, CleanReceive;
    var o := OnSegment(c, seg, now);
    w' := w;
    ReceivingState(c, iss, stream, w, fin);
    if TookFin(c.state) {
      hide OnSegment;
      TookShape(c, seg, now);
      if o.Keep? {
        SameKeeps(c, o.conn, iss, stream, w, fin);
        SameTakingTook(c, o.conn);
      }
    } else {
      var r := if c.state == Established then Receive(c.rcv, seg, now).0 else AcceptInOrder(c.rcv, seg);
      if seg.payload == [] {
        NoData(c.rcv, seg, now);
        assert c.(rcv := r) == c;
      } else {
        DataHasNoFin(seg, pos, iss, stream, w.cuts, fin);
        if c.state == Established {
          w' := DataEstablished(c, seg, now, pos, iss, stream, w, fin);
        } else {
          w' := DataFinWait(c, seg, pos, iss, stream, w, fin);
        }
      }
      if c.state == Established {
        EstablishedReacts(c, seg, now);
      } else if c.state == FinWait1 {
        FinWait1Reacts(c, seg, now);
      } else {
        FinWait2Reacts(c, seg, now);
      }
      ReactsKeeps(c, o, r, seg);
      ReactionKeeps(c, o, r, seg, pos, iss, stream, w', fin);
    }
  }

  lemma ReceivingState(c: Connection, iss: Seq, stream: seq<u8>, w: Progress, fin: bool)
    requires Receiving(c, iss, stream, w, fin)
    ensures Synchronized(c.state)
  {
  }

  lemma SameTakingTook(c: Connection, d: Connection)
    requires SameTaking(c, d)
    ensures TookFin(d.state) <==> TookFin(c.state)
  {
  }

  lemma ReactsKeeps(c: Connection, o: Outcome, r: Receiver, seg: Segment)
    requires Reacts(c, o, r, seg)
    ensures o.Keep?
  {
  }

  lemma NoData(r: Receiver, seg: Segment, now: Time)
    requires seg.payload == []
    ensures Receive(r, seg, now).0 == r && AcceptInOrder(r, seg) == r
  {
  }

  /** Every step at the receiving side keeps its half of the direction, and
      everything it sends acknowledges exactly the delivered point. */
  lemma ReceiverStep(c: Connection, e: Event, now: Time, maxRetries: nat, pos: nat, iss: Seq, stream: seq<u8>,
                     w: Progress, fin: bool)
    returns (w': Progress)
    requires Receiving(c, iss, stream, w, fin) && Last(w.cuts) <= w.n + MAX_WINDOW
    requires e.Inbound? ==> DataFits(c, e.seg, pos, iss, stream, w, fin)
    ensures w' == w.(n := w'.n, got := w'.got) && w.n <= w'.n
    ensures var o := Step(c, e, now, maxRetries);
            && (o.Keep? ==> && Receiving(o.conn, iss, stream, w', fin) && AllAck(o.out, o.conn.rcv.nxt)
                            && (TookFin(c.state) ==> TookFin(o.conn.state) && w' == w))
            && (o.Drop? ==> AllAck(o.out, c.rcv.nxt))
  {
    hide Receiving, OnTick, OnReset, OnShutdownWrite, AllAck, DataFits, SameTaking, SameDelivery, OnEstablished,
      OnFinWait1;
    hide OnFinWait2, OnClosing, OnLastAck, OnTimeWait, OnCloseWait, AdvertisedWindow;
    var o := Step(c, e, now, maxRetries);
    w' := w;
    ReceivingState(c, iss, stream, w, fin);
    NothingAcks(c.rcv.nxt);
    if e.Inbound? && Has(e.seg.flags, RST) {
      ResetAcks(c, e.seg);
    } else if e.Inbound? {
      hide OnSegment;
      w' := ReceiverInbound(c, e.seg, now, pos, iss, stream, w, fin);
    } else if e.Tick? {
      TickShape(c, now, maxRetries);
    } else {
      hide Step;
      LocalAcks(c, e, now, maxRetries);
    }
    if o.Keep? && !e.Inbound? {
      SameKeeps(c, o.conn, iss, stream, w, fin);
      SameTakingTook(c, o.conn);
    }
  }

  lemma NothingAcks(nxt: Seq)
    ensures AllAck([], nxt)
  {
  }
}
