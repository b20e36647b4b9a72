/** Steps at the sending side of a direction: the partition grows by what
    leaves, the acknowledged point moves to boundaries the peer has delivered,
    and a FIN closes the stream. */
module SenderSteps {
  import opened Types
  import opened SeqNum
  import opened ByteRing
  import opened Congestion
  import opened Tcb
  import opened SendStream
  import opened Reassembly
  import opened Network

  // Segments that are no part of this direction's stream.
  ghost predicate PlainOut(out: seq<Segment>) {
    forall i :: 0 <= i < |out| ==> out[i].payload == [] && !Has(out[i].flags, FIN)
  }

  // Segments leaving a step, under the tags they get.
  ghost predicate GoodOut(c: Connection, out: seq<Segment>, cuts: seq<nat>) {
    forall i :: 0 <= i < |out| ==>
      GenuineData(out[i], Tag(c, out[i]).pos, c.snd.iss, c.snd.tx.stream, cuts, SentFin(c.state))
  }

  // The segments that a step adds to the partition are among those that leave.
  ghost predicate SendsNew(c: Connection, out: seq<Segment>, cuts: seq<nat>, cuts': seq<nat>) {
    forall i :: 0 <= |cuts| - 1 <= i < |cuts'| - 1 ==> PartSent(Tagged(c, out), cuts', i)
  }

  lemma PlainIsGood(c: Connection, out: seq<Segment>, cuts: seq<nat>)
    requires PlainOut(out)
    ensures GoodOut(c, out, cuts)
  {
    hide Carries, PartsOf;
  }

  // What a step at the sending side may do to the direction.
  ghost predicate Advances(c: Connection, d: Connection, w: Progress, w': Progress) {
    && d.snd.iss == c.snd.iss && c.snd.tx.stream <= d.snd.tx.stream
    && w.cuts <= w'.cuts && w'.n == w.n && w'.got == w.got
    && (w'.cuts == w.cuts || (w.u < |w.cuts| && Last(w'.cuts) <= w.cuts[w.u] + c.snd.wnd))
    && (SentFin(c.state) ==> SentFin(d.state) && w'.cuts == w.cuts)
  }

  // A step that touches only the timers and the congestion state of the sending half.
  ghost predicate SameSending(c: Connection, d: Connection) {
    && d.snd == c.snd.(rto := d.snd.rto, retries := d.snd.retries, cong := d.snd.cong, nodelay := d.snd.nodelay)
    && (d.state == c.state || (SentFin(c.state) && SentFin(d.state)))
  }

  lemma SameSendingKeeps(c: Connection, d: Connection, w: Progress)
    requires Sending(c, w) && SameSending(c, d)
    ensures Sending(d, w) && Advances(c, d, w, w)
  {
    hide Partition, SeqAt, Boundaries;
  }

  // ---------------------------------------------------------------- acknowledgments

  lemma CutIndex(cuts: seq<nat>, p: nat) returns (v: nat)
    requires p in cuts
    ensures v < |cuts| && cuts[v] == p
  {
    v :| 0 <= v < |cuts| && cuts[v] == p;
  }

  lemma UpdateWindowTracks(s: Sender, seg: Segment, cuts: seq<nat>, u: nat)
    requires Tracks(s, cuts, u)
    ensures Tracks(UpdateWindow(s, seg), cuts, u)
  {
    hide Partition, SeqAt, ShiftLeft, Boundaries;
    ShiftBound(seg.window, s.scale);
  }

  lemma AcknowledgeFrame(s: Sender, seg: Segment)
    ensures var t := UpdateWindow(Acknowledge(s, seg.ackNo), seg);
            t.tx == s.tx && t.iss == s.iss
  {
    hide AfterAck, Retained, Rebased, ShiftLeft;
  }

  lemma EstablishedAck(c: Connection, seg: Segment, ackPos: nat, w: Progress) returns (w': Progress)
    requires c.state == Established && Sending(c, w) && AckedIsDelivered(w, false)
    requires seg.ackNo == SeqAt(c.snd.iss, ackPos) && ackPos in w.cuts && ackPos <= w.n && UnaPos(c) - ackPos < TWO31
    ensures var s := UpdateWindow(Acknowledge(c.snd, seg.ackNo), seg);
            && Tracks(s, w'.cuts, w'.u) && s.tx == c.snd.tx && s.iss == c.snd.iss
            && w' == w.(base := w'.base, u := w'.u) && w'.base == w'.cuts[w'.u] && AckedIsDelivered(w', false)
  {
    hide SeqAt, Acknowledge, UpdateWindow, Partition, UnaPos, Boundaries;
    SendingNumbers(c, w);
    var v := CutIndex(w.cuts, ackPos);
    AcknowledgeTracks(c.snd, w.cuts, w.u, v);
    var u := if v > w.u then v else w.u;
    w' := w.(base := w.cuts[u], u := u);
    UpdateWindowTracks(Acknowledge(c.snd, seg.ackNo), seg, w.cuts, u);
    AcknowledgeFrame(c.snd, seg);
  }

  lemma CloseWaitAck(c: Connection, seg: Segment, ackPos: nat, w: Progress) returns (w': Progress)
    requires c.state == CloseWait && Sending(c, w) && AckedIsDelivered(w, false)
    requires seg.ackNo == SeqAt(c.snd.iss, ackPos) && ackPos in w.cuts && ackPos <= w.n && UnaPos(c) - ackPos < TWO31
    requires !(Acceptable(c.snd, seg.ackNo) && seg.ackNo == c.snd.nxt)
    ensures var s := AcknowledgeOnly(c.snd, seg.ackNo);
            && TracksFrom(s, w'.cuts, w'.base, w'.u) && s.tx == c.snd.tx && s.iss == c.snd.iss
            && w' == w.(u := w'.u) && AckedIsDelivered(w', false)
  {
    hide SeqAt, AcknowledgeOnly, Partition, UnaPos, Boundaries;
    SendingNumbers(c, w);
    var v := CutIndex(w.cuts, ackPos);
    CloseWaitTracksExactly(c.snd, w.cuts, w.base, w.u, v);
    AcknowledgeOnlyFrame(c.snd, seg.ackNo);
    w' := w.(u := if v > w.u then v else w.u);
  }

  lemma FinWaitAck(c: Connection, seg: Segment, ackPos: nat, w: Progress, took: bool) returns (w': Progress)
    requires SentFin(c.state) && Sending(c, w) && AckedIsDelivered(w, took)
    requires GenuineAck(seg, ackPos, c.snd.iss, w.cuts, w.n, took) && UnaPos(c) - ackPos < TWO31
    requires took ==> w.n == Last(w.cuts)
    ensures var s := AcknowledgeOnly(c.snd, seg.ackNo);
            && Finished(s, w'.cuts, w'.base, w'.u, w'.acked) && s.tx == c.snd.tx && s.iss == c.snd.iss
            && w' == w.(u := w'.u, acked := w'.acked) && AckedIsDelivered(w', took)
  {
    hide SeqAt, AcknowledgeOnly, Partition, UnaPos;
    SendingNumbers(c, w);
    var u, acked := FinishedAcknowledged(c.snd, w.cuts, w.base, w.u, w.acked, ackPos);
    AcknowledgeOnlyFrame(c.snd, seg.ackNo);
    w' := w.(u := u, acked := acked);
  }

  // ---------------------------------------------------------------- arrivals

  // What an arrival does to the sending half, state by state.
  lemma EstablishedShape(c: Connection, seg: Segment, now: Time)
    ensures var o := OnEstablished(c, seg, now);
            && PlainOut(o.out) && o.Keep?
            && (o.conn.state == c.state || o.conn.state == CloseWait)
            && o.conn.snd == if Has(seg.flags, ACK) then UpdateWindow(Acknowledge(c.snd, seg.ackNo), seg) else c.snd
  {
    hide Receive, Acknowledge, UpdateWindow, AdvertisedWindow, TouchKeepalive, FinInOrder;
    assert !Has(ACK, FIN);
  }

  lemma FinWait1Shape(c: Connection, seg: Segment, now: Time)
    requires c.state == FinWait1
    ensures var o := OnFinWait1(c, seg, now);
            var snd := if Has(seg.flags, ACK) then AcknowledgeOnly(c.snd, seg.ackNo) else c.snd;
            && PlainOut(o.out) && o.Keep? && SentFin(o.conn.state)
            && (o.conn.snd == snd || o.conn.snd == snd.(rto := None))
  {
    hide AcknowledgeOnly, PlainAck, AcceptInOrder, FinInOrder, AcksEverything, PlainOut, Add;
    NothingIsPlain();
    PlainAckIsPlain(OnFinWait1(c, seg, now).conn);
  }

  lemma PlainAckIsPlain(c: Connection)
    ensures PlainOut([PlainAck(c)])
  {
    hide AdvertisedWindow;
    assert !Has(ACK, FIN);
  }

  lemma ClosingShape(c: Connection, seg: Segment, now: Time)
    requires SentFin(c.state) && c.state != FinWait1 && !Has(seg.flags, RST)
    ensures var o := OnSegment(c, seg, now);
            PlainOut(o.out) && (o.Keep? ==> SameSending(c, o.conn))
  {
    hide AdvertisedWindow, AcceptInOrder, FinInOrder, AcksEverything;
    assert !Has(ACK, FIN);
  }

  lemma ResetShape(c: Connection, seg: Segment)
    ensures var o := OnReset(c, seg);
            PlainOut(o.out) && (o.Keep? ==> o.conn == c)
  {
    hide AdvertisedWindow;
    assert !Has(ACK, FIN);
  }

  lemma FinishedRto(s: Sender, t: Sender, w: Progress)
    requires Finished(s, w.cuts, w.base, w.u, w.acked) && (t == s || t == s.(rto := None))
    ensures Finished(t, w.cuts, w.base, w.u, w.acked) && t.tx == s.tx && t.iss == s.iss
  {
    hide Partition, SeqAt, Boundaries;
  }

  ghost predicate AckFits(c: Connection, seg: Segment, ackPos: nat, w: Progress, took: bool) {
    && (Has(seg.flags, ACK) ==> GenuineAck(seg, ackPos, c.snd.iss, w.cuts, w.n, took))
    && UnaPos(c) - ackPos < TWO31 && !Slips(c, seg)
  }

  lemma SenderInbound(c: Connection, seg: Segment, now: Time, ackPos: nat, w: Progress, took: bool)
    returns (w': Progress)
    requires Sending(c, w) && AckedIsDelivered(w, took) && (took ==> SentFin(c.state) && w.n == Last(w.cuts))
    requires AckFits(c, seg, ackPos, w, took) && !Has(seg.flags, RST)
    ensures var o := OnSegment(c, seg, now);
            && PlainOut(o.out)
            && (o.Keep? ==>
                  && Sending(o.conn, w') && Advances(c, o.conn, w, w')
                  && AckedIsDelivered(w', took) && w'.cuts == w.cuts)
  {
    hide OnEstablished, OnFinWait1, OnFinWait2, OnClosing, OnTimeWait, OnLastAck, Acknowledge, UpdateWindow,
      AcknowledgeOnly;
    hide Finished, TracksFrom, UnaPos, Latched, SeqAt, Acceptable, PlainOut;
    var o := OnSegment(c, seg, now);
    w' := w;
    if c.state == Established {
      EstablishedShape(c, seg, now);
      if Has(seg.flags, ACK) {
        w' := EstablishedAck(c, seg, ackPos, w);
      }
    } else if c.state == CloseWait {
      NothingIsPlain();
      if Has(seg.flags, ACK) {
        w' := CloseWaitAck(c, seg, ackPos, w);
      }
    } else if c.state == FinWait1 {
      FinWait1Shape(c, seg, now);
      if Has(seg.flags, ACK) {
        w' := FinWaitAck(c, seg, ackPos, w, took);
      }
      FinishedRto(if Has(seg.flags, ACK) then AcknowledgeOnly(c.snd, seg.ackNo) else c.snd, o.conn.snd, w');
    } else {
      ClosingShape(c, seg, now);
      if o.Keep? {
        SameSendingKeeps(c, o.conn, w);
      }
    }
  }

  // ---------------------------------------------------------------- transmission

  /** A segment of the partition that is not yet acknowledged, under the tag it gets. */
  lemma PieceIsGood(c: Connection, seg: Segment, w: Progress, i: nat)
    requires Sending(c, w) && w.u <= i && i + 1 < |w.cuts| && Last(w.cuts) <= |c.snd.tx.stream| && Boundaries(w.cuts)
    requires seg.seqNo == SeqAt(c.snd.iss, w.cuts[i]) && seg.payload == Piece(c.snd.tx.stream, w.cuts, i)
    requires !Has(seg.flags, FIN)
    ensures GenuineData(seg, Tag(c, seg).pos, c.snd.iss, c.snd.tx.stream, w.cuts, SentFin(c.state))
    ensures Tag(c, seg).pos == w.cuts[i] && seg.payload != [] && w.cuts[i] + |seg.payload| == w.cuts[i + 1]
  {
    hide PartsOf, SeqAt, Sending, NxtPos, UnaPos, AckPos;
    SendingNumbers(c, w);
    assert w.cuts[w.u] <= w.cuts[i] < w.cuts[i + 1] <= Last(w.cuts);
    SeqAtAgrees(c.snd.iss, NxtPos(c), w.cuts[i]);
    PartsOfDisjoint(w.cuts, c.snd.tx.stream);
    PartsOfIndex(w.cuts, i);
  }

  lemma RtoShape(c: Connection, now: Time, maxRetries: nat)
    requires c.snd.queue != [] && OnRtoFired(c, now, maxRetries).Keep?
    ensures var o := OnRtoFired(c, now, maxRetries);
            && SameSending(c, o.conn)
            && o.out == (if OldestPayload(c.snd) == [] then []
                         else [Emit(o.conn, c.snd.queue[0].seqNo, ACK, OldestPayload(c.snd))])
  {
    hide AfterTimeout, AfterBackoff, Emit;
  }

  lemma RtoTick(c: Connection, now: Time, maxRetries: nat, w: Progress)
    requires c.snd.queue != [] && Sending(c, w) && OnRtoFired(c, now, maxRetries).Keep?
    ensures var o := OnRtoFired(c, now, maxRetries);
            Sending(o.conn, w) && Advances(c, o.conn, w, w) && GoodOut(o.conn, o.out, w.cuts)
  {
    hide SeqAt, OnRtoFired, Emit, OldestPayload, Tag, GenuineData, Boundaries, Sending;
    var o := OnRtoFired(c, now, maxRetries);
    RtoShape(c, now, maxRetries);
    SameSendingKeeps(c, o.conn, w);
    SendingNumbers(c, w);
    SendingQueue(c, w);
    EmitFields(o.conn, c.snd.queue[0].seqNo, OldestPayload(c.snd));
    PieceIsGood(o.conn, o.out[0], w, w.u);
  }

  lemma SendingQueue(c: Connection, w: Progress)
    requires Sending(c, w) && c.snd.queue != []
    ensures |w.cuts| == w.u + 1 + |c.snd.queue|
    ensures Boundaries(w.cuts) && Last(w.cuts) <= |c.snd.tx.stream|
    ensures c.snd.queue[0].seqNo == SeqAt(c.snd.iss, w.cuts[w.u])
    ensures OldestPayload(c.snd) == Piece(c.snd.tx.stream, w.cuts, w.u) != []
  {
    hide SeqAt, OldestPayload, Boundaries;
    OldestPayloadIsFirstSegment(c.snd, w.cuts, w.base, w.u);
  }

  lemma EmitFields(c: Connection, seqNo: Seq, payload: seq<u8>)
    ensures var f := Emit(c, seqNo, ACK, payload);
            f.seqNo == seqNo && f.payload == payload && !Has(f.flags, FIN)
  {
  }

  // The frames of the transmit loop.
  lemma FrameIsGood(c: Connection, d: Connection, start: Sender, pieces: seq<(Seq, seq<u8>)>, from: nat, w: Progress,
                    k: nat)
    requires Sending(d, w) && w.u <= from && SentAs(pieces, start, w.cuts, from) && k < |pieces|
    requires start.iss == d.snd.iss && start.tx.stream == d.snd.tx.stream
    ensures var f := Frames(c, pieces)[k];
            GenuineData(f, Tag(d, f).pos, d.snd.iss, d.snd.tx.stream, w.cuts, SentFin(d.state))
    ensures PartSent(Tagged(d, Frames(c, pieces)), w.cuts, from + k)
  {
    hide PartsOf, SeqAt, Sending, Emit, GenuineData, Tag, PartSent, Tagged;
    var out := Frames(c, pieces);
    assert pieces[k] == (SeqAt(start.iss, w.cuts[from + k]), Piece(start.tx.stream, w.cuts, from + k));
    EmitFields(c, pieces[k].0, pieces[k].1);
    PieceIsGood(d, out[k], w, from + k);
    PartIsSent(d, out, k, w.cuts, from + k);
  }

  lemma FramesAreGood(c: Connection, d: Connection, start: Sender, pieces: seq<(Seq, seq<u8>)>, from: nat, w: Progress)
    requires Sending(d, w) && w.u <= from && SentAs(pieces, start, w.cuts, from)
    requires start.iss == d.snd.iss && start.tx.stream == d.snd.tx.stream
    ensures GoodOut(d, Frames(c, pieces), w.cuts)
  {
    hide Sending, GenuineData, Tag, PartSent, Tagged, SentAs, Emit;
    var out := Frames(c, pieces);
    forall k | 0 <= k < |out|
      ensures GenuineData(out[k], Tag(d, out[k]).pos, d.snd.iss, d.snd.tx.stream, w.cuts, SentFin(d.state))
    {
      FrameIsGood(c, d, start, pieces, from, w, k);
    }
  }

  lemma FramesAreSent(c: Connection, d: Connection, start: Sender, pieces: seq<(Seq, seq<u8>)>, cuts: seq<nat>,
                      w: Progress)
    requires Sending(d, w) && w.u < |cuts| && SentAs(pieces, start, w.cuts, |cuts| - 1)
    requires start.iss == d.snd.iss && start.tx.stream == d.snd.tx.stream
    ensures SendsNew(d, Frames(c, pieces), cuts, w.cuts)
  {
    hide Sending, GenuineData, Tag, PartSent, Tagged, SentAs, Emit;
    SentLength(pieces, start, w.cuts, |cuts| - 1);
    forall i | |cuts| - 1 <= i < |w.cuts| - 1
      ensures PartSent(Tagged(d, Frames(c, pieces)), w.cuts, i)
    {
      FrameIsGood(c, d, start, pieces, |cuts| - 1, w, i - (|cuts| - 1));
    }
  }

  lemma SentLength(sent: seq<(Seq, seq<u8>)>, s: Sender, cuts: seq<nat>, from: nat)
    requires SentAs(sent, s, cuts, from)
    ensures |cuts| == from + 1 + |sent|
  {
  }

  lemma PartIsSent(c: Connection, out: seq<Segment>, j: nat, cuts: seq<nat>, i: nat)
    requires j < |out| && i + 1 < |cuts|
    requires Tag(c, out[j]).pos == cuts[i] && out[j].payload != [] && cuts[i] + |out[j].payload| == cuts[i + 1]
    ensures PartSent(Tagged(c, out), cuts, i)
  {
    hide NxtPos, AckPos, Diff;
    var f := Tag(c, out[j]);
    assert f in Tagged(c, out);
  }

  // More segments leaving do no harm.
  lemma SendsNewAround(c: Connection, before: seq<Segment>, out: seq<Segment>, after: seq<Segment>, cuts: seq<nat>,
                       cuts': seq<nat>)
    requires SendsNew(c, out, cuts, cuts')
    ensures SendsNew(c, before + out + after, cuts, cuts')
  {
    hide Tag;
    var all := before + out + after;
    forall i | 0 <= i < |out|
      ensures Tag(c, out[i]) in Tagged(c, all)
    {
      assert all[|before| + i] == out[i];
    }
    PartsStaySent(Tagged(c, out), Tagged(c, all), cuts');
  }

  lemma PartsStaySent(fs: set<Flight>, more: set<Flight>, cuts: seq<nat>)
    requires fs <= more
    ensures forall i :: PartSent(fs, cuts, i) ==> PartSent(more, cuts, i)
  {
  }

  lemma NothingNew(c: Connection, out: seq<Segment>, cuts: seq<nat>)
    ensures SendsNew(c, out, cuts, cuts)
  {
  }

  lemma GoodOutConcat(c: Connection, a: seq<Segment>, b: seq<Segment>, cuts: seq<nat>)
    requires GoodOut(c, a, cuts) && GoodOut(c, b, cuts)
    ensures GoodOut(c, a + b, cuts)
  {
    hide GenuineData, Tag;
  }

  lemma FinIsGood(d: Connection, fin: Segment, w: Progress)
    requires Sending(d, w) && SentFin(d.state)
    requires fin.payload == [] && fin.seqNo == SeqAt(d.snd.iss, d.snd.tx.taken)
    ensures GoodOut(d, [fin], w.cuts)
  {
    hide PartsOf, SeqAt, Partition, Tag, Boundaries, Carries;
  }

  lemma TransmitTick(c: Connection, now: Time, w: Progress) returns (w': Progress)
    requires (c.state == Established || c.state == CloseWait) && Sending(c, w)
    ensures var o := Transmit(c, now);
            && o.Keep? && Sending(o.conn, w') && Advances(c, o.conn, w, w') && w'.u == w.u && !w'.acked
            && GoodOut(o.conn, o.out, w'.cuts) && SendsNew(o.conn, o.out, w.cuts, w'.cuts)
  {
    hide SendAll, SentAs, TracksFrom, Finished, Frames, Transmit, DrainTx, GoodOut, FlushedFin, Latched, Boundaries,
      SeqAt, SendsNew;
    TracksBoundaries(c.snd, w.cuts, w.base, w.u);
    var cuts' := TransmitTracks(c, now, w.cuts, w.base, w.u);
    w' := w.(cuts := cuts');
    DrainTxStream(c.snd, w.cuts, w.base, w.u);
    var o := Transmit(c, now);
    TransmitOut(c, o.conn, o.out, DrainTx(c.snd), SendAll(DrainTx(c.snd), now).1, w.cuts, w');
  }

  // What the transmit phase sends: the frames of the loop, and the FIN if there is one.
  lemma TransmitOut(c: Connection, d: Connection, out: seq<Segment>, start: Sender, pieces: seq<(Seq, seq<u8>)>,
                    cuts: seq<nat>, w: Progress)
    requires Sending(d, w) && w.u < |cuts| && SentAs(pieces, start, w.cuts, |cuts| - 1)
    requires start.iss == d.snd.iss == c.snd.iss && d.snd.tx == start.tx == c.snd.tx.(taken := |c.snd.tx.stream|)
    requires d.state == c.state ==> out == Frames(c, pieces)
    requires d.state != c.state ==> SentFin(d.state) && FlushedFin(c, out, pieces)
    ensures GoodOut(d, out, w.cuts) && SendsNew(d, out, cuts, w.cuts)
  {
    hide SentAs, Sending, Frames, GoodOut, FlushedFin, SeqAt, SendsNew, SentFin;
    FramesAreGood(c, d, start, pieces, |cuts| - 1, w);
    FramesAreSent(c, d, start, pieces, cuts, w);
    if d.state != c.state {
      FlushedSplits(c, out, pieces);
      var fin := out[|out| - 1];
      FinIsGood(d, fin, w);
      GoodOutConcat(d, Frames(c, pieces), [fin], w.cuts);
      SendsNewAround(d, [], Frames(c, pieces), [fin], cuts, w.cuts);
      assert [] + Frames(c, pieces) + [fin] == out;
    }
  }

  lemma DrainTxStream(s: Sender, cuts: seq<nat>, base: nat, u: nat)
    requires TracksFrom(s, cuts, base, u)
    ensures DrainTx(s).tx == s.tx.(taken := |s.tx.stream|) && DrainTx(s).iss == s.iss
  {
    hide Partition, SeqAt;
  }

  lemma FlushedSplits(c: Connection, out: seq<Segment>, pieces: seq<(Seq, seq<u8>)>)
    requires FlushedFin(c, out, pieces)
    ensures out != [] && out == Frames(c, pieces) + [out[|out| - 1]]
    ensures var fin := out[|out| - 1]; fin.payload == [] && fin.seqNo == SeqAt(c.snd.iss, |c.snd.tx.stream|)
  {
    hide Frames, SeqAt;
  }

  lemma ShutdownStep(c: Connection, now: Time, w: Progress)
    requires Sending(c, w)
    ensures var o := OnShutdownWrite(c, now);
            o.Keep? && Sending(o.conn, w) && Advances(c, o.conn, w, w) && GoodOut(o.conn, o.out, w.cuts)
  {
    hide TracksFrom, Finished, DrainTx, GoodOut, FlushedFin, Latched, SendFin, SeqAt, Boundaries, Unsent;
    if c.state == Established || c.state == CloseWait {
      hide OnShutdownWrite;
      TracksBoundaries(c.snd, w.cuts, w.base, w.u);
      ShutdownTracks(c, now, w.cuts, w.base, w.u);
      var o := OnShutdownWrite(c, now);
      if o.conn.state != c.state {
        FlushedSplits(c, o.out, []);
        FinIsGood(o.conn, o.out[|o.out| - 1], w);
        assert o.out == [o.out[|o.out| - 1]];
      } else {
        PlainIsGood(o.conn, o.out, w.cuts);
      }
    } else {
      PlainIsGood(c, [], w.cuts);
    }
  }

  lemma DelayedAckShape(c: Connection, now: Time)
    ensures var (d, acks) := FireDelayedAck(c, now);
            d == c.(rcv := d.rcv) && PlainOut(acks)
  {
    hide AdvertisedWindow;
    assert !Has(ACK, FIN);
  }

  /** A tick extends the partition, sends only segments of it, and sends the
      FIN only behind everything written. */
  lemma SenderTick(c: Connection, now: Time, maxRetries: nat, w: Progress) returns (w': Progress)
    requires Sending(c, w) && !PersistFires(c, now)
    ensures var o := OnTick(c, now, maxRetries);
            && (o.Keep? ==> && Sending(o.conn, w') && Advances(c, o.conn, w, w') && w'.u == w.u && w'.acked == w.acked
                            && GoodOut(o.conn, o.out, w'.cuts) && SendsNew(o.conn, o.out, w.cuts, w'.cuts))
            && (o.Drop? ==> o.out == [])
  {
    hide Sending, OnRtoFired, Transmit, GoodOut, PlainOut, FireDelayedAck, AdvertisedWindow, SendsNew;
    w' := w;
    if OnTick(c, now, maxRetries).Keep? {
      NothingNew(OnTick(c, now, maxRetries).conn, OnTick(c, now, maxRetries).out, w.cuts);
    }
    if RtoFires(c, now) {
      RtoDrop(c, now, maxRetries);
      if OnRtoFired(c, now, maxRetries).Keep? {
        RtoTick(c, now, maxRetries, w);
      }
    } else if KeepaliveFires(c, now) {
      KeepaliveShape(c, now);
      if OnKeepaliveFired(c, now).Keep? {
        SameSendingKeeps(c, OnKeepaliveFired(c, now).conn, w);
        PlainIsGood(OnKeepaliveFired(c, now).conn, OnKeepaliveFired(c, now).out, w.cuts);
      }
    } else {
      var (d, acks) := FireDelayedAck(c, now);
      DelayedAckShape(c, now);
      SameSendingKeeps(c, d, w);
      if d.state != Established && d.state != CloseWait {
        PlainIsGood(d, acks, w.cuts);
      } else {
        NotAcked(d, w);
        w' := TransmitTick(d, now, w);
        var o := Transmit(d, now);
        PlainIsGood(o.conn, acks, w'.cuts);
        GoodOutConcat(o.conn, acks, o.out, w'.cuts);
        SendsNewAround(o.conn, acks, o.out, [], w.cuts, w'.cuts);
        assert acks + o.out + [] == acks + o.out;
      }
    }
  }

  lemma NotAcked(c: Connection, w: Progress)
    requires Sending(c, w) && (c.state == Established || c.state == CloseWait)
    ensures !w.acked
  {
  }

  lemma RtoDrop(c: Connection, now: Time, maxRetries: nat)
    requires c.snd.queue != []
    ensures OnRtoFired(c, now, maxRetries).Drop? ==> OnRtoFired(c, now, maxRetries).out == []
  {
    hide AfterTimeout, AfterBackoff, OldestPayload;
  }

  lemma KeepaliveShape(c: Connection, now: Time)
    requires c.keepalive.config.Some?
    ensures var o := OnKeepaliveFired(c, now);
            PlainOut(o.out) && (o.Keep? ==> SameSending(c, o.conn)) && (o.Drop? ==> o.out == [])
  {
    hide AdvertisedWindow;
    assert !Has(ACK, FIN);
  }

  // The application's own steps.
  lemma WriteStep(c: Connection, data: seq<u8>, w: Progress)
    requires Sending(c, w)
    ensures var d := c.(snd := c.snd.(tx := c.snd.tx.Put(data)));
            Sending(d, w) && Advances(c, d, w, w)
  {
    hide Partition, SeqAt, Boundaries;
    PutGrows(c.snd.tx, data);
    SliceGrows(c.snd.tx.stream, c.snd.tx.Put(data).stream, w.base, c.snd.tx.taken);
  }

  lemma SenderLocal(c: Connection, e: Event, now: Time, maxRetries: nat, w: Progress)
    requires Sending(c, w) && (e.ShutdownRead? || e.Abort? || e.SetOption? || e.AppWrite? || e.AppRead?)
    ensures var o := Step(c, e, now, maxRetries);
            && PlainOut(o.out)
            && (o.Keep? ==> Sending(o.conn, w) && Advances(c, o.conn, w, w))
  {
    hide Sending, AdvertisedWindow, Advances;
    assert !Has(RST + ACK, FIN);
    if e.AppWrite? {
      WriteStep(c, e.data, w);
    } else if !e.Abort? {
      SameSendingKeeps(c, Step(c, e, now, maxRetries).conn, w);
    }
  }

  lemma PutGrows(r: Ring, data: seq<u8>)
    ensures r.stream <= r.Put(data).stream && r.Put(data).taken == r.taken
  {
  }

  lemma SliceGrows(s: seq<u8>, t: seq<u8>, i: nat, j: nat)
    requires s <= t
    ensures i <= j <= |s| ==> t[i..j] == s[i..j]
  {
  }

  /** Every step at the sending side keeps its half of the direction. */
  lemma SenderStep(c: Connection, e: Event, now: Time, maxRetries: nat, ackPos: nat, w: Progress, took: bool)
    returns (w': Progress)
    requires Sending(c, w) && AckedIsDelivered(w, took) && (took ==> SentFin(c.state) && w.n == Last(w.cuts))
    requires e.Inbound? ==> AckFits(c, e.seg, ackPos, w, took)
    requires e.Tick? ==> !PersistFires(c, now)
    ensures var o := Step(c, e, now, maxRetries);
            && (o.Keep? ==> && Sending(o.conn, w') && Advances(c, o.conn, w, w') && AckedIsDelivered(w', took)
                            && GoodOut(o.conn, o.out, w'.cuts) && SendsNew(o.conn, o.out, w.cuts, w'.cuts))
            && (o.Drop? ==> PlainOut(o.out))
  {
    hide Sending, OnTick, OnSegment, OnShutdownWrite, GoodOut, PlainOut, PersistFires, AckFits, SendsNew;
    var o := Step(c, e, now, maxRetries);
    w' := w;
    if o.Keep? {
      NothingNew(o.conn, o.out, w.cuts);
    }
    if e.Inbound? && Has(e.seg.flags, RST) {
      hide OnReset;
      ResetShape(c, e.seg);
      OnSegmentReset(c, e.seg, now);
    } else if e.Inbound? {
      w' := SenderInbound(c, e.seg, now, ackPos, w, took);
    } else if e.Tick? {
      w' := SenderTick(c, now, maxRetries, w);
      NothingIsPlain();
    } else if e.ShutdownWrite? {
      ShutdownStep(c, now, w);
    } else {
      SenderLocal(c, e, now, maxRetries, w);
    }
    if o.Keep? && (e.Inbound? || !(e.Tick? || e.ShutdownWrite?)) {
      PlainIsGood(o.conn, o.out, w'.cuts);
    }
  }

  lemma OnSegmentReset(c: Connection, seg: Segment, now: Time)
    requires Has(seg.flags, RST)
    ensures OnSegment(c, seg, now) == OnReset(c, seg)
  {
  }

  lemma NothingIsPlain()
    ensures PlainOut([])
  {
  }
}
