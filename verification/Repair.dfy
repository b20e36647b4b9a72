/** How a loss is repaired: on every run of two connected engines the timer of
    unacknowledged data is running, its tick resends the bytes at SND.UNA, and
    delivering them moves the direction forward exactly when the receiver did
    not have them yet. */
module Repair {
  import opened Types
  import opened SeqNum
  import opened Congestion
  import opened Tcb
  import opened SendStream
  import opened Network
  import opened SenderSteps
  import opened EndToEnd
  import opened Timers
  import opened Transmission
  import opened Acknowledging

  // ---------------------------------------------------------------- the timer on runs of the network

  // A live connection past its handshake, with the timer of its data running.
  ghost predicate Watching(c: Connection) { Synchronized(c.state) && Armed(c) }

  lemma StepWatching(net: Net, ev: NetEvent, maxRetries: nat)
    requires Watching(net.a)
    ensures Watching(NetStep(net, ev, maxRetries).a)
  {
    hide Armed, Step, Tagged;
    match ev {
      case AtA(e, now, _, _) =>
        StepTimers(net.a, e, now, maxRetries, now);
        StaysSynchronized(net.a, e, now, maxRetries);
      case AtB(e, now, _, _) =>
        StepAtB(net, e, now, maxRetries);
    }
  }

  lemma {:induction false} RunWatching(net: Net, events: seq<NetEvent>, maxRetries: nat)
    requires Watching(net.a)
    ensures Watching(NetRun(net, events, maxRetries).a)
    decreases |events|
  {
    hide Watching, NetStep;
    if events != [] {
      StepWatching(net, events[0], maxRetries);
      RunWatching(NetStep(net, events[0], maxRetries), events[1..], maxRetries);
    }
  }

  // Where the data sent so far ends; a FIN is not data.
  function SentTo(c: Connection): int { NxtPos(c) - if SentFin(c.state) then 1 else 0 }

  lemma QueueIsUnacknowledged(c: Connection, w: Progress)
    requires Sending(c, w)
    ensures c.snd.queue != [] <==> UnaPos(c) < SentTo(c)
    ensures c.snd.queue != [] ==> c.snd.una == c.snd.queue[0].seqNo && UnaPos(c) == w.cuts[w.u]
  {
    hide SeqAt, UnaPos, NxtPos;
    SendingNumbers(c, w);
    SendingPartition(c, w);
    if c.snd.queue != [] {
      assert w.cuts[w.u] < w.cuts[w.u + 1] <= Last(w.cuts);
    }
  }

  // The outcome resends written bytes from SND.UNA on, and nothing else.
  ghost predicate ResendsFirst(c: Connection, o: Outcome) {
    && o.Keep? && |o.out| == 1
    && var seg := o.out[0];
       && seg.seqNo == c.snd.una && seg.payload != [] && Has(seg.flags, ACK) && !Has(seg.flags, RST)
       && !Has(seg.flags, FIN)
       && UnaPos(c) + |seg.payload| <= |c.snd.tx.stream|
       && seg.payload == c.snd.tx.stream[UnaPos(c)..UnaPos(c) + |seg.payload|]
  }

  lemma TickResendsFirst(c: Connection, now: Time, maxRetries: nat, w: Progress)
    requires Sending(c, w) && Armed(c) && Resends(c.state) && UnaPos(c) < SentTo(c)
    ensures c.snd.rto.Some? && c.snd.queue != []
    ensures var o := OnTick(c, now, maxRetries);
            Due(c.snd.rto, now) ==>
              if c.snd.retries >= maxRetries then o.Drop? && o.last.error.Some? && o.last.eof else ResendsFirst(c, o)
  {
    hide Sending, UnaPos, OldestPayload, OnRtoFired, AdvertisedWindow;
    QueueIsUnacknowledged(c, w);
    if Due(c.snd.rto, now) {
      SendingQueue(c, w);
      TimeoutRearms(c, now, maxRetries);
    }
  }

  lemma ConnectedWatching(net: Net)
    requires Connected(net)
    ensures Watching(net.a)
  {
    hide Handshaking;
  }

  /** On every run: while data is unacknowledged its timer runs, and a tick at
      or past the deadline resends the written bytes at SND.UNA, or ends the
      connection with an error when the retries are used up. */
  lemma LossIsNoticed(net: Net, events: seq<NetEvent>, maxRetries: nat, now: Time)
    requires Connected(net) && Behaved(net, events, maxRetries)
    ensures var a := NetRun(net, events, maxRetries).a;
            Resends(a.state) && UnaPos(a) < SentTo(a) ==>
              && a.snd.rto.Some?
              && (now >= a.snd.rto.value ==>
                    var o := OnTick(a, now, maxRetries);
                    if a.snd.retries >= maxRetries then o.Drop? && o.last.error.Some? && o.last.eof
                    else ResendsFirst(a, o))
  {
    hide Connected, Linked, NetRun, Behaved, OnTick, ResendsFirst, UnaPos, SentTo, Sending;
    ConnectedLinked(net);
    ConnectedWatching(net);
    RunWatching(net, events, maxRetries);
    var w := RunKeeps(net, events, maxRetries, START);
    var end := NetRun(net, events, maxRetries);
    LinkedSending(end, w);
    if Resends(end.a.state) && UnaPos(end.a) < SentTo(end.a) {
      TickResendsFirst(end.a, now, maxRetries, w);
    }
  }

  lemma LinkedSending(net: Net, w: Progress)
    requires Linked(net, w)
    ensures Sending(net.a, w)
  {
  }

  /** On every run: bytes that a tick leaves unsent in ESTABLISHED have a
      running timer, or data in flight whose timer runs. */
  lemma NothingStalls(net: Net, events: seq<NetEvent>, maxRetries: nat, now: Time)
    requires Connected(net) && Behaved(net, events, maxRetries)
    ensures var a := NetRun(net, events, maxRetries).a;
            a.state == Established && SendMss(a.snd) >= 1 && Unsent(Transmitted(a, now)) > 0 ==>
              Awaited(Transmitted(a, now))
  {
    hide Connected, Linked, NetRun, Behaved, Transmitted, Unsent, SendMss, Awaited, TracksFrom, Latched;
    ConnectedLinked(net);
    ConnectedWatching(net);
    RunWatching(net, events, maxRetries);
    var w := RunKeeps(net, events, maxRetries, START);
    var end := NetRun(net, events, maxRetries);
    LinkedSending(end, w);
    if end.a.state == Established && SendMss(end.a.snd) >= 1 {
      EstablishedNeverStalls(end.a, now);
    }
  }

  // ---------------------------------------------------------------- the receiver's answer

  lemma {:induction false} DrainedExtends(r: Receiver)
    ensures r.rx.stream <= Drained(r).0.rx.stream
    decreases |r.reorder|
  {
    hide Rekeyed;
    if 0 in r.reorder {
      DrainOneShrinks(r);
      DrainedExtends(DrainOne(r));
    }
  }

  /** Data next in order, with room for it, is delivered at once, and whatever
      was waiting behind it follows. */
  lemma InOrderIsDelivered(r: Receiver, seg: Segment, now: Time)
    requires seg.payload != [] && seg.seqNo == r.nxt && |seg.payload| <= r.rx.Free()
    ensures r.rx.stream + seg.payload <= Receive(r, seg, now).0.rx.stream
  {
    hide Rekeyed, Drained;
    var w := r.rx.Accepted(seg.payload) % TWO32;
    var a := Accept(r.(reorder := Rekeyed(r.reorder, w)), seg.payload);
    assert seg.payload[..|seg.payload|] == seg.payload;
    DrainedExtends(a);
  }

  // Numbers of positions no further apart than half the space are compared as the positions are.
  lemma ArrivalPosition(iss: Seq, p: nat, n: nat)
    requires p <= n < p + TWO31
    ensures SeqAt(iss, p) == SeqAt(iss, n) <==> p == n
    ensures !Gt(SeqAt(iss, p), SeqAt(iss, n))
  {
    SeqAtAgrees(iss, n, p);
  }

  /** The exact condition: a receiver in ESTABLISHED answers a retransmission,
      with an acknowledgment now or a timer running for one, if and only if it
      did not have the data. To one whose acknowledgment was lost it says
      nothing, and its own state stays as it is. */
  lemma RetransmissionAnsweredExactly(c: Connection, seg: Segment, now: Time, iss: Seq, p: nat, n: nat)
    requires c.state == Established && seg.payload != [] && !Has(seg.flags, RST) && !Has(seg.flags, FIN)
    requires seg.seqNo == SeqAt(iss, p) && c.rcv.nxt == SeqAt(iss, n) && p <= n < p + TWO31
    ensures var o := OnSegment(c, seg, now);
            && o.Keep?
            && (p < n ==> o.out == [] && o.conn.rcv == c.rcv)
            && (p == n ==> (|o.out| == 1 && o.out[0].ackNo == o.conn.rcv.nxt) || o.conn.rcv.delayedAck.Some?)
            && (p == n && |seg.payload| <= c.rcv.rx.Free() ==> c.rcv.rx.stream + seg.payload <= o.conn.rcv.rx.stream)
  {
    hide Receive, Acknowledge, UpdateWindow, AdvertisedWindow, TouchKeepalive, Gt, SeqAt;
    ArrivalIsAcknowledged(c.rcv, seg, now);
    ArrivalPosition(iss, p, n);
    if p == n && |seg.payload| <= c.rcv.rx.Free() {
      InOrderIsDelivered(c.rcv, seg, now);
    }
  }

  // ---------------------------------------------------------------- the whole repair

  lemma AcknowledgedSender(s: Sender, seg: Segment)
    ensures var t, u := UpdateWindow(Acknowledge(s, seg.ackNo), seg), AcknowledgeOnly(s, seg.ackNo);
            && t.una == u.una == (if Acceptable(s, seg.ackNo) then seg.ackNo else s.una)
            && t.cong == u.cong == (if Acceptable(s, seg.ackNo) then AfterAck(s.cong, SendMss(s)) else s.cong)
  {
    hide Rebased, Retained, ShiftLeft, Acceptable, WindowUpdateApplies, Diff, AfterAck;
  }

  /** In every state that takes acknowledgments of data, an acceptable one
      moves SND.UNA to the number it names and opens the congestion window, in
      slow start by a segment of the smaller of the two sizes; any other
      leaves both. */
  lemma AckMovesUna(c: Connection, seg: Segment, now: Time)
    requires c.state == Established || c.state == CloseWait || c.state == FinWait1
    requires !Has(seg.flags, RST)
    ensures var o := OnSegment(c, seg, now);
            var s, taken := c.snd, Has(seg.flags, ACK) && Acceptable(c.snd, seg.ackNo);
            && o.Keep?
            && o.conn.snd.una == (if taken then seg.ackNo else s.una)
            && (!taken ==> o.conn.snd.cong == s.cong)
            && (taken && s.cong.cwnd < s.cong.ssthresh && !s.cong.inRecovery ==>
                  o.conn.snd.cong.cwnd == Min(s.cong.cwnd + Min(s.localMss, s.peerMss), U32_MAX))
  {
    hide Receive, AcceptInOrder, FinInOrder, AcksEverything, Emit, Add, TouchKeepalive, Acceptable, AfterAck,
      Acknowledge, AcknowledgeOnly, UpdateWindow;
    AcknowledgedSender(c.snd, seg);
    SlowStartStep(c.snd.cong, SendMss(c.snd));
  }

  lemma SlowStartStep(c: Cong, mss: u16)
    ensures c.cwnd < c.ssthresh && !c.inRecovery ==> AfterAck(c, mss).cwnd == Min(c.cwnd + mss, U32_MAX)
  {
  }

  // What a tick of a resend leaves of its sender.
  lemma ResentState(c: Connection, now: Time, maxRetries: nat)
    requires c.snd.queue != [] && Due(c.snd.rto, now) && Resends(c.state) && c.snd.retries < maxRetries
    ensures var o := OnTick(c, now, maxRetries);
            && o.Keep? && o.conn.state == c.state && UnaPos(o.conn) == UnaPos(c) && NxtPos(o.conn) == NxtPos(c)
            && o.conn.snd.una == c.snd.una && o.conn.snd.nxt == c.snd.nxt && o.conn.snd.iss == c.snd.iss
  {
    hide OldestPayload, OnRtoFired, Emit, Diff;
    TimeoutRearms(c, now, maxRetries);
  }

  lemma AcceptableBetween(s: Sender, una: nat, ack: nat, nxt: nat)
    requires s.una == SeqAt(s.iss, una) && s.nxt == SeqAt(s.iss, nxt) && una < ack <= nxt <= una + MAX_WINDOW + 1
    ensures Acceptable(s, SeqAt(s.iss, ack)) && SeqAt(s.iss, ack) != s.una
  {
    SeqAtAgrees(s.iss, ack, una);
    SeqAtAgrees(s.iss, ack, nxt);
  }

  // The resend, and its arrival at the other side.
  function RepairEvents(seg: Segment, t1: Time, t2: Time, pos: nat, ackPos: nat): seq<NetEvent> {
    [AtA(Tick, t1, 0, 0), AtB(Inbound(seg), t2, pos, ackPos)]
  }

  lemma RepairSteps(end: Net, seg: Segment, t1: Time, t2: Time, pos: nat, ackPos: nat, maxRetries: nat)
    requires end.aLive && end.bLive && OnTick(end.a, t1, maxRetries).Keep? && OnSegment(end.b, seg, t2).Keep?
    ensures var mid := NetRun(end, RepairEvents(seg, t1, t2, pos, ackPos), maxRetries);
            && mid.a == OnTick(end.a, t1, maxRetries).conn
            && mid.b == OnSegment(end.b, seg, t2).conn
  {
    hide OnTick, OnSegment, Tagged;
    var evs := RepairEvents(seg, t1, t2, pos, ackPos);
    var one := NetStep(end, evs[0], maxRetries);
    assert evs[1..] == [evs[1]];
    RunOne(one, evs[1], maxRetries);
  }

  lemma LinkedPoints(net: Net, w: Progress)
    requires Linked(net, w)
    ensures net.a.snd.una == SeqAt(net.a.snd.iss, UnaPos(net.a)) && net.a.snd.nxt == SeqAt(net.a.snd.iss, NxtPos(net.a))
    ensures net.b.rcv.nxt == SeqAt(net.a.snd.iss, AckPos(net.b))
    ensures UnaPos(net.a) <= AckPos(net.b) <= NxtPos(net.a) <= UnaPos(net.a) + MAX_WINDOW + 1
    ensures UnaPos(net.a) < TWO31 + AckPos(net.b) < TWO31 + UnaPos(net.a) + TWO31
  {
    hide Intact, Linked, UnaPos, NxtPos, AckPos, SeqAt, CutAsSent, AcksGenuine, OnCut, Boundaries;
    LinkedIntact(net, w);
    IntactInStep(net);
  }

  lemma IntactInStep(net: Net)
    requires Intact(net)
    ensures exists cuts :: InStep(net, cuts)
  {
    hide InStep, CutAsSent;
  }

  /** A repair makes progress: on every run, when what the receiver lacks next
      is what SND.UNA names, the tick of the timer, the arrival of what it
      sends, and the arrival of any acknowledgment of RCV.NXT afterwards move
      RCV.NXT and then SND.UNA past the resent bytes. */
  lemma RepairMakesProgress(net: Net, events: seq<NetEvent>, maxRetries: nat, t1: Time, t2: Time, pos: nat, ackPos: nat,
                            seg: Segment, reply: Segment, t3: Time)
    requires Connected(net)
    requires Behaved(net, events + RepairEvents(seg, t1, t2, pos, ackPos), maxRetries)
    requires var end := NetRun(net, events, maxRetries);
             && end.aLive && end.bLive && end.b.state == Established && UnaPos(end.a) < SentTo(end.a)
             && (end.a.state == Established || end.a.state == CloseWait || end.a.state == FinWait1)
             && Due(end.a.snd.rto, t1) && end.a.snd.retries < maxRetries
             && OnTick(end.a, t1, maxRetries).out == [seg]
             && AckPos(end.b) == UnaPos(end.a) && |seg.payload| <= end.b.rcv.rx.Free()
    requires var mid := NetRun(net, events + RepairEvents(seg, t1, t2, pos, ackPos), maxRetries);
             Has(reply.flags, ACK) && !Has(reply.flags, RST) && reply.ackNo == mid.b.rcv.nxt
    ensures var end := NetRun(net, events, maxRetries);
            var mid := NetRun(net, events + RepairEvents(seg, t1, t2, pos, ackPos), maxRetries);
            var o := OnSegment(mid.a, reply, t3);
            && seg.seqNo == end.a.snd.una && seg.payload != []
            && end.b.rcv.rx.stream + seg.payload <= mid.b.rcv.rx.stream
            && o.Keep? && o.conn.snd.una == mid.b.rcv.nxt != end.a.snd.una
  {
    hide Connected, Linked, NetRun, Behaved, OnTick, OnSegment, UnaPos, NxtPos, SentTo, Sending, SeqAt,
      RepairEvents, Acceptable;
    var more := RepairEvents(seg, t1, t2, pos, ackPos);
    var end, mid := NetRun(net, events, maxRetries), NetRun(net, events + more, maxRetries);
    RunSplits(net, events, more, maxRetries);
    LossIsNoticed(net, events, maxRetries, t1);
    ConnectedLinked(net);
    var w := RunKeeps(net, events, maxRetries, START);
    LinkedPoints(end, w);
    LinkedSending(end, w);
    QueueIsUnacknowledged(end.a, w);
    ResendIs(end.a, t1, maxRetries, seg);
    ResentState(end.a, t1, maxRetries);
    RetransmissionAnsweredExactly(end.b, seg, t2, end.a.snd.iss, UnaPos(end.a), AckPos(end.b));
    RepairSteps(end, seg, t1, t2, pos, ackPos, maxRetries);
    var w' := RunKeeps(end, more, maxRetries, w);
    LinkedPoints(mid, w');
    AcceptableBetween(mid.a.snd, UnaPos(mid.a), AckPos(mid.b), NxtPos(mid.a));
    AckMovesUna(mid.a, reply, t3);
  }

  lemma ResendIs(c: Connection, now: Time, maxRetries: nat, seg: Segment)
    requires Due(c.snd.rto, now) && ResendsFirst(c, OnTick(c, now, maxRetries))
    requires OnTick(c, now, maxRetries).out == [seg]
    ensures seg.seqNo == c.snd.una && seg.payload != [] && !Has(seg.flags, RST) && !Has(seg.flags, FIN)
  {
    hide OnTick, UnaPos;
  }
}
