/** What a receiver owes its sender: that data is delivered in every state
    that takes it, and that what is delivered is acknowledged in time. */
module Acknowledging {
  import opened Types
  import opened SeqNum
  import opened Tcb
  import opened Lifecycle
  import opened ReceiverSteps

  // ---------------------------------------------------------------- one arrival in ESTABLISHED

  /** Every new arrival is acknowledged now or by a running timer: now if it is
      out of order or the second since the last acknowledgment, and otherwise
      at most 200 ms from now. Old data draws nothing. */
  lemma ArrivalIsAcknowledged(r: Receiver, seg: Segment, now: Time)
    ensures var (r', ackNow) := Receive(r, seg, now);
            && (ackNow ==> r'.delayedAck == None && r'.sinceAck == 0)
            && (seg.payload != [] && Gt(seg.seqNo, r.nxt) ==> ackNow && r'.nxt == r.nxt)
            && (seg.payload != [] && seg.seqNo == r.nxt && r.sinceAck >= 1 ==> ackNow)
            && (seg.payload != [] && seg.seqNo == r.nxt && !ackNow ==>
                  && r'.sinceAck == 1
                  && r'.delayedAck == if r.delayedAck.Some? then r.delayedAck else Some(now + 200_000_000))
            && (seg.payload == [] || !(seg.seqNo == r.nxt || Gt(seg.seqNo, r.nxt)) ==> !ackNow && r' == r)
  {
    hide Rekeyed, Accept, Drained;
    var w := r.rx.Accepted(seg.payload) % TWO32;
    var a := Accept(r.(reorder := Rekeyed(r.reorder, w)), seg.payload);
    DrainedCount(a);
    NotAfterItself(r.nxt);
  }

  lemma NotAfterItself(s: Seq)
    ensures !Gt(s, s)
  {
  }

  lemma DrainedCount(r: Receiver)
    ensures Drained(r).1 >= 0
  {
  }

  /** The first segment since an acknowledgment waits for a second one: alone,
      in order and with nothing buffered behind it, it only starts the timer. */
  lemma FirstSegmentWaits(r: Receiver, seg: Segment, now: Time)
    requires seg.payload != [] && seg.seqNo == r.nxt && r.sinceAck == 0 && r.reorder == map[]
    ensures var (r', ackNow) := Receive(r, seg, now);
            !ackNow && r'.sinceAck == 1 && r'.delayedAck.Some?
  {
    var w := r.rx.Accepted(seg.payload) % TWO32;
    assert Rekeyed(r.reorder, w) == map[];
  }

  /** An arrival ahead of RCV.NXT draws an acknowledgment of RCV.NXT in the
      same step. */
  lemma OutOfOrderDrawsDuplicate(c: Connection, seg: Segment, now: Time)
    requires c.state == Established && !Has(seg.flags, RST) && !Has(seg.flags, FIN)
    requires seg.payload != [] && Gt(seg.seqNo, c.rcv.nxt)
    ensures var o := OnSegment(c, seg, now);
            && o.Keep? && o.conn.rcv.nxt == c.rcv.nxt
            && |o.out| == 1 && o.out[0].ackNo == c.rcv.nxt && o.out[0].flags == ACK && o.out[0].payload == []
            && o.out[0].seqNo == o.conn.snd.nxt
  {
    hide Receive, Acknowledge, UpdateWindow, AdvertisedWindow, TouchKeepalive;
    ArrivalIsAcknowledged(c.rcv, seg, now);
  }

  // ---------------------------------------------------------------- the half-closed states

  /** In FIN_WAIT_1 and FIN_WAIT_2 a payload that is next in order is handed to
      the application as far as the ring has room, and nothing else is; the
      reorder buffer is left alone. */
  lemma FinWaitDelivers(c: Connection, seg: Segment, now: Time)
    requires (c.state == FinWait1 || c.state == FinWait2) && !Has(seg.flags, RST)
    ensures var o := OnSegment(c, seg, now);
            var n := if seg.payload != [] && seg.seqNo == c.rcv.nxt then Min(|seg.payload|, c.rcv.rx.Free()) else 0;
            && o.Keep? && o.conn.rcv.rx.stream == c.rcv.rx.stream + seg.payload[..n]
            && o.conn.rcv.rx.cap == c.rcv.rx.cap && o.conn.rcv.rx.taken == c.rcv.rx.taken
            && o.conn.rcv.reorder == c.rcv.reorder
            && (!TookFin(o.conn.state) ==> o.conn.rcv.nxt == Add(c.rcv.nxt, n % TWO32))
            && (TookFin(o.conn.state) ==> o.conn.rcv.nxt == Add(Add(c.rcv.nxt, n % TWO32), 1) && o.conn.handle.eof)
            && (TookFin(o.conn.state) <==> Has(seg.flags, FIN) && FinSeq(seg) == Add(c.rcv.nxt, n % TWO32))
  {
    hide AcknowledgeOnly, Emit, Add, AcksEverything;
    assert c.rcv.rx.stream + seg.payload[..0] == c.rcv.rx.stream;
    NothingAdded(c.rcv.nxt);
  }

  lemma NothingAdded(s: Seq)
    ensures Add(s, 0) == s
  {
  }

  /** With room for it, the whole payload arrives. */
  lemma FinWaitDeliversAll(c: Connection, seg: Segment, now: Time)
    requires (c.state == FinWait1 || c.state == FinWait2) && !Has(seg.flags, RST)
    requires seg.payload != [] && seg.seqNo == c.rcv.nxt && |seg.payload| <= c.rcv.rx.Free()
    ensures OnSegment(c, seg, now).Keep? && OnSegment(c, seg, now).conn.rcv.rx.stream == c.rcv.rx.stream + seg.payload
  {
    hide OnSegment;
    FinWaitDelivers(c, seg, now);
    assert seg.payload[..|seg.payload|] == seg.payload;
  }

  // Plain data segments, each starting where the one before ends.
  ghost predicate Consecutive(nxt: Seq, segs: seq<Segment>)
    decreases |segs|
  {
    segs == [] ||
    (&& segs[0].payload != [] && |segs[0].payload| < TWO32 && segs[0].seqNo == nxt
     && !Has(segs[0].flags, RST) && !Has(segs[0].flags, FIN)
     && Consecutive(Add(nxt, |segs[0].payload|), segs[1..]))
  }

  function Payloads(segs: seq<Segment>): seq<u8> {
    if segs == [] then [] else segs[0].payload + Payloads(segs[1..])
  }

  // The same connection after these segments, as long as it is kept.
  function AfterAll(c: Connection, segs: seq<Segment>, now: Time): Connection
    decreases |segs|
  {
    if segs == [] || OnSegment(c, segs[0], now).Drop? then c
    else AfterAll(OnSegment(c, segs[0], now).conn, segs[1..], now)
  }

  /** A half-closed connection takes the rest of the peer's stream: segments
      that arrive in order, with room for them, are delivered to the last byte. */
  lemma {:induction false} HalfClosedReceivesAll(c: Connection, segs: seq<Segment>, now: Time)
    requires (c.state == FinWait1 || c.state == FinWait2) && Consecutive(c.rcv.nxt, segs)
    requires |Payloads(segs)| <= c.rcv.rx.Free()
    ensures var d := AfterAll(c, segs, now);
            (d.state == FinWait1 || d.state == FinWait2) && d.rcv.rx.stream == c.rcv.rx.stream + Payloads(segs)
    decreases |segs|
  {
    hide OnSegment, Add, Has;
    if segs != [] {
      var seg := segs[0];
      FinWaitDelivers(c, seg, now);
      FinWaitStays(c, seg, now);
      var d := OnSegment(c, seg, now).conn;
      assert seg.payload[..|seg.payload|] == seg.payload;
      HalfClosedReceivesAll(d, segs[1..], now);
      assert c.rcv.rx.stream + seg.payload + Payloads(segs[1..]) == c.rcv.rx.stream + Payloads(segs);
    } else {
      assert c.rcv.rx.stream + [] == c.rcv.rx.stream;
    }
  }

  lemma FinWaitStays(c: Connection, seg: Segment, now: Time)
    requires (c.state == FinWait1 || c.state == FinWait2) && !Has(seg.flags, RST) && !Has(seg.flags, FIN)
    ensures var o := OnSegment(c, seg, now); o.Keep? && (o.conn.state == FinWait1 || o.conn.state == FinWait2)
  {
    hide AcknowledgeOnly, AcceptInOrder, Emit, Add, AcksEverything;
  }

  // ---------------------------------------------------------------- what leaves acknowledges

  /** Every segment a synchronized connection sends acknowledges RCV.NXT. */
  lemma OutAcknowledges(c: Connection, e: Event, now: Time, maxRetries: nat)
    requires Synchronized(c.state)
    ensures var o := Step(c, e, now, maxRetries); o.Keep? ==> AllAck(o.out, o.conn.rcv.nxt)
  {
    hide OnTick, OnReset, OnShutdownWrite, OnEstablished, OnFinWait1, OnFinWait2, OnClosing, OnLastAck, OnTimeWait,
      OnCloseWait, AllAck, SameTaking, SameDelivery, Receive, AcceptInOrder;
    if e.Inbound? {
      var seg := e.seg;
      if Has(seg.flags, RST) {
        ResetAcks(c, seg);
      } else if c.state == Established {
        EstablishedReacts(c, seg, now);
      } else if c.state == FinWait1 {
        FinWait1Reacts(c, seg, now);
      } else if c.state == FinWait2 {
        FinWait2Reacts(c, seg, now);
      } else {
        hide OnSegment;
        TookShape(c, seg, now);
      }
    } else if e.Tick? {
      TickShape(c, now, maxRetries);
    } else {
      hide Step;
      LocalAcks(c, e, now, maxRetries);
    }
  }

  // ---------------------------------------------------------------- runs

  // The number that the last segment sent acknowledges.
  function LastAck(last: Seq, out: seq<Segment>): Seq { if out == [] then last else out[|out| - 1].ackNo }

  /** All that was received has been acknowledged, or a timer will do it. */
  ghost predicate Answered(c: Connection, last: Seq) { last == c.rcv.nxt || c.rcv.delayedAck.Some? }

  /** The exception: FIN_WAIT_1 delivers data without acknowledging it. */
  predicate Unanswered(c: Connection, e: Event) {
    && c.state == FinWait1 && e.Inbound? && !Has(e.seg.flags, RST) && c.rcv.delayedAck.None?
    && e.seg.payload != [] && e.seg.seqNo == c.rcv.nxt && Min(|e.seg.payload|, c.rcv.rx.Free()) % TWO32 != 0
    && !(Has(e.seg.flags, FIN) && FinSeq(e.seg) == Add(c.rcv.nxt, Min(|e.seg.payload|, c.rcv.rx.Free()) % TWO32))
  }

  lemma EstablishedAnswers(c: Connection, seg: Segment, now: Time)
    requires c.state == Established
    ensures var o := OnEstablished(c, seg, now);
            && o.Keep?
            && (o.out == [] ==>
                  || (o.conn.rcv.nxt == c.rcv.nxt && o.conn.rcv.delayedAck == c.rcv.delayedAck)
                  || o.conn.rcv.delayedAck.Some?)
  {
    hide Receive, Acknowledge, UpdateWindow, Emit, TouchKeepalive, FinInOrder, Add, Gt;
    ArrivalIsAcknowledged(c.rcv, seg, now);
  }

  lemma FinWait1Answers(c: Connection, seg: Segment, now: Time)
    requires c.state == FinWait1 && !Has(seg.flags, RST)
    ensures var o := OnSegment(c, seg, now);
            && o.Keep? && o.conn.rcv.delayedAck == c.rcv.delayedAck
            && (o.out == [] <==> !TookFin(o.conn.state))
  {
    hide AcknowledgeOnly, AcceptInOrder, Emit, Add, AcksEverything, FinInOrder;
    InOrderPacing(c.rcv, seg);
  }

  lemma FinWait2Answers(c: Connection, seg: Segment, now: Time)
    requires c.state == FinWait2 && !Has(seg.flags, RST)
    ensures var o := OnSegment(c, seg, now);
            && o.Keep? && o.conn.rcv.delayedAck == c.rcv.delayedAck
            && (o.out == [] <==> !TookFin(o.conn.state) && !(seg.payload != [] && seg.seqNo == c.rcv.nxt))
            && (o.out == [] ==> o.conn.rcv.nxt == c.rcv.nxt)
  {
    hide AcceptInOrder, Emit, Add, FinInOrder;
    InOrderPacing(c.rcv, seg);
  }

  lemma InOrderPacing(r: Receiver, seg: Segment)
    ensures var t := AcceptInOrder(r, seg);
            t.delayedAck == r.delayedAck && (!(seg.payload != [] && seg.seqNo == r.nxt) ==> t == r)
  {
    hide Add;
  }

  // Everything else that happens leaves RCV.NXT alone, and drops the timer only for an acknowledgment.
  lemma OtherwiseAnswered(c: Connection, e: Event, now: Time, maxRetries: nat)
    requires Synchronized(c.state)
    requires e.Inbound? && !Has(e.seg.flags, RST) ==> TookFin(c.state)
    ensures var o := Step(c, e, now, maxRetries);
            o.Keep? ==>
              && o.conn.rcv.nxt == c.rcv.nxt
              && (o.out == [] ==> o.conn.rcv.delayedAck == c.rcv.delayedAck)
  {
    hide OnRtoFired, Transmit, Emit, AcknowledgeOnly, AcksEverything, InWindow, DrainTx, Unsent, Add, Due;
    if e.Tick? {
      var d := FireDelayedAck(c, now).0;
      if d.state == Established || d.state == CloseWait {
        TransmitAcks(d, now);
      }
      if RtoFires(c, now) {
        RtoReceiver(c, now, maxRetries);
      }
    } else if e.ShutdownWrite? {
      ShutdownAcks(c, now);
    }
  }

  lemma RtoReceiver(c: Connection, now: Time, maxRetries: nat)
    requires c.snd.queue != []
    ensures var o := OnRtoFired(c, now, maxRetries); o.Keep? ==> o.conn.rcv == c.rcv
  {
    hide Emit;
  }

  lemma Moves(s: Seq, n: u32)
    ensures Add(s, n) == s <==> n == 0
  {
  }

  /** The exact condition: a step leaves everything received answered if and
      only if it is not an arrival in FIN_WAIT_1 that delivers data and brings
      no FIN, with no delayed acknowledgment already under way. */
  lemma AnsweredExactly(c: Connection, e: Event, now: Time, maxRetries: nat, last: Seq)
    requires Synchronized(c.state) && Answered(c, last)
    ensures var o := Step(c, e, now, maxRetries);
            o.Keep? ==> (Answered(o.conn, LastAck(last, o.out)) <==> !Unanswered(c, e))
  {
    hide Step, OnSegment, OnEstablished, Add;
    var o := Step(c, e, now, maxRetries);
    OutAcknowledges(c, e, now, maxRetries);
    if e.Inbound? && !Has(e.seg.flags, RST) && !TookFin(c.state) {
      SegmentStep(c, e.seg, now, maxRetries);
      if c.state == Established {
        EstablishedAnswers(c, e.seg, now);
      } else if c.state == FinWait1 {
        FinWait1Answers(c, e.seg, now);
        FinWaitDelivers(c, e.seg, now);
        var n := if e.seg.payload != [] && e.seg.seqNo == c.rcv.nxt then Min(|e.seg.payload|, c.rcv.rx.Free()) else 0;
        Moves(c.rcv.nxt, n % TWO32);
      } else {
        FinWait2Answers(c, e.seg, now);
      }
    } else {
      OtherwiseAnswered(c, e, now, maxRetries);
    }
  }

  lemma SegmentStep(c: Connection, seg: Segment, now: Time, maxRetries: nat)
    ensures Step(c, Inbound(seg), now, maxRetries) == OnSegment(c, seg, now)
    ensures c.state == Established && !Has(seg.flags, RST) ==> OnSegment(c, seg, now) == OnEstablished(c, seg, now)
  {
    hide OnEstablished, OnFinWait1, OnFinWait2;
  }

  /** In FIN_WAIT_1: three bytes are delivered, nothing is sent and no timer
      runs, so the peer is left to resend them. */
  lemma FinWait1LeavesUnanswered(c: Connection, seg: Segment, now: Time, maxRetries: nat)
    requires c.state == FinWait1 && c.rcv.delayedAck.None? && c.rcv.rx.Free() >= 3
    requires seg.payload == [1, 2, 3] && seg.seqNo == c.rcv.nxt && seg.flags == ACK
    ensures var o := OnSegment(c, seg, now);
            && o.Keep? && o.out == [] && o.conn.rcv.rx.stream == c.rcv.rx.stream + [1, 2, 3]
            && o.conn.rcv.delayedAck.None? && o.conn.rcv.nxt == Add(c.rcv.nxt, 3) != c.rcv.nxt
  {
    hide OnSegment, Add;
    FinWaitDelivers(c, seg, now);
    FinWait1Answers(c, seg, now);
    Moves(c.rcv.nxt, 3);
    assert seg.payload[..3] == seg.payload;
  }

  // A run of one connection that remembers what it last acknowledged.
  datatype Heard = Heard(conn: Connection, last: Seq)

  ghost function AckRun(h: Heard, events: seq<Timed>, maxRetries: nat): Option<Heard>
    decreases |events|
  {
    if events == [] then Some(h)
    else
      var before := AckRun(h, events[..|events| - 1], maxRetries);
      var t := events[|events| - 1];
      if before.None? then None
      else
        var o := Step(before.value.conn, t.e, t.now, maxRetries);
        if o.Drop? then None else Some(Heard(o.conn, LastAck(before.value.last, o.out)))
  }

  // No step of the run is the exception.
  ghost predicate NoneUnanswered(h: Heard, events: seq<Timed>, maxRetries: nat) {
    forall i :: 0 <= i < |events| ==>
      var before := AckRun(h, events[..i], maxRetries);
      before.Some? ==> !Unanswered(before.value.conn, events[i].e)
  }

  /** The delayed acknowledgment is due at most 200 ms from now. */
  ghost predicate AckPrompt(c: Connection, clock: Time) {
    c.rcv.delayedAck.Some? ==> c.rcv.delayedAck.value <= clock + DELAYED_ACK_TIMEOUT
  }

  lemma StepAckPrompt(c: Connection, e: Event, now: Time, maxRetries: nat, clock: Time)
    requires Synchronized(c.state) && AckPrompt(c, clock) && clock <= now
    ensures var o := Step(c, e, now, maxRetries); o.Keep? ==> AckPrompt(o.conn, now)
  {
    hide Step, OnSegment, OnEstablished, Add;
    if e.Inbound? && !Has(e.seg.flags, RST) && !TookFin(c.state) {
      SegmentStep(c, e.seg, now, maxRetries);
      if c.state == Established {
        EstablishedAckPrompt(c, e.seg, now, clock);
      } else if c.state == FinWait1 {
        FinWait1Answers(c, e.seg, now);
      } else {
        FinWait2Answers(c, e.seg, now);
      }
    } else {
      TimerOnlyStops(c, e, now, maxRetries);
    }
  }

  lemma EstablishedAckPrompt(c: Connection, seg: Segment, now: Time, clock: Time)
    requires c.state == Established && AckPrompt(c, clock) && clock <= now
    ensures AckPrompt(OnEstablished(c, seg, now).conn, now)
  {
    hide Receive, Acknowledge, UpdateWindow, Emit, TouchKeepalive, FinInOrder, Add, Gt;
    ArrivalIsAcknowledged(c.rcv, seg, now);
  }

  lemma TimerOnlyStops(c: Connection, e: Event, now: Time, maxRetries: nat)
    requires Synchronized(c.state)
    requires e.Inbound? && !Has(e.seg.flags, RST) ==> TookFin(c.state)
    ensures var o := Step(c, e, now, maxRetries);
            o.Keep? ==> o.conn.rcv.delayedAck == c.rcv.delayedAck || o.conn.rcv.delayedAck == None
  {
    hide OnRtoFired, Transmit, Emit, AcknowledgeOnly, AcksEverything, InWindow, DrainTx, Unsent, Add, Due;
    if e.Tick? {
      var d := FireDelayedAck(c, now).0;
      if d.state == Established || d.state == CloseWait {
        TransmitAcks(d, now);
      }
      if RtoFires(c, now) {
        RtoReceiver(c, now, maxRetries);
      }
    } else if e.ShutdownWrite? {
      ShutdownAcks(c, now);
    }
  }

  lemma StaysSynchronized(c: Connection, e: Event, now: Time, maxRetries: nat)
    requires Synchronized(c.state)
    ensures var o := Step(c, e, now, maxRetries); o.Keep? ==> Synchronized(o.conn.state)
  {
    hide Step;
    StepFollowsDiagram(c, e, now, maxRetries);
    if Step(c, e, now, maxRetries).Keep? {
      NotClosed(c, e, now, maxRetries);
    }
  }

  lemma NotClosed(c: Connection, e: Event, now: Time, maxRetries: nat)
    requires Synchronized(c.state) && Step(c, e, now, maxRetries).Keep?
    ensures Step(c, e, now, maxRetries).conn.state != Closed
  {
    hide OnSegment, OnRtoFired, Transmit, Emit, DrainTx, Unsent, Add, Due;
    if e.Inbound? {
      SegmentNotClosed(c, e.seg, now);
    } else if e.Tick? {
      if RtoFires(c, now) {
        RtoState(c, now, maxRetries);
      } else {
        var d := FireDelayedAck(c, now).0;
        if d.state == Established || d.state == CloseWait {
          TransmitAcks(d, now);
        }
      }
    }
  }

  lemma RtoState(c: Connection, now: Time, maxRetries: nat)
    requires c.snd.queue != []
    ensures var o := OnRtoFired(c, now, maxRetries); o.Keep? ==> o.conn.state == c.state
  {
    hide Emit;
  }

  lemma SegmentNotClosed(c: Connection, seg: Segment, now: Time)
    requires Synchronized(c.state)
    ensures var o := OnSegment(c, seg, now); o.Keep? ==> o.conn.state != Closed
  {
    hide Receive, Acknowledge, UpdateWindow, AcknowledgeOnly, AcceptInOrder, FinInOrder, AcksEverything, Emit, Add,
      TouchKeepalive, InWindow;
  }

  /** On every run without the exception, from a synchronized connection that
      has acknowledged all it received, everything received stays answered. */
  lemma {:induction false} RunsAnswer(h: Heard, events: seq<Timed>, maxRetries: nat)
    requires Synchronized(h.conn.state) && Answered(h.conn, h.last) && NoneUnanswered(h, events, maxRetries)
    ensures var end := AckRun(h, events, maxRetries);
            end.Some? ==> Synchronized(end.value.conn.state) && Answered(end.value.conn, end.value.last)
    decreases |events|
  {
    hide Step, Answered, Unanswered;
    if events != [] {
      var n := |events| - 1;
      var front := events[..n];
      assert forall i :: 0 <= i < n ==> front[..i] == events[..i];
      RunsAnswer(h, front, maxRetries);
      var before, t := AckRun(h, front, maxRetries), events[n];
      if before.Some? {
        AnsweredExactly(before.value.conn, t.e, t.now, maxRetries, before.value.last);
        StaysSynchronized(before.value.conn, t.e, t.now, maxRetries);
      }
    }
  }

  /** And the acknowledgment is never more than 200 ms away. */
  lemma {:induction false} RunsAckPromptly(h: Heard, events: seq<Timed>, maxRetries: nat, start: Time)
    requires Synchronized(h.conn.state) && AckPrompt(h.conn, start)
    requires forall i :: 0 <= i < |events| ==> start <= events[i].now
    requires forall i, j :: 0 <= i < j < |events| ==> events[i].now <= events[j].now
    ensures var end := AckRun(h, events, maxRetries);
            end.Some? ==>
              && Synchronized(end.value.conn.state)
              && AckPrompt(end.value.conn, if events == [] then start else events[|events| - 1].now)
    decreases |events|
  {
    hide Step, AckPrompt;
    if events != [] {
      var n := |events| - 1;
      var front := events[..n];
      RunsAckPromptly(h, front, maxRetries, start);
      var before, t := AckRun(h, front, maxRetries), events[n];
      if before.Some? {
        StepAckPrompt(before.value.conn, t.e, t.now, maxRetries, if n == 0 then start else events[n - 1].now);
        StaysSynchronized(before.value.conn, t.e, t.now, maxRetries);
      }
    }
  }

  /** So a tick 200 ms after the last event of any such run acknowledges
      RCV.NXT, if the last acknowledgment sent did not, or ends the connection. */
  lemma AcknowledgedInTime(h: Heard, events: seq<Timed>, maxRetries: nat, start: Time, now: Time)
    requires Synchronized(h.conn.state) && Answered(h.conn, h.last) && AckPrompt(h.conn, start)
    requires NoneUnanswered(h, events, maxRetries)
    requires forall i :: 0 <= i < |events| ==> start <= events[i].now
    requires forall i, j :: 0 <= i < j < |events| ==> events[i].now <= events[j].now
    requires now >= (if events == [] then start else events[|events| - 1].now) + DELAYED_ACK_TIMEOUT
    ensures var end := AckRun(h, events, maxRetries);
            end.Some? && end.value.last != end.value.conn.rcv.nxt && Resendable(end.value.conn.snd) ==>
              var o := OnTick(end.value.conn, now, maxRetries);
              o.Keep? ==> o.out != [] && o.out[0].ackNo == end.value.conn.rcv.nxt && Has(o.out[0].flags, ACK)
  {
    hide OnTick, AckRun, NoneUnanswered, Resendable;
    RunsAnswer(h, events, maxRetries);
    RunsAckPromptly(h, events, maxRetries, start);
    var end := AckRun(h, events, maxRetries);
    if end.Some? && end.value.last != end.value.conn.rcv.nxt && Resendable(end.value.conn.snd) {
      DelayedAckIsSent(end.value.conn, now, maxRetries);
    }
  }
}
