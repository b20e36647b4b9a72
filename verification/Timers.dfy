/** What the timers achieve: data in flight is resent within a minute, data
    held back waits for a timer that will fire, and connections whose peer is
    silent end. */
module Timers {
  import opened Types
  import opened SeqNum
  import opened Congestion
  import opened Tcb
  import opened SendStream
  import opened Lifecycle

  // ---------------------------------------------------------------- arming

  // States in which sent data may still wait for its acknowledgment.
  predicate Resends(s: TcpState) { s == Established || s == CloseWait || s == FinWait1 || s == Closing || s == LastAck }

  predicate Opening(s: TcpState) { s == SynSent || s == SynReceived }

  /** The transmit loop arms an idle retransmission timer exactly when it
      sends, for the current timeout from now, and leaves a running one alone. */
  lemma {:induction false} SendAllArms(s: Sender, now: Time)
    ensures var (end, sent) := SendAll(s, now);
            && end.rto == (if s.rto.None? && sent != [] then Some(now + s.cong.rto) else s.rto)
            && |end.queue| == |s.queue| + |sent|
    decreases Unsent(s)
  {
    hide CanSend, NextLen, SentOffset, Unsent, Add, NextPayload;
    if CanSend(s) {
      UnsentShrinks(s, now);
      SendAllArms(SendNext(s, now), now);
    }
  }

  /** Data in flight has its timer running. */
  ghost predicate Armed(c: Connection) {
    && (Resends(c.state) && c.snd.queue != [] ==> c.snd.rto.Some?)
    && (Opening(c.state) ==> c.snd.queue == [])
  }

  /** Both retransmission timers are due at most a minute from now. */
  ghost predicate Prompt(c: Connection, clock: Time) {
    && (c.snd.persist.Some? ==> c.snd.persist.value <= clock + MAX_RTO)
    && (!Opening(c.state) && c.snd.rto.Some? ==> c.snd.rto.value <= clock + MAX_RTO)
  }

  // How an arrival may touch the timers: it may stop the retransmission timer, but not while data waits for it.
  ghost predicate TimersKept(c: Connection, d: Connection) {
    && d.snd.persist == c.snd.persist && d.snd.persistBackoff == c.snd.persistBackoff
    && (c.snd.queue == [] ==> d.snd.queue == [])
    && (|| (d.snd.rto == c.snd.rto && d.state == c.state)
        || (d.snd.rto == c.snd.rto && !Opening(c.state) && (Resends(c.state) || !Resends(d.state)))
        || (d.snd.rto == None && (!Resends(d.state) || Opening(c.state))))
    && (Opening(d.state) ==> c.state == d.state)
  }

  lemma AcknowledgedTimers(s: Sender, seg: Segment)
    ensures var t := UpdateWindow(Acknowledge(s, seg.ackNo), seg);
            t.rto == s.rto && t.persist == s.persist && t.persistBackoff == s.persistBackoff && |t.queue| <= |s.queue|
  {
    hide AfterAck, ShiftLeft, Retained, Rebased, Diff, Acceptable, WindowUpdateApplies;
  }

  lemma AcknowledgedOnlyTimers(s: Sender, ackNo: Seq)
    ensures var t := AcknowledgeOnly(s, ackNo);
            t.rto == s.rto && t.persist == s.persist && t.persistBackoff == s.persistBackoff && |t.queue| <= |s.queue|
  {
    hide AfterAck, Retained, Acceptable;
  }

  lemma EstablishedTimers(c: Connection, seg: Segment, now: Time)
    requires c.state == Established
    ensures OnEstablished(c, seg, now).Keep? && TimersKept(c, OnEstablished(c, seg, now).conn)
  {
    hide Acknowledge, UpdateWindow, Receive, FinInOrder, Emit, Add, TouchKeepalive;
    AcknowledgedTimers(c.snd, seg);
  }

  lemma FinWaitTimers(c: Connection, seg: Segment, now: Time)
    requires c.state == FinWait1
    ensures OnFinWait1(c, seg, now).Keep? && TimersKept(c, OnFinWait1(c, seg, now).conn)
  {
    hide AcknowledgeOnly, AcceptInOrder, FinInOrder, AcksEverything, Emit, Add;
    AcknowledgedOnlyTimers(c.snd, seg.ackNo);
  }

  lemma TeardownTimers(c: Connection, seg: Segment, now: Time)
    requires Synchronized(c.state) && c.state != Established && !Has(seg.flags, RST)
    ensures var o := OnSegment(c, seg, now); o.Keep? ==> TimersKept(c, o.conn)
  {
    hide AcknowledgeOnly, AcceptInOrder, FinInOrder, AcksEverything, Emit, Add, OnFinWait1;
    if c.state == FinWait1 {
      hide TimersKept;
      FinWaitTimers(c, seg, now);
    } else {
      AcknowledgedOnlyTimers(c.snd, seg.ackNo);
    }
  }

  lemma HandshakeTimers(c: Connection, seg: Segment, now: Time)
    requires Opening(c.state) && !Has(seg.flags, RST)
    ensures var o := OnSegment(c, seg, now); o.Keep? ==> TimersKept(c, o.conn)
  {
    hide ShiftLeft, New, Emit, Add;
  }

  lemma InboundTimers(c: Connection, seg: Segment, now: Time)
    requires c.state != Closed && c.state != Listen
    ensures var o := OnSegment(c, seg, now); o.Keep? ==> TimersKept(c, o.conn)
  {
    hide OnEstablished, TimersKept, Emit;
    if Has(seg.flags, RST) {
      hide OnSegment;
      ResetTimers(c, seg, now);
    } else if c.state == Established {
      EstablishedTimers(c, seg, now);
    } else if Opening(c.state) {
      hide OnSegment;
      HandshakeTimers(c, seg, now);
    } else {
      hide OnSegment;
      TeardownTimers(c, seg, now);
    }
  }

  lemma ResetTimers(c: Connection, seg: Segment, now: Time)
    requires Has(seg.flags, RST)
    ensures var o := OnSegment(c, seg, now); o.Keep? ==> TimersKept(c, o.conn)
  {
    hide Emit, InWindow, Add;
  }

  lemma PersistTimerShape(s: Sender, now: Time)
    ensures var t := PersistTimer(s, now);
            && t == s.(persist := t.persist, persistBackoff := t.persistBackoff)
            && (t.persist == s.persist || t.persist == None || t.persist == Some(now + s.cong.rto))
  {
    hide AvailableWindow, SentOffset;
  }

  lemma SendFinShape(c: Connection, now: Time)
    requires c.state == Established || c.state == CloseWait
    ensures var o := SendFin(c, now);
            && o.Keep? && o.conn.state == (if c.state == Established then FinWait1 else LastAck)
            && !o.conn.snd.finPending
            && o.conn.snd.queue == c.snd.queue && o.conn.snd.persist == c.snd.persist
            && o.conn.snd.rto == if c.snd.rto.Some? then c.snd.rto else Some(now + c.snd.cong.rto)
  {
    hide Emit, Add;
  }

  /** The transmit phase arms what it must. */
  lemma TransmitTimers(c: Connection, now: Time)
    requires c.state == Established || c.state == CloseWait
    ensures var o := Transmit(c, now);
            var sent := SendAll(DrainTx(c.snd), now).1;
            && o.Keep? && Resends(o.conn.state) && |o.conn.snd.queue| == |c.snd.queue| + |sent|
            && o.conn.snd.rto == (if c.snd.rto.Some? then c.snd.rto
                                  else if sent != [] || o.conn.state != c.state then Some(now + c.snd.cong.rto)
                                  else None)
            && (o.conn.snd.persist == c.snd.persist || o.conn.snd.persist == None ||
                o.conn.snd.persist == Some(now + c.snd.cong.rto))
  {
    hide SendAll, Unsent, Frames, PersistTimer, SendFin, ArmKeepalive, DrainTx;
    DrainTxTimers(c.snd);
    SendAllArms(DrainTx(c.snd), now);
    SendAllFrame(DrainTx(c.snd), now);
    var s := SendAll(DrainTx(c.snd), now).0;
    PersistTimerShape(s, now);
    SendFinShape(c.(snd := PersistTimer(s, now), keepalive := ArmKeepalive(c, now)), now);
  }

  lemma DrainTxTimers(s: Sender)
    ensures var t := DrainTx(s);
            t.rto == s.rto && t.persist == s.persist && t.queue == s.queue && t.cong == s.cong && t.nodelay == s.nodelay
    ensures DrainTx(s).finPending == s.finPending && DrainTx(s).hasUnacked == s.hasUnacked
  {
  }

  /** A timeout that keeps the connection resends the oldest segment, counts
      it, doubles the timeout up to a minute and arms the timer for it; one
      timeout more than the limit ends the connection. */
  lemma TimeoutRearms(c: Connection, now: Time, maxRetries: nat)
    requires c.snd.queue != []
    ensures var o := OnRtoFired(c, now, maxRetries);
            && (o.Drop? <==> c.snd.retries >= maxRetries)
            && (o.Drop? ==>
                  && o.out == [] && o.last.state == Closed && o.last.eof
                  && o.last.error == (if c.handle.error.Some? then c.handle.error else Some(TimedOut)))
            && (o.Keep? ==>
                  var backedOff := Min(2 * c.snd.cong.rto, 60_000_000_000);
                  && o.conn.snd.rto == Some(now + backedOff) && o.conn.snd.cong.rto == backedOff
                  && o.conn.snd.retries == c.snd.retries + 1
                  && o.conn.snd.cong.cwnd == SendMss(c.snd)
                  && o.conn.snd.cong.ssthresh == Max(FlightSize(c.snd) / 2, 2 * SendMss(c.snd))
                  && o.conn == c.(snd := o.conn.snd)
                  && o.conn.snd == c.snd.(rto := o.conn.snd.rto, retries := o.conn.snd.retries, cong := o.conn.snd.cong)
                  && o.out == (if OldestPayload(c.snd) == [] then []
                               else [Emit(o.conn, c.snd.queue[0].seqNo, ACK, OldestPayload(c.snd))]))
  {
    hide Emit, Diff;
  }

  // Stopping nothing that data waits for.
  lemma KeptStaysArmed(c: Connection, d: Connection, clock: Time, now: Time)
    requires TimersKept(c, d)
    ensures Armed(c) ==> Armed(d)
    ensures Prompt(c, clock) && clock <= now ==> Prompt(d, now)
  {
  }

  lemma TimeoutTimers(c: Connection, now: Time, maxRetries: nat, clock: Time)
    requires Armed(c) && c.snd.queue != []
    ensures var o := OnRtoFired(c, now, maxRetries);
            o.Keep? ==> Armed(o.conn) && (Prompt(c, clock) && clock <= now ==> Prompt(o.conn, now))
  {
    hide OnRtoFired, OldestPayload, Emit;
    TimeoutRearms(c, now, maxRetries);
  }

  lemma TransmitTickTimers(c: Connection, now: Time, clock: Time)
    requires Armed(c) && c.state != Closed && c.state != Listen
    ensures var (d, acks) := FireDelayedAck(c, now);
            && Armed(d) && (Prompt(c, clock) && clock <= now ==> Prompt(d, now))
            && (d.state == Established || d.state == CloseWait ==>
                  var sent := Transmit(d, now);
                  && sent.Keep? && Armed(sent.conn)
                  && (Prompt(c, clock) && Bounded(c.snd) && clock <= now ==> Prompt(sent.conn, now)))
  {
    hide Transmit, SendAll, DrainTx, FireDelayedAck;
    DelayedAckTimers(c, now);
    if c.state == Established || c.state == CloseWait {
      TransmitTimers(FireDelayedAck(c, now).0, now);
    }
  }

  lemma TickTimers(c: Connection, now: Time, maxRetries: nat, clock: Time)
    requires Armed(c) && c.state != Closed && c.state != Listen
    ensures var o := OnTick(c, now, maxRetries);
            o.Keep? ==>
              Armed(o.conn) && (Prompt(c, clock) && Bounded(c.snd) && clock <= now ==> Prompt(o.conn, now))
  {
    hide OnRtoFired, Transmit, Emit, FireDelayedAck, Due;
    if RtoFires(c, now) {
      hide Armed, Prompt;
      TimeoutTimers(c, now, maxRetries, clock);
    } else {
      TransmitTickTimers(c, now, clock);
    }
  }

  lemma DelayedAckTimers(c: Connection, now: Time)
    ensures var d := FireDelayedAck(c, now).0; d.snd == c.snd && d.state == c.state
  {
    hide Emit;
  }

  lemma ShutdownTimers(c: Connection, now: Time)
    ensures var o := OnShutdownWrite(c, now);
            && o.Keep? && o.conn.snd.persist == c.snd.persist && o.conn.snd.queue == c.snd.queue
            && (o.conn.snd.rto == c.snd.rto || (c.snd.rto.None? && o.conn.snd.rto == Some(now + c.snd.cong.rto)))
            && (o.conn.state == c.state || (c.state == Established && o.conn.state == FinWait1) ||
                (c.state == CloseWait && o.conn.state == LastAck))
  {
    hide DrainTx, Unsent, Emit, Add;
    DrainTxTimers(c.snd.(finPending := true));
  }

  /** Every event keeps the timers armed and due within a minute. */
  lemma StepTimers(c: Connection, e: Event, now: Time, maxRetries: nat, clock: Time)
    requires Armed(c) && c.state != Closed && c.state != Listen
    ensures var o := Step(c, e, now, maxRetries);
            o.Keep? ==>
              Armed(o.conn) && (Prompt(c, clock) && Bounded(c.snd) && clock <= now ==> Prompt(o.conn, now))
  {
    hide OnSegment, OnTick, OnShutdownWrite;
    var o := Step(c, e, now, maxRetries);
    if e.Inbound? {
      InboundTimers(c, e.seg, now);
      if o.Keep? {
        KeptStaysArmed(c, o.conn, clock, now);
      }
    } else if e.Tick? {
      TickTimers(c, now, maxRetries, clock);
    } else if e.ShutdownWrite? {
      ShutdownTimers(c, now);
    }
  }

  // ---------------------------------------------------------------- retransmission

  /** A tick at or past the deadline resends the oldest unacknowledged segment
      and arms the timer again, or ends the connection with an error. */
  lemma DueIsServed(c: Connection, now: Time, maxRetries: nat)
    requires Resends(c.state) && Resendable(c.snd) && c.snd.queue != [] && Due(c.snd.rto, now)
    ensures var o := OnTick(c, now, maxRetries);
            && (o.Drop? <==> c.snd.retries >= maxRetries) && (o.Drop? ==> o.last.error.Some? && o.last.eof)
            && (o.Keep? ==>
                  && |o.out| == 1 && o.out[0].seqNo == c.snd.queue[0].seqNo
                  && o.out[0].payload == OldestPayload(c.snd) != []
                  && o.out[0].ackNo == c.rcv.nxt && Has(o.out[0].flags, ACK)
                  && o.conn.snd.rto == Some(now + Min(2 * c.snd.cong.rto, MAX_RTO)))
  {
    hide OnRtoFired, AdvertisedWindow;
    TimeoutRearms(c, now, maxRetries);
    assert c.snd.queue[0].len > 0 && c.snd.queue[0].offset < |c.snd.buf|;
  }

  // ---------------------------------------------------------------- runs

  // Times never run backwards.
  ghost predicate Clocked(events: seq<Timed>, start: Time) {
    && (forall i :: 0 <= i < |events| ==> start <= events[i].now)
    && (forall i, j :: 0 <= i < j < |events| ==> events[i].now <= events[j].now)
  }

  ghost function EndTime(events: seq<Timed>, start: Time): Time {
    if events == [] then start else events[|events| - 1].now
  }

  /** On every run the timers stay armed and due within a minute. */
  lemma {:induction false} RunsStayArmed(w: Watched, events: seq<Timed>, maxRetries: nat, start: Time)
    requires Healthy(w.conn) && Armed(w.conn) && Prompt(w.conn, start) && Clocked(events, start)
    requires forall i :: 0 <= i < |events| ==> ScaleLegal(events[i].e)
    ensures var end := Run(w, events, maxRetries);
            end.Some? ==>
              && Healthy(end.value.conn) && Armed(end.value.conn)
              && Prompt(end.value.conn, EndTime(events, start))
    decreases |events|
  {
    hide Healthy, Armed, Prompt, Step, Observe;
    RunsStayHealthy(w, events, maxRetries);
    if events != [] {
      var front, t := events[..|events| - 1], events[|events| - 1];
      RunsStayArmed(w, front, maxRetries, start);
      var before := Run(w, front, maxRetries);
      if before.Some? {
        HealthyParts(before.value.conn);
        StepTimers(before.value.conn, t.e, t.now, maxRetries, EndTime(front, start));
      }
    }
  }

  lemma HealthyParts(c: Connection)
    requires Healthy(c)
    ensures Bounded(c.snd) && Resendable(c.snd) && c.state != Closed && c.state != Listen
  {
  }

  /** Whatever the peer and the network do: after every run, unless the
      connection ends, a tick a minute later finds the timer of any data in
      flight due and resends its oldest segment. */
  lemma ResentWithinAMinute(w: Watched, events: seq<Timed>, maxRetries: nat, start: Time, now: Time)
    requires Healthy(w.conn) && Armed(w.conn) && Prompt(w.conn, start) && Clocked(events, start)
    requires forall i :: 0 <= i < |events| ==> ScaleLegal(events[i].e)
    requires now >= EndTime(events, start) + 60_000_000_000
    ensures var end := Run(w, events, maxRetries);
            end.Some? && Resends(end.value.conn.state) && end.value.conn.snd.queue != [] ==>
              var c := end.value.conn;
              var o := OnTick(c, now, maxRetries);
              if c.snd.retries >= maxRetries then o.Drop? && o.last.error.Some?
              else o.Keep? && |o.out| == 1 && o.out[0].seqNo == c.snd.queue[0].seqNo && o.out[0].payload != []
  {
    hide Healthy, Run, OnTick, Resendable;
    RunsStayArmed(w, events, maxRetries, start);
    var end := Run(w, events, maxRetries);
    if end.Some? && Resends(end.value.conn.state) && end.value.conn.snd.queue != [] {
      HealthyParts(end.value.conn);
      DueIsServed(end.value.conn, now, maxRetries);
    }
  }

  // ---------------------------------------------------------------- the retry limit

  // The tick serves a retransmission timeout.
  predicate TimesOut(c: Connection, t: Timed) { t.e.Tick? && !Expired(c, t.now) && RtoFires(c, t.now) }

  lemma AckRetries(s: Sender, seg: Segment)
    ensures UpdateWindow(Acknowledge(s, seg.ackNo), seg).retries == s.retries
    ensures AcknowledgeOnly(s, seg.ackNo).retries == s.retries
  {
    hide Rebased, Retained, AfterAck, ShiftLeft, Acceptable, WindowUpdateApplies, Diff;
  }

  lemma InboundRetries(c: Connection, seg: Segment, now: Time)
    ensures var o := OnSegment(c, seg, now); o.Keep? ==> o.conn.snd.retries == c.snd.retries
  {
    hide Receive, AcceptInOrder, FinInOrder, AcksEverything, Emit, Add, TouchKeepalive, ShiftLeft, New, InWindow,
      Acknowledge, AcknowledgeOnly, UpdateWindow, Has;
    AckRetries(c.snd, seg);
  }

  /** Nothing but a timeout counts, and nothing resets the count: not even an
      acknowledgment. */
  lemma StepRetries(c: Connection, t: Timed, maxRetries: nat)
    ensures var o := Step(c, t.e, t.now, maxRetries);
            && (o.Keep? ==> o.conn.snd.retries == c.snd.retries + if TimesOut(c, t) then 1 else 0)
            && (TimesOut(c, t) ==> (o.Drop? <==> c.snd.retries >= maxRetries))
  {
    hide OnSegment, OnRtoFired, Transmit, Emit, DrainTx, Unsent, Add, Due;
    if t.e.Inbound? {
      InboundRetries(c, t.e.seg, t.now);
    } else if t.e.Tick? && RtoFires(c, t.now) {
      TimeoutRearms(c, t.now, maxRetries);
    } else if t.e.Tick? {
      TransmitRetries(FireDelayedAck(c, t.now).0, t.now);
    } else if t.e.ShutdownWrite? {
      DrainTxRetries(c.snd.(finPending := true));
    }
  }

  lemma DrainTxRetries(s: Sender)
    ensures DrainTx(s).retries == s.retries
  {
  }

  lemma TransmitRetries(c: Connection, now: Time)
    ensures Transmit(c, now).Keep? && Transmit(c, now).conn.snd.retries == c.snd.retries
  {
    hide SendAll, Unsent, Emit, Frames, Add, AvailableWindow, SentOffset, ArmKeepalive;
    SendAllFrame(DrainTx(c.snd), now);
  }

  // The timeouts a run has served.
  ghost function Timeouts(w: Watched, events: seq<Timed>, maxRetries: nat): nat
    decreases |events|
  {
    if events == [] then 0
    else
      var front := events[..|events| - 1];
      var before := Run(w, front, maxRetries);
      Timeouts(w, front, maxRetries) +
      if before.Some? && TimesOut(before.value.conn, events[|events| - 1]) then 1 else 0
  }

  /** The limit is on all timeouts in the life of a connection, however much
      was acknowledged in between: a connection that has served maxRetries of
      them ends on the next. */
  lemma {:induction false} TimeoutsAreNeverForgiven(w: Watched, events: seq<Timed>, maxRetries: nat)
    ensures var end := Run(w, events, maxRetries);
            end.Some? ==> end.value.conn.snd.retries == w.conn.snd.retries + Timeouts(w, events, maxRetries)
    ensures var end := Run(w, events, maxRetries);
            end.Some? && w.conn.snd.retries <= maxRetries ==> end.value.conn.snd.retries <= maxRetries
    decreases |events|
  {
    hide Step, Observe, TimesOut;
    if events != [] {
      var front, t := events[..|events| - 1], events[|events| - 1];
      TimeoutsAreNeverForgiven(w, front, maxRetries);
      var before := Run(w, front, maxRetries);
      if before.Some? {
        StepRetries(before.value.conn, t, maxRetries);
      }
    }
  }
}
