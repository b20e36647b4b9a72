/** Ending a connection: what every FIN, its acknowledgment, an abort and a
    lost segment lead to. */
module Teardown {
  import opened Types
  import opened SeqNum
  import opened Tcb
  import opened SendStream
  import opened Timers

  // ---------------------------------------------------------------- facing connections

  // Everything x wrote has been sent, delivered to y and acknowledged.
  ghost predicate Flushed(x: Connection, y: Connection) {
    && x.snd.una == x.snd.nxt == y.rcv.nxt
    && x.snd.queue == [] && x.snd.buf == [] && x.snd.tx.Pending() == 0
  }

  /** Two established connections with nothing left to say. */
  ghost predicate Quiet(x: Connection, y: Connection) {
    && x.state == y.state == Established && Flushed(x, y) && Flushed(y, x)
    && x.handle.error == y.handle.error == None
  }

  lemma Flags()
    ensures Has(FIN + ACK, FIN) && Has(FIN + ACK, ACK) && !Has(FIN + ACK, RST) && !Has(FIN + ACK, SYN)
    ensures Has(ACK, ACK) && !Has(ACK, FIN) && !Has(ACK, RST) && !Has(ACK, SYN)
    ensures Has(RST + ACK, RST)
  {
  }

  lemma Successor(s: Seq)
    ensures Add(s, 1) != s && Gt(Add(s, 1), s) && !Gt(s, s) && Add(s, 0) == s && Le(s, s)
  {
  }

  // An acknowledgment of everything, and of nothing new.
  lemma OldAcknowledgment(s: Sender, seg: Segment)
    requires seg.ackNo == s.una
    ensures var t := UpdateWindow(Acknowledge(s, seg.ackNo), seg);
            t == s.(wnd := t.wnd, wl1 := t.wl1, wl2 := t.wl2)
    ensures AcknowledgeOnly(s, seg.ackNo) == s
  {
    hide Gt, ShiftLeft, WindowUpdateApplies;
    Successor(s.una);
  }

  lemma NothingDrained(s: Sender)
    requires s.tx.Pending() == 0 && s.buf == [] && s.queue == []
    ensures var t := DrainTx(s);
            t.buf == [] && Unsent(t) == 0 && t == s.(buf := t.buf, tx := t.tx) && t.tx.Pending() == 0
  {
  }

  // Closing the write side with nothing left to send puts the FIN on the wire.
  lemma ShutdownSendsFin(c: Connection, now: Time)
    requires (c.state == Established || c.state == CloseWait) && c.snd.tx.Pending() == 0
    requires c.snd.buf == [] && c.snd.queue == []
    ensures var o := OnShutdownWrite(c, now);
            && o.Keep? && |o.out| == 1
            && o.out[0].flags == FIN + ACK && o.out[0].seqNo == c.snd.nxt && o.out[0].ackNo == c.rcv.nxt
            && o.out[0].payload == []
            && o.conn.state == (if c.state == Established then FinWait1 else LastAck)
            && o.conn.snd.nxt == Add(c.snd.nxt, 1) && o.conn.snd.una == c.snd.una && o.conn.snd.queue == []
            && o.conn.rcv == c.rcv && o.conn.handle == c.handle.(state := o.conn.state)
            && o.conn.timeWait == c.timeWait && o.conn.finWait2 == c.finWait2
  {
    hide AdvertisedWindow, DrainTx, Unsent, Add;
    NothingDrained(c.snd.(finPending := true));
  }

  // An established connection takes a bare FIN that is next in order.
  lemma EstablishedTakesFin(c: Connection, seg: Segment, now: Time)
    requires c.state == Established && seg.flags == FIN + ACK && seg.payload == [] && seg.seqNo == c.rcv.nxt
    requires seg.ackNo == c.snd.una
    ensures var o := OnSegment(c, seg, now);
            && o.Keep? && o.conn.state == CloseWait && o.conn.handle == c.handle.(state := CloseWait, eof := true)
            && |o.out| == 1 && o.out[0].flags == ACK && o.out[0].ackNo == Add(seg.seqNo, 1) && o.out[0].payload == []
            && o.out[0].seqNo == c.snd.nxt
            && o.conn.rcv.nxt == Add(seg.seqNo, 1)
            && o.conn.snd.una == c.snd.una && o.conn.snd.nxt == c.snd.nxt && o.conn.snd.queue == c.snd.queue
            && o.conn.snd.buf == c.snd.buf && o.conn.snd.tx == c.snd.tx
  {
    hide AdvertisedWindow, Acknowledge, UpdateWindow, Add;
    Flags();
    FinNumber(seg);
    OldAcknowledgment(c.snd, seg);
  }

  lemma FinNumber(seg: Segment)
    requires seg.payload == []
    ensures FinSeq(seg) == seg.seqNo
  {
    Successor(seg.seqNo);
  }

  // FIN_WAIT_1 on an acknowledgment of everything: the FIN has arrived.
  lemma FinWait1Acknowledged(c: Connection, seg: Segment, now: Time)
    requires c.state == FinWait1 && seg.flags == ACK && seg.payload == [] && seg.ackNo == c.snd.nxt
    ensures var o := OnSegment(c, seg, now);
            && o.Keep? && o.conn.state == FinWait2 && o.out == [] && o.conn.finWait2 == Some(now + 60_000_000_000)
            && o.conn.rcv == c.rcv && o.conn.snd.nxt == c.snd.nxt && o.conn.snd.rto == None
            && o.conn.handle == c.handle.(state := FinWait2)
  {
    hide AcknowledgeOnly, Add;
    Flags();
    SameNxt(c.snd, seg.ackNo);
  }

  lemma SameNxt(s: Sender, ackNo: Seq)
    ensures AcknowledgeOnly(s, ackNo).nxt == s.nxt && AcknowledgeOnly(s, ackNo).tx == s.tx
  {
    hide Acceptable;
  }

  // FIN_WAIT_1 on the peer's FIN alone: both sides are closing.
  lemma FinWait1TakesFin(c: Connection, seg: Segment, now: Time)
    requires c.state == FinWait1 && seg.flags == FIN + ACK && seg.payload == [] && seg.seqNo == c.rcv.nxt
    ensures var o := OnSegment(c, seg, now);
            && o.Keep? && |o.out| == 1 && o.out[0].flags == ACK && o.out[0].ackNo == Add(seg.seqNo, 1)
            && o.out[0].payload == []
            && o.conn.rcv.nxt == Add(seg.seqNo, 1) && o.conn.snd.nxt == c.snd.nxt
            && o.conn.handle.error == c.handle.error
            && o.conn.handle.eof
            && o.conn.state == (if seg.ackNo == c.snd.nxt then TimeWait else Closing)
            && (o.conn.state == TimeWait ==> o.conn.timeWait == Some(now + 120_000_000_000))
  {
    hide AcknowledgeOnly, AdvertisedWindow, Add;
    Flags();
    FinNumber(seg);
    SameNxt(c.snd, seg.ackNo);
  }

  lemma FinWait2TakesFin(c: Connection, seg: Segment, now: Time)
    requires c.state == FinWait2 && seg.flags == FIN + ACK && seg.payload == [] && seg.seqNo == c.rcv.nxt
    ensures var o := OnSegment(c, seg, now);
            && o.Keep? && o.conn.state == TimeWait && o.conn.timeWait == Some(now + 120_000_000_000)
            && o.conn.finWait2 == None
            && |o.out| == 1 && o.out[0].flags == ACK && o.out[0].ackNo == Add(seg.seqNo, 1) && o.out[0].payload == []
            && o.conn.rcv.nxt == Add(seg.seqNo, 1) && o.conn.handle == c.handle.(state := TimeWait, eof := true)
  {
    hide AdvertisedWindow, Add;
    Flags();
    FinNumber(seg);
  }

  /** LAST_ACK ends without an error on an acknowledgment of its FIN, and
      takes notice of nothing else but a reset. */
  lemma LastAckExactly(c: Connection, seg: Segment, now: Time)
    requires c.state == LastAck && !Has(seg.flags, RST)
    ensures OnSegment(c, seg, now) ==
            if Has(seg.flags, ACK) && seg.ackNo == c.snd.nxt then Drop(c.handle.(state := Closed), []) else Keep(c, [])
  {
  }

  /** CLOSING moves on exactly on an acknowledgment of its FIN. */
  lemma ClosingExactly(c: Connection, seg: Segment, now: Time)
    requires c.state == Closing && !Has(seg.flags, RST)
    ensures var o := OnSegment(c, seg, now);
            && o.Keep? && o.out == [] && o.conn.handle.error == c.handle.error && o.conn.handle.eof == c.handle.eof
            && (o.conn.state == TimeWait <==> Has(seg.flags, ACK) && seg.ackNo == c.snd.nxt)
            && (o.conn.state == TimeWait ==> o.conn.timeWait == Some(now + 120_000_000_000) && o.conn.snd.rto == None)
            && (o.conn.state != TimeWait ==> o.conn == c)
  {
  }

  /** In TIME_WAIT a FIN that is sent again is acknowledged again, and the wait
      starts over; nothing else matters but a reset. */
  lemma TimeWaitExactly(c: Connection, seg: Segment, now: Time)
    requires c.state == TimeWait && !Has(seg.flags, RST)
    ensures var o := OnSegment(c, seg, now);
            && o.Keep?
            && (!Has(seg.flags, FIN) ==> o == Keep(c, []))
            && (Has(seg.flags, FIN) ==>
                  && o.conn == c.(timeWait := Some(now + 120_000_000_000))
                  && |o.out| == 1 && o.out[0].ackNo == c.rcv.nxt && o.out[0].flags == ACK && o.out[0].payload == [])
  {
    hide AdvertisedWindow;
  }

  lemma TimeWaitTick(c: Connection, now: Time, maxRetries: nat)
    requires c.state == TimeWait && c.timeWait.Some?
    ensures now >= c.timeWait.value ==> OnTick(c, now, maxRetries) == Drop(c.handle.(state := Closed, eof := true), [])
  {
    hide OnRtoFired, OnPersistFired, OnKeepaliveFired, Transmit;
  }

  // ---------------------------------------------------------------- whole closes

  /** One side closes, then the other: both learn of the end of the stream,
      the second to close is gone at once, the first two minutes after the
      last segment, and neither sees an error. */
  lemma OrderlyClose(a: Connection, b: Connection, t: seq<Time>, maxRetries: nat)
    requires Quiet(a, b) && |t| == 7 && t[6] >= t[4] + 120_000_000_000
    ensures var a1 := OnShutdownWrite(a, t[0]);
            && a1.Keep? && |a1.out| == 1
            && var b1 := OnSegment(b, a1.out[0], t[1]);
               && b1.Keep? && |b1.out| == 1 && b1.conn.state == CloseWait && b1.conn.handle.eof
               && var a2 := OnSegment(a1.conn, b1.out[0], t[2]);
                  && a2.Keep? && a2.conn.state == FinWait2
                  && var b2 := OnShutdownWrite(b1.conn, t[3]);
                     && b2.Keep? && |b2.out| == 1
                     && var a3 := OnSegment(a2.conn, b2.out[0], t[4]);
                        && a3.Keep? && |a3.out| == 1 && a3.conn.state == TimeWait && a3.conn.handle.eof
                        && OnSegment(b2.conn, a3.out[0], t[5]) == Drop(Handle(Closed, true, None), [])
                        && OnTick(a3.conn, t[6], maxRetries) == Drop(Handle(Closed, true, None), [])
  {
    hide OnSegment, OnShutdownWrite, OnTick, Add;
    ShutdownSendsFin(a, t[0]);
    var a1 := OnShutdownWrite(a, t[0]);
    EstablishedTakesFin(b, a1.out[0], t[1]);
    var b1 := OnSegment(b, a1.out[0], t[1]);
    FinWait1Acknowledged(a1.conn, b1.out[0], t[2]);
    var a2 := OnSegment(a1.conn, b1.out[0], t[2]);
    ShutdownSendsFin(b1.conn, t[3]);
    var b2 := OnShutdownWrite(b1.conn, t[3]);
    FinWait2TakesFin(a2.conn, b2.out[0], t[4]);
    var a3 := OnSegment(a2.conn, b2.out[0], t[4]);
    Flags();
    LastAckExactly(b2.conn, a3.out[0], t[5]);
    TimeWaitTick(a3.conn, t[6], maxRetries);
  }

  /** Both close at once: the FINs cross, then their acknowledgments, and both
      wait in TIME_WAIT. */
  lemma SimultaneousClose(a: Connection, b: Connection, t: seq<Time>)
    requires Quiet(a, b) && |t| == 3
    ensures var a1, b1 := OnShutdownWrite(a, t[0]), OnShutdownWrite(b, t[0]);
            && a1.Keep? && |a1.out| == 1 && b1.Keep? && |b1.out| == 1
            && var a2, b2 := OnSegment(a1.conn, b1.out[0], t[1]), OnSegment(b1.conn, a1.out[0], t[1]);
               && a2.Keep? && |a2.out| == 1 && a2.conn.state == Closing && b2.Keep? && |b2.out| == 1
               && b2.conn.state == Closing
               && var a3, b3 := OnSegment(a2.conn, b2.out[0], t[2]), OnSegment(b2.conn, a2.out[0], t[2]);
                  && a3.Keep? && a3.conn.state == TimeWait && a3.conn.timeWait == Some(t[2] + 120_000_000_000)
                  && b3.Keep? && b3.conn.state == TimeWait && b3.conn.timeWait == Some(t[2] + 120_000_000_000)
                  && a3.conn.handle == b3.conn.handle == Handle(TimeWait, true, None)
  {
    hide OnSegment, OnShutdownWrite, Add;
    ShutdownSendsFin(a, t[0]);
    ShutdownSendsFin(b, t[0]);
    var a1, b1 := OnShutdownWrite(a, t[0]), OnShutdownWrite(b, t[0]);
    Successor(a.snd.nxt);
    Successor(b.snd.nxt);
    FinWait1TakesFin(a1.conn, b1.out[0], t[1]);
    FinWait1TakesFin(b1.conn, a1.out[0], t[1]);
    var a2, b2 := OnSegment(a1.conn, b1.out[0], t[1]), OnSegment(b1.conn, a1.out[0], t[1]);
    Flags();
    ClosingExactly(a2.conn, b2.out[0], t[2]);
    ClosingExactly(b2.conn, a2.out[0], t[2]);
    ClosingMirrors(a2.conn, b2.out[0], t[2]);
    ClosingMirrors(b2.conn, a2.out[0], t[2]);
  }

  lemma ClosingMirrors(c: Connection, seg: Segment, now: Time)
    requires c.state == Closing && !Has(seg.flags, RST)
    ensures OnSegment(c, seg, now).Keep? && (OnSegment(c, seg, now).conn.state == TimeWait ==>
              OnSegment(c, seg, now).conn.handle == c.handle.(state := TimeWait))
  {
  }

  // ---------------------------------------------------------------- aborts

  /** An abort ends its own connection, and the other one if and only if that
      has received everything the aborting side sent. */
  lemma AbortEndsBothExactly(a: Connection, b: Connection, now: Time)
    requires Synchronized(b.state)
    ensures var o := OnAbort(a);
            && o.Drop? && o.last.error.Some? && o.last.eof && |o.out| == 1
            && var p := OnSegment(b, o.out[0], now);
               && (p.Drop? <==> b.rcv.nxt == a.snd.nxt)
               && (p.Drop? ==>
                     && p.last.state == Closed && p.last.eof
                     && p.last.error == if b.handle.error.Some? then b.handle.error else Some(ConnectionReset))
               && (p.Keep? ==> p.conn == b)
  {
    hide Emit, InWindow;
    Flags();
    AbortSegment(a);
  }

  lemma AbortSegment(a: Connection)
    ensures var o := OnAbort(a); o.Drop? && |o.out| == 1 && o.out[0].flags == RST + ACK && o.out[0].seqNo == a.snd.nxt
  {
    hide AdvertisedWindow;
  }

  // ---------------------------------------------------------------- the reported cause

  // What a removal is due to, if it is an error.
  function Cause(c: Connection, e: Event, now: Time): Option<TcpError> {
    match e
    case Inbound(seg) =>
      if !Has(seg.flags, RST) then None
      else if c.state == SynSent then Some(ConnectionRefused)
      else Some(ConnectionReset)
    case Tick => if Expired(c, now) then None else Some(TimedOut)
    case Abort => Some(ConnectionAborted)
    case _ => None
  }

  /** A removed connection tells the application the first error it saw, or
      else what removed it. */
  lemma RemovalReportsCause(c: Connection, e: Event, now: Time, maxRetries: nat)
    ensures var o := Step(c, e, now, maxRetries);
            o.Drop? ==>
              && o.last.state == Closed
              && o.last.error == (if c.handle.error.Some? then c.handle.error else Cause(c, e, now))
              && (Synchronized(c.state) && !(c.state == LastAck && Cause(c, e, now).None?) ==> o.last.eof)
  {
    hide Acknowledge, AcknowledgeOnly, UpdateWindow, Receive, Accept, Transmit, DrainTx, Emit, OldestPayload,
      Unsent, Add, InWindow, Due, FinInOrder, AcksEverything;
  }

  // ---------------------------------------------------------------- shutdown is remembered

  /** The write side is closed, or will be when everything is sent. */
  predicate ClosingDown(c: Connection) {
    SentFin(c.state) || (c.snd.finPending && (c.state == Established || c.state == CloseWait))
  }

  /** Closing the write side is carried out or remembered. */
  lemma ShutdownRemembered(c: Connection, now: Time)
    requires c.state == Established || c.state == CloseWait
    ensures OnShutdownWrite(c, now).Keep? && ClosingDown(OnShutdownWrite(c, now).conn)
  {
    hide Unsent, Emit, Add;
  }

  lemma InboundFinPending(c: Connection, seg: Segment, now: Time)
    requires Synchronized(c.state)
    ensures var o := OnSegment(c, seg, now);
            o.Keep? ==>
              && o.conn.snd.finPending == c.snd.finPending && (SentFin(c.state) ==> SentFin(o.conn.state))
              && (c.state == Established || c.state == CloseWait ==>
                    o.conn.state == Established || o.conn.state == CloseWait)
  {
    hide Receive, AcceptInOrder, FinInOrder, AcksEverything, Emit, Add, TouchKeepalive, Rebased, Retained, ShiftLeft,
      InWindow, Acceptable, WindowUpdateApplies, Diff;
  }

  /** The transmit phase sends a pending FIN exactly when it leaves nothing
      unsent. */
  lemma PendingFinLeavesExactly(c: Connection, now: Time)
    requires c.state == Established || c.state == CloseWait
    ensures var o := Transmit(c, now);
            var left := Unsent(SendAll(DrainTx(c.snd), now).0);
            && o.Keep?
            && (SentFin(o.conn.state) <==> c.snd.finPending && left == 0)
            && (SentFin(o.conn.state) ==> o.out != [] && o.out[|o.out| - 1].flags == FIN + ACK)
            && (!SentFin(o.conn.state) ==> o.conn.state == c.state && o.conn.snd.finPending == c.snd.finPending)
  {
    hide SendAll, Frames, PersistTimer, SendFin, ArmKeepalive, Unsent, DrainTx;
    DrainTxTimers(c.snd);
    SendAllFrame(DrainTx(c.snd), now);
    var s := SendAll(DrainTx(c.snd), now).0;
    PersistTimerShape(s, now);
    PersistUnsent(s, now);
    DrainedAll(c.snd);
    SendFinShape(c.(snd := PersistTimer(s, now), keepalive := ArmKeepalive(c, now)), now);
    SendFinFlags(c.(snd := PersistTimer(s, now), keepalive := ArmKeepalive(c, now)), now);
  }

  lemma SendFinFlags(c: Connection, now: Time)
    requires c.state == Established || c.state == CloseWait
    ensures var o := SendFin(c, now); o.Keep? && |o.out| == 1 && o.out[0].flags == FIN + ACK
  {
    hide Add, AdvertisedWindow;
  }

  lemma PersistUnsent(s: Sender, now: Time)
    ensures Unsent(PersistTimer(s, now)) == Unsent(s) && PersistTimer(s, now).tx == s.tx
    ensures PersistTimer(s, now).finPending == s.finPending
  {
    hide AvailableWindow;
  }

  lemma DrainedAll(s: Sender)
    ensures DrainTx(s).tx.Pending() == 0
  {
  }

  /** Once asked for, the close is never forgotten. */
  lemma StepClosingDown(c: Connection, e: Event, now: Time, maxRetries: nat)
    requires Synchronized(c.state) && ClosingDown(c)
    ensures var o := Step(c, e, now, maxRetries); o.Keep? ==> ClosingDown(o.conn)
  {
    hide OnSegment, OnRtoFired, Transmit, Emit, DrainTx, Unsent, Add, Due, SendAll;
    if e.Inbound? {
      InboundFinPending(c, e.seg, now);
    } else if e.Tick? {
      DelayedAckTimers(c, now);
      var d := FireDelayedAck(c, now).0;
      if RtoFires(c, now) {
        RtoKeepsClose(c, now, maxRetries);
      } else if d.state == Established || d.state == CloseWait {
        PendingFinLeavesExactly(d, now);
      }
    } else if e.ShutdownWrite? {
      hide OnShutdownWrite;
      ShutdownKeepsClose(c, now);
    }
  }

  lemma ShutdownKeepsClose(c: Connection, now: Time)
    requires ClosingDown(c)
    ensures OnShutdownWrite(c, now).Keep? && ClosingDown(OnShutdownWrite(c, now).conn)
  {
    hide Unsent, Emit, Add;
  }

  lemma RtoKeepsClose(c: Connection, now: Time, maxRetries: nat)
    requires c.snd.queue != []
    ensures var o := OnRtoFired(c, now, maxRetries);
            o.Keep? ==> o.conn.state == c.state && o.conn.snd.finPending == c.snd.finPending
  {
    hide Emit;
  }

  // ---------------------------------------------------------------- what is never resent

  // No SYN and no FIN among these.
  ghost predicate Plain(out: seq<Segment>) {
    forall i :: 0 <= i < |out| ==> !Has(out[i].flags, FIN) && !Has(out[i].flags, SYN)
  }

  lemma PlainAckIsPlain(c: Connection)
    ensures Plain([PlainAck(c)])
  {
    hide AdvertisedWindow;
    Flags();
  }

  /** A FIN is sent once: no event in any state behind it sends another, nor a
      SYN. */
  lemma FinIsSentOnce(c: Connection, e: Event, now: Time, maxRetries: nat)
    requires SentFin(c.state)
    ensures var o := Step(c, e, now, maxRetries); Plain(o.out)
  {
    hide Receive, AcceptInOrder, FinInOrder, AcksEverything, AdvertisedWindow, Add, AcknowledgeOnly, InWindow, Due,
      Plain, OldestPayload, Has, TakeFin;
    Flags();
    var o := Step(c, e, now, maxRetries);
    assert forall i :: 0 <= i < |o.out| ==> o.out[i].flags == ACK || (e.Abort? && o.out[i].flags == RST + ACK);
    AbortFlags();
    assert Plain(o.out) by {
      PlainByFlags(o.out);
    }
  }

  lemma AbortFlags()
    ensures !Has(RST + ACK, FIN) && !Has(RST + ACK, SYN)
  {
  }

  lemma PlainByFlags(out: seq<Segment>)
    requires forall i :: 0 <= i < |out| ==> out[i].flags == ACK || out[i].flags == RST + ACK
    ensures Plain(out)
  {
    Flags();
    AbortFlags();
  }

  // No timer that could still act.
  ghost predicate NoTimer(c: Connection) {
    && c.snd.queue == [] && c.snd.persist.None? && c.rcv.delayedAck.None?
    && (c.keepalive.deadline.None? || c.keepalive.config.None?)
  }

  function AfterTicks(c: Connection, times: seq<Time>, maxRetries: nat): Outcome
    decreases |times|
  {
    if times == [] then Keep(c, [])
    else
      var o := OnTick(c, times[0], maxRetries);
      if o.Drop? then o
      else
        var rest := AfterTicks(o.conn, times[1..], maxRetries);
        match rest {
          case Keep(d, out) => Keep(d, o.out + out)
          case Drop(last, out) => Drop(last, o.out + out)
        }
  }

  /** A lost SYN, SYN-ACK or FIN is never sent again, although its timer is
      armed: the timer serves the retransmit queue, and these are not in it.
      However long the peer is silent, the connection stays as it is. */
  lemma {:induction false} LostSynOrFinIsNotResent(c: Connection, times: seq<Time>, maxRetries: nat)
    requires NoTimer(c)
    requires Opening(c.state) || c.state == FinWait1 || c.state == Closing || c.state == LastAck
    ensures AfterTicks(c, times, maxRetries) == Keep(c, [])
    decreases |times|
  {
    hide Transmit, OnRtoFired;
    if times != [] {
      assert OnTick(c, times[0], maxRetries) == Keep(c, []);
      LostSynOrFinIsNotResent(c, times[1..], maxRetries);
    }
  }
}
