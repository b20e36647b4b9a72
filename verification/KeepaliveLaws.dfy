/** Keepalive: when it is armed and reset, and how a silent peer is given up. */
module KeepaliveLaws {
  import opened Types
  import opened SeqNum
  import opened Tcb
  import opened Teardown

  // ---------------------------------------------------------------- arming

  /** An established connection with keepalive on starts the idle time on its
      first transmit phase; a running deadline is left alone. */
  lemma TransmitArmsKeepalive(c: Connection, now: Time)
    requires c.state == Established && c.keepalive.config.Some?
    ensures var k := Transmit(c, now);
            && k.Keep? && k.conn.keepalive.config == c.keepalive.config && k.conn.keepalive.probes == c.keepalive.probes
            && k.conn.keepalive.deadline ==
               if c.keepalive.deadline.Some? then c.keepalive.deadline else Some(now + c.keepalive.config.value.idle)
  {
    hide SendAll, Unsent, Frames, PersistTimer, DrainTx, Emit, Add;
  }

  /** Only data counts as a sign of life: an arrival starts the idle time over
      and forgets the probes if and only if it carries data. */
  lemma DataResetsKeepaliveExactly(c: Connection, seg: Segment, now: Time)
    requires c.state == Established && !Has(seg.flags, RST) && c.keepalive.config.Some?
    ensures var o := OnSegment(c, seg, now);
            && o.Keep?
            && o.conn.keepalive ==
               if seg.payload == [] then c.keepalive
               else Keepalive(c.keepalive.config, Some(now + c.keepalive.config.value.idle), 0)
  {
    hide Receive, Acknowledge, UpdateWindow, FinInOrder, Emit, Add;
  }

  // ---------------------------------------------------------------- probing

  // Nothing but the keepalive timer is running.
  ghost predicate OnlyKeepalive(c: Connection) {
    && c.keepalive.config.Some? && c.snd.queue == [] && c.snd.persist.None?
    && c.state != TimeWait && c.state != FinWait2
  }

  /** One probe: an empty segment one number before SND.UNA. */
  lemma ProbeOrGiveUp(c: Connection, now: Time, maxRetries: nat)
    requires OnlyKeepalive(c) && Due(c.keepalive.deadline, now)
    ensures var o := OnTick(c, now, maxRetries);
            var ka := c.keepalive.config.value;
            && (o.Drop? <==> c.keepalive.probes >= ka.count)
            && (o.Drop? ==>
                  && o.out == [] && o.last.state == Closed && o.last.eof
                  && o.last.error == if c.handle.error.Some? then c.handle.error else Some(TimedOut))
            && (o.Keep? ==>
                  && o.conn == c.(keepalive := Keepalive(Some(ka), Some(now + ka.interval), c.keepalive.probes + 1))
                  && |o.out| == 1 && o.out[0].payload == [] && o.out[0].flags == ACK && o.out[0].ackNo == c.rcv.nxt
                  && Add(o.out[0].seqNo, 1) == c.snd.una)
  {
    hide AdvertisedWindow, Transmit, OnRtoFired;
    OneBefore(c.snd.una);
  }

  lemma OneBefore(s: Seq)
    ensures Add(Add(s, U32_MAX), 1) == s
  {
  }

  // Ticks that each find the keepalive deadline due.
  ghost predicate Probing(deadline: Time, interval: Time, times: seq<Time>) {
    && (times != [] ==> times[0] >= deadline)
    && forall i, j :: 0 <= i && j == i + 1 < |times| ==> times[j] >= times[i] + interval
  }

  lemma ProbingOn(deadline: Time, interval: Time, times: seq<Time>)
    requires Probing(deadline, interval, times) && times != []
    ensures times[0] >= deadline && Probing(times[0] + interval, interval, times[1..])
  {
    var rest := times[1..];
    forall i, j | 0 <= i && j == i + 1 < |rest|
      ensures rest[j] >= rest[i] + interval
    {
      assert rest[i] == times[i + 1] && rest[j] == times[j + 1];
    }
  }

  /** A peer that stays silent gets exactly `count` probes, one per interval;
      the next deadline ends the connection with a timeout. */
  lemma {:induction false} SilentPeerIsGivenUp(c: Connection, times: seq<Time>, maxRetries: nat)
    requires OnlyKeepalive(c) && c.keepalive.deadline.Some? && c.keepalive.probes <= c.keepalive.config.value.count
    requires Probing(c.keepalive.deadline.value, c.keepalive.config.value.interval, times)
    requires c.keepalive.probes + |times| <= c.keepalive.config.value.count + 1
    ensures var o := AfterTicks(c, times, maxRetries);
            && (o.Drop? <==> c.keepalive.probes + |times| == c.keepalive.config.value.count + 1)
            && (o.Drop? ==>
                  && |o.out| == |times| - 1
                  && o.last.error == if c.handle.error.Some? then c.handle.error else Some(TimedOut))
            && (o.Keep? ==> |o.out| == |times|)
            && (forall i :: 0 <= i < |o.out| ==> o.out[i].payload == [] && Add(o.out[i].seqNo, 1) == c.snd.una)
    decreases |times|
  {
    hide OnTick, Add;
    if times != [] {
      ProbingOn(c.keepalive.deadline.value, c.keepalive.config.value.interval, times);
      ProbeOrGiveUp(c, times[0], maxRetries);
      var o := OnTick(c, times[0], maxRetries);
      if o.Keep? {
        SilentPeerIsGivenUp(o.conn, times[1..], maxRetries);
      }
    }
  }

  /** A probe draws nothing from a connection of this engine, so one idle
      connection between two of them with keepalive on is given up although
      its peer is alive. */
  lemma ProbeIsNotAnswered(c: Connection, seg: Segment, now: Time)
    requires Synchronized(c.state) && seg.payload == [] && seg.flags == ACK
    ensures OnSegment(c, seg, now).out == []
  {
    hide Acknowledge, UpdateWindow, AcknowledgeOnly, AcksEverything, Add;
    Flags();
  }
}
