/** The sending half of a connection, against the stream the application wrote.

    `cuts` lists the boundaries of the segments sent so far as positions in
    that stream: segment i is the bytes from cuts[i] to cuts[i + 1]. */
module SendStream {
  import opened Types
  import opened SeqNum
  import opened ByteRing
  import opened Congestion
  import opened Tcb

  // The largest window a peer can advertise with a scale of at most 14.
  const MAX_WINDOW: nat := 0xFFFF * 0x4000

  ghost predicate Boundaries(cuts: seq<nat>) {
    |cuts| >= 1 && cuts[0] == 0 && forall i, j :: 0 <= i < j < |cuts| ==> cuts[i] < cuts[j]
  }

  ghost function Last(cuts: seq<nat>): nat
    requires |cuts| >= 1
  {
    cuts[|cuts| - 1]
  }

  // Sequence number of a position in the stream that follows a SYN.
  function SeqAt(isn: Seq, position: nat): Seq { Wrap(isn + 1 + position) }

  // The bytes of segment i.
  ghost function Piece(stream: seq<u8>, cuts: seq<nat>, i: nat): seq<u8>
    requires Boundaries(cuts) && i + 1 < |cuts| && Last(cuts) <= |stream|
  {
    assert cuts[i + 1] <= Last(cuts);
    stream[cuts[i]..cuts[i + 1]]
  }

  ghost predicate WindowSane(s: Sender) { s.scale <= 14 && s.wnd <= MAX_WINDOW }

  lemma ProductMonotone(w: nat, p: nat, q: nat)
    requires p <= q
    ensures 0 <= w * p <= w * q
  {
    assert w * q == w * p + w * (q - p);
  }

  lemma ShiftBound(w: u16, scale: u8)
    requires scale <= 14
    ensures ShiftLeft(w, scale) <= MAX_WINDOW
  {
    hide Pow2;
    Pow2Monotone(scale, 14);
    Pow2Constants();
    ShiftIs(w, scale, Pow2(scale));
  }

  lemma ShiftIs(w: u16, scale: u8, p: nat)
    requires scale <= 14 && p == Pow2(scale) && p <= 0x4000
    ensures ShiftLeft(w, scale) <= MAX_WINDOW
  {
    hide Pow2;
    ProductMonotone(w, p, 0x4000);
    SmallModulo(w * p);
  }

  lemma SmallModulo(x: nat)
    requires x <= MAX_WINDOW
    ensures x % TWO32 == x
  {
  }

  /** The queue is the partition of the bytes in flight into segments u, u + 1, ...,
      each numbered by its position and located by its distance from a base. */
  ghost predicate Partition(q: seq<RetransmitEntry>, isn: Seq, cuts: seq<nat>, base: nat, u: nat) {
    && |cuts| == u + 1 + |q|
    && forall i :: 0 <= i < |q| ==>
         && q[i].seqNo == SeqAt(isn, cuts[u + i])
         && q[i].offset + base == cuts[u + i]
         && q[i].len + cuts[u + i] == cuts[u + i + 1]
  }

  /** The sender's variables describe the written stream: everything before
      cuts[u] is acknowledged, the buffer is the stream from a base on, and
      the retransmit queue is the partition of the bytes in flight. An empty
      queue means that nothing in the buffer has been sent. */
  ghost predicate TracksFrom(s: Sender, cuts: seq<nat>, base: nat, u: nat) {
    && WindowSane(s)
    && Boundaries(cuts) && u < |cuts|
    && s.una == SeqAt(s.iss, cuts[u]) && s.nxt == SeqAt(s.iss, Last(cuts))
    && base <= cuts[u] <= Last(cuts) <= cuts[u] + MAX_WINDOW
    && Last(cuts) <= s.tx.taken <= |s.tx.stream|
    && s.buf == s.tx.stream[base..s.tx.taken]
    && Partition(s.queue, s.iss, cuts, base, u)
    && (s.queue == [] ==> base == cuts[u])
  }

  // Nagle's latch says whether data is in flight.
  ghost predicate Latched(s: Sender) { s.hasUnacked <==> s.queue != [] }

  /** In ESTABLISHED the base is the acknowledged point: acknowledged bytes
      have left the buffer. */
  ghost predicate Tracks(s: Sender, cuts: seq<nat>, u: nat) {
    u < |cuts| && TracksFrom(s, cuts, cuts[u], u) && Latched(s)
  }

  lemma TracksBasics(s: Sender, cuts: seq<nat>, base: nat, u: nat)
    requires TracksFrom(s, cuts, base, u)
    ensures FlightSize(s) == Last(cuts) - cuts[u]
    ensures SentOffset(s) == Last(cuts) - base
    ensures Unsent(s) == s.tx.taken - Last(cuts)
  {
    SeqAtAgrees(s.iss, Last(cuts), cuts[u]);
  }

  // Serial arithmetic on the numbers of stream positions within half the number space.
  lemma SeqAtAgrees(isn: Seq, a: nat, b: nat)
    requires -TWO31 < a - b < TWO31
    ensures Gt(SeqAt(isn, a), SeqAt(isn, b)) <==> a > b
    ensures Le(SeqAt(isn, a), SeqAt(isn, b)) <==> a <= b
    ensures SeqAt(isn, a) == SeqAt(isn, b) <==> a == b
    ensures a >= b ==> Diff(SeqAt(isn, a), SeqAt(isn, b)) == a - b
  {
    AgreesWithPositions(isn + 1 + a, isn + 1 + b);
  }

  lemma SeqAtAdd(isn: Seq, a: nat, n: u32)
    ensures Add(SeqAt(isn, a), n) == SeqAt(isn, a + n)
  {
    AddOfWrap(isn + 1 + a, n);
  }

  // ---------------------------------------------------------------- acknowledgments

  lemma AcceptableIsInFlight(s: Sender, cuts: seq<nat>, base: nat, u: nat, a: nat)
    requires TracksFrom(s, cuts, base, u)
    requires a <= Last(cuts) && cuts[u] - a < TWO31
    ensures Acceptable(s, SeqAt(s.iss, a)) <==> cuts[u] < a
    ensures cuts[u] < a ==> Diff(SeqAt(s.iss, a), s.una) == a - cuts[u]
  {
    SeqAtAgrees(s.iss, a, cuts[u]);
    if cuts[u] < a {
      SeqAtAgrees(s.iss, a, Last(cuts));
    }
  }

  // An entry survives an acknowledgment of position a exactly when it ends beyond it.
  lemma EntryRetained(q: seq<RetransmitEntry>, isn: Seq, cuts: seq<nat>, base: nat, u: nat, a: nat, i: nat)
    requires Boundaries(cuts) && Partition(q, isn, cuts, base, u) && i < |q|
    requires cuts[u] <= a <= Last(cuts) + 1 && Last(cuts) <= cuts[u] + MAX_WINDOW
    ensures Gt(Add(q[i].seqNo, q[i].len % TWO32), SeqAt(isn, a)) <==> a < cuts[u + i + 1]
  {
    hide Wrap, Diff;
    assert cuts[u] <= cuts[u + i] < cuts[u + i + 1] <= Last(cuts);
    SeqAtAdd(isn, cuts[u + i], q[i].len);
    SeqAtAgrees(isn, cuts[u + i + 1], a);
  }

  lemma {:induction false} RetainedSuffix(q: seq<RetransmitEntry>, una: Seq, k: nat)
    requires k <= |q|
    requires forall i :: 0 <= i < |q| ==> (Gt(Add(q[i].seqNo, q[i].len % TWO32), una) <==> k <= i)
    ensures Retained(q, una) == q[k..]
    decreases |q|
  {
    if q != [] {
      if k == 0 {
        RetainedSuffix(q[1..], una, 0);
      } else {
        RetainedSuffix(q[1..], una, k - 1);
        assert q[k..] == q[1..][k - 1..];
      }
    }
  }

  /** Which entries survive an acknowledgment of position a: those of the
      first segment that ends beyond it, and all later ones. */
  lemma RetainedFrom(q: seq<RetransmitEntry>, isn: Seq, cuts: seq<nat>, base: nat, u: nat, a: nat, k: nat)
    requires Boundaries(cuts) && Partition(q, isn, cuts, base, u) && k <= |q|
    requires cuts[u + k] <= a <= Last(cuts) + 1 && Last(cuts) <= cuts[u] + MAX_WINDOW
    requires k < |q| ==> a < cuts[u + k + 1]
    ensures Retained(q, SeqAt(isn, a)) == q[k..]
  {
    assert cuts[u] <= cuts[u + k];
    forall i | 0 <= i < |q|
      ensures Gt(Add(q[i].seqNo, q[i].len % TWO32), SeqAt(isn, a)) <==> k <= i
    {
      EntryRetained(q, isn, cuts, base, u, a, i);
      if i < k {
        assert cuts[u + i + 1] <= cuts[u + k];
      } else {
        assert cuts[u + k + 1] <= cuts[u + i + 1];
      }
    }
    RetainedSuffix(q, SeqAt(isn, a), k);
  }

  lemma PartitionRebased(q: seq<RetransmitEntry>, isn: Seq, cuts: seq<nat>, u: nat, v: nat)
    requires Boundaries(cuts) && u < |cuts| && Partition(q, isn, cuts, cuts[u], u) && u <= v < |cuts|
    ensures Partition(Rebased(q[v - u..], cuts[v] - cuts[u]), isn, cuts, cuts[v], v)
  {
    var r := Rebased(q[v - u..], cuts[v] - cuts[u]);
    forall i | 0 <= i < |r|
      ensures r[i].seqNo == SeqAt(isn, cuts[v + i])
      ensures r[i].offset == cuts[v + i] - cuts[v]
      ensures r[i].len == cuts[v + i + 1] - cuts[v + i]
    {
      assert q[v - u..][i] == q[v - u + i];
      assert u + (v - u + i) == v + i;
      assert cuts[u] <= cuts[v] <= cuts[v + i];
    }
  }

  /** An acknowledgment of a segment boundary moves the acknowledged point
      there and keeps everything else in step; an older one changes nothing. */
  lemma AcknowledgeTracks(s: Sender, cuts: seq<nat>, u: nat, v: nat)
    requires Tracks(s, cuts, u) && v < |cuts|
    requires cuts[u] - cuts[v] < TWO31
    ensures Tracks(Acknowledge(s, SeqAt(s.iss, cuts[v])), cuts, if v > u then v else u)
  {
    hide AfterAck, Diff, Lt, Wrap, Retained, Rebased;
    assert cuts[v] <= Last(cuts);
    AcceptableIsInFlight(s, cuts, cuts[u], u, cuts[v]);
    if v > u {
      assert cuts[u] < cuts[v];
      var ackNo, n := SeqAt(s.iss, cuts[v]), cuts[v] - cuts[u];
      RetainedFrom(s.queue, s.iss, cuts, cuts[u], u, cuts[v], v - u);
      PartitionRebased(s.queue, s.iss, cuts, u, v);
      SeqAtAgrees(s.iss, cuts[v], Last(cuts));
      var t := Acknowledge(s, ackNo);
      assert t.queue == Rebased(s.queue[v - u..], n);
      assert t.buf == s.buf[n..] == s.tx.stream[cuts[v]..s.tx.taken];
      assert t.hasUnacked <==> t.queue != [];
    } else {
      assert cuts[v] <= cuts[u];
    }
  }

  // Every queued segment's number names the bytes at its offset in the buffer.
  ghost predicate Aligned(s: Sender, una: nat) {
    forall i :: 0 <= i < |s.queue| ==> s.queue[i].seqNo == SeqAt(s.iss, una + s.queue[i].offset)
  }

  /** An acknowledgment that arrives while data is in flight leaves the
      retransmit queue aligned with the send buffer exactly when it lands on
      a segment boundary. */
  lemma AlignedExactlyAtBoundaries(s: Sender, cuts: seq<nat>, u: nat, a: nat)
    requires Tracks(s, cuts, u) && cuts[u] < a <= Last(cuts)
    ensures Aligned(Acknowledge(s, SeqAt(s.iss, a)), a) <==> a in cuts
  {
    if a in cuts {
      var v :| 0 <= v < |cuts| && cuts[v] == a;
      AcknowledgeTracks(s, cuts, u, v);
      AlignedAtCut(Acknowledge(s, SeqAt(s.iss, a)), cuts, v);
    } else {
      AcceptableIsInFlight(s, cuts, cuts[u], u, a);
      var w := SegmentAround(cuts, a);
      var k := w - u;
      RetainedFrom(s.queue, s.iss, cuts, cuts[u], u, a, k);
      SeqAtAgrees(s.iss, cuts[w], a);
      var t := Acknowledge(s, SeqAt(s.iss, a));
      assert t.queue[0].offset == 0 && t.queue[0].seqNo == SeqAt(s.iss, cuts[w]);
    }
  }

  lemma AlignedAtCut(s: Sender, cuts: seq<nat>, u: nat)
    requires Tracks(s, cuts, u)
    ensures Aligned(s, cuts[u])
  {
  }

  // The segment that holds a position strictly inside it.
  lemma SegmentAround(cuts: seq<nat>, a: nat) returns (w: nat)
    requires Boundaries(cuts) && a <= Last(cuts) && a !in cuts
    ensures w + 1 < |cuts| && cuts[w] < a < cuts[w + 1]
  {
    w := 0;
    while cuts[w + 1] < a
      invariant w + 1 < |cuts| && cuts[w] < a
      decreases |cuts| - w
    {
      w := w + 1;
    }
  }

  // ---------------------------------------------------------------- transmission

  lemma DrainTxTracks(s: Sender, cuts: seq<nat>, base: nat, u: nat)
    requires TracksFrom(s, cuts, base, u)
    ensures TracksFrom(DrainTx(s), cuts, base, u)
    ensures DrainTx(s).tx == s.tx.(taken := |s.tx.stream|)
  {
    hide SeqAt, Partition;
    assert s.tx.stream[base..s.tx.taken] + s.tx.stream[s.tx.taken..] == s.tx.stream[base..];
  }

  lemma NextFits(s: Sender, cuts: seq<nat>, base: nat, u: nat)
    requires TracksFrom(s, cuts, base, u) && CanSend(s)
    ensures var end := Last(cuts) + NextLen(s);
            && NextLen(s) >= 1 && end <= s.tx.taken
            && end - cuts[u] <= EffectiveWindow(s.cong, s.wnd) <= MAX_WINDOW
            && NextPayload(s) == s.tx.stream[Last(cuts)..end]
  {
    hide Diff, Wrap, Partition, Boundaries;
    TracksBasics(s, cuts, base, u);
    var off, len := Last(cuts) - base, NextLen(s);
    SliceOfSlice(s.tx.stream, base, s.tx.taken, off, off + len);
  }

  /** A new segment carries the next unsent bytes under their own number and
      stays within the congestion and receive windows. */
  lemma SendNextTracks(s: Sender, now: Time, cuts: seq<nat>, base: nat, u: nat)
    requires TracksFrom(s, cuts, base, u) && CanSend(s)
    ensures TracksFrom(SendNext(s, now), cuts + [Last(cuts) + NextLen(s)], base, u)
    ensures Last(cuts) + NextLen(s) <= s.tx.taken
    ensures NextPayload(s) == s.tx.stream[Last(cuts)..Last(cuts) + NextLen(s)]
    ensures Last(cuts) + NextLen(s) - cuts[u] <= EffectiveWindow(s.cong, s.wnd)
  {
    hide Diff, Wrap, NextLen, EffectiveWindow, CanSend, SentOffset;
    NextFits(s, cuts, base, u);
    TracksBasics(s, cuts, base, u);
    var len := NextLen(s);
    SeqAtAdd(s.iss, Last(cuts), len);
    PartitionExtended(s.queue, s.iss, cuts, base, u, len);
    assert Last(cuts + [Last(cuts) + len]) == Last(cuts) + len;
  }

  lemma PartitionExtended(q: seq<RetransmitEntry>, isn: Seq, cuts: seq<nat>, base: nat, u: nat, len: nat)
    requires Boundaries(cuts) && Partition(q, isn, cuts, base, u) && len >= 1 && base <= Last(cuts)
    ensures Boundaries(cuts + [Last(cuts) + len])
    ensures Partition(q + [RetransmitEntry(SeqAt(isn, Last(cuts)), Last(cuts) - base, len)], isn,
                      cuts + [Last(cuts) + len], base, u)
  {
  }

  // Segment `from + i` went out as the i-th of these numbered payloads.
  ghost predicate SentAs(sent: seq<(Seq, seq<u8>)>, s: Sender, cuts: seq<nat>, from: nat)
  {
    && Boundaries(cuts) && Last(cuts) <= |s.tx.stream|
    && |cuts| == from + 1 + |sent|
    && forall i :: 0 <= i < |sent| ==> sent[i] == (SeqAt(s.iss, cuts[from + i]), Piece(s.tx.stream, cuts, from + i))
  }

  lemma SentAsPrepended(sent: seq<(Seq, seq<u8>)>, s: Sender, cuts: seq<nat>, from: nat)
    requires SentAs(sent, s, cuts, from + 1)
    ensures SentAs([(SeqAt(s.iss, cuts[from]), Piece(s.tx.stream, cuts, from))] + sent, s, cuts, from)
  {
    var first := (SeqAt(s.iss, cuts[from]), Piece(s.tx.stream, cuts, from));
    forall i | 0 <= i < |sent| + 1
      ensures ([first] + sent)[i] == (SeqAt(s.iss, cuts[from + i]), Piece(s.tx.stream, cuts, from + i))
    {
      if i > 0 {
        assert ([first] + sent)[i] == sent[i - 1];
        assert from + 1 + (i - 1) == from + i;
      }
    }
  }

  // The transmit loop touches four fields.
  lemma {:induction false} SendAllFrame(s: Sender, now: Time)
    ensures SendAll(s, now).0.(nxt := s.nxt, hasUnacked := s.hasUnacked, queue := s.queue, rto := s.rto) == s
    decreases Unsent(s)
  {
    if CanSend(s) {
      SendAllFrame(SendNext(s, now), now);
    }
  }

  lemma {:induction false} SendAllLatched(s: Sender, now: Time)
    requires Latched(s)
    ensures Latched(SendAll(s, now).0)
    decreases Unsent(s)
  {
    if CanSend(s) {
      SendAllLatched(SendNext(s, now), now);
    }
  }

  /** The transmit loop: it extends the partition, its segments carry the
      bytes their numbers name, and it never sends past the windows. */
  lemma {:induction false} SendAllTracks(s: Sender, now: Time, cuts: seq<nat>, base: nat, u: nat)
    returns (cuts': seq<nat>)
    requires TracksFrom(s, cuts, base, u)
    ensures cuts <= cuts' && TracksFrom(SendAll(s, now).0, cuts', base, u)
    ensures SentAs(SendAll(s, now).1, s, cuts', |cuts| - 1)
    ensures SendAll(s, now).1 != [] ==> Last(cuts') - cuts[u] <= EffectiveWindow(s.cong, s.wnd)
    decreases Unsent(s)
  {
    hide Wrap, Diff, TracksFrom, SentAs, SeqAt, Unsent, AvailableWindow, NagleShouldSend, SentOffset,
      EffectiveWindow, NextPayload;
    TracksBoundaries(s, cuts, base, u);
    if !CanSend(s) {
      cuts' := cuts;
      NothingSent(s, cuts);
    } else {
      SendNextTracks(s, now, cuts, base, u);
      var t := SendNext(s, now);
      var mid := cuts + [Last(cuts) + NextLen(s)];
      TracksBasics(s, cuts, base, u);
      TracksBasics(t, mid, base, u);
      cuts' := SendAllTracks(t, now, mid, base, u);
      SendAllStep(s, now, cuts, mid, cuts', u);
    }
  }

  lemma NothingSent(s: Sender, cuts: seq<nat>)
    requires Boundaries(cuts) && Last(cuts) <= |s.tx.stream|
    ensures SentAs([], s, cuts, |cuts| - 1)
  {
  }

  lemma NothingCut(s: Sender, cuts: seq<nat>, cuts': seq<nat>)
    requires |cuts| >= 1 && cuts <= cuts' && SentAs([], s, cuts', |cuts| - 1)
    ensures cuts' == cuts
  {
  }

  lemma SendAllStep(s: Sender, now: Time, cuts: seq<nat>, mid: seq<nat>, cuts': seq<nat>, u: nat)
    requires Boundaries(cuts) && u < |cuts| && CanSend(s)
    requires mid == cuts + [Last(cuts) + NextLen(s)] && mid <= cuts'
    requires Last(mid) <= |s.tx.stream|
    requires s.nxt == SeqAt(s.iss, Last(cuts)) && NextPayload(s) == s.tx.stream[Last(cuts)..Last(mid)]
    requires Last(mid) - cuts[u] <= EffectiveWindow(s.cong, s.wnd)
    requires var t := SendNext(s, now);
             && SentAs(SendAll(t, now).1, t, cuts', |mid| - 1)
             && (SendAll(t, now).1 != [] ==> Last(cuts') - cuts[u] <= EffectiveWindow(t.cong, t.wnd))
    ensures SentAs(SendAll(s, now).1, s, cuts', |cuts| - 1)
    ensures Last(cuts') - cuts[u] <= EffectiveWindow(s.cong, s.wnd)
  {
    hide Wrap, Diff;
    var rest := SendAll(SendNext(s, now), now).1;
    assert cuts'[|cuts| - 1] == mid[|cuts| - 1] == Last(cuts);
    assert cuts'[|cuts|] == mid[|cuts|] == Last(mid);
    assert SentAs(rest, s, cuts', |cuts| - 1 + 1);
    SentAsPrepended(rest, s, cuts', |cuts| - 1);
    if rest == [] {
      assert cuts' == mid;
    }
  }

  /** The loop stops only when everything is sent, a window is full, or
      Nagle's rule holds a partial segment back behind unacknowledged data. */
  lemma {:induction false} SendAllStopsOnlyWhenBlocked(s: Sender, now: Time)
    requires SendMss(s) >= 1
    ensures var t := SendAll(s, now).0;
            || Unsent(t) == 0
            || AvailableWindow(t) == 0
            || (!t.nodelay && t.hasUnacked && Unsent(t) < SendMss(t))
    decreases Unsent(s)
  {
    hide Add, Diff, EffectiveWindow;
    if CanSend(s) {
      SendAllStopsOnlyWhenBlocked(SendNext(s, now), now);
    }
  }

  /** A retransmission repeats the oldest unacknowledged segment. */
  lemma OldestPayloadIsFirstSegment(s: Sender, cuts: seq<nat>, base: nat, u: nat)
    requires Boundaries(cuts) && u < |cuts| && base <= cuts[u] && Last(cuts) <= s.tx.taken <= |s.tx.stream|
    requires s.buf == s.tx.stream[base..s.tx.taken] && Partition(s.queue, s.iss, cuts, base, u) && s.queue != []
    ensures s.queue[0].seqNo == SeqAt(s.iss, cuts[u])
    ensures OldestPayload(s) == Piece(s.tx.stream, cuts, u) != []
  {
    hide SeqAt;
    var e := s.queue[0];
    assert cuts[u + 1] <= Last(cuts);
    assert e.offset + e.len <= |s.buf|;
    SliceOfSlice(s.tx.stream, base, s.tx.taken, e.offset, e.offset + e.len);
  }

  // ---------------------------------------------------------------- the FIN

  /** Once the FIN is sent the numbered stream is closed: it ends where the
      transmit ring was drained to, and the FIN takes the next number. Nothing
      leaves the buffer any more, so the queue keeps its base. */
  ghost predicate Finished(s: Sender, cuts: seq<nat>, base: nat, u: nat, acked: bool) {
    && Boundaries(cuts) && u < |cuts| && (acked ==> u + 1 == |cuts|)
    && s.una == SeqAt(s.iss, if acked then Last(cuts) + 1 else cuts[u])
    && s.nxt == SeqAt(s.iss, Last(cuts) + 1)
    && base <= cuts[u] <= Last(cuts) <= cuts[u] + MAX_WINDOW
    && Last(cuts) == s.tx.taken <= |s.tx.stream|
    && s.buf == s.tx.stream[base..s.tx.taken]
    && Partition(s.queue, s.iss, cuts, base, u)
  }

  /** The FIN takes the number right after the last byte drained. */
  lemma FinFollowsLastByte(c: Connection, now: Time, cuts: seq<nat>, base: nat, u: nat)
    requires (c.state == Established || c.state == CloseWait) && TracksFrom(c.snd, cuts, base, u) && Unsent(c.snd) == 0
    ensures var r := SendFin(c, now);
            && r.Keep? && |r.out| == 1
            && r.out[0].flags == FIN + ACK && r.out[0].payload == [] && r.out[0].ackNo == c.rcv.nxt
            && r.out[0].seqNo == SeqAt(c.snd.iss, c.snd.tx.taken)
            && r.conn.state == (if c.state == Established then FinWait1 else LastAck)
            && r.conn.rcv == c.rcv && r.conn.snd.tx == c.snd.tx && r.conn.snd.iss == c.snd.iss
            && Finished(r.conn.snd, cuts, base, u, false)
  {
    hide SeqAt, Partition, AdvertisedWindow, Add;
    TracksBasics(c.snd, cuts, base, u);
    SeqAtAdd(c.snd.iss, Last(cuts), 1);
  }

  // The persist timer is no part of the stream.
  lemma PersistTimerTracks(s: Sender, now: Time, cuts: seq<nat>, base: nat, u: nat)
    requires TracksFrom(s, cuts, base, u)
    ensures var t := PersistTimer(s, now);
            && TracksFrom(t, cuts, base, u) && t.tx == s.tx && t.iss == s.iss && t.finPending == s.finPending
            && (Latched(s) ==> Latched(t))
  {
    hide Partition, SeqAt, AvailableWindow, SentOffset;
  }

  // A step that only reads its own FIN flags.
  lemma FinPendingTracks(s: Sender, on: bool, cuts: seq<nat>, base: nat, u: nat)
    requires TracksFrom(s, cuts, base, u)
    ensures TracksFrom(s.(finPending := on), cuts, base, u)
  {
    hide Partition, SeqAt;
  }

  /** The transmit phase, with or without a FIN to send: the partition grows,
      the segments carry the bytes their numbers name, and a FIN goes out only
      behind everything ever written. */
  lemma TransmitTracks(c: Connection, now: Time, cuts: seq<nat>, base: nat, u: nat) returns (cuts': seq<nat>)
    requires (c.state == Established || c.state == CloseWait) && TracksFrom(c.snd, cuts, base, u)
    ensures cuts <= cuts' && Boundaries(cuts') && Transmit(c, now).Keep?
    ensures var o, pieces := Transmit(c, now), SendAll(DrainTx(c.snd), now).1;
            && o.conn.rcv == c.rcv && o.conn.snd.iss == c.snd.iss
            && o.conn.snd.tx == c.snd.tx.(taken := |c.snd.tx.stream|)
            && SentAs(pieces, DrainTx(c.snd), cuts', |cuts| - 1)
            && (cuts' == cuts || Last(cuts') <= cuts[u] + c.snd.wnd)
            && (o.conn.state == c.state ==> TracksFrom(o.conn.snd, cuts', base, u) && o.out == Frames(c, pieces))
            && (o.conn.state == c.state && Latched(c.snd) ==> Latched(o.conn.snd))
            && (o.conn.state != c.state ==>
                  && o.conn.state == (if c.state == Established then FinWait1 else LastAck)
                  && Finished(o.conn.snd, cuts', base, u, false)
                  && FlushedFin(c, o.out, pieces))
  {
    hide SendAll, SentAs, TracksFrom, PersistTimer, Unsent, Frames, AdvertisedWindow, DrainTx, Finished, Latched, Emit;
    var start := DrainTx(c.snd);
    DrainTxTracks(c.snd, cuts, base, u);
    DrainTxFrame(c.snd);
    cuts' := SendAllTracks(start, now, cuts, base, u);
    SendAllFrame(start, now);
    if Latched(c.snd) {
      SendAllLatched(start, now);
    }
    var sent := SendAll(start, now).0;
    PersistTimerTracks(sent, now, cuts', base, u);
    TracksBoundaries(sent, cuts', base, u);
    TracksBoundaries(c.snd, cuts, base, u);
    if SendAll(start, now).1 == [] {
      NothingCut(start, cuts, cuts');
    }
    var d := c.(snd := PersistTimer(sent, now), keepalive := ArmKeepalive(c, now));
    if d.snd.finPending && Unsent(d.snd) == 0 && d.snd.tx.Pending() == 0 {
      FinFollowsLastByte(d, now, cuts', base, u);
      var fin := SendFin(d, now);
      assert Transmit(c, now) == Keep(fin.conn, Frames(c, SendAll(start, now).1) + fin.out);
    }
  }

  // The data frames, then one FIN whose number follows everything written.
  ghost predicate FlushedFin(c: Connection, out: seq<Segment>, pieces: seq<(Seq, seq<u8>)>) {
    && out != []
    && out[..|out| - 1] == Frames(c, pieces)
    && var fin := out[|out| - 1];
       && fin.flags == FIN + ACK && fin.payload == [] && fin.ackNo == c.rcv.nxt
       && fin.seqNo == SeqAt(c.snd.iss, |c.snd.tx.stream|)
  }

  lemma DrainTxFrame(s: Sender)
    ensures DrainTx(s).(buf := s.buf, tx := s.tx) == s
    ensures Latched(s) ==> Latched(DrainTx(s))
  {
  }

  lemma TracksBoundaries(s: Sender, cuts: seq<nat>, base: nat, u: nat)
    requires TracksFrom(s, cuts, base, u)
    ensures Boundaries(cuts) && u < |cuts| && Last(cuts) <= s.tx.taken <= |s.tx.stream|
    ensures s.nxt == SeqAt(s.iss, Last(cuts)) && s.una == SeqAt(s.iss, cuts[u])
    ensures base <= cuts[u] <= Last(cuts) <= cuts[u] + MAX_WINDOW
  {
  }

  /** A write shutdown sends the FIN at once if everything written has been
      sent, and otherwise leaves it pending with the stream in step. */
  lemma ShutdownTracks(c: Connection, now: Time, cuts: seq<nat>, base: nat, u: nat)
    requires (c.state == Established || c.state == CloseWait) && TracksFrom(c.snd, cuts, base, u)
    ensures OnShutdownWrite(c, now).Keep?
    ensures var o := OnShutdownWrite(c, now);
            && o.conn.rcv == c.rcv && o.conn.snd.iss == c.snd.iss
            && o.conn.snd.tx == c.snd.tx.(taken := |c.snd.tx.stream|)
            && (o.conn.state == c.state ==> TracksFrom(o.conn.snd, cuts, base, u) && o.out == [])
            && (o.conn.state == c.state && Latched(c.snd) ==> Latched(o.conn.snd))
            && (o.conn.state != c.state ==>
                  && o.conn.state == (if c.state == Established then FinWait1 else LastAck)
                  && Finished(o.conn.snd, cuts, base, u, false)
                  && FlushedFin(c, o.out, []))
  {
    hide TracksFrom, Unsent, AdvertisedWindow, DrainTx, Finished, Emit, SendFin, Latched;
    var s := c.snd.(finPending := true);
    FinPendingTracks(c.snd, true, cuts, base, u);
    DrainTxTracks(s, cuts, base, u);
    DrainTxFrame(s);
    LatchedFlag(c.snd, true);
    var d := c.(snd := DrainTx(s));
    if Unsent(d.snd) == 0 {
      FinFollowsLastByte(d, now, cuts, base, u);
    }
  }

  lemma LatchedFlag(s: Sender, on: bool)
    ensures Latched(s.(finPending := on)) == Latched(s)
  {
  }

  // ---------------------------------------------------------------- acknowledgments that drain nothing

  // What the buffer and the queue have to do with an acknowledgment that drains nothing.
  lemma AcknowledgeOnlyFrame(s: Sender, ackNo: Seq)
    ensures var t := AcknowledgeOnly(s, ackNo);
            && t.(una := s.una, queue := s.queue, cong := s.cong) == s
            && (!Acceptable(s, ackNo) ==> t == s)
            && (Acceptable(s, ackNo) ==> t.una == ackNo && t.queue == Retained(s.queue, ackNo))
  {
    hide AfterAck, Retained;
  }

  lemma PartitionSuffix(q: seq<RetransmitEntry>, isn: Seq, cuts: seq<nat>, base: nat, u: nat, k: nat)
    requires Partition(q, isn, cuts, base, u) && k <= |q|
    ensures Partition(q[k..], isn, cuts, base, u + k)
  {
    forall i | 0 <= i < |q[k..]|
      ensures q[k..][i] == q[k + i]
    {
    }
  }

  /** In CLOSE_WAIT an acknowledgment of a boundary keeps the stream in step
      if and only if it is not the acknowledgment of SND.NXT: that one empties
      the queue while the buffer keeps the acknowledged bytes. */
  lemma CloseWaitTracksExactly(s: Sender, cuts: seq<nat>, base: nat, u: nat, v: nat)
    requires TracksFrom(s, cuts, base, u) && v < |cuts| && cuts[u] - cuts[v] < TWO31
    ensures var ackNo := SeqAt(s.iss, cuts[v]);
            var t := AcknowledgeOnly(s, ackNo);
            && (TracksFrom(t, cuts, base, if v > u then v else u) <==> !(Acceptable(s, ackNo) && ackNo == s.nxt))
            && (SentOffset(t) + base == Last(cuts) <==> !(Acceptable(s, ackNo) && ackNo == s.nxt))
  {
    hide Diff, Lt, SeqAt, Retained, AcknowledgeOnly, Gt, Le;
    assert cuts[v] <= Last(cuts);
    AcceptableIsInFlight(s, cuts, base, u, cuts[v]);
    AcknowledgeOnlyFrame(s, SeqAt(s.iss, cuts[v]));
    TracksBasics(s, cuts, base, u);
    if v > u {
      assert cuts[u] < cuts[v];
      RetainedFrom(s.queue, s.iss, cuts, base, u, cuts[v], v - u);
      PartitionSuffix(s.queue, s.iss, cuts, base, u, v - u);
      SeqAtAgrees(s.iss, cuts[v], Last(cuts));
      var t := AcknowledgeOnly(s, SeqAt(s.iss, cuts[v]));
      assert t.queue == s.queue[v - u..];
      assert t.queue == [] <==> v + 1 == |cuts|;
    } else {
      assert cuts[v] <= cuts[u];
    }
  }

  // That acknowledgment empties the queue and leaves the buffer alone.
  lemma CloseWaitEmpties(s: Sender, cuts: seq<nat>, base: nat, u: nat)
    requires TracksFrom(s, cuts, base, u) && u + 1 < |cuts|
    ensures var t := AcknowledgeOnly(s, s.nxt);
            && t.queue == [] && t.tx == s.tx && t.nxt == s.nxt == SeqAt(s.iss, Last(cuts))
            && base < Last(cuts) && base <= t.tx.taken <= |t.tx.stream| && t.buf == t.tx.stream[base..t.tx.taken]
  {
    hide Diff, Lt, SeqAt, Retained, AcknowledgeOnly, Gt, Le;
    assert cuts[u] < Last(cuts);
    AcceptableIsInFlight(s, cuts, base, u, Last(cuts));
    AcknowledgeOnlyFrame(s, s.nxt);
    RetainedFrom(s.queue, s.iss, cuts, base, u, Last(cuts), |s.queue|);
  }

  /** After the acknowledgment of SND.NXT in CLOSE_WAIT, whatever leaves next
      carries the bytes from the old base on under the number SND.NXT, and the
      FIN waits for bytes that have long been acknowledged. */
  lemma CloseWaitMisnumbers(s: Sender, cuts: seq<nat>, base: nat, u: nat)
    requires TracksFrom(s, cuts, base, u) && u + 1 < |cuts|
    ensures var t := AcknowledgeOnly(s, s.nxt);
            && base < Last(cuts) && t.nxt == SeqAt(s.iss, Last(cuts))
            && Unsent(t) == s.tx.taken - base > 0
            && (CanSend(t) ==> NextPayload(t) == s.tx.stream[base..base + NextLen(t)])
  {
    hide SeqAt, AcknowledgeOnly, AvailableWindow, TracksFrom;
    CloseWaitEmpties(s, cuts, base, u);
    TracksBoundaries(s, cuts, base, u);
    var t := AcknowledgeOnly(s, s.nxt);
    if CanSend(t) {
      SliceOfSlice(s.tx.stream, base, s.tx.taken, 0, NextLen(t));
    }
  }

  /** Once the FIN is sent an acknowledgment of any boundary, or of the FIN
      itself, keeps the stream in step. */
  lemma FinishedAcknowledged(s: Sender, cuts: seq<nat>, base: nat, u: nat, acked: bool, m: nat)
    returns (u': nat, acked': bool)
    requires Finished(s, cuts, base, u, acked) && (m in cuts || m == Last(cuts) + 1)
    requires (if acked then Last(cuts) + 1 else cuts[u]) - m < TWO31
    ensures Finished(AcknowledgeOnly(s, SeqAt(s.iss, m)), cuts, base, u', acked')
    ensures u <= u' && (acked' ==> acked || m == Last(cuts) + 1) && (u' == u || u' + 1 == |cuts| || cuts[u'] == m)
    ensures u' < |cuts| && (u' == u || cuts[u'] <= m)
  {
    hide Diff, Lt, SeqAt, Retained, AcknowledgeOnly, Gt, Le;
    var ackNo := SeqAt(s.iss, m);
    var una := if acked then Last(cuts) + 1 else cuts[u];
    assert m <= Last(cuts) + 1;
    SeqAtAgrees(s.iss, m, una);
    AcknowledgeOnlyFrame(s, ackNo);
    u', acked' := u, acked;
    if m > una {
      SeqAtAgrees(s.iss, m, Last(cuts) + 1);
      if m == Last(cuts) + 1 {
        u', acked' := |cuts| - 1, true;
      } else {
        var v :| 0 <= v < |cuts| && cuts[v] == m;
        assert u < v;
        u' := v;
      }
      RetainedFrom(s.queue, s.iss, cuts, base, u, m, u' - u);
      PartitionSuffix(s.queue, s.iss, cuts, base, u, u' - u);
    }
  }

  // ---------------------------------------------------------------- failing inputs

  // The transmit loop's first segment.
  lemma TransmitFirst(c: Connection, now: Time)
    requires CanSend(DrainTx(c.snd))
    ensures var s := DrainTx(c.snd);
            var o := Transmit(c, now);
            && |o.out| >= 1 && o.out[0].seqNo == s.nxt && o.out[0].payload == NextPayload(s)
  {
    hide CanSend, SendNext, NextPayload, DrainTx, PersistTimer, Unsent, ArmKeepalive, AdvertisedWindow;
  }

  // No timer fires on this connection.
  predicate Quiet(c: Connection, now: Time) {
    !Expired(c, now) && !RtoFires(c, now) && !PersistFires(c, now) && !KeepaliveFires(c, now) &&
    !Due(c.rcv.delayedAck, now)
  }

  lemma QuietTick(c: Connection, now: Time, maxRetries: nat)
    requires (c.state == Established || c.state == CloseWait) && Quiet(c, now)
    ensures OnTick(c, now, maxRetries) == Transmit(c, now)
  {
    hide Transmit, Expired, RtoFires, PersistFires, KeepaliveFires, Due;
    assert [] + Transmit(c, now).out == Transmit(c, now).out;
    TransmitKeeps(c, now);
  }

  /** Lifted to the connection: in CLOSE_WAIT, with data in flight, the
      acknowledgment of SND.NXT followed by a tick on which no timer fires
      makes the next segment carry bytes from the old base on, under the
      number of bytes that come after everything sent. */
  lemma CloseWaitResends(c: Connection, seg: Segment, now: Time, later: Time, maxRetries: nat, cuts: seq<nat>,
                         base: nat, u: nat)
    requires c.state == CloseWait && TracksFrom(c.snd, cuts, base, u) && u + 1 < |cuts|
    requires Has(seg.flags, ACK) && !Has(seg.flags, RST) && seg.ackNo == c.snd.nxt
    ensures var d := OnSegment(c, seg, now).conn;
            && OnSegment(c, seg, now).Keep? && base < Last(cuts)
            && (Quiet(d, later) && CanSend(DrainTx(d.snd)) ==>
                  var len, out := NextLen(DrainTx(d.snd)), OnTick(d, later, maxRetries).out;
                  && |out| >= 1 && len >= 1 && base + len <= |c.snd.tx.stream|
                  && out[0].seqNo == SeqAt(c.snd.iss, Last(cuts))
                  && out[0].payload == c.snd.tx.stream[base..base + len])
  {
    hide SeqAt, AcknowledgeOnly, OnTick, CanSend, DrainTx, NextLen, Quiet, TracksFrom, Unsent, SentOffset, NextPayload;
    var t := AcknowledgeOnly(c.snd, c.snd.nxt);
    var d := c.(snd := t);
    CloseWaitEmpties(c.snd, cuts, base, u);
    assert OnSegment(c, seg, now) == Keep(d, []);
    if Quiet(d, later) && CanSend(DrainTx(t)) {
      QuietTick(d, later, maxRetries);
      TransmitFirst(d, later);
      FirstFromBase(t, base);
    }
  }

  // With an empty queue the loop starts at the front of the buffer.
  lemma FirstFromBase(t: Sender, base: nat)
    requires t.queue == [] && base <= t.tx.taken <= |t.tx.stream| && t.buf == t.tx.stream[base..t.tx.taken]
    requires CanSend(DrainTx(t))
    ensures var len := NextLen(DrainTx(t));
            && len >= 1 && base + len <= |t.tx.stream|
            && NextPayload(DrainTx(t)) == t.tx.stream[base..base + len] && DrainTx(t).nxt == t.nxt
  {
    hide AvailableWindow, NagleShouldSend;
    var all := t.tx.stream;
    assert all[base..t.tx.taken] + all[t.tx.taken..] == all[base..];
    assert DrainTx(t).buf == all[base..];
  }

  function SampleSender(): Sender {
    NewSender(0, 1460, Ring(65536, [1, 2, 3, 4], 4)).(
      una := 1, nxt := 5, wnd := 1000, buf := [1, 2, 3, 4], queue := [RetransmitEntry(1, 0, 4)], nodelay := true,
      hasUnacked := true, rto := Some(SECOND))
  }

  lemma SampleTracks()
    ensures Tracks(SampleSender(), [0, 4], 0) && TracksFrom(SampleSender(), [0, 4], 0, 0)
  {
  }

  /** An acknowledgment inside a segment makes the next retransmission send
      bytes under a number that names other bytes. */
  lemma MidSegmentAckMisnumbers()
    ensures Tracks(SampleSender(), [0, 4], 0)
    ensures var t := Acknowledge(SampleSender(), SeqAt(0, 2));
            t.queue == [RetransmitEntry(SeqAt(0, 0), 0, 4)] && OldestPayload(t) == [3, 4]
  {
    hide AfterAck, New;
    SampleTracks();
    var q := SampleSender().queue;
    assert q[1..] == [];
    assert Retained(q, 3) == q;
  }

  // A peer in CLOSE_WAIT with four bytes in flight.
  function SampleCloseWait(): Connection {
    Connection(FourTuple(Addr(1, 1), Addr(2, 2)), CloseWait, SampleSender(), NewReceiver(65536, 0, Ring(65536, [], 0)),
               Keepalive(None, None, 0), None, None, Handle(CloseWait, true, None))
  }

  function SampleAck(): Segment { Segment(Addr(2, 2), Addr(1, 1), 2, 5, ACK, 1000, NO_OPTIONS, []) }

  /** One input: four bytes sent and acknowledged in CLOSE_WAIT. The next
      tick sends them again under the numbers of the four bytes to come, and
      a peer that has the first four takes them as new data. */
  lemma CloseWaitResendsOldBytes(now: Time, maxRetries: nat)
    ensures Tracks(SampleSender(), [0, 4], 0)
    ensures var d := OnSegment(SampleCloseWait(), SampleAck(), now).conn;
            var out := OnTick(d, now, maxRetries).out;
            && |out| >= 1 && out[0].seqNo == SeqAt(0, 4) && out[0].payload == [1, 2, 3, 4]
            && (forall r: Receiver ::
                  r.nxt == SeqAt(0, 4) && r.rx == Ring(65536, [1, 2, 3, 4], 0) && r.reorder == map[] ==>
                  Receive(r, out[0], now).0.rx.stream == [1, 2, 3, 4, 1, 2, 3, 4])
  {
    hide SeqAt, OnTick, OnSegment, DrainTx, NextLen, CanSend, Quiet, TracksFrom, Receive, Tracks;
    var c, seg := SampleCloseWait(), SampleAck();
    SampleTracks();
    SampleGoesOn(now);
    CloseWaitResends(c, seg, now, now, maxRetries, [0, 4], 0, 0);
    var out := OnTick(OnSegment(c, seg, now).conn, now, maxRetries).out;
    assert [1, 2, 3, 4][0..4] == [1, 2, 3, 4];
    forall r: Receiver | r.nxt == SeqAt(0, 4) && r.rx == Ring(65536, [1, 2, 3, 4], 0) && r.reorder == map[]
      ensures Receive(r, out[0], now).0.rx.stream == [1, 2, 3, 4, 1, 2, 3, 4]
    {
      SampleTakes(r, out[0], now);
    }
  }

  lemma SampleGoesOn(now: Time)
    ensures var d := OnSegment(SampleCloseWait(), SampleAck(), now).conn;
            && OnSegment(SampleCloseWait(), SampleAck(), now).Keep? && Quiet(d, now)
            && CanSend(DrainTx(d.snd)) && NextLen(DrainTx(d.snd)) == 4
    ensures SampleAck().ackNo == SampleCloseWait().snd.nxt && Has(SampleAck().flags, ACK)
    ensures !Has(SampleAck().flags, RST)
  {
    hide AfterAck, AvailableWindow, DrainTx, SendMss, Retained;
    var s := SampleSender();
    SampleForgets();
    SampleRoom(AcknowledgeOnly(s, 5));
  }

  lemma SampleForgets()
    ensures Acceptable(SampleSender(), 5) && Retained(SampleSender().queue, 5) == []
  {
    var q := SampleSender().queue;
    assert q[1..] == [];
    assert Retained(q[1..], 5) == [];
  }

  lemma SampleRoom(t: Sender)
    requires t.(cong := SampleSender().cong) == SampleSender().(una := 5, queue := [])
    requires t.cong == AfterAck(SampleSender().cong, SendMss(SampleSender()))
    ensures AvailableWindow(DrainTx(t)) >= 4 && DrainTx(t).buf == [1, 2, 3, 4] && SendMss(DrainTx(t)) == 536
    ensures DrainTx(t).(buf := t.buf, tx := t.tx) == t
  {
  }

  lemma SampleTakes(r: Receiver, seg: Segment, now: Time)
    requires seg.seqNo == r.nxt && r.rx == Ring(65536, [1, 2, 3, 4], 0) && r.reorder == map[]
    requires seg.payload == [1, 2, 3, 4]
    ensures Receive(r, seg, now).0.rx.stream == [1, 2, 3, 4, 1, 2, 3, 4]
  {
    hide Add, Diff;
    assert Rekeyed(r.reorder, 4) == map[];
    assert seg.payload[..4] == seg.payload;
  }
}
