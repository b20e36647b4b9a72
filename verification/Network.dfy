/** Two connections, each the other's peer, over a network that drops, repeats
    and reorders segments: what the receiver has is always a prefix of what
    the sender wrote, through writes, shutdown, retransmission and teardown,
    and a receiver that has taken the FIN has everything.

    The two directions do not depend on each other: the payload and the FIN of
    a segment belong to one, its acknowledgment to the other. The proof follows
    the direction from a to b; the other one is the same network flipped. */
module Network {
  import opened Types
  import opened SeqNum
  import opened Tcb
  import opened SendStream
  import opened Reassembly

  // ---------------------------------------------------------------- the network

  /** A segment under way, with the stream positions a bookkeeper would note
      when it leaves: where its payload starts and how far it acknowledges. */
  datatype Flight = Flight(seg: Segment, pos: nat, ackPos: nat)

  // Everything either side has ever sent stays available for delivery, any
  // number of times and in any order; what is never delivered is lost. A
  // connection that its engine has removed takes no more steps.
  datatype Net = Net(a: Connection, b: Connection, aLive: bool, bLive: bool, ab: set<Flight>, ba: set<Flight>)

  datatype NetEvent = AtA(e: Event, now: Time, pos: nat, ackPos: nat) | AtB(e: Event, now: Time, pos: nat, ackPos: nat)

  // The stream position that SND.NXT stands for; a FIN counts as one.
  function NxtPos(c: Connection): nat {
    if SentFin(c.state) then c.snd.tx.taken + 1 else SaturatingSub(c.snd.tx.taken, |c.snd.buf|) + SentOffset(c.snd)
  }

  function UnaPos(c: Connection): nat { SaturatingSub(NxtPos(c), FlightSize(c.snd)) }

  // The stream position that RCV.NXT stands for.
  function AckPos(c: Connection): nat { |c.rcv.rx.stream| + if TookFin(c.state) then 1 else 0 }

  function Tag(c: Connection, seg: Segment): Flight {
    Flight(seg, SaturatingSub(NxtPos(c), Diff(c.snd.nxt, seg.seqNo)), AckPos(c))
  }

  function Tagged(c: Connection, out: seq<Segment>): set<Flight> { set i | 0 <= i < |out| :: Tag(c, out[i]) }

  function Flip(n: Net): Net { Net(n.b, n.a, n.bLive, n.aLive, n.ba, n.ab) }

  function StepA(n: Net, e: Event, now: Time, maxRetries: nat): Net {
    if !n.aLive then n
    else
      var o := Step(n.a, e, now, maxRetries);
      if o.Keep? then n.(a := o.conn, ab := n.ab + Tagged(o.conn, o.out))
      else n.(aLive := false, ab := n.ab + Tagged(n.a, o.out))
  }

  function NetStep(n: Net, ev: NetEvent, maxRetries: nat): Net {
    match ev
    case AtA(e, now, _, _) => StepA(n, e, now, maxRetries)
    case AtB(e, now, _, _) => Flip(StepA(Flip(n), e, now, maxRetries))
  }

  // ---------------------------------------------------------------- premises

  /** In CLOSE_WAIT the acknowledgment of SND.NXT empties the retransmit queue
      but not the buffer; from there on the direction is not followed. */
  predicate Slips(c: Connection, seg: Segment) {
    && c.state == CloseWait && !Has(seg.flags, RST) && Has(seg.flags, ACK)
    && Acceptable(c.snd, seg.ackNo) && seg.ackNo == c.snd.nxt
  }

  /** No write into the receive ring takes a payload in part. */
  ghost predicate CleanWrites(c: Connection, seg: Segment) {
    if c.state == Established then CleanReceive(c.rcv, seg)
    else (c.state == FinWait1 || c.state == FinWait2) && seg.payload != [] && seg.seqNo == c.rcv.nxt ==>
      WholeOrNone(c.rcv.rx, seg.payload)
  }

  /** What the direction from a to b needs of its sender: segments come from
      the network and acknowledge nothing older than half the number space, no
      zero-window probe is sent, and CLOSE_WAIT does not slip. */
  ghost predicate SenderFair(n: Net, e: Event, now: Time, pos: nat, ackPos: nat) {
    match e
    case Inbound(seg) =>
      Flight(seg, pos, ackPos) in n.ba && UnaPos(n.a) - ackPos < TWO31 && !Slips(n.a, seg)
    case Tick => !PersistFires(n.a, now)
    case _ => true
  }

  /** What it needs of its receiver: segments come from the network and carry
      nothing older than half the number space, and no write is cut short. */
  ghost predicate ReceiverFair(n: Net, e: Event, pos: nat, ackPos: nat) {
    e.Inbound? ==>
      Flight(e.seg, pos, ackPos) in n.ab && |n.b.rcv.rx.stream| - pos < TWO31 && CleanWrites(n.b, e.seg)
  }

  ghost predicate Fair(n: Net, ev: NetEvent) {
    match ev
    case AtA(e, now, pos, ackPos) => n.aLive ==> SenderFair(n, e, now, pos, ackPos)
    case AtB(e, now, pos, ackPos) => n.bLive ==> ReceiverFair(n, e, pos, ackPos)
  }

  // ---------------------------------------------------------------- partitions

  /** The partition that a list of boundaries describes. */
  ghost function PartsOf(cuts: seq<nat>): Parts
    decreases |cuts|
  {
    if |cuts| <= 1 then map[]
    else PartsOf(cuts[..|cuts| - 1])[cuts[|cuts| - 2] := cuts[|cuts| - 1]]
  }

  lemma {:induction false} PartsOfIndex(cuts: seq<nat>, i: nat)
    requires Boundaries(cuts) && i + 1 < |cuts|
    ensures cuts[i] in PartsOf(cuts) && PartsOf(cuts)[cuts[i]] == cuts[i + 1]
    decreases |cuts|
  {
    if i + 2 < |cuts| {
      PartsOfIndex(cuts[..|cuts| - 1], i);
    }
  }

  lemma {:induction false} PartsOfKey(cuts: seq<nat>, p: nat) returns (i: nat)
    requires Boundaries(cuts) && p in PartsOf(cuts)
    ensures i + 1 < |cuts| && p == cuts[i] && PartsOf(cuts)[p] == cuts[i + 1]
    decreases |cuts|
  {
    if p == cuts[|cuts| - 2] {
      i := |cuts| - 2;
    } else {
      i := PartsOfKey(cuts[..|cuts| - 1], p);
    }
  }

  lemma PartsOfDisjoint(cuts: seq<nat>, stream: seq<u8>)
    requires Boundaries(cuts) && Last(cuts) <= |stream|
    ensures Disjoint(PartsOf(cuts), stream)
  {
    hide PartsOf;
    var parts := PartsOf(cuts);
    forall p | p in parts
      ensures p < parts[p] <= |stream|
    {
      var i := PartsOfKey(cuts, p);
    }
    forall p, q | p in parts && q in parts && p < q
      ensures parts[p] <= q
    {
      var i := PartsOfKey(cuts, p);
      var j := PartsOfKey(cuts, q);
      assert i + 1 <= j;
    }
  }

  lemma {:induction false} PartsOfPrefix(cuts: seq<nat>, more: seq<nat>)
    requires Boundaries(cuts) && Boundaries(more) && cuts <= more
    ensures forall p :: p in PartsOf(cuts) ==> p in PartsOf(more) && PartsOf(more)[p] == PartsOf(cuts)[p]
    ensures forall p :: p in PartsOf(more) && p < Last(cuts) ==> p in PartsOf(cuts)
  {
    hide PartsOf;
    forall p | p in PartsOf(cuts)
      ensures p in PartsOf(more) && PartsOf(more)[p] == PartsOf(cuts)[p]
    {
      var i := PartsOfKey(cuts, p);
      PartsOfIndex(more, i);
    }
    forall p | p in PartsOf(more) && p < Last(cuts)
      ensures p in PartsOf(cuts)
    {
      var i := PartsOfKey(more, p);
      assert more[|cuts| - 1] == Last(cuts);
      PartsOfIndex(cuts, i);
    }
  }

  // ---------------------------------------------------------------- growing streams

  lemma {:induction false} ThroughGrows(got: Received, parts: Parts, stream: seq<u8>, parts': Parts,
                                        stream': seq<u8>, from: nat,
                                        n: nat)
    requires Disjoint(parts, stream) && Disjoint(parts', stream') && Through(got, parts, stream, from, n)
    requires forall p :: p in got ==> p in parts && p in parts' && parts'[p] == parts[p]
    ensures Through(got, parts', stream', from, n)
    decreases |stream| - from
  {
    if from < n {
      ThroughGrows(got, parts, stream, parts', stream', parts[from], n);
    }
  }

  /** A receiver stays settled when the peer writes or cuts more stream. */
  lemma SettledGrows(r: Receiver, stream: seq<u8>, cuts: seq<nat>, stream': seq<u8>, cuts': seq<nat>, n: nat,
                     got: Received)
    requires Settled(r, stream, PartsOf(cuts), n, got)
    requires stream <= stream' && cuts <= cuts' && Boundaries(cuts) && Boundaries(cuts')
    requires Last(cuts) <= |stream| && Last(cuts') <= |stream'|
    ensures Settled(r, stream', PartsOf(cuts'), n, got)
  {
    hide PartsOf, Keyed, SeqAt, Boundaries, Through;
    PartsOfPrefix(cuts, cuts');
    PartsOfDisjoint(cuts', stream');
    ThroughGrows(got, PartsOf(cuts), stream, PartsOf(cuts'), stream', 0, n);
    assert forall p :: p in got ==> got[p] == stream'[p..PartsOf(cuts')[p]];
  }

  // ---------------------------------------------------------------- one direction

  // Where the direction stands: the boundaries cut so far, where the send
  // buffer starts, the index of the acknowledged boundary, whether the FIN is
  // acknowledged, the delivered position and the received segments.
  datatype Progress = Progress(cuts: seq<nat>, base: nat, u: nat, acked: bool, n: nat, got: Received)

  ghost predicate Sending(c: Connection, w: Progress) {
    if SentFin(c.state) then Finished(c.snd, w.cuts, w.base, w.u, w.acked)
    else
      && (c.state == Established || c.state == CloseWait) && !w.acked
      && TracksFrom(c.snd, w.cuts, w.base, w.u)
      && (c.state == Established ==> w.base == w.cuts[w.u] && Latched(c.snd))
  }

  ghost predicate Receiving(c: Connection, iss: Seq, stream: seq<u8>, w: Progress, fin: bool) {
    && Synchronized(c.state)
    && c.rcv.irs == iss && RingSane(c.rcv.rx)
    && Boundaries(w.cuts) && Last(w.cuts) <= |stream|
    && w.n in w.cuts && w.n <= Last(w.cuts) && c.rcv.rx.stream == stream[..w.n]
    && c.rcv.nxt == SeqAt(iss, AckPos(c))
    && (TookFin(c.state) ==> fin && w.n == Last(w.cuts) && c.handle.eof)
    && (c.state == Established ==> Settled(c.rcv, stream, PartsOf(w.cuts), w.n, w.got))
  }

  // What is acknowledged has been delivered.
  ghost predicate AckedIsDelivered(w: Progress, took: bool) {
    w.u < |w.cuts| && w.cuts[w.u] <= w.n && (w.acked ==> took)
  }

  // Payloads under way are segments of the partition, under their own
  // numbers, and a FIN stands behind the last of them.
  ghost predicate DataGenuine(fs: set<Flight>, iss: Seq, stream: seq<u8>, cuts: seq<nat>, fin: bool) {
    forall f :: f in fs ==> GenuineData(f.seg, f.pos, iss, stream, cuts, fin)
  }

  ghost predicate GenuineData(seg: Segment, pos: nat, iss: Seq, stream: seq<u8>, cuts: seq<nat>, fin: bool) {
    && (seg.payload != [] ==> Carries(seg, iss, stream, PartsOf(cuts), pos))
    && (Has(seg.flags, FIN) ==> fin && seg.payload == [] && |cuts| >= 1 && seg.seqNo == SeqAt(iss, Last(cuts)))
  }

  // ... and every segment of the partition has been sent.
  ghost predicate EverySent(fs: set<Flight>, cuts: seq<nat>) {
    forall i :: 0 <= i < |cuts| - 1 ==> PartSent(fs, cuts, i)
  }

  ghost predicate PartSent(fs: set<Flight>, cuts: seq<nat>, i: nat) {
    i + 1 < |cuts| &&
    exists f :: f in fs && f.pos == cuts[i] && f.seg.payload != [] && f.pos + |f.seg.payload| == cuts[i + 1]
  }

  // Acknowledgments under way name boundaries that have been delivered, or the FIN.
  ghost predicate AcksGenuine(fs: set<Flight>, iss: Seq, cuts: seq<nat>, n: nat, took: bool) {
    forall f :: f in fs ==> Has(f.seg.flags, ACK) ==> GenuineAck(f.seg, f.ackPos, iss, cuts, n, took)
  }

  ghost predicate GenuineAck(seg: Segment, ackPos: nat, iss: Seq, cuts: seq<nat>, n: nat, took: bool) {
    && seg.ackNo == SeqAt(iss, ackPos)
    && ((ackPos in cuts && ackPos <= n) || (took && |cuts| >= 1 && ackPos == Last(cuts) + 1))
  }

  ghost predicate Linked(net: Net, w: Progress) {
    && Sending(net.a, w)
    && Receiving(net.b, net.a.snd.iss, net.a.snd.tx.stream, w, SentFin(net.a.state))
    && AckedIsDelivered(w, TookFin(net.b.state))
    && DataGenuine(net.ab, net.a.snd.iss, net.a.snd.tx.stream, w.cuts, SentFin(net.a.state))
    && EverySent(net.ab, w.cuts)
    && AcksGenuine(net.ba, net.a.snd.iss, w.cuts, w.n, TookFin(net.b.state))
  }

  // The numbers of the sending half.
  lemma SendingNumbers(c: Connection, w: Progress)
    requires Sending(c, w)
    ensures Boundaries(w.cuts) && w.u < |w.cuts| && Last(w.cuts) <= c.snd.tx.taken <= |c.snd.tx.stream|
    ensures NxtPos(c) == Last(w.cuts) + (if SentFin(c.state) then 1 else 0)
    ensures c.snd.nxt == SeqAt(c.snd.iss, NxtPos(c))
    ensures UnaPos(c) == if w.acked then Last(w.cuts) + 1 else w.cuts[w.u]
    ensures c.snd.una == SeqAt(c.snd.iss, UnaPos(c)) && UnaPos(c) <= NxtPos(c) <= UnaPos(c) + MAX_WINDOW + 1
    ensures w.cuts[w.u] <= Last(w.cuts) <= w.cuts[w.u] + MAX_WINDOW && (w.acked ==> SentFin(c.state))
  {
    hide SeqAt, Partition;
    if SentFin(c.state) {
      SeqAtAgrees(c.snd.iss, Last(w.cuts) + 1, if w.acked then Last(w.cuts) + 1 else w.cuts[w.u]);
    } else {
      TracksBasics(c.snd, w.cuts, w.base, w.u);
    }
  }
}
