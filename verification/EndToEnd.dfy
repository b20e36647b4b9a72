/** Runs of two connections over a network that drops, repeats and reorders
    segments: what the receiver has is always a prefix of what the sender
    wrote, through writes, shutdown, retransmission and teardown, and a
    receiver that has taken the FIN has everything. */
module EndToEnd {
  import opened Types
  import opened SeqNum
  import opened Tcb
  import opened SendStream
  import opened Reassembly
  import opened Network
  import opened SenderSteps
  import opened ReceiverSteps

  // ---------------------------------------------------------------- segments under way

  lemma CutKept(cuts: seq<nat>, cuts': seq<nat>, p: nat)
    requires cuts <= cuts' && p in cuts
    ensures p in cuts'
  {
    var i :| 0 <= i < |cuts| && cuts[i] == p;
    assert cuts'[i] == p;
  }

  lemma GenuineDataGrows(seg: Segment, pos: nat, iss: Seq, stream: seq<u8>, cuts: seq<nat>, fin: bool,
                         stream': seq<u8>, cuts': seq<nat>, fin': bool)
    requires GenuineData(seg, pos, iss, stream, cuts, fin)
    requires Boundaries(cuts) && Boundaries(cuts') && Last(cuts') <= |stream'| && stream <= stream' && cuts <= cuts'
    requires fin ==> fin' && cuts' == cuts
    ensures GenuineData(seg, pos, iss, stream', cuts', fin')
  {
    hide PartsOf, SeqAt;
    PartsOfPrefix(cuts, cuts');
    PartsOfDisjoint(cuts', stream');
  }

  lemma DataGenuineGrows(fs: set<Flight>, iss: Seq, stream: seq<u8>, cuts: seq<nat>, fin: bool,
                         stream': seq<u8>, cuts': seq<nat>, fin': bool)
    requires DataGenuine(fs, iss, stream, cuts, fin)
    requires Boundaries(cuts) && Boundaries(cuts') && Last(cuts') <= |stream'| && stream <= stream' && cuts <= cuts'
    requires fin ==> fin' && cuts' == cuts
    ensures DataGenuine(fs, iss, stream', cuts', fin')
  {
    hide GenuineData, Boundaries;
    forall f | f in fs
      ensures GenuineData(f.seg, f.pos, iss, stream', cuts', fin')
    {
      GenuineDataGrows(f.seg, f.pos, iss, stream, cuts, fin, stream', cuts', fin');
    }
  }

  lemma GenuineAckGrows(seg: Segment, ackPos: nat, iss: Seq, cuts: seq<nat>, n: nat, took: bool,
                        cuts': seq<nat>, n': nat, took': bool)
    requires GenuineAck(seg, ackPos, iss, cuts, n, took) && cuts <= cuts' && n <= n'
    requires took ==> took' && cuts' == cuts
    ensures GenuineAck(seg, ackPos, iss, cuts', n', took')
  {
    hide SeqAt;
    if ackPos in cuts {
      CutKept(cuts, cuts', ackPos);
    }
  }

  lemma AcksGenuineGrows(fs: set<Flight>, iss: Seq, cuts: seq<nat>, n: nat, took: bool, cuts': seq<nat>, n': nat,
                         took': bool)
    requires AcksGenuine(fs, iss, cuts, n, took) && cuts <= cuts' && n <= n'
    requires took ==> took' && cuts' == cuts
    ensures AcksGenuine(fs, iss, cuts', n', took')
  {
    hide GenuineAck, Has;
    forall f | f in fs && Has(f.seg.flags, ACK)
      ensures GenuineAck(f.seg, f.ackPos, iss, cuts', n', took')
    {
      GenuineAckGrows(f.seg, f.ackPos, iss, cuts, n, took, cuts', n', took');
    }
  }

  lemma SentGrows(fs: set<Flight>, c: Connection, out: seq<Segment>, cuts: seq<nat>, cuts': seq<nat>)
    requires |cuts| >= 1 && EverySent(fs, cuts) && cuts <= cuts' && SendsNew(c, out, cuts, cuts')
    ensures EverySent(fs + Tagged(c, out), cuts')
  {
    hide Tagged;
    PartsStaySent(fs, fs + Tagged(c, out), cuts);
    PartsStaySent(Tagged(c, out), fs + Tagged(c, out), cuts');
    forall i | 0 <= i < |cuts'| - 1
      ensures PartSent(fs + Tagged(c, out), cuts', i)
    {
      if i < |cuts| - 1 {
        PartSentLater(fs + Tagged(c, out), cuts, cuts', i);
      }
    }
  }

  lemma PartSentLater(fs: set<Flight>, cuts: seq<nat>, cuts': seq<nat>, i: nat)
    requires PartSent(fs, cuts, i) && cuts <= cuts'
    ensures PartSent(fs, cuts', i)
  {
    assert cuts'[i] == cuts[i] && cuts'[i + 1] == cuts[i + 1];
  }

  lemma NewDataGenuine(fs: set<Flight>, c: Connection, out: seq<Segment>, cuts: seq<nat>)
    requires GoodOut(c, out, cuts) && DataGenuine(fs, c.snd.iss, c.snd.tx.stream, cuts, SentFin(c.state))
    ensures DataGenuine(fs + Tagged(c, out), c.snd.iss, c.snd.tx.stream, cuts, SentFin(c.state))
  {
    hide GenuineData, NxtPos, AckPos, Diff;
  }

  lemma NewAcksGenuine(fs: set<Flight>, c: Connection, out: seq<Segment>, iss: Seq, cuts: seq<nat>, n: nat)
    requires AcksGenuine(fs, iss, cuts, n, TookFin(c.state)) && AllAck(out, c.rcv.nxt)
    requires Boundaries(cuts) && n in cuts && |c.rcv.rx.stream| == n && c.rcv.nxt == SeqAt(iss, AckPos(c))
    requires TookFin(c.state) ==> n == Last(cuts)
    ensures AcksGenuine(fs + Tagged(c, out), iss, cuts, n, TookFin(c.state))
  {
    hide SeqAt, NxtPos, Diff, Has, Boundaries;
  }

  // ---------------------------------------------------------------- a step at the sending side

  lemma ReceivingGrows(c: Connection, iss: Seq, stream: seq<u8>, w: Progress, fin: bool, stream': seq<u8>,
                       w': Progress, fin': bool)
    requires Receiving(c, iss, stream, w, fin)
    requires stream <= stream' && w.cuts <= w'.cuts && w'.n == w.n && w'.got == w.got
    requires Boundaries(w'.cuts) && Last(w'.cuts) <= |stream'| && (fin ==> fin' && w'.cuts == w.cuts)
    ensures Receiving(c, iss, stream', w', fin')
  {
    hide PartsOf, SeqAt, Settled;
    CutKept(w.cuts, w'.cuts, w.n);
    assert stream'[..w.n] == stream[..w.n];
    if c.state == Established {
      SettledGrows(c.rcv, stream, w.cuts, stream', w'.cuts, w.n, w.got);
    }
    assert w.cuts[|w.cuts| - 1] == w'.cuts[|w.cuts| - 1] <= Last(w'.cuts);
  }

  lemma SentJoins(net: Net, d: Connection, out: seq<Segment>, w: Progress, w': Progress)
    requires Linked(net, w) && Sending(d, w') && Advances(net.a, d, w, w') && AckedIsDelivered(w', TookFin(net.b.state))
    requires GoodOut(d, out, w'.cuts) && SendsNew(d, out, w.cuts, w'.cuts)
    ensures Linked(net.(a := d, ab := net.ab + Tagged(d, out)), w')
  {
    hide Sending, GoodOut, Tagged, DataGenuine, AcksGenuine, Receiving, AckedIsDelivered, Boundaries, EverySent,
      SendsNew;
    SendingNumbers(net.a, w);
    SendingNumbers(d, w');
    ReceivingFacts(net.b, net.a.snd.iss, net.a.snd.tx.stream, w, SentFin(net.a.state));
    ReceivingGrows(net.b, d.snd.iss, net.a.snd.tx.stream, w, SentFin(net.a.state),
                   d.snd.tx.stream, w', SentFin(d.state));
    DataGenuineGrows(net.ab, d.snd.iss, net.a.snd.tx.stream, w.cuts, SentFin(net.a.state),
                     d.snd.tx.stream, w'.cuts, SentFin(d.state));
    NewDataGenuine(net.ab, d, out, w'.cuts);
    SentGrows(net.ab, d, out, w.cuts, w'.cuts);
    AcksGenuineGrows(net.ba, d.snd.iss, w.cuts, w.n, TookFin(net.b.state), w'.cuts, w.n, TookFin(net.b.state));
  }

  lemma ReceivingFacts(c: Connection, iss: Seq, stream: seq<u8>, w: Progress, fin: bool)
    requires Receiving(c, iss, stream, w, fin)
    ensures Boundaries(w.cuts) && w.n in w.cuts && w.n <= Last(w.cuts) <= |stream|
    ensures |c.rcv.rx.stream| == w.n && c.rcv.rx.stream == stream[..w.n] && c.rcv.nxt == SeqAt(iss, AckPos(c))
    ensures TookFin(c.state) ==> fin && w.n == Last(w.cuts) && c.handle.eof
  {
    hide PartsOf, SeqAt, Settled, Boundaries;
  }

  // A side that is removed sends nothing of the stream.
  lemma DroppedJoins(net: Net, out: seq<Segment>, w: Progress)
    requires Linked(net, w) && PlainOut(out)
    ensures Linked(net.(aLive := false, ab := net.ab + Tagged(net.a, out)), w)
  {
    hide Sending, GoodOut, Tagged, DataGenuine, AcksGenuine, Receiving, PlainOut, EverySent, SendsNew;
    PlainIsGood(net.a, out, w.cuts);
    NothingNew(net.a, out, w.cuts);
    SentGrows(net.ab, net.a, out, w.cuts, w.cuts);
    NewDataGenuine(net.ab, net.a, out, w.cuts);
  }

  lemma StepAtSender(net: Net, e: Event, now: Time, pos: nat, ackPos: nat, maxRetries: nat, w: Progress)
    returns (w': Progress)
    requires Linked(net, w) && net.aLive && SenderFair(net, e, now, pos, ackPos)
    ensures Linked(StepA(net, e, now, maxRetries), w')
    ensures Advances(net.a, StepA(net, e, now, maxRetries).a, w, w')
  {
    hide Sending, GoodOut, Tagged, DataGenuine, AcksGenuine, Receiving, PlainOut, Step, PersistFires, UnaPos, Slips,
      EverySent, SendsNew;
    var took := TookFin(net.b.state);
    ReceivingFacts(net.b, net.a.snd.iss, net.a.snd.tx.stream, w, SentFin(net.a.state));
    if e.Inbound? {
      AckArrives(net.ba, Flight(e.seg, pos, ackPos), net.a.snd.iss, w.cuts, w.n, took);
    }
    w' := SenderStep(net.a, e, now, maxRetries, ackPos, w, took);
    var o := Step(net.a, e, now, maxRetries);
    if o.Keep? {
      SentJoins(net, o.conn, o.out, w, w');
    } else {
      w' := w;
      DroppedJoins(net, o.out, w);
    }
  }

  lemma AckArrives(fs: set<Flight>, f: Flight, iss: Seq, cuts: seq<nat>, n: nat, took: bool)
    requires AcksGenuine(fs, iss, cuts, n, took) && f in fs
    ensures Has(f.seg.flags, ACK) ==> GenuineAck(f.seg, f.ackPos, iss, cuts, n, took)
  {
  }

  lemma DataArrives(fs: set<Flight>, f: Flight, iss: Seq, stream: seq<u8>, cuts: seq<nat>, fin: bool)
    requires DataGenuine(fs, iss, stream, cuts, fin) && f in fs
    ensures GenuineData(f.seg, f.pos, iss, stream, cuts, fin)
  {
  }

  // ---------------------------------------------------------------- a step at the receiving side

  lemma ReceivedJoins(net: Net, d: Connection, out: seq<Segment>, w: Progress, w': Progress, live: bool)
    requires Linked(net, w) && w' == w.(n := w'.n, got := w'.got) && w.n <= w'.n
    requires Receiving(d, net.a.snd.iss, net.a.snd.tx.stream, w', SentFin(net.a.state)) && AllAck(out, d.rcv.nxt)
    requires TookFin(net.b.state) ==> TookFin(d.state)
    ensures Linked(net.(b := d, bLive := live, ba := net.ba + Tagged(d, out)), w')
  {
    hide Tagged, DataGenuine, AcksGenuine, Receiving, AllAck, Boundaries, SeqAt, TracksFrom, Finished, Latched;
    ReceivingFacts(d, net.a.snd.iss, net.a.snd.tx.stream, w', SentFin(net.a.state));
    AcksGenuineGrows(net.ba, net.a.snd.iss, w.cuts, w.n, TookFin(net.b.state), w.cuts, w'.n, TookFin(d.state));
    NewAcksGenuine(net.ba, d, out, net.a.snd.iss, w.cuts, w'.n);
  }

  // A step at b, seen from a.
  lemma StepB(net: Net, e: Event, now: Time, maxRetries: nat)
    requires net.bLive
    ensures var o := Step(net.b, e, now, maxRetries);
            Flip(StepA(Flip(net), e, now, maxRetries)) ==
            if o.Keep? then net.(b := o.conn, ba := net.ba + Tagged(o.conn, o.out))
            else net.(bLive := false, ba := net.ba + Tagged(net.b, o.out))
  {
    hide Step, Tagged;
  }

  lemma StepAtReceiver(net: Net, e: Event, now: Time, pos: nat, ackPos: nat, maxRetries: nat, w: Progress)
    returns (w': Progress)
    requires Linked(net, w) && net.bLive && ReceiverFair(net, e, pos, ackPos)
    ensures Linked(Flip(StepA(Flip(net), e, now, maxRetries)), w') && w'.cuts == w.cuts
  {
    hide Sending, Tagged, DataGenuine, AcksGenuine, Receiving, AllAck, Step, CleanWrites, GenuineData, SeqAt, NxtPos,
      UnaPos;
    hide Boundaries, StepA, Flip;
    StepB(net, e, now, maxRetries);
    var iss, stream, fin := net.a.snd.iss, net.a.snd.tx.stream, SentFin(net.a.state);
    SendingNumbers(net.a, w);
    ReceivingFacts(net.b, iss, stream, w, fin);
    if e.Inbound? {
      DataArrives(net.ab, Flight(e.seg, pos, ackPos), iss, stream, w.cuts, fin);
    }
    w' := ReceiverStep(net.b, e, now, maxRetries, pos, iss, stream, w, fin);
    var o := Step(net.b, e, now, maxRetries);
    if o.Keep? {
      ReceivedJoins(net, o.conn, o.out, w, w', true);
    } else {
      w' := w;
      ReceivedJoins(net, net.b, o.out, w, w, false);
    }
  }

  // ---------------------------------------------------------------- runs

  function NetRun(net: Net, events: seq<NetEvent>, maxRetries: nat): Net
    decreases |events|
  {
    if events == [] then net else NetRun(NetStep(net, events[0], maxRetries), events[1..], maxRetries)
  }

  ghost predicate Behaved(net: Net, events: seq<NetEvent>, maxRetries: nat)
    decreases |events|
  {
    events == [] ||
    (Fair(net, events[0]) && Behaved(NetStep(net, events[0], maxRetries), events[1..], maxRetries))
  }

  /** One step of the network, at either side. */
  lemma NetStepKeeps(net: Net, ev: NetEvent, maxRetries: nat, w: Progress) returns (w': Progress)
    requires Linked(net, w) && Fair(net, ev)
    ensures Linked(NetStep(net, ev, maxRetries), w')
    ensures var next := NetStep(net, ev, maxRetries);
            && net.a.snd.tx.stream <= next.a.snd.tx.stream && next.a.snd.iss == net.a.snd.iss
            && (SentFin(net.a.state) ==> SentFin(next.a.state) && w'.cuts == w.cuts)
  {
    hide Linked, StepA, SenderFair, ReceiverFair;
    w' := w;
    match ev {
      case AtA(e, now, pos, ackPos) =>
        if net.aLive {
          w' := StepAtSender(net, e, now, pos, ackPos, maxRetries, w);
        } else {
          DeadStep(net, e, now, maxRetries);
        }
      case AtB(e, now, pos, ackPos) =>
        StepAtB(net, e, now, maxRetries);
        if net.bLive {
          w' := StepAtReceiver(net, e, now, pos, ackPos, maxRetries, w);
        } else {
          DeadStep(Flip(net), e, now, maxRetries);
        }
    }
  }

  lemma DeadStep(net: Net, e: Event, now: Time, maxRetries: nat)
    requires !net.aLive
    ensures StepA(net, e, now, maxRetries) == net
  {
  }

  lemma StepAtB(net: Net, e: Event, now: Time, maxRetries: nat)
    ensures Flip(StepA(Flip(net), e, now, maxRetries)).a == net.a
  {
    hide Step, Tagged;
  }

  lemma {:induction false} RunKeeps(net: Net, events: seq<NetEvent>, maxRetries: nat, w: Progress)
    returns (w': Progress)
    requires Linked(net, w) && Behaved(net, events, maxRetries)
    ensures Linked(NetRun(net, events, maxRetries), w')
    ensures var end := NetRun(net, events, maxRetries);
            && net.a.snd.tx.stream <= end.a.snd.tx.stream && end.a.snd.iss == net.a.snd.iss
            && (SentFin(net.a.state) ==> SentFin(end.a.state) && w'.cuts == w.cuts)
    decreases |events|
  {
    hide Linked, NetStep, Fair;
    w' := w;
    if events != [] {
      w' := NetStepKeeps(net, events[0], maxRetries, w);
      w' := RunKeeps(NetStep(net, events[0], maxRetries), events[1..], maxRetries, w');
    }
  }

  // ---------------------------------------------------------------- fresh connections

  // A sender and a receiver fresh from their handshake, facing each other.
  ghost predicate Paired(x: Sender, y: Receiver) {
    && WindowSane(x)
    && x.una == x.nxt == SeqAt(x.iss, 0) && x.buf == [] && x.queue == [] && !x.hasUnacked
    && x.tx.taken == 0
    && y.irs == x.iss && y.nxt == SeqAt(y.irs, 0) && y.reorder == map[]
    && y.rx.stream == [] && y.rx.taken == 0 && y.rx.cap < TWO31
  }

  // Segments left over from the handshake.
  ghost predicate Handshaking(fs: set<Flight>, iss: Seq) {
    forall f :: f in fs ==>
      && f.seg.payload == [] && !Has(f.seg.flags, FIN)
      && (Has(f.seg.flags, ACK) ==> f.ackPos == 0 && f.seg.ackNo == SeqAt(iss, 0))
  }

  ghost predicate Connected(net: Net) {
    && net.aLive && net.bLive && net.a.state == net.b.state == Established
    && Paired(net.a.snd, net.b.rcv) && Paired(net.b.snd, net.a.rcv)
    && Handshaking(net.ab, net.b.snd.iss) && Handshaking(net.ba, net.a.snd.iss)
  }

  const START := Progress([0], 0, 0, false, 0, map[])

  lemma ConnectedLinked(net: Net)
    requires Connected(net)
    ensures Linked(net, START)
  {
    hide PartsOf, Carries, SeqAt;
    PairedSending(net.a);
    PairedReceiving(net.b, net.a.snd);
    assert 0 in START.cuts;
  }

  lemma PairedSending(c: Connection)
    requires c.state == Established && WindowSane(c.snd) && c.snd.una == c.snd.nxt == SeqAt(c.snd.iss, 0)
    requires c.snd.buf == [] && c.snd.queue == [] && !c.snd.hasUnacked && c.snd.tx.taken == 0
    ensures Sending(c, START)
  {
    hide SeqAt;
  }

  lemma PairedReceiving(c: Connection, x: Sender)
    requires c.state == Established && Paired(x, c.rcv)
    ensures Receiving(c, x.iss, x.tx.stream, START, false)
  {
    hide SeqAt;
    assert 0 in START.cuts;
    assert x.tx.stream[..0] == [];
  }

  // ---------------------------------------------------------------- what a run keeps

  // A boundary of the partition, or the number behind the FIN.
  ghost predicate OnCut(cuts: seq<nat>, p: nat, fin: bool)
    requires |cuts| >= 1
  {
    p in cuts || (fin && p == Last(cuts) + 1)
  }

  /** The boundaries are exactly those of the segments a has ever sent: every
      payload under way is a segment between two neighbours, under its own
      number, every two neighbours enclose one, and the retransmit queue
      lists the last of them. */
  ghost predicate CutAsSent(net: Net, cuts: seq<nat>, base: nat, u: nat) {
    && Boundaries(cuts) && Last(cuts) <= |net.a.snd.tx.stream|
    && DataGenuine(net.ab, net.a.snd.iss, net.a.snd.tx.stream, cuts, SentFin(net.a.state))
    && EverySent(net.ab, cuts)
    && Partition(net.a.snd.queue, net.a.snd.iss, cuts, base, u)
  }

  /** SND.UNA <= RCV.NXT <= SND.NXT, each the number of such a boundary, and
      so is every acknowledgment under way; a FIN counts as one more. */
  ghost predicate InStep(net: Net, cuts: seq<nat>) {
    var a, b, fin := net.a, net.b, SentFin(net.a.state);
    && Boundaries(cuts) && Last(cuts) <= a.snd.tx.taken <= |a.snd.tx.stream|
    && a.snd.una == SeqAt(a.snd.iss, UnaPos(a)) && OnCut(cuts, UnaPos(a), fin)
    && b.rcv.nxt == SeqAt(a.snd.iss, AckPos(b)) && OnCut(cuts, AckPos(b), fin)
    && a.snd.nxt == SeqAt(a.snd.iss, NxtPos(a)) && NxtPos(a) == Last(cuts) + (if fin then 1 else 0)
    && UnaPos(a) <= AckPos(b) <= NxtPos(a) <= UnaPos(a) + MAX_WINDOW + 1
    && AcksGenuine(net.ba, a.snd.iss, cuts, |b.rcv.rx.stream|, TookFin(b.state))
  }

  /** What one direction promises: nothing but a prefix of the written bytes
      has been received, the three points are in step on the boundaries of
      the segments sent, and a receiver that has taken the FIN has everything
      the sender drained before sending it. */
  ghost predicate Intact(net: Net) {
    && net.b.rcv.rx.stream <= net.a.snd.tx.stream
    && (exists cuts, base, u :: CutAsSent(net, cuts, base, u) && InStep(net, cuts))
    && (TookFin(net.b.state) ==> TookAll(net.a, net.b))
  }

  ghost predicate TookAll(a: Connection, b: Connection) {
    && SentFin(a.state) && b.handle.eof
    && a.snd.tx.taken <= |a.snd.tx.stream| && b.rcv.rx.stream == a.snd.tx.stream[..a.snd.tx.taken]
  }

  lemma LinkedIntact(net: Net, w: Progress)
    requires Linked(net, w)
    ensures Intact(net)
  {
    hide Sending, Receiving, DataGenuine, AcksGenuine, EverySent, Partition, Boundaries, SeqAt, NxtPos, UnaPos;
    SendingNumbers(net.a, w);
    SendingPartition(net.a, w);
    ReceivingFacts(net.b, net.a.snd.iss, net.a.snd.tx.stream, w, SentFin(net.a.state));
    assert w.cuts[w.u] in w.cuts && w.cuts[|w.cuts| - 1] in w.cuts;
    assert CutAsSent(net, w.cuts, w.base, w.u) && InStep(net, w.cuts);
    if SentFin(net.a.state) {
      FinishedDrained(net.a, w);
    }
  }

  lemma SendingPartition(c: Connection, w: Progress)
    requires Sending(c, w)
    ensures Partition(c.snd.queue, c.snd.iss, w.cuts, w.base, w.u)
  {
  }

  lemma CutAgain(net: Net, cuts: seq<nat>, base: nat, u: nat, other: seq<nat>, base': nat, u': nat, i: nat)
    requires CutAsSent(net, cuts, base, u) && CutAsSent(net, other, base', u')
    requires i + 1 < |cuts| && i < |other| && cuts[i] == other[i]
    ensures i + 1 < |other| && cuts[i + 1] == other[i + 1]
  {
    hide PartsOf, SeqAt, Partition;
    assert PartSent(net.ab, cuts, i);
    var f :| f in net.ab && f.pos == cuts[i] && f.seg.payload != [] && f.pos + |f.seg.payload| == cuts[i + 1];
    assert GenuineData(f.seg, f.pos, net.a.snd.iss, net.a.snd.tx.stream, other, SentFin(net.a.state));
    var j := PartsOfKey(other, f.pos);
    assert j == i;
  }

  /** The segments sent determine the boundaries. */
  lemma SegmentsDetermineCuts(net: Net, cuts: seq<nat>, base: nat, u: nat, other: seq<nat>, base': nat, u': nat)
    requires CutAsSent(net, cuts, base, u) && CutAsSent(net, other, base', u')
    ensures cuts == other
  {
    hide CutAsSent;
    CutsStart(net, cuts, base, u);
    CutsStart(net, other, base', u');
    for k := 1 to Min(|cuts|, |other|)
      invariant forall i :: 0 <= i < k ==> cuts[i] == other[i]
    {
      CutAgain(net, cuts, base, u, other, base', u', k - 1);
    }
    if |cuts| < |other| {
      CutAgain(net, other, base', u', cuts, base, u, |cuts| - 1);
    } else if |other| < |cuts| {
      CutAgain(net, cuts, base, u, other, base', u', |other| - 1);
    }
  }

  lemma CutsStart(net: Net, cuts: seq<nat>, base: nat, u: nat)
    requires CutAsSent(net, cuts, base, u)
    ensures |cuts| >= 1 && cuts[0] == 0
  {
  }

  lemma FinishedDrained(c: Connection, w: Progress)
    requires Sending(c, w) && SentFin(c.state)
    ensures |w.cuts| >= 1 && Last(w.cuts) == c.snd.tx.taken <= |c.snd.tx.stream|
  {
  }

  /** Over every run of two connected engines and a network that loses,
      repeats and reorders, with writes, reads, shutdowns, aborts and timers
      on both sides: the direction from a to b stays intact. */
  lemma StreamStaysIntact(net: Net, events: seq<NetEvent>, maxRetries: nat)
    requires Connected(net) && Behaved(net, events, maxRetries)
    ensures var end := NetRun(net, events, maxRetries);
            Intact(end)
  {
    hide Connected, Linked, Intact, NetRun, Behaved;
    ConnectedLinked(net);
    var w := RunKeeps(net, events, maxRetries, START);
    LinkedIntact(NetRun(net, events, maxRetries), w);
  }

  // ---------------------------------------------------------------- both directions

  function FlipEvent(ev: NetEvent): NetEvent {
    match ev
    case AtA(e, now, pos, ackPos) => AtB(e, now, pos, ackPos)
    case AtB(e, now, pos, ackPos) => AtA(e, now, pos, ackPos)
  }

  function FlipEvents(events: seq<NetEvent>): (r: seq<NetEvent>)
    ensures |r| == |events|
    ensures forall i :: 0 <= i < |events| ==> r[i] == FlipEvent(events[i])
  {
    if events == [] then [] else [FlipEvent(events[0])] + FlipEvents(events[1..])
  }

  lemma {:induction false} RunFlips(net: Net, events: seq<NetEvent>, maxRetries: nat)
    ensures NetRun(Flip(net), FlipEvents(events), maxRetries) == Flip(NetRun(net, events, maxRetries))
    decreases |events|
  {
    hide StepA;
    if events != [] {
      RunFlips(NetStep(net, events[0], maxRetries), events[1..], maxRetries);
      assert FlipEvents(events)[1..] == FlipEvents(events[1..]);
      assert Flip(Flip(net)) == net;
      assert NetStep(Flip(net), FlipEvent(events[0]), maxRetries) == Flip(NetStep(net, events[0], maxRetries));
    }
  }

  /** Both directions of the same run, each under its own premises. */
  lemma StreamsStayIntact(net: Net, events: seq<NetEvent>, maxRetries: nat)
    requires Connected(net)
    requires Behaved(net, events, maxRetries) && Behaved(Flip(net), FlipEvents(events), maxRetries)
    ensures var end := NetRun(net, events, maxRetries);
            Intact(end) && Intact(Flip(end))
  {
    hide Intact, NetRun, Behaved, Paired, Handshaking;
    StreamStaysIntact(net, events, maxRetries);
    StreamStaysIntact(Flip(net), FlipEvents(events), maxRetries);
    RunFlips(net, events, maxRetries);
  }

  // ---------------------------------------------------------------- the FIN

  lemma {:induction false} RunSplits(net: Net, xs: seq<NetEvent>, ys: seq<NetEvent>, maxRetries: nat)
    ensures NetRun(net, xs + ys, maxRetries) == NetRun(NetRun(net, xs, maxRetries), ys, maxRetries)
    ensures Behaved(net, xs + ys, maxRetries) ==>
              Behaved(net, xs, maxRetries) && Behaved(NetRun(net, xs, maxRetries), ys, maxRetries)
    decreases |xs|
  {
    hide NetStep, Fair;
    if xs == [] {
      assert xs + ys == ys;
    } else {
      assert (xs + ys)[0] == xs[0] && (xs + ys)[1..] == xs[1..] + ys;
      RunSplits(NetStep(net, xs[0], maxRetries), xs[1..], ys, maxRetries);
    }
  }

  // The step in which a sends its FIN.
  ghost predicate SendsFin(mid: Net, ev: NetEvent, maxRetries: nat) {
    !SentFin(mid.a.state) && SentFin(NetStep(mid, ev, maxRetries).a.state)
  }

  // A FIN segment under a number.
  ghost predicate FinUnderWay(fs: set<Flight>, seqNo: Seq) {
    exists f :: f in fs && f.seg.flags == FIN + ACK && f.seg.payload == [] && f.seg.seqNo == seqNo
  }

  /** The FIN leaves only when everything written has been sent, under the
      number that follows the last byte written. */
  lemma FinIsFlushed(net: Net, before: seq<NetEvent>, ev: NetEvent, maxRetries: nat)
    requires Connected(net) && Behaved(net, before + [ev], maxRetries)
    requires SendsFin(NetRun(net, before, maxRetries), ev, maxRetries)
    ensures var mid := NetRun(net, before, maxRetries);
            var next := NetStep(mid, ev, maxRetries);
            var all := mid.a.snd.tx.stream;
            && next.a.snd.tx.stream == all && next.a.snd.tx.taken == |all|
            && FinUnderWay(next.ab, SeqAt(mid.a.snd.iss, |all|))
            && next.a.snd.nxt == SeqAt(mid.a.snd.iss, |all| + 1)
  {
    hide Connected, Linked, NetRun, Behaved, SeqAt, NetStep, FinUnderWay, SendsFin, SentFin;
    RunSplits(net, before, [ev], maxRetries);
    ConnectedLinked(net);
    var mid := NetRun(net, before, maxRetries);
    var w := RunKeeps(net, before, maxRetries, START);
    FinStepFlushes(mid, ev, maxRetries, w);
  }

  lemma FinStepFlushes(mid: Net, ev: NetEvent, maxRetries: nat, w: Progress)
    requires Linked(mid, w) && SendsFin(mid, ev, maxRetries)
    ensures var next := NetStep(mid, ev, maxRetries);
            var all := mid.a.snd.tx.stream;
            && next.a.snd.tx.stream == all && next.a.snd.tx.taken == |all|
            && FinUnderWay(next.ab, SeqAt(mid.a.snd.iss, |all|))
            && next.a.snd.nxt == SeqAt(mid.a.snd.iss, |all| + 1)
  {
    hide SeqAt, Sending, Receiving, DataGenuine, AcksGenuine, Tagged, Step, FinUnderWay, SentFin;
    if ev.AtB? {
      StepAtB(mid, ev.e, ev.now, maxRetries);
      assert false;
    }
    var o := Step(mid.a, ev.e, ev.now, maxRetries);
    ConnectionFinFlushes(mid.a, ev.e, ev.now, maxRetries, w);
    FinTagged(mid.ab, o.conn, o.out, SeqAt(mid.a.snd.iss, |mid.a.snd.tx.stream|));
  }

  lemma FinTagged(fs: set<Flight>, c: Connection, out: seq<Segment>, seqNo: Seq)
    requires out != [] && out[|out| - 1].flags == FIN + ACK && out[|out| - 1].payload == []
    requires out[|out| - 1].seqNo == seqNo
    ensures FinUnderWay(fs + Tagged(c, out), seqNo)
  {
    hide Tag;
    var f := Tag(c, out[|out| - 1]);
    TagSegment(c, out[|out| - 1]);
    assert f in fs + Tagged(c, out);
  }

  lemma TagSegment(c: Connection, seg: Segment)
    ensures Tag(c, seg).seg == seg
  {
  }

  // Only a tick or a write shutdown sends the FIN.
  lemma ConnectionFinFlushes(c: Connection, e: Event, now: Time, maxRetries: nat, w: Progress)
    requires Sending(c, w) && !SentFin(c.state)
    requires Step(c, e, now, maxRetries).Keep? && SentFin(Step(c, e, now, maxRetries).conn.state)
    ensures var o := Step(c, e, now, maxRetries);
            && o.conn.snd.tx == c.snd.tx.(taken := |c.snd.tx.stream|)
            && o.conn.snd.nxt == SeqAt(c.snd.iss, |c.snd.tx.stream| + 1)
            && o.out != []
            && var fin := o.out[|o.out| - 1];
               fin.flags == FIN + ACK && fin.payload == [] && fin.seqNo == SeqAt(c.snd.iss, |c.snd.tx.stream|)
  {
    hide TracksFrom, Latched, SeqAt, OnTick, OnShutdownWrite, OnEstablished, OnReset, AdvertisedWindow,
      AcknowledgeOnly, Finished;
    var o := Step(c, e, now, maxRetries);
    if e.ShutdownWrite? {
      ShutdownTracks(c, now, w.cuts, w.base, w.u);
      FlushedFinLast(c, o.out, []);
      FinishedNxt(o.conn.snd, w.cuts, w.base, w.u, false);
    } else if e.Tick? {
      TickFinFlushes(c, now, maxRetries, w);
    } else if e.Inbound? {
      ResetStays(c, e.seg);
      EstablishedShape(c, e.seg, now);
      assert false;
    }
  }

  lemma FinishedNxt(s: Sender, cuts: seq<nat>, base: nat, u: nat, acked: bool)
    requires Finished(s, cuts, base, u, acked)
    ensures s.nxt == SeqAt(s.iss, s.tx.taken + 1)
  {
  }

  lemma ResetStays(c: Connection, seg: Segment)
    ensures OnReset(c, seg).Keep? ==> OnReset(c, seg).conn == c
  {
  }

  lemma FlushedFinLast(c: Connection, out: seq<Segment>, pieces: seq<(Seq, seq<u8>)>)
    requires FlushedFin(c, out, pieces)
    ensures out != []
    ensures var fin := out[|out| - 1];
            fin.flags == FIN + ACK && fin.payload == [] && fin.seqNo == SeqAt(c.snd.iss, |c.snd.tx.stream|)
  {
  }

  lemma TickFinFlushes(c: Connection, now: Time, maxRetries: nat, w: Progress)
    requires Sending(c, w) && !SentFin(c.state)
    requires OnTick(c, now, maxRetries).Keep? && SentFin(OnTick(c, now, maxRetries).conn.state)
    ensures var o := OnTick(c, now, maxRetries);
            && o.conn.snd.tx == c.snd.tx.(taken := |c.snd.tx.stream|)
            && o.conn.snd.nxt == SeqAt(c.snd.iss, |c.snd.tx.stream| + 1)
            && o.out != []
            && var fin := o.out[|o.out| - 1];
               fin.flags == FIN + ACK && fin.payload == [] && fin.seqNo == SeqAt(c.snd.iss, |c.snd.tx.stream|)
  {
    hide TracksFrom, Latched, SeqAt, OnRtoFired, Transmit, FireDelayedAck, AdvertisedWindow, SendAll, DrainTx,
      Finished, FlushedFin;
    var d, acks := FireDelayedAck(c, now).0, FireDelayedAck(c, now).1;
    DelayedAckShape(c, now);
    if RtoFires(c, now) {
      RtoShape(c, now, maxRetries);
      assert false;
    }
    var cuts' := TransmitTracks(d, now, w.cuts, w.base, w.u);
    var sent := Transmit(d, now);
    FlushedFinLast(d, sent.out, SendAll(DrainTx(d.snd), now).1);
    FinishedNxt(sent.conn.snd, cuts', w.base, w.u, false);
    assert OnTick(c, now, maxRetries) == Keep(sent.conn, acks + sent.out);
  }

  /** A receiver that has taken the FIN holds exactly the bytes the sender had
      written when it sent it, whatever happened before and after. */
  lemma FinMeansWholeStream(net: Net, before: seq<NetEvent>, ev: NetEvent, after: seq<NetEvent>, maxRetries: nat)
    requires Connected(net) && Behaved(net, before + [ev] + after, maxRetries)
    requires SendsFin(NetRun(net, before, maxRetries), ev, maxRetries)
    ensures var end := NetRun(net, before + [ev] + after, maxRetries);
            TookFin(end.b.state) ==>
              end.b.rcv.rx.stream == NetRun(net, before, maxRetries).a.snd.tx.stream && end.b.handle.eof
  {
    hide Connected, Linked, NetRun, Behaved, SeqAt, NetStep, Intact;
    RunSplits(net, before + [ev], after, maxRetries);
    RunSplits(net, before, [ev], maxRetries);
    FinIsFlushed(net, before, ev, maxRetries);
    var mid := NetRun(net, before, maxRetries);
    var next := NetStep(mid, ev, maxRetries);
    RunOne(mid, ev, maxRetries);
    ConnectedLinked(net);
    var w := RunKeeps(net, before + [ev], maxRetries, START);
    var w' := RunKeeps(next, after, maxRetries, w);
    var end := NetRun(next, after, maxRetries);
    LinkedIntact(end, w');
    LinkedDrained(next, w);
    LinkedDrained(end, w');
    if TookFin(end.b.state) {
      IntactTook(end);
    }
  }

  lemma RunOne(net: Net, ev: NetEvent, maxRetries: nat)
    ensures NetRun(net, [ev], maxRetries) == NetStep(net, ev, maxRetries)
  {
    hide NetStep;
    assert NetRun(NetStep(net, ev, maxRetries), [], maxRetries) == NetStep(net, ev, maxRetries);
  }

  lemma LinkedDrained(net: Net, w: Progress)
    requires Linked(net, w) && SentFin(net.a.state)
    ensures |w.cuts| >= 1 && Last(w.cuts) == net.a.snd.tx.taken <= |net.a.snd.tx.stream|
  {
    hide Receiving, DataGenuine, AcksGenuine;
    FinishedDrained(net.a, w);
  }

  lemma IntactTook(net: Net)
    requires Intact(net) && TookFin(net.b.state)
    ensures TookAll(net.a, net.b)
  {
    hide InStep, CutAsSent;
  }
}
