/** Who gets in: refused connects, full backlogs, and the order in which
    completed connections are handed out. */
module Admission {
  import opened Types
  import opened SeqNum
  import opened Tcb
  import opened Engine
  import opened EngineRuns
  import opened Listeners
  import opened Network
  import opened EndToEnd
  import opened Handshake
  import opened Teardown

  // ---------------------------------------------------------------- resets

  // What a segment takes up of the number space, one entry per number.
  ghost function Occupied(seg: Segment): seq<u8> {
    (if Has(seg.flags, SYN) then [0] else []) + seg.payload + (if Has(seg.flags, FIN) then [0] else [])
  }

  /** A reset goes back where the segment came from. It takes its number from
      the acknowledgment if there is one, and otherwise acknowledges every
      number the segment occupies. */
  lemma ResetAnswers(seg: Segment)
    requires |Occupied(seg)| < TWO32
    ensures var r := ResetFor(seg);
            && r.src == seg.dst && r.dst == seg.src && r.payload == [] && Has(r.flags, RST)
            && !Has(r.flags, SYN) && !Has(r.flags, FIN)
            && (Has(r.flags, ACK) <==> !Has(seg.flags, ACK))
            && (Has(seg.flags, ACK) ==> r.seqNo == seg.ackNo)
            && (!Has(seg.flags, ACK) ==> Diff(r.ackNo, seg.seqNo) == |Occupied(seg)|)
  {
    hide Has, Add, Diff;
    ResetFlags();
    Distance(seg.seqNo, |Occupied(seg)|);
    assert SegmentLen(seg) == |Occupied(seg)|;
  }

  lemma ResetFlags()
    ensures Has(RST, RST) && !Has(RST, ACK) && !Has(RST, SYN) && !Has(RST, FIN)
    ensures Has(RST + ACK, RST) && Has(RST + ACK, ACK) && !Has(RST + ACK, SYN) && !Has(RST + ACK, FIN)
  {
  }

  lemma Distance(s: Seq, n: u32)
    ensures Diff(Add(s, n), s) == n
  {
  }

  // The reset for a SYN acknowledges it.
  lemma ResetForSyn(syn: Segment)
    requires syn.flags == SYN && syn.payload == []
    ensures var r := ResetFor(syn);
            r.flags == RST + ACK && r.ackNo == Add(syn.seqNo, 1) && r.src == syn.dst && r.dst == syn.src
  {
    SynFlags();
  }

  // A connection in SYN_SENT is refused by exactly the resets that acknowledge its SYN.
  lemma RefusedExactly(c: Connection, seg: Segment, now: Time)
    requires c.state == SynSent && Has(seg.flags, RST)
    ensures OnSegment(c, seg, now) ==
            var error := if c.handle.error.Some? then c.handle.error else Some(ConnectionRefused);
            if Has(seg.flags, ACK) && seg.ackNo == Add(c.snd.iss, 1)
            then Drop(Handle(Closed, c.handle.eof, error), [])
            else Keep(c, [])
  {
    hide Add;
  }

  /** A half-open connection is ended by exactly the resets that name RCV.NXT. */
  lemma HalfOpenResetExactly(c: Connection, seg: Segment, now: Time)
    requires c.state == SynReceived && Has(seg.flags, RST)
    ensures OnSegment(c, seg, now) ==
            var error := if c.handle.error.Some? then c.handle.error else Some(ConnectionReset);
            if seg.seqNo == c.rcv.nxt then Drop(Handle(Closed, c.handle.eof, error), []) else Keep(c, [])
  {
  }

  /** A connect to an engine that does not admit it: the SYN draws a reset and
      leaves nothing behind, and the reset removes the connection with the
      error ConnectionRefused. */
  lemma RefusalIsReported(ca: Config, cb: Config, a: State, b: State, local: Addr, remote: Addr, x: Seq, y: Seq,
                          now: Time)
    requires |a.tcbs| < ca.maxTcbs && FourTuple(remote, local) !in b.tcbs
    requires !Admits(cb, b, SynFor(Opened(ca, FourTuple(local, remote), x, now)))
    ensures var key := FourTuple(local, remote);
            var (a1, syn) := Commanded(ca, a, Connect(local, remote, x), now);
            && |syn.out| == 1
            && var (b1, reset) := Received(cb, b, syn.out[0], y, now);
               && b1 == b && |reset.out| == 1
               && OnSegment(Opened(ca, key, x, now), reset.out[0], now) ==
                  Drop(Handle(Closed, false, Some(ConnectionRefused)), [])
               && var (a2, answer) := Received(ca, a1, reset.out[0], 0, now);
                  a2 == a.(tcbs := a.tcbs - {key}) && answer == QUIET
  {
    hide Opened, Admits, OnSegment, SynFor, ResetFor, Received, Add, Has, Commanded;
    var key := FourTuple(local, remote);
    var c := Opened(ca, key, x, now);
    OpenedSends(ca, key, x, now);
    OpenedHandle(ca, key, x, now);
    ConnectSends(ca, a, local, remote, x, now);
    var syn := SynFor(c);
    SynRefused(cb, b, syn, y, now);
    ResetForSyn(syn);
    ResetFlags();
    var r := ResetFor(syn);
    RefusedExactly(c, r, now);
    RemovedBy(ca, a.(tcbs := a.tcbs[key := c]), r, now);
    PutAndRemoved(a.tcbs, key, c);
  }

  lemma ConnectSends(cfg: Config, s: State, local: Addr, remote: Addr, x: Seq, now: Time)
    requires |s.tcbs| < cfg.maxTcbs
    ensures var c := Opened(cfg, FourTuple(local, remote), x, now);
            && Commanded(cfg, s, Connect(local, remote, x), now) ==
               (s.(tcbs := s.tcbs[FourTuple(local, remote) := c]), Effects([SynFor(c)], []))
            && SynFor(c).src == local && SynFor(c).dst == remote
  {
    hide NewSender, NewReceiver;
  }

  lemma PutAndRemoved(tcbs: map<FourTuple, Connection>, key: FourTuple, c: Connection)
    ensures tcbs[key := c] - {key} == tcbs - {key}
  {
  }

  lemma SynRefused(cfg: Config, s: State, syn: Segment, iss: Seq, now: Time)
    requires syn.flags == SYN && FourTuple(syn.dst, syn.src) !in s.tcbs && !Admits(cfg, s, syn)
    ensures Received(cfg, s, syn, iss, now) == (s, Effects([ResetFor(syn)], []))
  {
    hide Admits, ResetFor;
    SynFlags();
  }

  lemma RemovedBy(cfg: Config, s: State, seg: Segment, now: Time)
    requires var key := FourTuple(seg.dst, seg.src);
             key in s.tcbs && s.tcbs[key].state == SynSent && OnSegment(s.tcbs[key], seg, now).Drop?
    ensures var key := FourTuple(seg.dst, seg.src);
            Received(cfg, s, seg, 0, now) ==
            (s.(tcbs := s.tcbs - {key}), Effects(OnSegment(s.tcbs[key], seg, now).out, []))
  {
    hide OnSegment, Has, Completed;
  }

  lemma OpenedHandle(ca: Config, key: FourTuple, x: Seq, now: Time)
    ensures var c := Opened(ca, key, x, now);
            c.handle == Handle(SynSent, false, None) && c.state == SynSent && c.snd.iss == x
    ensures SynFor(Opened(ca, key, x, now)).payload == [] && SynFor(Opened(ca, key, x, now)).seqNo == x
  {
    hide NewSender;
    NewSenderIss(x, ca.localMss);
  }

  lemma NewSenderIss(x: Seq, mss: u16)
    ensures NewSender(x, mss, EmptyRing()).iss == x
  {
  }

  /** A connect succeeds if and only if the listening engine admits its SYN. */
  lemma ConnectsExactly(ca: Config, cb: Config, a: State, b: State, local: Addr, remote: Addr, x: Seq, y: Seq,
                        now: Time)
    requires |a.tcbs| < ca.maxTcbs && FourTuple(remote, local) !in b.tcbs
    requires ca.defaultRcvScale <= 14 && cb.defaultRcvScale <= 14
    ensures ShakeHands(ca, cb, a, b, local, remote, x, y, now).Some? <==>
            Admits(cb, b, SynFor(Opened(ca, FourTuple(local, remote), x, now)))
  {
    hide Opened, Admits, SynFor, Received, Commanded, Connected, TermsExchanged;
    if Admits(cb, b, SynFor(Opened(ca, FourTuple(local, remote), x, now))) {
      HandshakeConnects(ca, cb, a, b, local, remote, x, y, now);
    } else {
      RefusalIsReported(ca, cb, a, b, local, remote, x, y, now);
    }
  }

  /** The two connections a handshake leaves can be closed in order at once,
      see Teardown.OrderlyClose. */
  lemma FreshPairIsQuiet(net: Net, ca: Config, cb: Config)
    requires Connected(net) && TermsExchanged(net, ca, cb)
    ensures Quiet(net.a, net.b)
  {
    hide Handshaking;
  }

  /** A segment for no known connection does nothing and draws nothing, unless
      it is a SYN without ACK and RST: then it draws exactly one segment. */
  lemma StrayAnsweredExactly(cfg: Config, s: State, seg: Segment, iss: Seq, now: Time)
    requires FourTuple(seg.dst, seg.src) !in s.tcbs
    ensures var (t, fx) := Received(cfg, s, seg, iss, now);
            var opens := Has(seg.flags, SYN) && !Has(seg.flags, ACK) && !Has(seg.flags, RST);
            && (!opens ==> t == s && fx == QUIET)
            && (opens ==> |fx.out| == 1 && fx.answers == [] && fx.out[0].src == seg.dst && fx.out[0].dst == seg.src)
            && (opens ==> (Has(fx.out[0].flags, SYN) <==> Admits(cfg, s, seg)))
  {
    hide Admits, Has, HalfOpen, ResetFor, SynAckFor, Embryo;
    EmbryoSends(cfg, seg, iss, now);
    ResetFlags();
    SynAckFlags();
    ResetShape(seg);
  }

  lemma SynAckFlags()
    ensures Has(SYN + ACK, SYN)
  {
  }

  lemma ResetShape(seg: Segment)
    ensures var r := ResetFor(seg);
            r.src == seg.dst && r.dst == seg.src && (r.flags == RST || r.flags == RST + ACK)
  {
    hide Has, Add;
  }

  // ---------------------------------------------------------------- finding the listener

  /** A listener on the very address is preferred to one on any address of the
      port, and no other listener is considered. */
  lemma ListenerFound(listeners: map<Addr, Listener>, local: Addr)
    ensures var l := ListenerFor(listeners, local);
            && (l.Some? ==> l.value in listeners && l.value.port == local.port)
            && (l.Some? ==> l.value.ip == local.ip || l.value.ip == 0)
            && (local in listeners ==> l == Some(local))
            && (l.None? <==> forall a :: a in listeners && a.port == local.port ==> a.ip != local.ip && a.ip != 0)
  {
    if Addr(0, local.port) in listeners {
      assert Wildcard(local) == Addr(0, local.port);
    }
    forall a | a in listeners && a.port == local.port && (a.ip == local.ip || a.ip == 0)
      ensures a == local || a == Wildcard(local)
    {
      assert a == Addr(a.ip, a.port);
    }
  }

  // ---------------------------------------------------------------- bursts

  // SYNs from different peers to one address, none of them known yet.
  ghost predicate Strangers(s: State, syns: seq<Segment>, addr: Addr) {
    && (forall i :: 0 <= i < |syns| ==>
          syns[i].flags == SYN && syns[i].dst == addr && FourTuple(addr, syns[i].src) !in s.tcbs)
    && (forall i, j :: 0 <= i < j < |syns| ==> syns[i].src != syns[j].src)
  }

  function Burst(cfg: Config, s: State, syns: seq<Segment>, iss: Seq, now: Time): State {
    if syns == [] then s
    else Received(cfg, Burst(cfg, s, syns[..|syns| - 1], iss, now), syns[|syns| - 1], iss, now).0
  }

  // How many more connections the listener takes.
  function Room(s: State, l: Addr, port: u16): nat
    requires l in s.listeners
  {
    SaturatingSub(s.listeners[l].backlog, |HalfOpen(s.tcbs, port)| + |s.listeners[l].completed|)
  }

  // The burst has admitted the first n peers.
  ghost predicate AdmittedFirst(s: State, t: State, syns: seq<Segment>, addr: Addr, n: nat) {
    && t.listeners == s.listeners
    && |t.tcbs| == |s.tcbs| + n
    && |HalfOpen(t.tcbs, addr.port)| == |HalfOpen(s.tcbs, addr.port)| + n
    && (forall i :: 0 <= i < |syns| ==> (FourTuple(addr, syns[i].src) in t.tcbs <==> i < n))
    && (forall k :: k in t.tcbs ==> k in s.tcbs || exists i :: 0 <= i < |syns| && k == FourTuple(addr, syns[i].src))
  }

  // The next SYN of a stranger: a half-open connection or nothing.
  lemma StrangerArrives(cfg: Config, t: State, syn: Segment, iss: Seq, now: Time) returns (c: Connection)
    requires syn.flags == SYN && FourTuple(syn.dst, syn.src) !in t.tcbs
    ensures c.key == FourTuple(syn.dst, syn.src) && c.state == SynReceived
    ensures Received(cfg, t, syn, iss, now).0 ==
            if Admits(cfg, t, syn) then t.(tcbs := t.tcbs[c.key := c]) else t
  {
    hide Embryo, SynAckFor, ResetFor, Admits;
    SynFlags();
    EmbryoKey(cfg, syn, iss, now);
    c := Embryo(cfg, syn, iss, now);
  }

  lemma AdmittedOneMore(s: State, t: State, syns: seq<Segment>, addr: Addr, n: nat, c: Connection)
    requires syns != [] && Strangers(s, syns, addr) && n == |syns| - 1 && AdmittedFirst(s, t, syns[..n], addr, n)
    requires c.state == SynReceived && c.key == FourTuple(addr, syns[n].src)
    ensures c.key !in t.tcbs && AdmittedFirst(s, t.(tcbs := t.tcbs[c.key := c]), syns, addr, n + 1)
  {
    hide HalfOpen;
    var key := c.key;
    var u := t.(tcbs := t.tcbs[key := c]);
    LastIsStranger(s, t, syns, addr, n);
    HalfOpenGrows(t.tcbs, key, c, addr.port);
    forall i | 0 <= i < |syns|
      ensures FourTuple(addr, syns[i].src) in u.tcbs
    {
      if i < n {
        assert syns[i] == syns[..n][i];
      }
    }
    forall k | k in u.tcbs
      ensures k in s.tcbs || exists i :: 0 <= i < |syns| && k == FourTuple(addr, syns[i].src)
    {
      KnownPeer(s, t, syns, addr, n, k);
    }
  }

  lemma KnownPeer(s: State, t: State, syns: seq<Segment>, addr: Addr, n: nat, k: FourTuple)
    requires syns != [] && AdmittedFirst(s, t, syns[..|syns| - 1], addr, n)
    requires k in t.tcbs || k == FourTuple(addr, syns[|syns| - 1].src)
    ensures k in s.tcbs || exists i :: 0 <= i < |syns| && k == FourTuple(addr, syns[i].src)
  {
    hide HalfOpen;
    var front := syns[..|syns| - 1];
    if k in t.tcbs && k !in s.tcbs {
      var i :| 0 <= i < |front| && k == FourTuple(addr, front[i].src);
      assert syns[i] == front[i];
    }
  }

  lemma LastIsStranger(s: State, t: State, syns: seq<Segment>, addr: Addr, n: nat)
    requires syns != [] && Strangers(s, syns, addr) && AdmittedFirst(s, t, syns[..|syns| - 1], addr, n)
    ensures FourTuple(addr, syns[|syns| - 1].src) !in t.tcbs
  {
    hide HalfOpen;
    var front, key := syns[..|syns| - 1], FourTuple(addr, syns[|syns| - 1].src);
    assert forall i :: 0 <= i < |front| ==> front[i] == syns[i];
  }

  lemma NotAdmittedAgain(s: State, t: State, syns: seq<Segment>, addr: Addr, n: nat)
    requires syns != [] && Strangers(s, syns, addr) && n < |syns| && AdmittedFirst(s, t, syns[..|syns| - 1], addr, n)
    ensures AdmittedFirst(s, t, syns, addr, n)
  {
    hide HalfOpen;
    LastIsStranger(s, t, syns, addr, n);
    forall i | 0 <= i < |syns|
      ensures FourTuple(addr, syns[i].src) in t.tcbs <==> i < n
    {
      if i < |syns| - 1 {
        assert syns[i] == syns[..|syns| - 1][i];
      }
    }
    forall k | k in t.tcbs
      ensures k in s.tcbs || exists i :: 0 <= i < |syns| && k == FourTuple(addr, syns[i].src)
    {
      KnownPeer(s, t, syns, addr, n, k);
    }
  }

  lemma OneMoreSyn(cfg: Config, s: State, t: State, syns: seq<Segment>, addr: Addr, l: Addr, iss: Seq, now: Time)
    requires syns != [] && Strangers(s, syns, addr) && ListenerFor(s.listeners, addr) == Some(l)
    requires l in s.listeners && |s.tcbs| + |syns| <= cfg.maxTcbs
    requires AdmittedFirst(s, t, syns[..|syns| - 1], addr, Min(|syns| - 1, Room(s, l, addr.port)))
    ensures var u := Received(cfg, t, syns[|syns| - 1], iss, now).0;
            AdmittedFirst(s, u, syns, addr, Min(|syns|, Room(s, l, addr.port)))
  {
    hide HalfOpen, ListenerFor, Received, AdmittedFirst;
    var last, room := |syns| - 1, Room(s, l, addr.port);
    var n := Min(last, room);
    LastIsStranger(s, t, syns, addr, n);
    var c := StrangerArrives(cfg, t, syns[last], iss, now);
    AdmittedBooks(s, t, syns[..last], addr, n);
    assert Admits(cfg, t, syns[last]) <==> last < room;
    if last < room {
      AdmittedOneMore(s, t, syns, addr, n, c);
    } else {
      NotAdmittedAgain(s, t, syns, addr, n);
    }
  }

  lemma AdmittedBooks(s: State, t: State, syns: seq<Segment>, addr: Addr, n: nat)
    requires AdmittedFirst(s, t, syns, addr, n)
    ensures t.listeners == s.listeners && |t.tcbs| == |s.tcbs| + n
    ensures |HalfOpen(t.tcbs, addr.port)| == |HalfOpen(s.tcbs, addr.port)| + n
  {
    hide HalfOpen;
  }

  /** A burst of SYNs from different peers: exactly as many are admitted as
      the backlog has room for, first come first served, and the others leave
      no trace. */
  lemma {:induction false} BurstFillsBacklog(cfg: Config, s: State, syns: seq<Segment>, addr: Addr, l: Addr,
                                             iss: Seq, now: Time)
    requires Strangers(s, syns, addr) && ListenerFor(s.listeners, addr) == Some(l) && l in s.listeners
    requires |s.tcbs| + |syns| <= cfg.maxTcbs
    ensures AdmittedFirst(s, Burst(cfg, s, syns, iss, now), syns, addr, Min(|syns|, Room(s, l, addr.port)))
    decreases |syns|
  {
    hide AdmittedFirst, Received, ListenerFor, HalfOpen;
    if syns == [] {
      NoneAdmitted(s, addr);
    } else {
      BurstFillsBacklog(cfg, s, syns[..|syns| - 1], addr, l, iss, now);
      OneMoreSyn(cfg, s, Burst(cfg, s, syns[..|syns| - 1], iss, now), syns, addr, l, iss, now);
    }
  }

  lemma NoneAdmitted(s: State, addr: Addr)
    ensures AdmittedFirst(s, s, [], addr, 0)
  {
  }

  /** A listener opened on a quiet port holds its backlog, or the default one
      when it asks for none. */
  lemma FreshListenerHolds(cfg: Config, s: State, addr: Addr, backlog: nat, now: Time)
    requires HalfOpen(s.tcbs, addr.port) == {}
    ensures var t := Commanded(cfg, s, OpenListener(addr, backlog), now).0;
            && t.tcbs == s.tcbs && ListenerFor(t.listeners, addr) == Some(addr) && addr in t.listeners
            && Room(t, addr, addr.port) == if backlog == 0 then cfg.defaultBacklog else backlog
  {
    hide HalfOpen;
  }

  // ---------------------------------------------------------------- handing out

  function CompleteAll(listeners: map<Addr, Listener>, keys: seq<FourTuple>): (map<Addr, Listener>, seq<Answer>)
    decreases |keys|
  {
    if keys == [] then (listeners, [])
    else
      var (ls, one) := Completed(listeners, keys[0]);
      var (end, rest) := CompleteAll(ls, keys[1..]);
      (end, one + rest)
  }

  function AcceptAll(listeners: map<Addr, Listener>, addr: Addr,
                     tickets: seq<Ticket>): (map<Addr, Listener>, seq<Answer>)
    decreases |tickets|
  {
    if tickets == [] then (listeners, [])
    else
      var (ls, one) := OnAccept(listeners, addr, tickets[0]);
      var (end, rest) := AcceptAll(ls, addr, tickets[1..]);
      (end, one + rest)
  }

  // The same listeners, but for the completed queue of one.
  ghost predicate OnlyQueue(was: map<Addr, Listener>, ls: map<Addr, Listener>, addr: Addr, queue: seq<FourTuple>) {
    && addr in was && ls.Keys == was.Keys
    && ls[addr] == was[addr].(completed := queue)
    && (forall a :: a in was && a != addr ==> ls[a] == was[a])
  }

  lemma OneCompletes(listeners: map<Addr, Listener>, key: FourTuple, addr: Addr)
    requires addr in listeners && key.local == addr && listeners[addr].parked == []
    ensures OnlyQueue(listeners, Completed(listeners, key).0, addr, listeners[addr].completed + [key])
    ensures Completed(listeners, key).1 == []
  {
  }

  lemma {:induction false} CompletionsQueue(listeners: map<Addr, Listener>, keys: seq<FourTuple>, addr: Addr)
    requires addr in listeners && listeners[addr].parked == []
    requires forall i :: 0 <= i < |keys| ==> keys[i].local == addr
    ensures OnlyQueue(listeners, CompleteAll(listeners, keys).0, addr, listeners[addr].completed + keys)
    ensures CompleteAll(listeners, keys).1 == []
    decreases |keys|
  {
    hide Completed;
    var queue := listeners[addr].completed;
    if keys == [] {
      assert queue + keys == queue;
    } else {
      OneCompletes(listeners, keys[0], addr);
      CompletionsQueue(Completed(listeners, keys[0]).0, keys[1..], addr);
      assert queue + [keys[0]] + keys[1..] == queue + keys;
    }
  }

  lemma {:induction false} AcceptsTakeFromTheEnd(listeners: map<Addr, Listener>, addr: Addr, tickets: seq<Ticket>)
    requires addr in listeners && |tickets| <= |listeners[addr].completed|
    ensures var (ls, answers) := AcceptAll(listeners, addr, tickets);
            var queue := listeners[addr].completed;
            && |answers| == |tickets|
            && (forall i :: 0 <= i < |tickets| ==> answers[i] == Answer(tickets[i], Some(queue[|queue| - 1 - i])))
            && addr in ls && ls[addr].completed == queue[..|queue| - |tickets|]
    decreases |tickets|
  {
    if tickets != [] {
      var queue := listeners[addr].completed;
      var (ls, one) := OnAccept(listeners, addr, tickets[0]);
      AcceptsTakeFromTheEnd(ls, addr, tickets[1..]);
      var rest := AcceptAll(ls, addr, tickets[1..]).1;
      forall i | 0 <= i < |tickets|
        ensures (one + rest)[i] == Answer(tickets[i], Some(queue[|queue| - 1 - i]))
      {
        if i > 0 {
          assert rest[i - 1] == Answer(tickets[1..][i - 1], Some(queue[..|queue| - 1][|queue| - 1 - i]));
        }
      }
    }
  }

  lemma {:induction false} AcceptsTouchOnlyTheQueue(listeners: map<Addr, Listener>, addr: Addr, tickets: seq<Ticket>)
    requires addr in listeners && |tickets| <= |listeners[addr].completed|
    ensures var end := AcceptAll(listeners, addr, tickets).0;
            addr in end && OnlyQueue(listeners, end, addr, end[addr].completed)
    decreases |tickets|
  {
    if tickets != [] {
      AcceptsTouchOnlyTheQueue(OnAccept(listeners, addr, tickets[0]).0, addr, tickets[1..]);
    }
  }

  /** Completed connections are handed out last come first served. */
  lemma LastCompletedFirstAccepted(listeners: map<Addr, Listener>, addr: Addr, keys: seq<FourTuple>,
                                   tickets: seq<Ticket>)
    requires addr in listeners && listeners[addr].parked == [] && listeners[addr].completed == []
    requires forall i :: 0 <= i < |keys| ==> keys[i].local == addr
    requires |tickets| == |keys|
    ensures var (ls, none) := CompleteAll(listeners, keys);
            var (end, answers) := AcceptAll(ls, addr, tickets);
            && none == [] && |answers| == |keys|
            && (forall i :: 0 <= i < |keys| ==> answers[i] == Answer(tickets[i], Some(keys[|keys| - 1 - i])))
            && end == listeners
  {
    hide CompleteAll, AcceptAll;
    CompletionsQueue(listeners, keys, addr);
    var ls := CompleteAll(listeners, keys).0;
    assert [] + keys == keys;
    AcceptsTakeFromTheEnd(ls, addr, tickets);
    AcceptsTouchOnlyTheQueue(ls, addr, tickets);
    var end := AcceptAll(ls, addr, tickets).0;
    assert end[addr] == listeners[addr];
  }

  /** Waiting accepts are served the same way: the last to ask comes first. */
  lemma LastParkedFirstServed(listeners: map<Addr, Listener>, addr: Addr, key: FourTuple)
    requires addr in listeners && key.local == addr && listeners[addr].parked != []
    ensures var parked := listeners[addr].parked;
            var last := parked[|parked| - 1];
            Completed(listeners, key) ==
            (listeners[addr := listeners[addr].(parked := parked[..|parked| - 1])], [Answer(last, Some(key))])
  {
  }
}
