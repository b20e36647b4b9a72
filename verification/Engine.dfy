/** The engine: connections and listeners, stepped by segments, commands and
    timer ticks. The functions say what each step does to the whole state;
    the class carries the steps out with the loops the engine runs. */
module Engine {
  import opened Types
  import opened SeqNum
  import opened ByteRing
  import opened Congestion
  import opened Tcb
  import Lifecycle

  datatype Config = Config(
    maxTcbs: nat,
    defaultBacklog: nat,
    localMss: u16,
    defaultRcvWnd: u32,
    defaultRcvScale: u8,
    initialRto: Time,
    maxRetries: nat)

  // Names the caller waiting for an accepted connection.
  type Ticket = nat

  datatype Listener = Listener(backlog: nat, parked: seq<Ticket>, completed: seq<FourTuple>)

  datatype State = State(tcbs: map<FourTuple, Connection>, listeners: map<Addr, Listener>)

  // The answer to an accept: a connection, or NotConnected.
  datatype Answer = Answer(ticket: Ticket, result: Option<FourTuple>)

  datatype Effects = Effects(out: seq<Segment>, answers: seq<Answer>)

  const QUIET := Effects([], [])

  // What the application side of a connection can ask for.
  type AppEvent = e: Event | !e.Inbound? && !e.Tick? witness ShutdownWrite

  datatype Command =
    | Connect(local: Addr, remote: Addr, iss: Seq)
    | OpenListener(addr: Addr, backlog: nat)
    | AcceptOn(addr: Addr, ticket: Ticket)
    | OnConnection(key: FourTuple, event: AppEvent)

  // ---------------------------------------------------------------- new connections

  const RING_CAPACITY: nat := 65536

  function EmptyRing(): Ring { Ring(RING_CAPACITY, [], 0) }

  const SYN_OPTIONS_TIMESTAMPS: Option<(u32, u32)> := Some((0, 0))

  function SynOptions(c: Connection): TcpOptions {
    TcpOptions(Some(c.snd.localMss), Some(c.rcv.scale), true, SYN_OPTIONS_TIMESTAMPS, [])
  }

  function Fresh(cfg: Config, key: FourTuple, iss: Seq, now: Time, state: TcpState): Connection {
    var snd := NewSender(iss, cfg.localMss, EmptyRing()).(nxt := Add(iss, 1), rto := Some(now + cfg.initialRto));
    Connection(key, state, snd, NewReceiver(cfg.defaultRcvWnd, cfg.defaultRcvScale, EmptyRing()),
               Keepalive(None, None, 0), None, None, Handle(state, false, None))
  }

  /** Active open. */
  function Opened(cfg: Config, key: FourTuple, iss: Seq, now: Time): Connection {
    Fresh(cfg, key, iss, now, SynSent)
  }

  function SynFor(c: Connection): Segment {
    Segment(c.key.local, c.key.remote, c.snd.iss, 0, SYN, HandshakeWindow(c.rcv.wnd), SynOptions(c), [])
  }

  /** Passive open on a SYN. */
  function Embryo(cfg: Config, seg: Segment, iss: Seq, now: Time): Connection {
    var c := Fresh(cfg, FourTuple(seg.dst, seg.src), iss, now, SynReceived);
    var mss, scale := OfferedMss(seg.options), OfferedScale(seg.options);
    c.(snd := c.snd.(peerMss := mss, scale := scale, wnd := ShiftLeft(seg.window, scale),
                     cong := New(Min(cfg.localMss, mss))),
       rcv := c.rcv.(irs := seg.seqNo, nxt := Add(seg.seqNo, 1)))
  }

  function SynAckFor(c: Connection): Segment {
    Segment(c.key.local, c.key.remote, c.snd.iss, c.rcv.nxt, SYN + ACK, HandshakeWindow(c.rcv.wnd), SynOptions(c), [])
  }

  function SegmentLen(seg: Segment): nat {
    |seg.payload| + (if Has(seg.flags, SYN) then 1 else 0) + (if Has(seg.flags, FIN) then 1 else 0)
  }

  function ResetFor(seg: Segment): Segment {
    if Has(seg.flags, ACK)
    then Segment(seg.dst, seg.src, seg.ackNo, 0, RST, 0, NO_OPTIONS, [])
    else Segment(seg.dst, seg.src, 0, Add(seg.seqNo, SegmentLen(seg) % TWO32), RST + ACK, 0, NO_OPTIONS, [])
  }

  // ---------------------------------------------------------------- listeners

  function Wildcard(a: Addr): Addr { Addr(0, a.port) }

  /** The listener responsible for a local address: its own, else the wildcard of its port. */
  function ListenerFor(listeners: map<Addr, Listener>, local: Addr): Option<Addr> {
    if local in listeners then Some(local)
    else if Wildcard(local) in listeners then Some(Wildcard(local))
    else None
  }

  /** The half-open connections on a port. */
  function HalfOpen(tcbs: map<FourTuple, Connection>, port: u16): set<FourTuple> {
    set k | k in tcbs && tcbs[k].state == SynReceived && tcbs[k].key.local.port == port
  }

  /** A passive open that completed: hand it to a parked accept, else queue it. */
  function Completed(listeners: map<Addr, Listener>, key: FourTuple): (map<Addr, Listener>, seq<Answer>) {
    match ListenerFor(listeners, key.local)
    case None => (listeners, [])
    case Some(a) =>
      var l := listeners[a];
      if l.parked != [] then
        var last := |l.parked| - 1;
        (listeners[a := l.(parked := l.parked[..last])], [Answer(l.parked[last], Some(key))])
      else (listeners[a := l.(completed := l.completed + [key])], [])
  }

  function OnAccept(listeners: map<Addr, Listener>, addr: Addr, ticket: Ticket): (map<Addr, Listener>, seq<Answer>) {
    if addr !in listeners then (listeners, [Answer(ticket, None)])
    else
      var l := listeners[addr];
      if l.completed != [] then
        var last := |l.completed| - 1;
        (listeners[addr := l.(completed := l.completed[..last])], [Answer(ticket, Some(l.completed[last]))])
      else (listeners[addr := l.(parked := l.parked + [ticket])], [])
  }

  // ---------------------------------------------------------------- steps

  function Store(s: State, key: FourTuple, o: Outcome): State {
    s.(tcbs := if o.Keep? then s.tcbs[key := o.conn] else s.tcbs - {key})
  }

  predicate Admits(cfg: Config, s: State, seg: Segment) {
    var l := ListenerFor(s.listeners, seg.dst);
    && l.Some?
    && |HalfOpen(s.tcbs, seg.dst.port)| + |s.listeners[l.value].completed| < s.listeners[l.value].backlog
    && |s.tcbs| < cfg.maxTcbs
  }

  function OnSyn(cfg: Config, s: State, seg: Segment, iss: Seq, now: Time): (State, Effects) {
    if Admits(cfg, s, seg) then
      var c := Embryo(cfg, seg, iss, now);
      (s.(tcbs := s.tcbs[c.key := c]), Effects([SynAckFor(c)], []))
    else (s, Effects([ResetFor(seg)], []))
  }

  /** An inbound segment. */
  function Received(cfg: Config, s: State, seg: Segment, iss: Seq, now: Time): (State, Effects) {
    var key := FourTuple(seg.dst, seg.src);
    if key in s.tcbs then
      var c := s.tcbs[key];
      var o := OnSegment(c, seg, now);
      if CompletesPassiveOpen(c, seg) then
        var (listeners, answers) := Completed(s.listeners, key);
        (Store(s, key, o).(listeners := listeners), Effects(o.out, answers))
      else (Store(s, key, o), Effects(o.out, []))
    else if Has(seg.flags, SYN) && !Has(seg.flags, ACK) && !Has(seg.flags, RST) then OnSyn(cfg, s, seg, iss, now)
    else (s, QUIET)
  }

  /** An application command. */
  function Commanded(cfg: Config, s: State, cmd: Command, now: Time): (State, Effects) {
    match cmd
    case Connect(local, remote, iss) =>
      if |s.tcbs| >= cfg.maxTcbs then (s, QUIET)
      else
        var c := Opened(cfg, FourTuple(local, remote), iss, now);
        (s.(tcbs := s.tcbs[c.key := c]), Effects([SynFor(c)], []))
    case OpenListener(addr, backlog) =>
      var size := if backlog == 0 then cfg.defaultBacklog else backlog;
      (s.(listeners := s.listeners[addr := Listener(size, [], [])]), QUIET)
    case AcceptOn(addr, ticket) =>
      var (listeners, answers) := OnAccept(s.listeners, addr, ticket);
      (s.(listeners := listeners), Effects([], answers))
    case OnConnection(key, e) =>
      if key !in s.tcbs then (s, QUIET)
      else
        var o := Step(s.tcbs[key], e, now, cfg.maxRetries);
        (Store(s, key, o), Effects(o.out, []))
  }

  /** A timer tick: every connection takes its share. */
  function Ticked(cfg: Config, tcbs: map<FourTuple, Connection>, now: Time): map<FourTuple, Connection> {
    map k | k in tcbs && OnTick(tcbs[k], now, cfg.maxRetries).Keep? :: OnTick(tcbs[k], now, cfg.maxRetries).conn
  }

  /** The frames of a tick that serves the connections in this order. */
  function TickFrames(cfg: Config, tcbs: map<FourTuple, Connection>, order: seq<FourTuple>, now: Time): seq<Segment>
    requires forall i :: 0 <= i < |order| ==> order[i] in tcbs
  {
    if order == [] then []
    else
      var last := |order| - 1;
      TickFrames(cfg, tcbs, order[..last], now) + OnTick(tcbs[order[last]], now, cfg.maxRetries).out
  }

  ghost predicate Enumerates(order: seq<FourTuple>, keys: set<FourTuple>) {
    && (forall i :: 0 <= i < |order| ==> order[i] in keys)
    && (forall i, j :: 0 <= i < j < |order| ==> order[i] != order[j])
    && |order| == |keys|
  }

  // ---------------------------------------------------------------- loops over one connection

  // Drop the fully acknowledged entries.
  method Retain(q: seq<RetransmitEntry>, una: Seq) returns (r: seq<RetransmitEntry>)
    ensures r == Retained(q, una)
  {
    r := [];
    for i := 0 to |q|
      invariant r + Retained(q[i..], una) == Retained(q, una)
    {
      ghost var was := r;
      assert q[i..][1..] == q[i + 1..];
      if Gt(Add(q[i].seqNo, q[i].len % TWO32), una) {
        r := r + [q[i]];
        assert was + ([q[i]] + Retained(q[i + 1..], una)) == r + Retained(q[i + 1..], una);
      }
    }
    assert r + [] == r;
  }

  method Rebase(q: seq<RetransmitEntry>, n: nat) returns (r: seq<RetransmitEntry>)
    ensures r == Rebased(q, n)
  {
    r := q;
    for i := 0 to |q|
      invariant |r| == |q| && r[i..] == q[i..]
      invariant forall j :: 0 <= j < i ==> r[j] == q[j].(offset := SaturatingSub(q[j].offset, n))
    {
      r := r[i := q[i].(offset := SaturatingSub(q[i].offset, n))];
    }
  }

  method Rekey(m: map<u32, seq<u8>>, n: u32) returns (r: map<u32, seq<u8>>)
    ensures r == Rekeyed(m, n)
  {
    hide Add, Diff;
    r := map[];
    var todo := m.Keys;
    while todo != {}
      invariant todo <= m.Keys
      invariant forall k: u32 :: k in r <==> Add(k, n) in m && Add(k, n) !in todo
      invariant forall k :: k in r ==> r[k] == m[Add(k, n)]
      decreases todo
    {
      var k :| k in todo;
      forall j: u32
        ensures Diff(Add(j, n), n) == j && Add(Diff(k, n), n) == k
      {
        RekeyInverse(j, n);
        RekeyInverse(k, n);
      }
      r := r[Diff(k, n) := m[k]];
      todo := todo - {k};
    }
    forall k: u32 | k in r
      ensures k in Rekeyed(m, n)
    {
      RekeyInverse(k, n);
      RekeyedDown(m, n, Add(k, n));
    }
  }

  // Deliver every buffered segment that has become next in order.
  method DrainReorder(r: Receiver) returns (end: Receiver, count: nat)
    ensures (end, count) == Drained(r)
  {
    hide Accept, Rekeyed;
    end, count := r, 0;
    while 0 in end.reorder
      invariant Drained(r) == (Drained(end).0, count + Drained(end).1)
      decreases |end.reorder|
    {
      DrainOneShrinks(end);
      ghost var before := end;
      var data := end.reorder[0];
      var w := end.rx.Accepted(data) % TWO32;
      var rest := end.reorder - {0};
      if w > 0 {
        rest := Rekey(rest, w);
      }
      end := Accept(end.(reorder := rest), data);
      assert end == DrainOne(before);
      count := count + 1;
    }
  }

  // The engine empties the transmit ring through a buffer of 4096 bytes.
  method ReadAll(tx: Ring) returns (bytes: seq<u8>, end: Ring)
    ensures bytes == tx.stream[Min(tx.taken, |tx.stream|)..]
    ensures end == tx.(taken := Max(tx.taken, |tx.stream|))
  {
    var from := Min(tx.taken, |tx.stream|);
    bytes, end := [], tx;
    while end.Pending() > 0
      invariant end == tx.(taken := end.taken)
      invariant tx.taken <= end.taken <= Max(tx.taken, |tx.stream|)
      invariant bytes == tx.stream[from..Min(end.taken, |tx.stream|)]
      decreases end.Pending()
    {
      var n := Min(4096, end.Pending());
      var chunk := end.stream[end.taken..end.taken + n];
      assert bytes + chunk == tx.stream[from..end.taken + n];
      bytes := bytes + chunk;
      end := end.Take(4096);
    }
  }

  method DrainRing(s: Sender) returns (r: Sender)
    ensures r == DrainTx(s)
  {
    var bytes, end := ReadAll(s.tx);
    return s.(buf := s.buf + bytes, tx := end);
  }

  // The transmit loop.
  method SendLoop(c: Connection, start: Sender, now: Time) returns (s: Sender, frames: seq<Segment>)
    ensures s == SendAll(start, now).0
    ensures frames == Frames(c, SendAll(start, now).1)
  {
    hide CanSend, SendNext, Emit, NextLen;
    s, frames := start, [];
    ghost var sent: seq<(Seq, seq<u8>)> := [];
    assert [] + SendAll(s, now).1 == SendAll(s, now).1;
    while CanSend(s)
      invariant SendAll(start, now) == (SendAll(s, now).0, sent + SendAll(s, now).1)
      invariant frames == Frames(c, sent)
      decreases Unsent(s)
    {
      Lifecycle.UnsentShrinks(s, now);
      ghost var rest := SendAll(SendNext(s, now), now).1;
      assert sent + ([(s.nxt, NextPayload(s))] + rest) == sent + [(s.nxt, NextPayload(s))] + rest;
      FramesAppend(c, sent, (s.nxt, NextPayload(s)));
      frames := frames + [Emit(c, s.nxt, ACK, NextPayload(s))];
      sent := sent + [(s.nxt, NextPayload(s))];
      s := SendNext(s, now);
    }
    assert sent + [] == sent;
  }

  lemma FramesAppend(c: Connection, sent: seq<(Seq, seq<u8>)>, p: (Seq, seq<u8>))
    ensures Frames(c, sent + [p]) == Frames(c, sent) + [Emit(c, p.0, ACK, p.1)]
  {
    hide Emit;
  }

  method HandleAck(s: Sender, ackNo: Seq) returns (r: Sender)
    ensures r == Acknowledge(s, ackNo)
  {
    hide Retained, AfterAck, Acceptable;
    r := s;
    if Acceptable(s, ackNo) {
      var acked := Diff(ackNo, s.una);
      r := r.(una := ackNo);
      var queue := Retain(s.queue, ackNo);
      var n := Min(acked, |s.buf|);
      if n > 0 {
        queue := Rebase(queue, n);
      } else {
        RebasedByZero(queue);
      }
      r := r.(queue := queue, buf := s.buf[n..]);
      if r.una == r.nxt {
        r := r.(hasUnacked := false);
      }
      r := r.(cong := AfterAck(r.cong, SendMss(r)));
    }
  }

  lemma RebasedByZero(q: seq<RetransmitEntry>)
    ensures Rebased(q, 0) == q
  {
    assert forall i :: 0 <= i < |q| ==> Rebased(q, 0)[i] == q[i];
  }

  method HandleData(r: Receiver, seg: Segment, now: Time) returns (end: Receiver, ackNow: bool)
    ensures (end, ackNow) == Receive(r, seg, now)
  {
    hide Rekeyed, Drained;
    end, ackNow := r, false;
    if seg.payload != [] {
      if seg.seqNo == r.nxt {
        var written := r.rx.Accepted(seg.payload) % TWO32;
        var reorder := Rekey(r.reorder, written);
        var drained, count := DrainReorder(Accept(r.(reorder := reorder), seg.payload));
        Lifecycle.DrainedKeepsPacing(Accept(r.(reorder := reorder), seg.payload));
        end := drained.(sinceAck := r.sinceAck + 1 + count);
        if end.sinceAck >= 2 {
          end, ackNow := end.(sinceAck := 0, delayedAck := None), true;
        } else if r.delayedAck.None? {
          end := end.(delayedAck := Some(now + DELAYED_ACK_TIMEOUT));
        }
      } else if Gt(seg.seqNo, r.nxt) {
        end := r.(reorder := r.reorder[Diff(seg.seqNo, r.nxt) := seg.payload], sinceAck := 0, delayedAck := None);
        ackNow := true;
      }
    }
  }

  method HandleEstablished(c: Connection, seg: Segment, now: Time) returns (o: Outcome)
    ensures o == OnEstablished(c, seg, now)
  {
    hide Acknowledge, UpdateWindow, Receive, PlainAck, Has, FinSeq;
    var d := c;
    if Has(seg.flags, ACK) {
      var snd := HandleAck(c.snd, seg.ackNo);
      d := d.(snd := UpdateWindow(snd, seg));
    }
    var rcv, ackNow := HandleData(c.rcv, seg, now);
    d := d.(rcv := rcv);
    if seg.payload != [] {
      d := d.(keepalive := TouchKeepalive(c.keepalive, now));
    }
    var out := if ackNow then [PlainAck(d)] else [];
    if FinInOrder(d.rcv, seg) {
      d := TakeFin(d, CloseWait);
      d := d.(rcv := d.rcv.(sinceAck := 0, delayedAck := None));
      out := [PlainAck(d)];
    }
    return Keep(d, out);
  }

  method HandleExisting(c: Connection, seg: Segment, now: Time) returns (o: Outcome)
    ensures o == OnSegment(c, seg, now)
  {
    if c.state == Established && !Has(seg.flags, RST) {
      o := HandleEstablished(c, seg, now);
    } else {
      o := OnSegment(c, seg, now);
    }
  }

  method HandleShutdownWrite(c: Connection, now: Time) returns (o: Outcome)
    ensures o == OnShutdownWrite(c, now)
  {
    hide DrainTx, SendFin, Unsent;
    if c.state != Established && c.state != CloseWait {
      return Keep(c, []);
    }
    var snd := DrainRing(c.snd.(finPending := true));
    var d := c.(snd := snd);
    if Unsent(snd) == 0 {
      return SendFin(d, now);
    }
    return Keep(d, []);
  }

  method TransmitPhase(c: Connection, now: Time) returns (o: Outcome)
    ensures o == Transmit(c, now) && o.Keep?
  {
    hide DrainTx, SendAll, Frames, PersistTimer, Unsent;
    var drained := DrainRing(c.snd);
    var sent, frames := SendLoop(c, drained, now);
    var d := c.(snd := PersistTimer(sent, now), keepalive := ArmKeepalive(c, now));
    if d.snd.finPending && Unsent(d.snd) == 0 && d.snd.tx.Pending() == 0 {
      var fin := SendFin(d, now);
      return Keep(fin.conn, frames + fin.out);
    }
    return Keep(d, frames);
  }

  method TickConnection(c: Connection, now: Time, maxRetries: nat) returns (o: Outcome)
    ensures o == OnTick(c, now, maxRetries)
  {
    hide Transmit, OnRtoFired, OnPersistFired, OnKeepaliveFired;
    if Expired(c, now) {
      return Drop(c.handle.(state := Closed, eof := true), []);
    }
    if RtoFires(c, now) {
      return OnRtoFired(c, now, maxRetries);
    }
    if PersistFires(c, now) {
      return OnPersistFired(c, now);
    }
    if KeepaliveFires(c, now) {
      return OnKeepaliveFired(c, now);
    }
    var (d, acks) := FireDelayedAck(c, now);
    if d.state != Established && d.state != CloseWait {
      return Keep(d, acks);
    }
    var sent := TransmitPhase(d, now);
    return Keep(sent.conn, acks + sent.out);
  }

  // ---------------------------------------------------------------- deadlines

  function Armed(d: Deadline): set<Time> { if d.Some? then {d.value} else {} }

  /** Every deadline a connection has armed. */
  function Deadlines(c: Connection): set<Time> {
    Armed(c.snd.rto) + Armed(c.snd.persist) + Armed(c.keepalive.deadline) + Armed(c.timeWait) + Armed(c.finWait2) +
    Armed(c.rcv.delayedAck)
  }

  method Earlier(a: Deadline, b: Deadline) returns (d: Deadline)
    ensures Armed(d) <= Armed(a) + Armed(b)
    ensures d.None? <==> a.None? && b.None?
    ensures forall t :: t in Armed(a) + Armed(b) ==> d.Some? && d.value <= t
  {
    if a.None? || (b.Some? && b.value < a.value) {
      d := b;
    } else {
      d := a;
    }
  }

  // The earliest of a deadline and all those of a connection.
  method EarliestOf(c: Connection, was: Deadline) returns (d: Deadline)
    ensures Armed(d) <= Armed(was) + Deadlines(c)
    ensures forall t :: t in Armed(was) + Deadlines(c) ==> d.Some? && d.value <= t
  {
    d := Earlier(was, c.snd.rto);
    d := Earlier(d, c.snd.persist);
    d := Earlier(d, c.keepalive.deadline);
    d := Earlier(d, c.timeWait);
    d := Earlier(d, c.finWait2);
    d := Earlier(d, c.rcv.delayedAck);
  }

  /** Before its first deadline a connection only transmits. */
  lemma QuietBeforeFirstDeadline(c: Connection, now: Time, maxRetries: nat)
    requires forall t :: t in Deadlines(c) ==> now < t
    ensures OnTick(c, now, maxRetries) ==
            if c.state == Established || c.state == CloseWait then Transmit(c, now) else Keep(c, [])
  {
    hide Transmit, Due, Deadlines;
    NotDue(c, c.snd.rto, now);
    NotDue(c, c.snd.persist, now);
    NotDue(c, c.keepalive.deadline, now);
    NotDue(c, c.timeWait, now);
    NotDue(c, c.finWait2, now);
    NotDue(c, c.rcv.delayedAck, now);
    assert Transmit(c, now).Keep? by {
      TransmitKeeps(c, now);
    }
    assert [] + Transmit(c, now).out == Transmit(c, now).out;
  }

  lemma NotDue(c: Connection, d: Deadline, now: Time)
    requires d in [c.snd.rto, c.snd.persist, c.keepalive.deadline, c.timeWait, c.finWait2, c.rcv.delayedAck]
    requires forall t :: t in Deadlines(c) ==> now < t
    ensures !Due(d, now)
  {
    assert d.Some? ==> d.value in Deadlines(c);
  }

  // ---------------------------------------------------------------- the engine object

  // The tick has served every connection outside todo.
  ghost predicate Served(cfg: Config, was: map<FourTuple, Connection>, todo: set<FourTuple>, now: Time,
                         tcbs: map<FourTuple, Connection>) {
    && (forall k :: k in tcbs <==> k in was && (k in todo || OnTick(was[k], now, cfg.maxRetries).Keep?))
    && (forall k :: k in tcbs ==> tcbs[k] == if k in todo then was[k] else OnTick(was[k], now, cfg.maxRetries).conn)
  }

  class TcpEngine {
    const config: Config
    var tcbs: map<FourTuple, Connection>
    var listeners: map<Addr, Listener>

    ghost function View(): State
      reads this
    {
      State(tcbs, listeners)
    }

    constructor (config: Config)
      ensures this.config == config
      ensures View() == State(map[], map[])
    {
      this.config := config;
      tcbs, listeners := map[], map[];
    }

    method CountHalfOpen(port: u16) returns (n: nat)
      ensures n == |HalfOpen(tcbs, port)|
    {
      var todo, found := tcbs.Keys, {};
      n := 0;
      while todo != {}
        invariant todo <= tcbs.Keys
        invariant found == HalfOpen(tcbs, port) - todo
        invariant n == |found|
        decreases todo
      {
        var k :| k in todo;
        if tcbs[k].state == SynReceived && tcbs[k].key.local.port == port {
          found := found + {k};
          n := n + 1;
        }
        todo := todo - {k};
      }
      assert found == HalfOpen(tcbs, port);
    }

    method HandleSyn(seg: Segment, iss: Seq, now: Time) returns (out: seq<Segment>)
      modifies `tcbs
      ensures (View(), Effects(out, [])) == OnSyn(config, old(View()), seg, iss, now)
    {
      hide Embryo, ResetFor, SynAckFor, HalfOpen;
      var l := ListenerFor(listeners, seg.dst);
      if l.None? {
        return [ResetFor(seg)];
      }
      var halfOpen := CountHalfOpen(seg.dst.port);
      if halfOpen + |listeners[l.value].completed| >= listeners[l.value].backlog || |tcbs| >= config.maxTcbs {
        return [ResetFor(seg)];
      }
      var c := Embryo(config, seg, iss, now);
      tcbs := tcbs[c.key := c];
      return [SynAckFor(c)];
    }

    method OnSegment(seg: Segment, iss: Seq, now: Time) returns (out: seq<Segment>, answers: seq<Answer>)
      modifies this
      ensures (View(), Effects(out, answers)) == Received(config, old(View()), seg, iss, now)
    {
      hide Tcb.OnSegment, OnSyn, Completed, Has;
      var key := FourTuple(seg.dst, seg.src);
      out, answers := [], [];
      if key in tcbs {
        var c := tcbs[key];
        var o := HandleExisting(c, seg, now);
        tcbs := if o.Keep? then tcbs[key := o.conn] else tcbs - {key};
        out := o.out;
        if CompletesPassiveOpen(c, seg) {
          var (ls, delivered) := Completed(listeners, key);
          listeners, answers := ls, delivered;
        }
      } else if Has(seg.flags, SYN) && !Has(seg.flags, ACK) && !Has(seg.flags, RST) {
        out := HandleSyn(seg, iss, now);
      }
    }

    method OnCommand(cmd: Command, now: Time) returns (out: seq<Segment>, answers: seq<Answer>)
      modifies this
      ensures (View(), Effects(out, answers)) == Commanded(config, old(View()), cmd, now)
    {
      hide OnShutdownWrite, Tcb.OnTick, Tcb.OnSegment, OnAbort, OnSetOption, Opened, SynFor, OnAccept;
      out, answers := [], [];
      match cmd {
        case Connect(local, remote, iss) =>
          if |tcbs| < config.maxTcbs {
            var c := Opened(config, FourTuple(local, remote), iss, now);
            tcbs := tcbs[c.key := c];
            out := [SynFor(c)];
          }
        case OpenListener(addr, backlog) =>
          listeners := listeners[addr := Listener(if backlog == 0 then config.defaultBacklog else backlog, [], [])];
        case AcceptOn(addr, ticket) =>
          var (ls, given) := OnAccept(listeners, addr, ticket);
          listeners, answers := ls, given;
        case OnConnection(key, event) =>
          if key in tcbs {
            var o;
            if event == ShutdownWrite {
              o := HandleShutdownWrite(tcbs[key], now);
            } else {
              o := Step(tcbs[key], event, now, config.maxRetries);
            }
            tcbs := if o.Keep? then tcbs[key := o.conn] else tcbs - {key};
            out := o.out;
          }
      }
    }

    // The first pass of a tick: connections whose waiting state has run out.
    method ExpireWaiting(now: Time)
      modifies `tcbs
      ensures tcbs == map k | k in old(tcbs) && !Expired(old(tcbs)[k], now) :: old(tcbs)[k]
    {
      var todo, expired := tcbs.Keys, {};
      while todo != {}
        invariant todo <= tcbs.Keys
        invariant tcbs == old(tcbs)
        invariant forall k :: k in expired <==> k in tcbs && k !in todo && Expired(tcbs[k], now)
        decreases todo
      {
        var k :| k in todo;
        if Expired(tcbs[k], now) {
          expired := expired + {k};
        }
        todo := todo - {k};
      }
      tcbs := tcbs - expired;
    }

    /** Connections are served in an arbitrary order. */
    method OnTick(now: Time) returns (out: seq<Segment>, ghost order: seq<FourTuple>)
      modifies `tcbs
      ensures tcbs == Ticked(config, old(tcbs), now)
      ensures Enumerates(order, set k | k in old(tcbs) && !Expired(old(tcbs)[k], now))
      ensures out == TickFrames(config, old(tcbs), order, now)
    {
      hide Tcb.OnTick, Expired, Served;
      ExpireWaiting(now);
      ghost var was := tcbs;
      var todo := tcbs.Keys;
      ServedNone(config, was, now);
      out, order := [], [];
      while todo != {}
        invariant todo <= was.Keys
        invariant Served(config, was, todo, now, tcbs)
        invariant |order| + |todo| == |was.Keys|
        invariant forall i :: 0 <= i < |order| ==> order[i] in was && order[i] !in todo
        invariant forall i, j :: 0 <= i < j < |order| ==> order[i] != order[j]
        invariant out == TickFrames(config, was, order, now)
        decreases todo
      {
        var k :| k in todo;
        ServedOne(config, was, todo, now, tcbs, k);
        var o := TickConnection(tcbs[k], now, config.maxRetries);
        tcbs := if o.Keep? then tcbs[k := o.conn] else tcbs - {k};
        assert (order + [k])[..|order|] == order;
        out, order := out + o.out, order + [k];
        todo := todo - {k};
      }
      ServedAll(config, old(tcbs), was, now, tcbs);
      SameFrames(config, old(tcbs), was, order, now);
      assert was.Keys == set k | k in old(tcbs) && !Expired(old(tcbs)[k], now);
    }

    method NextTimerDeadline() returns (d: Deadline)
      ensures d.None? <==> forall k :: k in tcbs ==> Deadlines(tcbs[k]) == {}
      ensures d.Some? ==> exists k :: k in tcbs && d.value in Deadlines(tcbs[k])
      ensures forall k, t :: k in tcbs && t in Deadlines(tcbs[k]) ==> d.Some? && d.value <= t
    {
      hide Deadlines;
      d := None;
      var todo := tcbs.Keys;
      while todo != {}
        invariant todo <= tcbs.Keys
        invariant d.Some? ==> exists k :: k in tcbs && d.value in Deadlines(tcbs[k])
        invariant forall k, t :: k in tcbs && k !in todo && t in Deadlines(tcbs[k]) ==> d.Some? && d.value <= t
        decreases todo
      {
        var k :| k in todo;
        ghost var was := d;
        d := EarliestOf(tcbs[k], d);
        assert d.Some? ==> d.value in Armed(was) + Deadlines(tcbs[k]);
        todo := todo - {k};
      }
    }
  }

  lemma ServedNone(cfg: Config, was: map<FourTuple, Connection>, now: Time)
    ensures Served(cfg, was, was.Keys, now, was)
  {
    hide OnTick;
  }

  lemma ServedOne(cfg: Config, was: map<FourTuple, Connection>, todo: set<FourTuple>, now: Time,
                  tcbs: map<FourTuple, Connection>, k: FourTuple)
    requires Served(cfg, was, todo, now, tcbs) && k in todo && k in was
    ensures k in tcbs && tcbs[k] == was[k]
    ensures var o := OnTick(was[k], now, cfg.maxRetries);
            Served(cfg, was, todo - {k}, now, if o.Keep? then tcbs[k := o.conn] else tcbs - {k})
  {
    hide OnTick;
  }

  lemma ServedAll(cfg: Config, before: map<FourTuple, Connection>, was: map<FourTuple, Connection>, now: Time,
                  tcbs: map<FourTuple, Connection>)
    requires was == map k | k in before && !Expired(before[k], now) :: before[k]
    requires Served(cfg, was, {}, now, tcbs)
    ensures tcbs == Ticked(cfg, before, now)
  {
    hide RtoFires, PersistFires, KeepaliveFires, OnRtoFired, OnPersistFired, OnKeepaliveFired, FireDelayedAck,
      Transmit, Expired;
  }

  lemma {:induction false} SameFrames(cfg: Config, before: map<FourTuple, Connection>, was: map<FourTuple, Connection>,
                                      order: seq<FourTuple>, now: Time)
    requires forall k :: k in was ==> k in before && before[k] == was[k]
    requires forall i :: 0 <= i < |order| ==> order[i] in was
    ensures TickFrames(cfg, before, order, now) == TickFrames(cfg, was, order, now)
  {
    hide OnTick;
    if order != [] {
      SameFrames(cfg, before, was, order[..|order| - 1], now);
    }
  }
}
