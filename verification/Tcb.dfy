/** Connections, segments and the per-connection state of the engine. */
module Tcb {
  import opened Types
  import opened SeqNum
  import opened ByteRing
  import opened Congestion

  // ---------------------------------------------------------------- segments

  const FIN: u8 := 0x01
  const SYN: u8 := 0x02
  const RST: u8 := 0x04
  const ACK: u8 := 0x10

  // Test of a single flag bit.
  predicate Has(flags: u8, bit: u8)
    requires bit >= 1
  {
    (flags / bit) % 2 == 1
  }

  datatype Addr = Addr(ip: u32, port: u16)

  datatype FourTuple = FourTuple(local: Addr, remote: Addr)

  datatype TcpOptions = TcpOptions(
    mss: Option<u16>,
    windowScale: Option<u8>,
    sackPermitted: bool,
    timestamps: Option<(u32, u32)>,
    sackBlocks: seq<(u32, u32)>)

  const NO_OPTIONS := TcpOptions(None, None, false, None, [])

  datatype Segment = Segment(
    src: Addr,
    dst: Addr,
    seqNo: Seq,
    ackNo: Seq,
    flags: u8,
    window: u16,
    options: TcpOptions,
    payload: seq<u8>)

  // ---------------------------------------------------------------- connection state

  datatype TcpState =
    | Closed | Listen | SynSent | SynReceived | Established
    | FinWait1 | FinWait2 | CloseWait | Closing | LastAck | TimeWait

  datatype TcpError = ConnectionRefused | ConnectionReset | ConnectionAborted | TimedOut

  // The connection has sent its FIN.
  predicate SentFin(s: TcpState) { s == FinWait1 || s == FinWait2 || s == Closing || s == LastAck || s == TimeWait }

  // The connection has taken its peer's FIN.
  predicate TookFin(s: TcpState) { s == CloseWait || s == LastAck || s == Closing || s == TimeWait }

  predicate Synchronized(s: TcpState) { s == Established || SentFin(s) || TookFin(s) }

  // Instants and durations in nanoseconds; None is a disarmed timer.
  type Time = nat
  type Deadline = Option<Time>

  predicate Due(d: Deadline, now: Time) { d.Some? && now >= d.value }

  const TIME_WAIT_DURATION: Time := 120 * SECOND
  const FIN_WAIT2_TIMEOUT: Time := 60 * SECOND
  const DELAYED_ACK_TIMEOUT: Time := 200 * MILLISECOND
  const DEFAULT_PEER_MSS: u16 := 536

  // A sent segment awaiting acknowledgment, located by its offset in the send buffer.
  datatype RetransmitEntry = RetransmitEntry(seqNo: Seq, offset: nat, len: nat)

  datatype Sender = Sender(
    iss: Seq,
    una: Seq,
    nxt: Seq,
    wnd: u32,
    wl1: Seq,
    wl2: Seq,
    scale: u8,
    localMss: u16,
    peerMss: u16,
    cong: Cong,
    buf: seq<u8>,
    queue: seq<RetransmitEntry>,
    nodelay: bool,
    hasUnacked: bool,
    finPending: bool,
    rto: Deadline,
    retries: nat,
    persist: Deadline,
    persistBackoff: Time,
    tx: Ring)

  datatype Receiver = Receiver(
    irs: Seq,
    nxt: Seq,
    wnd: u32,
    scale: u8,
    bufSize: nat,
    reorder: map<u32, seq<u8>>,
    sinceAck: nat,
    delayedAck: Deadline,
    rx: Ring)

  datatype KeepaliveConfig = KeepaliveConfig(idle: Time, interval: Time, count: nat)

  datatype Keepalive = Keepalive(config: Option<KeepaliveConfig>, deadline: Deadline, probes: nat)

  // The flags the application sees.
  datatype Handle = Handle(state: TcpState, eof: bool, error: Option<TcpError>)

  datatype Connection = Connection(
    key: FourTuple,
    state: TcpState,
    snd: Sender,
    rcv: Receiver,
    keepalive: Keepalive,
    timeWait: Deadline,
    finWait2: Deadline,
    handle: Handle)

  /** What a step does to a connection. */
  datatype Outcome =
    | Keep(conn: Connection, out: seq<Segment>)
    | Drop(last: Handle, out: seq<Segment>)

  function LatchError(h: Handle, e: TcpError): Handle { if h.error.None? then h.(error := Some(e)) else h }

  function Enter(c: Connection, s: TcpState): Connection { c.(state := s, handle := c.handle.(state := s)) }

  function Eof(c: Connection): Connection { c.(handle := c.handle.(eof := true)) }

  // ---------------------------------------------------------------- windows

  function ShiftLeft(w: u32, shift: u8): u32 { (w * Pow2(shift % 32)) % TWO32 }

  function ShiftRight(w: u32, shift: u8): u32
  {
    DivideBound(w, Pow2(shift % 32));
    w / Pow2(shift % 32)
  }

  function SendMss(s: Sender): u16 { Min(s.localMss, s.peerMss) }

  function FlightSize(s: Sender): u32 { Diff(s.nxt, s.una) }

  function AvailableWindow(s: Sender): u32 {
    SaturatingSub(EffectiveWindow(s.cong, s.wnd), FlightSize(s))
  }

  predicate NagleShouldSend(s: Sender, pending: nat) {
    s.nodelay || !s.hasUnacked || pending >= SendMss(s)
  }

  // Offset in the send buffer of the first byte not yet sent.
  function SentOffset(s: Sender): nat {
    if s.queue == [] then 0 else s.queue[|s.queue| - 1].offset + s.queue[|s.queue| - 1].len
  }

  function Unsent(s: Sender): nat { SaturatingSub(|s.buf|, SentOffset(s)) }

  // Receiver-side silly window avoidance, then scaling.
  function AdvertisedWindow(r: Receiver, mss: u16): u16 {
    var available := r.rx.Free() % TWO32;
    var threshold := Min(mss, (r.bufSize % TWO32) / 2);
    var wnd := if available < threshold then 0 else Min(available, r.wnd);
    Min(ShiftRight(wnd, r.scale), 0xFFFF)
  }

  function HandshakeWindow(wnd: u32): u16 { Min(wnd, 0xFFFF) }

  predicate InWindow(s: Seq, nxt: Seq, wnd: u32) {
    if wnd == 0 then s == nxt
    else s == nxt || (Gt(s, nxt) && Gt(Add(nxt, wnd), s))
  }

  // ---------------------------------------------------------------- outbound segments

  function Emit(c: Connection, seqNo: Seq, flags: u8, payload: seq<u8>): Segment {
    Segment(c.key.local, c.key.remote, seqNo, c.rcv.nxt, flags,
            AdvertisedWindow(c.rcv, SendMss(c.snd)), NO_OPTIONS, payload)
  }

  function PlainAck(c: Connection): Segment { Emit(c, c.snd.nxt, ACK, []) }

  // ---------------------------------------------------------------- acknowledgments

  predicate Acceptable(s: Sender, ackNo: Seq) { Gt(ackNo, s.una) && Le(ackNo, s.nxt) }

  // Entries whose last byte lies beyond the acknowledged point.
  function Retained(q: seq<RetransmitEntry>, una: Seq): (r: seq<RetransmitEntry>)
    ensures |r| <= |q|
  {
    if q == [] then []
    else
      var rest := Retained(q[1..], una);
      if Gt(Add(q[0].seqNo, q[0].len % TWO32), una) then [q[0]] + rest else rest
  }

  function Rebased(q: seq<RetransmitEntry>, n: nat): (r: seq<RetransmitEntry>)
    ensures |r| == |q|
    ensures forall i :: 0 <= i < |q| ==> r[i] == q[i].(offset := SaturatingSub(q[i].offset, n))
  {
    if q == [] then [] else [q[0].(offset := SaturatingSub(q[0].offset, n))] + Rebased(q[1..], n)
  }

  /** A cumulative acknowledgment in ESTABLISHED. */
  function Acknowledge(s: Sender, ackNo: Seq): Sender {
    if !Acceptable(s, ackNo) then s
    else
      var acked := Diff(ackNo, s.una);
      var n := Min(acked, |s.buf|);
      s.(una := ackNo,
         queue := Rebased(Retained(s.queue, ackNo), n),
         buf := s.buf[n..],
         hasUnacked := s.hasUnacked && ackNo != s.nxt,
         cong := AfterAck(s.cong, SendMss(s)))
  }

  /** A cumulative acknowledgment in FIN_WAIT_1 and CLOSE_WAIT: the send
      buffer is not drained. */
  function AcknowledgeOnly(s: Sender, ackNo: Seq): Sender {
    if !Acceptable(s, ackNo) then s
    else s.(una := ackNo, queue := Retained(s.queue, ackNo), cong := AfterAck(s.cong, SendMss(s)))
  }

  predicate WindowUpdateApplies(s: Sender, seg: Segment) {
    || Gt(seg.seqNo, s.wl1)
    || (seg.seqNo == s.wl1 && Le(seg.ackNo, s.nxt) && Gt(seg.ackNo, s.wl2))
    || seg.ackNo == s.wl2
  }

  function UpdateWindow(s: Sender, seg: Segment): Sender {
    if WindowUpdateApplies(s, seg)
    then s.(wnd := ShiftLeft(seg.window, s.scale), wl1 := seg.seqNo, wl2 := seg.ackNo)
    else s
  }

  // ---------------------------------------------------------------- delivery

  // Every key moves down by n; a key below n wraps around.
  function Rekeyed(m: map<u32, seq<u8>>, n: u32): map<u32, seq<u8>> {
    map k: u32 | k in (set j: u32 | j in m :: Diff(j, n)) && Add(k, n) in m :: m[Add(k, n)]
  }

  // Hand a payload to the application and advance past what the ring took.
  function Accept(r: Receiver, data: seq<u8>): Receiver {
    r.(rx := r.rx.Put(data), nxt := Add(r.nxt, r.rx.Accepted(data) % TWO32))
  }

  // Deliver the buffered segment that is next in order and re-key the others.
  function DrainOne(r: Receiver): Receiver
    requires 0 in r.reorder
  {
    var data := r.reorder[0];
    var w := r.rx.Accepted(data) % TWO32;
    var rest := r.reorder - {0};
    Accept(r.(reorder := if w > 0 then Rekeyed(rest, w) else rest), data)
  }

  lemma DrainOneShrinks(r: Receiver)
    requires 0 in r.reorder
    ensures |DrainOne(r).reorder| < |r.reorder|
  {
    var w := r.rx.Accepted(r.reorder[0]) % TWO32;
    RemoveShrinks(r.reorder, 0);
    RekeyedSize(r.reorder - {0}, w);
  }

  function Drained(r: Receiver): (res: (Receiver, nat))
    decreases |r.reorder|
  {
    if 0 !in r.reorder then (r, 0)
    else
      DrainOneShrinks(r);
      var (end, count) := Drained(DrainOne(r));
      (end, count + 1)
  }

  lemma RemoveShrinks(m: map<u32, seq<u8>>, k: u32)
    requires k in m
    ensures |m - {k}| < |m|
  {
    assert (m - {k}).Keys == m.Keys - {k};
    assert |(m - {k}).Keys| < |m.Keys|;
  }

  lemma RekeyInverse(k: u32, n: u32)
    ensures Add(Diff(k, n), n) == k && Diff(Add(k, n), n) == k
  {
  }

  lemma RekeyedDown(m: map<u32, seq<u8>>, n: u32, k: u32)
    requires k in m
    ensures Diff(k, n) in Rekeyed(m, n)
  {
    RekeyInverse(k, n);
  }

  lemma RekeyedUp(m: map<u32, seq<u8>>, n: u32, k: u32)
    requires k in Rekeyed(m, n)
    ensures Add(k, n) in m && Rekeyed(m, n)[k] == m[Add(k, n)]
  {
  }

  lemma RekeyedSize(m: map<u32, seq<u8>>, n: u32)
    ensures |Rekeyed(m, n)| <= |m|
  {
    var image := set j: u32 | j in m :: Diff(j, n);
    assert Rekeyed(m, n).Keys <= image;
    ImageSize(m.Keys, n);
    SubsetSize(Rekeyed(m, n).Keys, image);
  }

  lemma SubsetSize<T>(a: set<T>, b: set<T>)
    requires a <= b
    ensures |a| <= |b|
  {
    assert b == a + (b - a);
  }

  lemma {:induction false} ImageSize(keys: set<u32>, n: u32)
    ensures |set j: u32 | j in keys :: Diff(j, n)| <= |keys|
    decreases |keys|
  {
    if keys != {} {
      var k :| k in keys;
      ImageSize(keys - {k}, n);
      var smaller := set j: u32 | j in keys - {k} :: Diff(j, n);
      assert (set j: u32 | j in keys :: Diff(j, n)) == smaller + {Diff(k, n)};
    }
  }

  /** Data received in ESTABLISHED: deliver, buffer or drop, and decide
      whether an acknowledgment leaves now. */
  function Receive(r: Receiver, seg: Segment, now: Time): (res: (Receiver, bool)) {
    if seg.payload == [] then (r, false)
    else if seg.seqNo == r.nxt then
      var written := r.rx.Accepted(seg.payload) % TWO32;
      var (drained, count) := Drained(Accept(r.(reorder := Rekeyed(r.reorder, written)), seg.payload));
      if r.sinceAck + 1 + count >= 2 then (drained.(sinceAck := 0, delayedAck := None), true)
      else
        (drained.(sinceAck := r.sinceAck + 1 + count,
                  delayedAck := if r.delayedAck.None? then Some(now + DELAYED_ACK_TIMEOUT) else r.delayedAck), false)
    else if Gt(seg.seqNo, r.nxt) then
      (r.(reorder := r.reorder[Diff(seg.seqNo, r.nxt) := seg.payload], sinceAck := 0, delayedAck := None), true)
    else (r, false)
  }

  function TouchKeepalive(k: Keepalive, now: Time): Keepalive {
    k.(probes := 0, deadline := if k.config.Some? then Some(now + k.config.value.idle) else k.deadline)
  }

  // Sequence number of a FIN carried behind this segment's payload.
  function FinSeq(seg: Segment): Seq { Add(seg.seqNo, |seg.payload| % TWO32) }

  // The segment carries a FIN that is next in order.
  predicate FinInOrder(r: Receiver, seg: Segment) { Has(seg.flags, FIN) && FinSeq(seg) == r.nxt }

  // Consume the peer's FIN and move to a state.
  function TakeFin(c: Connection, s: TcpState): Connection {
    Enter(Eof(c.(rcv := c.rcv.(nxt := Add(c.rcv.nxt, 1)))), s)
  }

  function OnEstablished(c: Connection, seg: Segment, now: Time): Outcome {
    var snd := if Has(seg.flags, ACK) then UpdateWindow(Acknowledge(c.snd, seg.ackNo), seg) else c.snd;
    var (rcv, ackNow) := Receive(c.rcv, seg, now);
    var keepalive := if seg.payload == [] then c.keepalive else TouchKeepalive(c.keepalive, now);
    var d := c.(snd := snd, rcv := rcv, keepalive := keepalive);
    if FinInOrder(d.rcv, seg) then
      var e := TakeFin(d.(rcv := d.rcv.(sinceAck := 0, delayedAck := None)), CloseWait);
      Keep(e, [PlainAck(e)])
    else
      Keep(d, if ackNow then [PlainAck(d)] else [])
  }

  // ---------------------------------------------------------------- teardown

  // Payload handling of the FIN_WAIT states: in order or nothing.
  function AcceptInOrder(r: Receiver, seg: Segment): Receiver {
    if seg.payload != [] && seg.seqNo == r.nxt then Accept(r, seg.payload) else r
  }

  predicate AcksEverything(s: Sender, seg: Segment) { Has(seg.flags, ACK) && seg.ackNo == s.nxt }

  function OnFinWait1(c: Connection, seg: Segment, now: Time): Outcome {
    var snd := if Has(seg.flags, ACK) then AcknowledgeOnly(c.snd, seg.ackNo) else c.snd;
    var d := c.(snd := snd, rcv := AcceptInOrder(c.rcv, seg));
    if AcksEverything(c.snd, seg) && FinInOrder(d.rcv, seg) then
      var e := TakeFin(d, TimeWait).(timeWait := Some(now + TIME_WAIT_DURATION));
      Keep(e, [PlainAck(e)])
    else if AcksEverything(c.snd, seg) then
      Keep(Enter(d, FinWait2).(finWait2 := Some(now + FIN_WAIT2_TIMEOUT), snd := d.snd.(rto := None)), [])
    else if FinInOrder(d.rcv, seg) then
      var e := TakeFin(d, Closing);
      Keep(e, [PlainAck(e)])
    else Keep(d, [])
  }

  function OnFinWait2(c: Connection, seg: Segment, now: Time): Outcome {
    var d := c.(rcv := AcceptInOrder(c.rcv, seg));
    if FinInOrder(d.rcv, seg) then
      var e := TakeFin(d, TimeWait).(timeWait := Some(now + TIME_WAIT_DURATION), finWait2 := None);
      Keep(e, [PlainAck(e)])
    else
      Keep(d, if seg.payload != [] && seg.seqNo == c.rcv.nxt then [PlainAck(d)] else [])
  }

  function OnCloseWait(c: Connection, seg: Segment): Outcome {
    Keep(if Has(seg.flags, ACK) then c.(snd := AcknowledgeOnly(c.snd, seg.ackNo)) else c, [])
  }

  function OnLastAck(c: Connection, seg: Segment): Outcome {
    if AcksEverything(c.snd, seg) then Drop(c.handle.(state := Closed), []) else Keep(c, [])
  }

  function OnClosing(c: Connection, seg: Segment, now: Time): Outcome {
    if AcksEverything(c.snd, seg) then
      Keep(Enter(c, TimeWait).(timeWait := Some(now + TIME_WAIT_DURATION), snd := c.snd.(rto := None)), [])
    else Keep(c, [])
  }

  function OnTimeWait(c: Connection, seg: Segment, now: Time): Outcome {
    if Has(seg.flags, FIN) then
      Keep(c.(timeWait := Some(now + TIME_WAIT_DURATION)), [PlainAck(c)])
    else Keep(c, [])
  }

  // ---------------------------------------------------------------- handshake

  function OfferedMss(o: TcpOptions): u16 { if o.mss.Some? then o.mss.value else DEFAULT_PEER_MSS }

  function OfferedScale(o: TcpOptions): u8 { if o.windowScale.Some? then o.windowScale.value else 0 }

  function OnSynSent(c: Connection, seg: Segment): Outcome {
    if Has(seg.flags, SYN) && Has(seg.flags, ACK) && seg.ackNo == Add(c.snd.iss, 1) then
      var mss, scale := OfferedMss(seg.options), OfferedScale(seg.options);
      var snd := c.snd.(una := seg.ackNo, rto := None, peerMss := mss, scale := scale,
                        wnd := ShiftLeft(seg.window, scale), cong := New(Min(c.snd.localMss, mss)));
      var d := Enter(c.(snd := snd, rcv := c.rcv.(irs := seg.seqNo, nxt := Add(seg.seqNo, 1))), Established);
      Keep(d, [Emit(d, d.snd.nxt, ACK, []).(window := HandshakeWindow(d.rcv.wnd))])
    else Keep(c, [])
  }

  // An acknowledgment completes a passive open.
  predicate CompletesPassiveOpen(c: Connection, seg: Segment) {
    c.state == SynReceived && Has(seg.flags, ACK) && !Has(seg.flags, SYN) && !Has(seg.flags, RST) &&
    seg.ackNo == Add(c.snd.iss, 1)
  }

  function OnSynReceived(c: Connection, seg: Segment): Outcome {
    if Has(seg.flags, ACK) && !Has(seg.flags, SYN) && seg.ackNo == Add(c.snd.iss, 1) then
      Keep(Enter(c.(snd := c.snd.(una := seg.ackNo, rto := None)), Established), [])
    else Keep(c, [])
  }

  // ---------------------------------------------------------------- resets

  function OnReset(c: Connection, seg: Segment): Outcome {
    match c.state
    case Closed => Keep(c, [])
    case Listen => Keep(c, [])
    case SynSent =>
      if Has(seg.flags, ACK) && seg.ackNo == Add(c.snd.iss, 1)
      then Drop(LatchError(c.handle, ConnectionRefused).(state := Closed), [])
      else Keep(c, [])
    case SynReceived =>
      if seg.seqNo == c.rcv.nxt then Drop(LatchError(c.handle, ConnectionReset).(state := Closed), [])
      else Keep(c, [])
    case _ =>
      // section 3.2 of RFC 5961
      if seg.seqNo == c.rcv.nxt then
        Drop(LatchError(c.handle, ConnectionReset).(state := Closed, eof := true), [])
      else if InWindow(seg.seqNo, c.rcv.nxt, c.rcv.wnd) then Keep(c, [PlainAck(c)])
      else Keep(c, [])
  }

  /** An inbound segment for an existing connection. */
  function OnSegment(c: Connection, seg: Segment, now: Time): Outcome {
    if Has(seg.flags, RST) then OnReset(c, seg)
    else
      match c.state
      case SynSent => OnSynSent(c, seg)
      case SynReceived => OnSynReceived(c, seg)
      case Established => OnEstablished(c, seg, now)
      case FinWait1 => OnFinWait1(c, seg, now)
      case FinWait2 => OnFinWait2(c, seg, now)
      case CloseWait => OnCloseWait(c, seg)
      case LastAck => OnLastAck(c, seg)
      case Closing => OnClosing(c, seg, now)
      case TimeWait => OnTimeWait(c, seg, now)
      case Closed => Keep(c, [])
      case Listen => Keep(c, [])
  }

  // ---------------------------------------------------------------- sending

  // Move everything the application wrote into the send buffer.
  function DrainTx(s: Sender): Sender {
    s.(buf := s.buf + s.tx.stream[Min(s.tx.taken, |s.tx.stream|)..],
       tx := s.tx.(taken := Max(s.tx.taken, |s.tx.stream|)))
  }

  function NextLen(s: Sender): nat { Min(Min(Unsent(s), SendMss(s)), AvailableWindow(s)) }

  predicate CanSend(s: Sender) {
    AvailableWindow(s) != 0 && s.buf != [] && Unsent(s) != 0 && NagleShouldSend(s, Unsent(s)) && NextLen(s) != 0
  }

  function NextPayload(s: Sender): seq<u8>
    requires CanSend(s)
  {
    s.buf[SentOffset(s)..SentOffset(s) + NextLen(s)]
  }

  function SendNext(s: Sender, now: Time): Sender
    requires CanSend(s)
  {
    var len := NextLen(s);
    s.(nxt := Add(s.nxt, len % TWO32), hasUnacked := true,
       queue := s.queue + [RetransmitEntry(s.nxt, SentOffset(s), len)],
       rto := if s.rto.None? then Some(now + s.cong.rto) else s.rto)
  }

  /** The transmit loop: segments leave while the window, Nagle and the
      buffer allow. The result lists each segment's number and payload. */
  function SendAll(s: Sender, now: Time): (res: (Sender, seq<(Seq, seq<u8>)>))
    decreases Unsent(s)
  {
    if !CanSend(s) then (s, [])
    else
      var (end, rest) := SendAll(SendNext(s, now), now);
      (end, [(s.nxt, NextPayload(s))] + rest)
  }

  function PersistTimer(s: Sender, now: Time): Sender {
    var armed :=
      if AvailableWindow(s) == 0 && |s.buf| > SentOffset(s) && s.persist.None?
      then s.(persistBackoff := s.cong.rto, persist := Some(now + s.cong.rto))
      else s;
    if AvailableWindow(armed) > 0 && armed.persist.Some?
    then armed.(persist := None, persistBackoff := SECOND)
    else armed
  }

  function SendFin(c: Connection, now: Time): Outcome {
    var d := c.(snd := c.snd.(finPending := false));
    if c.state != Established && c.state != CloseWait then Keep(d, [])
    else
      var snd := d.snd.(nxt := Add(d.snd.nxt, 1),
                        rto := if d.snd.rto.None? then Some(now + d.snd.cong.rto) else d.snd.rto);
      Keep(Enter(d.(snd := snd), if c.state == Established then FinWait1 else LastAck),
           [Emit(d, d.snd.nxt, FIN + ACK, [])])
  }

  // ---------------------------------------------------------------- timers

  predicate RtoFires(c: Connection, now: Time) { Due(c.snd.rto, now) && c.snd.queue != [] }

  predicate PersistFires(c: Connection, now: Time) { !RtoFires(c, now) && Due(c.snd.persist, now) }

  predicate KeepaliveFires(c: Connection, now: Time) {
    !RtoFires(c, now) && !PersistFires(c, now) && Due(c.keepalive.deadline, now) && c.keepalive.config.Some?
  }

  // The bytes of the oldest unacknowledged segment, as far as the buffer has them.
  function OldestPayload(s: Sender): seq<u8>
    requires s.queue != []
  {
    var e := s.queue[0];
    s.buf[Min(e.offset, |s.buf|)..Min(e.offset + e.len, |s.buf|)]
  }

  function OnRtoFired(c: Connection, now: Time, maxRetries: nat): Outcome
    requires c.snd.queue != []
  {
    var s := c.snd.(retries := c.snd.retries + 1);
    if s.retries > maxRetries then
      Drop(LatchError(c.handle, TimedOut).(state := Closed, eof := true), [])
    else
      var cong := AfterBackoff(AfterTimeout(s.cong, FlightSize(s), SendMss(s)));
      var d := c.(snd := s.(cong := cong, rto := Some(now + cong.rto)));
      var payload := OldestPayload(s);
      Keep(d, if payload == [] then [] else [Emit(d, s.queue[0].seqNo, ACK, payload)])
  }

  function OnPersistFired(c: Connection, now: Time): Outcome {
    var probe := Emit(c, Add(c.snd.una, FlightSize(c.snd)), ACK, [0]);
    var backoff := Min(c.snd.persistBackoff * 2, MAX_RTO);
    Keep(c.(snd := c.snd.(persistBackoff := backoff, persist := Some(now + backoff))), [probe])
  }

  function OnKeepaliveFired(c: Connection, now: Time): Outcome
    requires c.keepalive.config.Some?
  {
    var ka := c.keepalive.config.value;
    var k := c.keepalive.(probes := c.keepalive.probes + 1);
    if k.probes > ka.count then
      Drop(LatchError(c.handle, TimedOut).(state := Closed, eof := true), [])
    else
      Keep(c.(keepalive := k.(deadline := Some(now + ka.interval))), [Emit(c, Add(c.snd.una, U32_MAX), ACK, [])])
  }

  function Frames(c: Connection, sent: seq<(Seq, seq<u8>)>): (r: seq<Segment>)
    ensures |r| == |sent|
    ensures forall i :: 0 <= i < |sent| ==> r[i] == Emit(c, sent[i].0, ACK, sent[i].1)
  {
    if sent == [] then [] else [Emit(c, sent[0].0, ACK, sent[0].1)] + Frames(c, sent[1..])
  }

  function ArmKeepalive(c: Connection, now: Time): Keepalive {
    if c.state == Established && c.keepalive.config.Some? && c.keepalive.deadline.None?
    then c.keepalive.(deadline := Some(now + c.keepalive.config.value.idle))
    else c.keepalive
  }

  /** The transmit phase of a tick, in ESTABLISHED or CLOSE_WAIT. */
  function Transmit(c: Connection, now: Time): Outcome {
    var (sent, pieces) := SendAll(DrainTx(c.snd), now);
    var d := c.(snd := PersistTimer(sent, now), keepalive := ArmKeepalive(c, now));
    if d.snd.finPending && Unsent(d.snd) == 0 && d.snd.tx.Pending() == 0 then
      var fin := SendFin(d, now);
      Keep(fin.conn, Frames(c, pieces) + fin.out)
    else Keep(d, Frames(c, pieces))
  }

  lemma TransmitKeeps(c: Connection, now: Time)
    ensures Transmit(c, now).Keep?
  {
    hide SendAll, DrainTx, PersistTimer, Frames;
  }

  function FireDelayedAck(c: Connection, now: Time): (Connection, seq<Segment>) {
    if Due(c.rcv.delayedAck, now) then
      var d := c.(rcv := c.rcv.(delayedAck := None, sinceAck := 0));
      (d, [PlainAck(d)])
    else (c, [])
  }

  predicate Expired(c: Connection, now: Time) {
    || (c.state == TimeWait && Due(c.timeWait, now))
    || (c.state == FinWait2 && Due(c.finWait2, now))
  }

  /** One connection's share of a timer tick. */
  function OnTick(c: Connection, now: Time, maxRetries: nat): Outcome {
    if Expired(c, now) then Drop(c.handle.(state := Closed, eof := true), [])
    else if RtoFires(c, now) then OnRtoFired(c, now, maxRetries)
    else if PersistFires(c, now) then OnPersistFired(c, now)
    else if KeepaliveFires(c, now) then OnKeepaliveFired(c, now)
    else
      var (d, acks) := FireDelayedAck(c, now);
      if d.state != Established && d.state != CloseWait then Keep(d, acks)
      else
        var sent := Transmit(d, now);
        Keep(sent.conn, acks + sent.out)
  }

  // ---------------------------------------------------------------- commands

  datatype SocketOption =
    | Nodelay(on: bool)
    | SetKeepalive(config: Option<KeepaliveConfig>)
    | RecvBufSize(size: nat)

  function OnShutdownWrite(c: Connection, now: Time): Outcome {
    if c.state != Established && c.state != CloseWait then Keep(c, [])
    else
      var d := c.(snd := DrainTx(c.snd.(finPending := true)));
      if Unsent(d.snd) == 0 then SendFin(d, now) else Keep(d, [])
  }

  function OnShutdownRead(c: Connection): Outcome { Keep(Eof(c), []) }

  // Close with a zero linger time.
  function OnAbort(c: Connection): Outcome {
    Drop(LatchError(c.handle, ConnectionAborted).(state := Closed, eof := true),
         [Emit(c, c.snd.nxt, RST + ACK, []).(window := 0)])
  }

  function OnSetOption(c: Connection, o: SocketOption): Outcome {
    match o
    case Nodelay(on) => Keep(c.(snd := c.snd.(nodelay := on)), [])
    case SetKeepalive(config) =>
      Keep(c.(keepalive := if config.None? then Keepalive(None, None, 0) else c.keepalive.(config := config)), [])
    case RecvBufSize(size) =>
      Keep(c.(rcv := c.rcv.(bufSize := size, wnd := Min(c.rcv.wnd, size % TWO32))), [])
  }

  /** Everything that can happen to an existing connection. */
  datatype Event =
    | Inbound(seg: Segment)
    | Tick
    | ShutdownWrite
    | ShutdownRead
    | Abort
    | SetOption(option: SocketOption)
    | AppWrite(data: seq<u8>)
    | AppRead(max: nat)

  function Step(c: Connection, e: Event, now: Time, maxRetries: nat): Outcome {
    match e
    case Inbound(seg) => OnSegment(c, seg, now)
    case Tick => OnTick(c, now, maxRetries)
    case ShutdownWrite => OnShutdownWrite(c, now)
    case ShutdownRead => OnShutdownRead(c)
    case Abort => OnAbort(c)
    case SetOption(o) => OnSetOption(c, o)
    case AppWrite(data) => Keep(c.(snd := c.snd.(tx := c.snd.tx.Put(data))), [])
    case AppRead(max) => Keep(c.(rcv := c.rcv.(rx := c.rcv.rx.Take(max))), [])
  }

  // ---------------------------------------------------------------- creation

  function NewSender(iss: Seq, localMss: u16, tx: Ring): Sender {
    Sender(iss, iss, iss, 0, 0, 0, 0, localMss, DEFAULT_PEER_MSS, New(localMss), [], [], false, false, false,
           None, 0, None, SECOND, tx)
  }

  function NewReceiver(wnd: u32, scale: u8, rx: Ring): Receiver {
    Receiver(0, 0, wnd, scale, 65536, map[], 0, None, rx)
  }
}
