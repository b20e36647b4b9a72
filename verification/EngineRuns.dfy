/** What every run of the engine keeps, whatever segments, commands and ticks
    it is given. */
module EngineRuns {
  import opened SeqNum
  import opened Congestion
  import opened Tcb
  import opened SendStream
  import opened Lifecycle
  import opened Engine

  datatype Input =
    | Arrive(seg: Segment, iss: Seq)
    | Do(cmd: Command)
    | TickAll

  function Next(cfg: Config, s: State, i: Input, now: Time): (State, Effects) {
    match i
    case Arrive(seg, iss) => Received(cfg, s, seg, iss, now)
    case Do(cmd) => Commanded(cfg, s, cmd, now)
    case TickAll => (s.(tcbs := Ticked(cfg, s.tcbs, now)), QUIET)
  }

  datatype At = At(i: Input, now: Time)

  function Run(cfg: Config, inputs: seq<At>): State {
    if inputs == [] then State(map[], map[])
    else
      var last := |inputs| - 1;
      Next(cfg, Run(cfg, inputs[..last]), inputs[last].i, inputs[last].now).0
  }

  // Peers offer window scales of at most 14 (section 2.3 of RFC 7323).
  predicate ScaleInRange(i: Input) { i.Arrive? ==> ScaleLegal(Inbound(i.seg)) }

  // ---------------------------------------------------------------- one connection at a time

  lemma StepIdentity(c: Connection, e: Event, now: Time, maxRetries: nat)
    ensures var o := Step(c, e, now, maxRetries);
            o.Keep? ==> o.conn.key == c.key && (o.conn.state == SynReceived ==> c.state == SynReceived)
  {
    hide Acknowledge, AcknowledgeOnly, UpdateWindow, Receive, Accept, SendAll, DrainTx, AdvertisedWindow, Emit, Frames,
      AfterTimeout, AfterBackoff, OldestPayload, PersistTimer, FlightSize, SendMss, ShiftLeft, New, Has, Unsent, Add,
      Due,
      InWindow;
  }

  ghost predicate Good(k: FourTuple, c: Connection) { c.key == k && Healthy(c) }

  lemma StepGood(k: FourTuple, c: Connection, e: Event, now: Time, maxRetries: nat)
    requires Good(k, c) && ScaleLegal(e)
    ensures var o := Step(c, e, now, maxRetries);
            o.Keep? ==> Good(k, o.conn)
  {
    hide Step, Mirrored, AckPaced, SendSafe, Counts, Bounded;
    StepIdentity(c, e, now, maxRetries);
    StepMirrored(c, e, now, maxRetries);
    StepPaced(c, e, now, maxRetries);
    StepCounts(c, e, now, maxRetries);
    StepBounded(c, e, now, maxRetries);
    var a, n := StepSendSafe(c, e, now, maxRetries);
  }

  lemma OpenedGood(cfg: Config, key: FourTuple, iss: Seq, now: Time)
    ensures Good(key, Opened(cfg, key, iss, now))
  {
  }

  lemma EmbryoGood(cfg: Config, seg: Segment, iss: Seq, now: Time)
    requires ScaleLegal(Inbound(seg))
    ensures Good(FourTuple(seg.dst, seg.src), Embryo(cfg, seg, iss, now))
  {
    hide ShiftLeft;
    ShiftBound(seg.window, OfferedScale(seg.options));
  }

  // ---------------------------------------------------------------- connections

  /** Every stored connection is healthy under its own key, and there are at
      most maxTcbs. */
  ghost predicate Sound(cfg: Config, tcbs: map<FourTuple, Connection>) {
    |tcbs| <= cfg.maxTcbs && forall k :: k in tcbs ==> Good(k, tcbs[k])
  }

  lemma StoreSound(cfg: Config, s: State, k: FourTuple, o: Outcome)
    requires Sound(cfg, s.tcbs) && k in s.tcbs && (o.Keep? ==> Good(k, o.conn))
    ensures Sound(cfg, Store(s, k, o).tcbs)
  {
    hide Good;
    if o.Keep? {
      assert s.tcbs[k := o.conn].Keys == s.tcbs.Keys;
      SubsetSize(s.tcbs[k := o.conn].Keys, s.tcbs.Keys);
    } else {
      assert (s.tcbs - {k}).Keys == s.tcbs.Keys - {k};
      SubsetSize((s.tcbs - {k}).Keys, s.tcbs.Keys);
    }
  }

  lemma InsertSound(cfg: Config, tcbs: map<FourTuple, Connection>, k: FourTuple, c: Connection)
    requires Sound(cfg, tcbs) && |tcbs| < cfg.maxTcbs && Good(k, c)
    ensures Sound(cfg, tcbs[k := c])
  {
    hide Good;
    assert tcbs[k := c].Keys == tcbs.Keys + {k};
  }

  lemma TickSound(cfg: Config, tcbs: map<FourTuple, Connection>, now: Time)
    requires Sound(cfg, tcbs)
    ensures Sound(cfg, Ticked(cfg, tcbs, now))
  {
    hide Good, OnTick;
    var after := Ticked(cfg, tcbs, now);
    assert after.Keys <= tcbs.Keys;
    SubsetSize(after.Keys, tcbs.Keys);
    forall k | k in after
      ensures Good(k, after[k])
    {
      TickGood(k, tcbs[k], now, cfg.maxRetries);
    }
  }

  lemma TickGood(k: FourTuple, c: Connection, now: Time, maxRetries: nat)
    requires Good(k, c)
    ensures var o := OnTick(c, now, maxRetries);
            o.Keep? ==> Good(k, o.conn)
  {
    hide OnTick, Good;
    StepGood(k, c, Tick, now, maxRetries);
  }

  lemma NextSound(cfg: Config, s: State, i: Input, now: Time)
    requires Sound(cfg, s.tcbs) && ScaleInRange(i)
    ensures Sound(cfg, Next(cfg, s, i, now).0.tcbs)
  {
    hide Good, Sound, OnSegment, Ticked, Opened, Embryo, SynFor, SynAckFor, ResetFor, Completed, OnAccept, HalfOpen,
      ScaleLegal,
      CompletesPassiveOpen, Has;
    match i
    case TickAll => TickSound(cfg, s.tcbs, now);
    case Arrive(seg, iss) =>
      var k := FourTuple(seg.dst, seg.src);
      if k in s.tcbs {
        SoundAt(cfg, s.tcbs, k);
        StepGood(k, s.tcbs[k], Inbound(seg), now, cfg.maxRetries);
        StoreSound(cfg, s, k, OnSegment(s.tcbs[k], seg, now));
      } else if Admits(cfg, s, seg) {
        EmbryoGood(cfg, seg, iss, now);
        EmbryoKey(cfg, seg, iss, now);
        InsertSound(cfg, s.tcbs, k, Embryo(cfg, seg, iss, now));
      }
    case Do(cmd) => CommandSound(cfg, s, cmd, now);
  }

  lemma EmbryoKey(cfg: Config, seg: Segment, iss: Seq, now: Time)
    ensures Embryo(cfg, seg, iss, now).key == FourTuple(seg.dst, seg.src)
    ensures Embryo(cfg, seg, iss, now).state == SynReceived
  {
  }

  lemma OpenedKey(cfg: Config, key: FourTuple, iss: Seq, now: Time)
    ensures Opened(cfg, key, iss, now).key == key && Opened(cfg, key, iss, now).state == SynSent
  {
  }

  lemma SoundAt(cfg: Config, tcbs: map<FourTuple, Connection>, k: FourTuple)
    requires Sound(cfg, tcbs) && k in tcbs
    ensures Good(k, tcbs[k])
  {
  }

  lemma CommandSound(cfg: Config, s: State, cmd: Command, now: Time)
    requires Sound(cfg, s.tcbs)
    ensures Sound(cfg, Commanded(cfg, s, cmd, now).0.tcbs)
  {
    hide Good, Sound, Step, Opened, SynFor, OnAccept;
    match cmd
    case Connect(local, remote, iss) =>
      if |s.tcbs| < cfg.maxTcbs {
        OpenedGood(cfg, FourTuple(local, remote), iss, now);
        OpenedKey(cfg, FourTuple(local, remote), iss, now);
        InsertSound(cfg, s.tcbs, FourTuple(local, remote), Opened(cfg, FourTuple(local, remote), iss, now));
      }
    case OnConnection(key, e) =>
      if key in s.tcbs {
        SoundAt(cfg, s.tcbs, key);
        StepGood(key, s.tcbs[key], e, now, cfg.maxRetries);
        StoreSound(cfg, s, key, Step(s.tcbs[key], e, now, cfg.maxRetries));
      }
    case OpenListener(addr, backlog) =>
    case AcceptOn(addr, ticket) =>
  }

  /** In every reachable state every connection is healthy and there are at
      most maxTcbs of them. */
  lemma {:induction false} EveryRunIsSound(cfg: Config, inputs: seq<At>)
    requires forall j :: 0 <= j < |inputs| ==> ScaleInRange(inputs[j].i)
    ensures Sound(cfg, Run(cfg, inputs).tcbs)
  {
    hide Next;
    if inputs != [] {
      var last := |inputs| - 1;
      EveryRunIsSound(cfg, inputs[..last]);
      NextSound(cfg, Run(cfg, inputs[..last]), inputs[last].i, inputs[last].now);
    }
  }

  // ---------------------------------------------------------------- the state diagram

  // Without a connection the pair is in LISTEN if its local address has a listener.
  function StateOf(s: State, k: FourTuple): TcpState {
    if k in s.tcbs then s.tcbs[k].state
    else if ListenerFor(s.listeners, k.local).Some? then Listen
    else Closed
  }

  predicate Edge(s: TcpState, t: TcpState) { s == t || DiagramEdge(s, t) }

  // A connect that replaces a live connection.
  predicate Replaces(cfg: Config, s: State, i: Input, k: FourTuple) {
    && i.Do? && i.cmd.Connect? && FourTuple(i.cmd.local, i.cmd.remote) == k && |s.tcbs| < cfg.maxTcbs
    && k in s.tcbs && s.tcbs[k].state != SynSent
  }

  lemma StoredState(s: State, key: FourTuple, o: Outcome, k: FourTuple)
    requires key in s.tcbs && (o.Keep? ==> Edge(s.tcbs[key].state, o.conn.state))
    ensures k in Store(s, key, o).tcbs ==> Edge(StateOf(s, k), StateOf(Store(s, key, o), k))
  {
    hide DiagramEdge;
  }

  /** Exactly the connects that replace a live connection leave the diagram:
      every other step moves every stored connection along an edge. */
  lemma EngineFollowsDiagram(cfg: Config, s: State, i: Input, now: Time, k: FourTuple)
    requires Sound(cfg, s.tcbs)
    requires k in Next(cfg, s, i, now).0.tcbs
    ensures Edge(StateOf(s, k), StateOf(Next(cfg, s, i, now).0, k)) <==> !Replaces(cfg, s, i, k)
  {
    hide Step, OnTick, OnSegment, Opened, Embryo, SynFor, SynAckFor, ResetFor, Completed, OnAccept, HalfOpen, Has,
      Healthy;
    match i
    case TickAll => StepFollowsDiagram(s.tcbs[k], Tick, now, cfg.maxRetries);
      TickIsStep(s.tcbs[k], now, cfg.maxRetries);
    case Arrive(seg, iss) => ArrivalFollowsDiagram(cfg, s, seg, iss, now, k);
    case Do(cmd) =>
      match cmd {
        case Connect(local, remote, iss) =>
          var key := FourTuple(local, remote);
          OpenedKey(cfg, key, iss, now);
          if k in s.tcbs {
            LiveState(cfg, s.tcbs, k);
          }
        case OnConnection(key, e) =>
          if key in s.tcbs {
            StepFollowsDiagram(s.tcbs[key], e, now, cfg.maxRetries);
            StoredState(s, key, Step(s.tcbs[key], e, now, cfg.maxRetries), k);
          }
        case OpenListener(addr, backlog) =>
        case AcceptOn(addr, ticket) =>
      }
  }

  lemma ArrivalFollowsDiagram(cfg: Config, s: State, seg: Segment, iss: Seq, now: Time, k: FourTuple)
    requires k in Received(cfg, s, seg, iss, now).0.tcbs
    ensures Edge(StateOf(s, k), StateOf(Received(cfg, s, seg, iss, now).0, k))
  {
    hide OnSegment, Embryo, SynAckFor, ResetFor, Completed, HalfOpen, Has, CompletesPassiveOpen;
    var key := FourTuple(seg.dst, seg.src);
    EmbryoKey(cfg, seg, iss, now);
    if key in s.tcbs {
      StepFollowsDiagram(s.tcbs[key], Inbound(seg), now, cfg.maxRetries);
      StoredState(s, key, OnSegment(s.tcbs[key], seg, now), k);
    }
  }

  lemma TickIsStep(c: Connection, now: Time, maxRetries: nat)
    ensures Step(c, Tick, now, maxRetries) == OnTick(c, now, maxRetries)
  {
    hide OnTick;
  }

  lemma LiveState(cfg: Config, tcbs: map<FourTuple, Connection>, k: FourTuple)
    requires Sound(cfg, tcbs) && k in tcbs
    ensures tcbs[k].state != Closed && tcbs[k].state != Listen
  {
    assert Good(k, tcbs[k]);
  }

  /** A second connect from the same address and port drops an established
      connection back to SYN_SENT. */
  lemma ConnectReplacesEstablished(cfg: Config, s: State, local: Addr, remote: Addr, iss: Seq, now: Time)
    requires |s.tcbs| < cfg.maxTcbs && StateOf(s, FourTuple(local, remote)) == Established
    ensures var t := Next(cfg, s, Do(Connect(local, remote, iss)), now).0;
            StateOf(t, FourTuple(local, remote)) == SynSent && !Edge(Established, SynSent)
  {
  }
}
