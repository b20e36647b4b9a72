/** Accounting of passive opens: accept requests, completed handshakes and the
    backlog, over every run of the engine. */
module Listeners {
  import opened Types
  import opened SeqNum
  import opened Tcb
  import opened Engine
  import opened EngineRuns

  // ---------------------------------------------------------------- parked or completed, never both

  predicate Exclusive(listeners: map<Addr, Listener>) {
    forall a :: a in listeners ==> listeners[a].parked == [] || listeners[a].completed == []
  }

  lemma NextExclusive(cfg: Config, s: State, i: Input, now: Time)
    requires Exclusive(s.listeners)
    ensures Exclusive(Next(cfg, s, i, now).0.listeners)
  {
    hide OnSegment, Step, OnTick, Opened, Embryo, SynFor, SynAckFor, ResetFor, HalfOpen, Has, CompletesPassiveOpen,
      Ticked;
  }

  /** No listener ever holds both a parked accept and a completed connection. */
  lemma {:induction false} EveryRunIsExclusive(cfg: Config, inputs: seq<At>)
    ensures Exclusive(Run(cfg, inputs).listeners)
  {
    hide Next;
    if inputs != [] {
      var last := |inputs| - 1;
      EveryRunIsExclusive(cfg, inputs[..last]);
      NextExclusive(cfg, Run(cfg, inputs[..last]), inputs[last].i, inputs[last].now);
    }
  }

  // ---------------------------------------------------------------- conservation

  /** The books of one listener: handshakes completed for it and connections
      handed out, accept requests made and answered. */
  datatype Ledger = Ledger(
    completed: multiset<FourTuple>,
    handed: multiset<FourTuple>,
    asked: multiset<Ticket>,
    answered: multiset<Ticket>)

  const BLANK := Ledger(multiset{}, multiset{}, multiset{}, multiset{})

  // This segment completes a passive open that the listener is responsible for.
  predicate CompletesFor(s: State, i: Input, a: Addr) {
    && i.Arrive?
    && var key := FourTuple(i.seg.dst, i.seg.src);
       key in s.tcbs && CompletesPassiveOpen(s.tcbs[key], i.seg) && ListenerFor(s.listeners, key.local) == Some(a)
  }

  predicate AsksOf(s: State, i: Input, a: Addr) { i.Do? && i.cmd.AcceptOn? && i.cmd.addr == a && a in s.listeners }

  function Handed(answers: seq<Answer>): multiset<FourTuple> {
    if answers == [] || answers[0].result.None? then multiset{} else multiset{answers[0].result.value}
  }

  function Answered(answers: seq<Answer>): multiset<Ticket> {
    if answers == [] then multiset{} else multiset{answers[0].ticket}
  }

  function Entered(led: Ledger, s: State, i: Input, a: Addr, answers: seq<Answer>): Ledger {
    if CompletesFor(s, i, a) then
      Ledger(led.completed + multiset{FourTuple(i.seg.dst, i.seg.src)}, led.handed + Handed(answers),
             led.asked, led.answered + Answered(answers))
    else if AsksOf(s, i, a) then
      Ledger(led.completed, led.handed + Handed(answers),
             led.asked + multiset{i.cmd.ticket}, led.answered + Answered(answers))
    else led
  }

  /** Every completed handshake was handed out once or is queued once, and
      every accept request was answered once or is parked once. */
  predicate Balanced(led: Ledger, l: Listener) {
    && led.completed == led.handed + multiset(l.completed)
    && led.asked == led.answered + multiset(l.parked)
  }

  // Listening again on an address whose listener has something waiting.
  predicate Discards(s: State, i: Input, a: Addr) {
    && i.Do? && i.cmd.OpenListener? && i.cmd.addr == a && a in s.listeners
    && (s.listeners[a].parked != [] || s.listeners[a].completed != [])
  }

  lemma Popped<T>(total: multiset<T>, gone: multiset<T>, q: seq<T>)
    requires total == gone + multiset(q) && q != []
    ensures total == gone + multiset{q[|q| - 1]} + multiset(q[..|q| - 1])
  {
    assert q == q[..|q| - 1] + [q[|q| - 1]];
  }

  lemma Pushed<T>(total: multiset<T>, gone: multiset<T>, q: seq<T>, x: T)
    requires total == gone + multiset(q)
    ensures total + multiset{x} == gone + multiset(q + [x])
  {
  }

  lemma Passed<T>(total: multiset<T>, gone: multiset<T>, q: seq<T>, x: T)
    requires total == gone + multiset(q)
    ensures total + multiset{x} == gone + multiset{x} + multiset(q)
  {
  }

  lemma NonEmptyDiffers<T>(m: multiset<T>, q: seq<T>)
    requires q != []
    ensures m + multiset(q) != m + multiset([])
  {
    assert |m + multiset(q)| == |m| + |q|;
    assert |m + multiset([])| == |m|;
  }

  lemma CompletionBalances(led: Ledger, s: State, i: Input, a: Addr)
    requires a in s.listeners && Balanced(led, s.listeners[a]) && CompletesFor(s, i, a)
    ensures var (ls, answers) := Completed(s.listeners, FourTuple(i.seg.dst, i.seg.src));
            a in ls && Balanced(Entered(led, s, i, a, answers), ls[a])
  {
    hide CompletesPassiveOpen;
    var l, key := s.listeners[a], FourTuple(i.seg.dst, i.seg.src);
    if l.parked != [] {
      Popped(led.asked, led.answered, l.parked);
      Passed(led.completed, led.handed, l.completed, key);
    } else {
      Pushed(led.completed, led.handed, l.completed, key);
    }
  }

  lemma AnsweredBalances(led: Ledger, l: Listener, t: Ticket)
    requires Balanced(led, l) && l.completed != []
    ensures var last := |l.completed| - 1;
            Balanced(Ledger(led.completed, led.handed + multiset{l.completed[last]},
                            led.asked + multiset{t}, led.answered + multiset{t}),
                     l.(completed := l.completed[..last]))
  {
    Popped(led.completed, led.handed, l.completed);
    Passed(led.asked, led.answered, l.parked, t);
  }

  lemma ParkedBalances(led: Ledger, l: Listener, t: Ticket)
    requires Balanced(led, l)
    ensures Balanced(Ledger(led.completed, led.handed + multiset{}, led.asked + multiset{t}, led.answered + multiset{}),
                     l.(parked := l.parked + [t]))
  {
    Pushed(led.asked, led.answered, l.parked, t);
    NothingAdded(led.handed);
    NothingAdded(led.answered);
  }

  lemma RequestBalances(led: Ledger, s: State, i: Input, a: Addr)
    requires a in s.listeners && Balanced(led, s.listeners[a]) && AsksOf(s, i, a)
    ensures var (ls, answers) := OnAccept(s.listeners, a, i.cmd.ticket);
            a in ls && Balanced(Entered(led, s, i, a, answers), ls[a])
  {
    hide Balanced, ListenerFor, CompletesPassiveOpen;
    var l, t := s.listeners[a], i.cmd.ticket;
    if l.completed != [] {
      AnsweredBalances(led, l, t);
    } else {
      ParkedBalances(led, l, t);
    }
  }

  lemma NothingAdded<T>(m: multiset<T>)
    ensures m + multiset{} == m
  {
  }

  // A step that is about neither this listener's handshakes nor its requests leaves it alone.
  lemma Untouched(cfg: Config, s: State, i: Input, now: Time, a: Addr)
    requires a in s.listeners && !CompletesFor(s, i, a) && !AsksOf(s, i, a)
    requires !(i.Do? && i.cmd.OpenListener? && i.cmd.addr == a)
    ensures var t := Next(cfg, s, i, now).0;
            a in t.listeners && t.listeners[a] == s.listeners[a]
  {
    hide OnSegment, Step, OnTick, Opened, Embryo, SynFor, SynAckFor, ResetFor, HalfOpen, Has, CompletesPassiveOpen,
      Ticked;
  }

  /** A step keeps a listener's books balanced unless, and only unless, it
      replaces the listener while something is waiting in it. */
  lemma StepBalancedExactly(cfg: Config, s: State, i: Input, now: Time, a: Addr, led: Ledger)
    requires a in s.listeners && Balanced(led, s.listeners[a])
    ensures var (t, fx) := Next(cfg, s, i, now);
            a in t.listeners && (Balanced(Entered(led, s, i, a, fx.answers), t.listeners[a]) <==> !Discards(s, i, a))
  {
    hide OnSegment, Step, OnTick, Opened, Embryo, SynFor, SynAckFor, ResetFor, HalfOpen, Has, CompletesPassiveOpen,
      Ticked,
      Balanced, Entered, Completed, OnAccept, ListenerFor;
    var l := s.listeners[a];
    if CompletesFor(s, i, a) {
      CompletionBalances(led, s, i, a);
    } else if AsksOf(s, i, a) {
      RequestBalances(led, s, i, a);
    } else if i.Do? && i.cmd.OpenListener? && i.cmd.addr == a {
      ReplacedBalance(led, l, Listener(if i.cmd.backlog == 0 then cfg.defaultBacklog else i.cmd.backlog, [], []));
      EnteredElsewhere(led, s, i, a, Next(cfg, s, i, now).1.answers);
    } else {
      Untouched(cfg, s, i, now, a);
      EnteredElsewhere(led, s, i, a, Next(cfg, s, i, now).1.answers);
    }
  }

  lemma EnteredElsewhere(led: Ledger, s: State, i: Input, a: Addr, answers: seq<Answer>)
    requires !CompletesFor(s, i, a) && !AsksOf(s, i, a)
    ensures Entered(led, s, i, a, answers) == led
  {
  }

  lemma ReplacedBalance(led: Ledger, l: Listener, blank: Listener)
    requires Balanced(led, l) && blank.parked == [] && blank.completed == []
    ensures Balanced(led, blank) <==> l.parked == [] && l.completed == []
  {
    if l.parked != [] {
      NonEmptyDiffers(led.answered, l.parked);
    }
    if l.completed != [] {
      NonEmptyDiffers(led.handed, l.completed);
    }
  }

  // The books of a listener from a given state on.
  function Books(cfg: Config, start: State, inputs: seq<At>, a: Addr): (State, Ledger) {
    if inputs == [] then (start, BLANK)
    else
      var last := |inputs| - 1;
      var (s, led) := Books(cfg, start, inputs[..last], a);
      var (t, fx) := Next(cfg, s, inputs[last].i, inputs[last].now);
      (t, Entered(led, s, inputs[last].i, a, fx.answers))
  }

  /** From the moment a listener opens until its address is listened on
      again, its books balance. */
  lemma {:induction false} EveryRunBalances(cfg: Config, start: State, inputs: seq<At>, a: Addr)
    requires a in start.listeners && start.listeners[a].parked == [] && start.listeners[a].completed == []
    requires forall j :: 0 <= j < |inputs| ==>
               !(inputs[j].i.Do? && inputs[j].i.cmd.OpenListener? && inputs[j].i.cmd.addr == a)
    ensures var (s, led) := Books(cfg, start, inputs, a);
            a in s.listeners && Balanced(led, s.listeners[a])
  {
    hide Next, Entered;
    if inputs != [] {
      var last := |inputs| - 1;
      EveryRunBalances(cfg, start, inputs[..last], a);
      var (s, led) := Books(cfg, start, inputs[..last], a);
      StepBalancedExactly(cfg, s, inputs[last].i, inputs[last].now, a, led);
    }
  }

  // ---------------------------------------------------------------- backlog

  // One listener per port, and none replaced.
  predicate OpensFreePort(s: State, i: Input) {
    i.Do? && i.cmd.OpenListener? ==> forall a :: a in s.listeners ==> a.port != i.cmd.addr.port
  }

  ghost predicate OnePerPort(listeners: map<Addr, Listener>) {
    forall a, b :: a in listeners && b in listeners && a.port == b.port ==> a == b
  }

  ghost predicate Fits(s: State, a: Addr)
    requires a in s.listeners
  {
    |HalfOpen(s.tcbs, a.port)| + |s.listeners[a].completed| <= s.listeners[a].backlog
  }

  ghost predicate HasListener(listeners: map<Addr, Listener>, port: u16) {
    exists a :: a in listeners && a.port == port
  }

  /** Half-open plus completed connections stay within every backlog. */
  ghost predicate WithinBacklog(s: State) {
    && OnePerPort(s.listeners)
    && (forall a :: a in s.listeners ==> Fits(s, a))
    && (forall k :: k in s.tcbs && s.tcbs[k].state == SynReceived ==>
          HasListener(s.listeners, s.tcbs[k].key.local.port))
  }

  // Nothing became half-open.
  ghost predicate NoNewEmbryos(was: map<FourTuple, Connection>, tcbs: map<FourTuple, Connection>) {
    forall k :: k in tcbs && tcbs[k].state == SynReceived ==>
      k in was && was[k].state == SynReceived && was[k].key == tcbs[k].key
  }

  lemma FewerHalfOpen(was: map<FourTuple, Connection>, tcbs: map<FourTuple, Connection>, port: u16)
    requires NoNewEmbryos(was, tcbs)
    ensures |HalfOpen(tcbs, port)| <= |HalfOpen(was, port)|
  {
    SubsetSize(HalfOpen(tcbs, port), HalfOpen(was, port));
  }

  lemma FewerStillFit(s: State, tcbs: map<FourTuple, Connection>)
    requires WithinBacklog(s) && NoNewEmbryos(s.tcbs, tcbs)
    ensures WithinBacklog(s.(tcbs := tcbs))
  {
    hide HalfOpen, HasListener;
    forall a | a in s.listeners
      ensures Fits(s.(tcbs := tcbs), a)
    {
      assert Fits(s, a);
      FewerHalfOpen(s.tcbs, tcbs, a.port);
    }
  }

  lemma StoreNoNewEmbryos(cfg: Config, s: State, key: FourTuple, e: Event, now: Time)
    requires key in s.tcbs
    ensures NoNewEmbryos(s.tcbs, Store(s, key, Step(s.tcbs[key], e, now, cfg.maxRetries)).tcbs)
  {
    hide Step;
    StepIdentity(s.tcbs[key], e, now, cfg.maxRetries);
  }

  lemma TickNoNewEmbryos(cfg: Config, tcbs: map<FourTuple, Connection>, now: Time)
    ensures NoNewEmbryos(tcbs, Ticked(cfg, tcbs, now))
  {
    hide OnTick;
    forall k | k in tcbs
      ensures var o := OnTick(tcbs[k], now, cfg.maxRetries);
              o.Keep? ==> o.conn.key == tcbs[k].key && (o.conn.state == SynReceived ==> tcbs[k].state == SynReceived)
    {
      TickIsStep(tcbs[k], now, cfg.maxRetries);
      TickIdentity(tcbs[k], now, cfg.maxRetries);
    }
  }

  lemma TickIdentity(c: Connection, now: Time, maxRetries: nat)
    ensures var o := OnTick(c, now, maxRetries);
            o.Keep? ==> o.conn.key == c.key && (o.conn.state == SynReceived ==> c.state == SynReceived)
  {
    hide OnTick;
    StepIdentity(c, Tick, now, maxRetries);
  }

  // The listener of a port is the one found for any of its local addresses.
  lemma FoundListener(listeners: map<Addr, Listener>, local: Addr)
    requires ListenerFor(listeners, local).Some?
    ensures var a := ListenerFor(listeners, local).value;
            a in listeners && a.port == local.port
  {
  }

  lemma EmbryoFits(cfg: Config, s: State, seg: Segment, iss: Seq, now: Time)
    requires WithinBacklog(s) && Admits(cfg, s, seg) && FourTuple(seg.dst, seg.src) !in s.tcbs
    ensures WithinBacklog(OnSyn(cfg, s, seg, iss, now).0)
  {
    hide Embryo, SynAckFor, ResetFor, ListenerFor, HalfOpen, HasListener;
    var t := OnSyn(cfg, s, seg, iss, now).0;
    var key := FourTuple(seg.dst, seg.src);
    EmbryoKey(cfg, seg, iss, now);
    FoundListener(s.listeners, seg.dst);
    forall a | a in s.listeners
      ensures Fits(t, a)
    {
      assert Fits(s, a);
      HalfOpenGrows(s.tcbs, key, Embryo(cfg, seg, iss, now), a.port);
    }
    FoundIsListener(s.listeners, seg.dst);
  }

  lemma HalfOpenGrows(tcbs: map<FourTuple, Connection>, key: FourTuple, c: Connection, port: u16)
    requires key !in tcbs && c.key == key && c.state == SynReceived
    ensures |HalfOpen(tcbs[key := c], port)| == |HalfOpen(tcbs, port)| + if port == key.local.port then 1 else 0
  {
    assert HalfOpen(tcbs[key := c], port) == HalfOpen(tcbs, port) + if port == key.local.port then {key} else {};
  }

  lemma FoundIsListener(listeners: map<Addr, Listener>, local: Addr)
    requires ListenerFor(listeners, local).Some?
    ensures HasListener(listeners, local.port)
  {
    assert ListenerFor(listeners, local).value.port == local.port;
  }

  // A handshake that completes leaves the half-open set and enters at most one queue.
  lemma CompletionFits(cfg: Config, s: State, seg: Segment, now: Time)
    requires WithinBacklog(s)
    requires var key := FourTuple(seg.dst, seg.src);
             key in s.tcbs && s.tcbs[key].key == key && CompletesPassiveOpen(s.tcbs[key], seg)
    ensures var key := FourTuple(seg.dst, seg.src);
            WithinBacklog(Store(s, key, OnSegment(s.tcbs[key], seg, now)).(listeners := Completed(s.listeners, key).0))
  {
    hide HalfOpen, HasListener, Has, Add, OnSegment;
    var key := FourTuple(seg.dst, seg.src);
    var o := OnSegment(s.tcbs[key], seg, now);
    var t := Store(s, key, o).(listeners := Completed(s.listeners, key).0);
    StoreNoNewEmbryos(cfg, s, key, Inbound(seg), now);
    forall k | k in t.tcbs && t.tcbs[k].state == SynReceived
      ensures HasListener(t.listeners, t.tcbs[k].key.local.port)
    {
      SameListeners(s.listeners, key, t.tcbs[k].key.local.port);
    }
    forall a | a in t.listeners
      ensures Fits(t, a)
    {
      assert Fits(s, a);
      FewerHalfOpen(s.tcbs, t.tcbs, a.port);
      if a.port == key.local.port {
        CompletedLeaves(s, seg, now);
      }
    }
  }

  lemma SameListeners(listeners: map<Addr, Listener>, key: FourTuple, port: u16)
    ensures Completed(listeners, key).0.Keys == listeners.Keys
    ensures HasListener(listeners, port) ==> HasListener(Completed(listeners, key).0, port)
  {
    assert Completed(listeners, key).0.Keys == listeners.Keys;
  }

  lemma CompletedLeaves(s: State, seg: Segment, now: Time)
    requires var key := FourTuple(seg.dst, seg.src);
             key in s.tcbs && s.tcbs[key].key == key && CompletesPassiveOpen(s.tcbs[key], seg)
    ensures var key := FourTuple(seg.dst, seg.src);
            var o := OnSegment(s.tcbs[key], seg, now);
            |HalfOpen(Store(s, key, o).tcbs, key.local.port)| == |HalfOpen(s.tcbs, key.local.port)| - 1
  {
    hide Has, Add;
    var key := FourTuple(seg.dst, seg.src);
    var t := Store(s, key, OnSegment(s.tcbs[key], seg, now));
    assert HalfOpen(t.tcbs, key.local.port) == HalfOpen(s.tcbs, key.local.port) - {key};
  }

  lemma OpeningFits(cfg: Config, s: State, addr: Addr, l: Listener)
    requires WithinBacklog(s) && OpensFreePort(s, Do(OpenListener(addr, l.backlog))) && l.completed == []
    ensures WithinBacklog(s.(listeners := s.listeners[addr := l]))
  {
    var t := s.(listeners := s.listeners[addr := l]);
    assert HalfOpen(s.tcbs, addr.port) == {} by {
      forall k | k in s.tcbs && s.tcbs[k].state == SynReceived
        ensures s.tcbs[k].key.local.port != addr.port
      {
        assert HasListener(s.listeners, s.tcbs[k].key.local.port);
      }
    }
    forall k | k in t.tcbs && t.tcbs[k].state == SynReceived
      ensures HasListener(t.listeners, t.tcbs[k].key.local.port)
    {
      assert HasListener(s.listeners, s.tcbs[k].key.local.port);
      var a :| a in s.listeners && a.port == s.tcbs[k].key.local.port;
      assert a in t.listeners;
    }
    forall a | a in t.listeners
      ensures Fits(t, a)
    {
      if a != addr {
        assert Fits(s, a);
      }
    }
  }

  lemma AcceptFits(s: State, addr: Addr, ticket: Ticket)
    requires WithinBacklog(s)
    ensures WithinBacklog(s.(listeners := OnAccept(s.listeners, addr, ticket).0))
  {
    hide HalfOpen;
    var t := s.(listeners := OnAccept(s.listeners, addr, ticket).0);
    assert t.listeners.Keys == s.listeners.Keys;
    forall a | a in t.listeners
      ensures Fits(t, a)
    {
      assert Fits(s, a);
    }
    forall k | k in t.tcbs && t.tcbs[k].state == SynReceived
      ensures HasListener(t.listeners, t.tcbs[k].key.local.port)
    {
      var a :| a in s.listeners && a.port == s.tcbs[k].key.local.port;
      assert a in t.listeners;
    }
  }

  /** Every connection is stored under its own key. */
  predicate OwnKeys(tcbs: map<FourTuple, Connection>) { forall k :: k in tcbs ==> tcbs[k].key == k }

  lemma TickOwnKeys(cfg: Config, tcbs: map<FourTuple, Connection>, now: Time)
    requires OwnKeys(tcbs)
    ensures OwnKeys(Ticked(cfg, tcbs, now))
  {
    hide OnTick;
    forall k | k in Ticked(cfg, tcbs, now)
      ensures Ticked(cfg, tcbs, now)[k].key == k
    {
      TickIdentity(tcbs[k], now, cfg.maxRetries);
    }
  }

  lemma NextOwnKeys(cfg: Config, s: State, i: Input, now: Time)
    requires OwnKeys(s.tcbs)
    ensures OwnKeys(Next(cfg, s, i, now).0.tcbs)
  {
    hide OnSegment, Step, Ticked, Opened, Embryo, SynFor, SynAckFor, ResetFor, Has, CompletesPassiveOpen, Admits,
      Completed,
      OnAccept;
    match i
    case TickAll => TickOwnKeys(cfg, s.tcbs, now);
    case Arrive(seg, iss) =>
      var key := FourTuple(seg.dst, seg.src);
      EmbryoKey(cfg, seg, iss, now);
      if key in s.tcbs {
        SegmentIsStep(s.tcbs[key], seg, now, cfg.maxRetries);
        StepIdentity(s.tcbs[key], Inbound(seg), now, cfg.maxRetries);
      }
    case Do(cmd) =>
      match cmd {
        case Connect(local, remote, iss) => OpenedKey(cfg, FourTuple(local, remote), iss, now);
        case OnConnection(key, e) =>
          if key in s.tcbs {
            StepIdentity(s.tcbs[key], e, now, cfg.maxRetries);
          }
        case OpenListener(addr, backlog) =>
        case AcceptOn(addr, ticket) =>
      }
  }

  lemma NextWithinBacklog(cfg: Config, s: State, i: Input, now: Time)
    requires OwnKeys(s.tcbs) && WithinBacklog(s) && OpensFreePort(s, i)
    ensures WithinBacklog(Next(cfg, s, i, now).0)
  {
    hide OnSegment, Step, OnTick, Opened, Embryo, SynFor, SynAckFor, ResetFor, HalfOpen, Has, CompletesPassiveOpen,
      Ticked, WithinBacklog, Admits, Completed, OnAccept;
    match i
    case TickAll => TickNoNewEmbryos(cfg, s.tcbs, now); FewerStillFit(s, Ticked(cfg, s.tcbs, now));
    case Arrive(seg, iss) =>
      var key := FourTuple(seg.dst, seg.src);
      if key in s.tcbs {
        if CompletesPassiveOpen(s.tcbs[key], seg) {
          CompletionFits(cfg, s, seg, now);
        } else {
          StoreNoNewEmbryos(cfg, s, key, Inbound(seg), now);
          SegmentIsStep(s.tcbs[key], seg, now, cfg.maxRetries);
          FewerStillFit(s, Store(s, key, OnSegment(s.tcbs[key], seg, now)).tcbs);
        }
      } else if Admits(cfg, s, seg) {
        EmbryoFits(cfg, s, seg, iss, now);
      }
    case Do(cmd) =>
      match cmd {
        case Connect(local, remote, iss) =>
          OpenedKey(cfg, FourTuple(local, remote), iss, now);
          FewerStillFit(s, Next(cfg, s, i, now).0.tcbs);
        case OnConnection(key, e) =>
          if key in s.tcbs {
            StoreNoNewEmbryos(cfg, s, key, e, now);
            FewerStillFit(s, Next(cfg, s, i, now).0.tcbs);
          }
        case OpenListener(addr, backlog) =>
          OpeningFits(cfg, s, addr, Next(cfg, s, i, now).0.listeners[addr]);
        case AcceptOn(addr, ticket) => AcceptFits(s, addr, ticket);
      }
  }

  lemma SegmentIsStep(c: Connection, seg: Segment, now: Time, maxRetries: nat)
    ensures Step(c, Inbound(seg), now, maxRetries) == OnSegment(c, seg, now)
  {
    hide OnSegment;
  }

  /** With one unreplaced listener per port, half-open plus completed
      connections never exceed a listener's backlog. */
  lemma {:induction false} EveryRunWithinBacklog(cfg: Config, inputs: seq<At>)
    requires forall j :: 0 <= j < |inputs| ==> OpensFreePort(Run(cfg, inputs[..j]), inputs[j].i)
    ensures WithinBacklog(Run(cfg, inputs)) && OwnKeys(Run(cfg, inputs).tcbs)
  {
    hide Next, OpensFreePort;
    if inputs != [] {
      var last := |inputs| - 1;
      var front := inputs[..last];
      assert forall j :: 0 <= j < |front| ==> front[..j] == inputs[..j];
      EveryRunWithinBacklog(cfg, front);
      NextOwnKeys(cfg, Run(cfg, front), inputs[last].i, inputs[last].now);
      NextWithinBacklog(cfg, Run(cfg, front), inputs[last].i, inputs[last].now);
    }
  }
}
