/** The two parking protocols between application threads and the engine,
    under every interleaving of their atomic steps: the blocking read, which
    rechecks under the notify lock before it parks, and the engine's own
    wait for a signal. Sleepers may also wake for no reason. */
module Wakeup {
  import opened Types

  // ---------------------------------------------------------------- the blocking read

  datatype ReadResult = GotError | GotData | GotEof | WouldBlock | ReadTimeout

  datatype Reader =
    | CheckError
    | TryRead
    | CheckEof
    | TakeLock
    | RecheckRing
    | RecheckEof
    | RecheckError
    | Park
    | Parked
    | Woken
    | DropGuard
    | Returned(result: ReadResult)

  datatype Holder = Nobody | ByReader | ByEngine | ByOther

  // Where the engine stands in its program: whatever it publishes, it goes on
  // to take the lock, notify, and release it.
  datatype Publisher = Idle | Published | Notifying | Notified

  datatype Shared = Shared(
    available: nat,
    eof: bool,
    error: bool,
    lock: Holder,
    reader: Reader,
    engine: Publisher)

  datatype Step =
    | ReaderStep(max: nat, timeout: bool, nonblocking: bool)
    | Spurious
    | Deliver(n: nat)
    | SetEof
    | LatchError
    | EngineLock
    | NotifyAll
    | EngineUnlock
    | OtherLock
    | OtherUnlock

  predicate Enabled(s: Shared, e: Step) {
    match e
    case ReaderStep(_, _, _) =>
      !s.reader.Parked? && !s.reader.Returned? &&
      (s.reader.TakeLock? || s.reader.Woken? ==> s.lock == Nobody)
    case Spurious => s.reader.Parked?
    case Deliver(n) => n > 0 && (s.engine == Idle || s.engine == Published)
    case SetEof => s.engine == Idle || s.engine == Published
    case LatchError => s.engine == Idle || s.engine == Published
    case EngineLock => (s.engine == Idle || s.engine == Published) && s.lock == Nobody
    case NotifyAll => s.engine == Notifying
    case EngineUnlock => s.engine == Notified
    case OtherLock => s.lock == Nobody
    case OtherUnlock => s.lock == ByOther
  }

  // One step of the read loop.
  function Read(s: Shared, max: nat, timeout: bool, nonblocking: bool): Shared
    requires Enabled(s, ReaderStep(max, timeout, nonblocking))
  {
    match s.reader
    case CheckError => s.(reader := if s.error then Returned(GotError) else TryRead)
    case TryRead =>
      var n := Min(max, s.available);
      if n > 0 then s.(available := s.available - n, reader := Returned(GotData)) else s.(reader := CheckEof)
    case CheckEof => s.(reader := if s.eof then Returned(GotEof)
        else if nonblocking then Returned(WouldBlock) else TakeLock)
    case TakeLock => s.(lock := ByReader, reader := RecheckRing)
    case RecheckRing => s.(reader := if s.available > 0 then DropGuard else RecheckEof)
    case RecheckEof => s.(reader := if s.eof then DropGuard else RecheckError)
    case RecheckError => s.(reader := if s.error then DropGuard else Park)
    case Park =>
      // Waiting releases the lock in the same step.
      s.(lock := Nobody, reader := if timeout then Returned(ReadTimeout) else Parked)
    case Woken => s.(lock := ByReader, reader := DropGuard)
    case DropGuard => s.(lock := Nobody, reader := CheckError)
  }

  function After(s: Shared, e: Step): Shared
    requires Enabled(s, e)
  {
    match e
    case ReaderStep(max, timeout, nonblocking) => Read(s, max, timeout, nonblocking)
    case Spurious => s.(reader := Woken)
    case Deliver(n) => s.(available := s.available + n, engine := Published)
    case SetEof => s.(eof := true, engine := Published)
    case LatchError => s.(error := true, engine := Published)
    case EngineLock => s.(lock := ByEngine, engine := Notifying)
    case NotifyAll => s.(reader := if s.reader.Parked? then Woken else s.reader, engine := Notified)
    case EngineUnlock => s.(lock := Nobody, engine := Idle)
    case OtherLock => s.(lock := ByOther)
    case OtherUnlock => s.(lock := Nobody)
  }

  const START := Shared(0, false, false, Nobody, CheckError, Idle)

  /** Something a reader would return with. */
  predicate Readable(s: Shared) { s.available > 0 || s.eof || s.error }

  // The reader is inside its critical section exactly while it holds the lock.
  predicate Holding(r: Reader) {
    r.RecheckRing? || r.RecheckEof? || r.RecheckError? || r.Park? || r.DropGuard?
  }

  // The engine is on its way to a notification.
  predicate WillNotify(s: Shared) { s.engine == Published || s.engine == Notifying }

  predicate Safe(s: Shared) {
    && (s.lock == ByReader <==> Holding(s.reader))
    && (s.lock == ByEngine <==> s.engine == Notifying || s.engine == Notified)
    && (s.reader.RecheckEof? || s.reader.RecheckError? || s.reader.Park? || s.reader.Parked? ==>
          s.available == 0 || WillNotify(s))
    && (s.reader.RecheckError? || s.reader.Park? || s.reader.Parked? ==> !s.eof || WillNotify(s))
    && (s.reader.Park? || s.reader.Parked? ==> !s.error || WillNotify(s))
  }

  lemma ReadSafe(s: Shared, max: nat, timeout: bool, nonblocking: bool)
    requires Safe(s) && Enabled(s, ReaderStep(max, timeout, nonblocking))
    ensures Safe(Read(s, max, timeout, nonblocking))
  {
    match s.reader
    case CheckError =>
    case TryRead =>
    case CheckEof =>
    case TakeLock =>
    case RecheckRing =>
    case RecheckEof =>
    case RecheckError =>
    case Park =>
    case Woken =>
    case DropGuard =>
  }

  lemma StepSafe(s: Shared, e: Step)
    requires Safe(s) && Enabled(s, e)
    ensures Safe(After(s, e))
  {
    hide Read;
    match e
    case ReaderStep(max, timeout, nonblocking) => ReadSafe(s, max, timeout, nonblocking);
    case Spurious =>
    case Deliver(n) =>
    case SetEof =>
    case LatchError =>
    case EngineLock =>
    case NotifyAll =>
    case EngineUnlock =>
    case OtherLock =>
    case OtherUnlock =>
  }

  function Run(steps: seq<Step>): Option<Shared> {
    if steps == [] then Some(START)
    else
      var before := Run(steps[..|steps| - 1]);
      if before.None? || !Enabled(before.value, steps[|steps| - 1]) then None
      else Some(After(before.value, steps[|steps| - 1]))
  }

  lemma {:induction false} RunSafe(steps: seq<Step>)
    ensures Run(steps).Some? ==> Safe(Run(steps).value)
  {
    hide After, Enabled;
    if steps != [] {
      RunSafe(steps[..|steps| - 1]);
      var before := Run(steps[..|steps| - 1]);
      if before.Some? && Enabled(before.value, steps[|steps| - 1]) {
        StepSafe(before.value, steps[|steps| - 1]);
      }
    }
  }

  /** In every interleaving, a parked reader with data, end of stream or an
      error to return finds the engine between publishing and notifying, with
      the notification still ahead of it. */
  lemma NoLostWakeup(steps: seq<Step>)
    ensures var end := Run(steps);
            end.Some? && end.value.reader.Parked? && Readable(end.value) ==> WillNotify(end.value)
  {
    hide Run;
    RunSafe(steps);
  }

  // The reader running alone for n steps.
  function Alone(s: Shared, n: nat, max: nat): Shared
    decreases n
  {
    if n == 0 || !Enabled(s, ReaderStep(max, false, false)) then s
    else Alone(After(s, ReaderStep(max, false, false)), n - 1, max)
  }

  /** That notification wakes the reader, and the woken reader returns: the
      error if there is one, else data, else end of stream. */
  lemma PendingNotificationReturns(s: Shared, max: nat)
    requires max > 0 && Safe(s) && s.reader.Parked? && Readable(s) && s.lock == Nobody
    ensures s.engine == Published && Enabled(s, EngineLock) && Enabled(After(s, EngineLock), NotifyAll)
    ensures var woken := After(After(s, EngineLock), NotifyAll);
            && Enabled(woken, EngineUnlock)
            && Alone(After(woken, EngineUnlock), 5, max).reader ==
               Returned(if s.error then GotError else if s.available > 0 then GotData else GotEof)
  {
    var w := After(After(After(s, EngineLock), NotifyAll), EngineUnlock);
    var step := ReaderStep(max, false, false);
    var a := After(w, step);
    var b := After(a, step);
    var c := After(b, step);
    assert Alone(w, 5, max) == Alone(a, 4, max) == Alone(b, 3, max) == Alone(c, 2, max);
    if !s.error {
      var d := After(c, step);
      assert Alone(c, 2, max) == Alone(d, 1, max);
      assert Alone(d, 1, max) == if s.available > 0 then d else After(d, step);
    }
  }

  // ---------------------------------------------------------------- what a read returns

  // Data arrived after the reader's last step.
  predicate ArrivedSince(steps: seq<Step>) {
    steps != [] &&
    var last := steps[|steps| - 1];
    last.Deliver? || (!last.ReaderStep? && ArrivedSince(steps[..|steps| - 1]))
  }

  ghost predicate ReadsSomething(steps: seq<Step>) {
    forall i :: 0 <= i < |steps| ==> steps[i].ReaderStep? ==> steps[i].max > 0
  }

  lemma AboutToLook(s: Shared, e: Step)
    requires Enabled(s, e) && After(s, e).reader.CheckEof? && (e.ReaderStep? ==> e.max > 0)
    ensures var t := After(s, e);
            if e.ReaderStep? then t.available == 0
            else s.reader.CheckEof? && (t.available > 0 <==> s.available > 0 || e.Deliver?)
  {
  }

  // A reader that found the ring empty and now looks at the end-of-stream flag.
  lemma {:induction false} EmptyUnlessArrived(steps: seq<Step>)
    requires ReadsSomething(steps) && Run(steps).Some? && Run(steps).value.reader.CheckEof?
    ensures Run(steps).value.available > 0 <==> ArrivedSince(steps)
  {
    hide After, Enabled;
    if steps != [] {
      var front, last := steps[..|steps| - 1], steps[|steps| - 1];
      AboutToLook(Run(front).value, last);
      if !last.ReaderStep? {
        EmptyUnlessArrived(front);
      }
    }
  }

  /** The exact condition: the read that is about to look at the end-of-stream
      flag reports the end with bytes still in the ring if and only if the
      flag is set and data arrived since it found the ring empty. */
  lemma EofOvertakesDataExactly(steps: seq<Step>, max: nat, timeout: bool, nonblocking: bool)
    requires ReadsSomething(steps) && Run(steps).Some? && Run(steps).value.reader.CheckEof?
    ensures var s := Run(steps).value;
            var t := After(s, ReaderStep(max, timeout, nonblocking));
            t.reader == Returned(GotEof) && t.available > 0 <==> s.eof && ArrivedSince(steps)
  {
    hide Run;
    EmptyUnlessArrived(steps);
  }

  /** It does happen: a segment with three bytes and a FIN arrives between the
      two looks of one read. */
  lemma EofOvertakesData()
    ensures var look := ReaderStep(8, false, false);
            var end := Run([look, look, Deliver(3), SetEof, look]);
            end.Some? && end.value.reader == Returned(GotEof) && end.value.available == 3
  {
    var look := ReaderStep(8, false, false);
    var steps := [look, look, Deliver(3), SetEof, look];
    assert steps[..4] == [look, look, Deliver(3), SetEof];
    assert steps[..4][..3] == [look, look, Deliver(3)];
    assert steps[..4][..3][..2] == [look, look];
    assert [look, look][..1] == [look];
    assert [look][..0] == [];
    assert Run([]) == Some(START);
    assert Run([look]) == Some(START.(reader := TryRead));
    assert Run([look, look]) == Some(START.(reader := CheckEof));
    assert Run([look, look, Deliver(3)]) == Some(START.(reader := CheckEof, available := 3, engine := Published));
    assert Run([look, look, Deliver(3), SetEof]) ==
           Some(START.(reader := CheckEof, available := 3, eof := true, engine := Published));
  }

  /** Data is returned only if there is some, and then as much as fits; an
      error only if one is latched; the end only if it is set. */
  lemma ReadMeans(s: Shared, max: nat, timeout: bool, nonblocking: bool)
    requires Enabled(s, ReaderStep(max, timeout, nonblocking))
    ensures var t := Read(s, max, timeout, nonblocking);
            && (t.reader == Returned(GotData) ==>
                  && 0 < s.available - t.available <= max
                  && (t.available > 0 ==> s.available - t.available == max))
            && (t.reader != Returned(GotData) ==> t.available == s.available)
            && (t.reader == Returned(GotError) ==> s.error)
            && (t.reader == Returned(GotEof) ==> s.eof)
            && (t.reader == Returned(WouldBlock) ==> nonblocking && !s.eof)
            && (t.reader == Returned(ReadTimeout) ==> timeout)
  {
  }

  predicate OutsideLock(r: Reader) { r.CheckError? || r.TryRead? || r.CheckEof? || r.Returned? }

  lemma StaysOutside(s: Shared, e: Step)
    requires OutsideLock(s.reader) && Enabled(s, e) && (e.ReaderStep? ==> e.nonblocking)
    ensures OutsideLock(After(s, e).reader)
  {
  }

  /** A nonblocking read never takes the lock and never parks. */
  lemma {:induction false} NonblockingNeverParks(steps: seq<Step>)
    requires forall i :: 0 <= i < |steps| ==> steps[i].ReaderStep? ==> steps[i].nonblocking
    ensures Run(steps).Some? ==> OutsideLock(Run(steps).value.reader)
  {
    hide After, Enabled;
    if steps != [] {
      var front, last := steps[..|steps| - 1], steps[|steps| - 1];
      NonblockingNeverParks(front);
      if Run(steps).Some? {
        StaysOutside(Run(front).value, last);
      }
    }
  }

  // ---------------------------------------------------------------- the engine's wait

  type Thread = nat

  datatype Signaller = Stored | Locked

  datatype Waiter = Running | Waiting | Checking | Asleep | Roused | Draining | Finished(signalled: bool)

  datatype Owner = Free | Engine | Signal(t: Thread)

  datatype Gate = Gate(flag: bool, owner: Owner, waiter: Waiter, signallers: map<Thread, Signaller>, timedOut: bool)

  datatype GateStep =
    | StoreFlag(t: Thread)
    | LockToNotify(t: Thread)
    | NotifyOne(t: Thread)
    | Call
    | Lock
    | FirstSwap
    | Timeout
    | WakeForNothing
    | Relock
    | LastSwap
    | TryRecv
    | Return

  predicate GateEnabled(g: Gate, e: GateStep) {
    match e
    case StoreFlag(t) => t !in g.signallers
    case LockToNotify(t) => t in g.signallers && g.signallers[t] == Stored && g.owner == Free
    case NotifyOne(t) => t in g.signallers && g.signallers[t] == Locked
    case Call => g.waiter == Running
    case Lock => g.waiter == Waiting && g.owner == Free
    case FirstSwap => g.waiter == Checking
    case Timeout => g.waiter == Asleep
    case WakeForNothing => g.waiter == Asleep
    case Relock => g.waiter == Roused && g.owner == Free
    case LastSwap => g.waiter == Draining
    case TryRecv => g.waiter == Running
    case Return => g.waiter.Finished?
  }

  function GateAfter(g: Gate, e: GateStep): Gate
    requires GateEnabled(g, e)
  {
    match e
    case StoreFlag(t) => g.(flag := true, signallers := g.signallers[t := Stored])
    case LockToNotify(t) => g.(owner := Signal(t), signallers := g.signallers[t := Locked])
    case NotifyOne(t) =>
      // There is one waiter; the guard drops as signal returns.
      g.(owner := Free, signallers := g.signallers - {t},
         waiter := if g.waiter == Asleep then Roused else g.waiter)
    case Call => g.(waiter := Waiting)
    case Lock => g.(owner := Engine, waiter := Checking)
    case FirstSwap =>
      // Either the signal is there, or waiting releases the lock.
      g.(flag := false, owner := Free, timedOut := false, waiter := if g.flag then Finished(true) else Asleep)
    case Timeout => g.(waiter := Roused, timedOut := true)
    case WakeForNothing => g.(waiter := Roused)
    case Relock => g.(owner := Engine, waiter := Draining)
    case LastSwap => g.(flag := false, owner := Free, waiter := Finished(g.flag || !g.timedOut))
    case TryRecv => g.(flag := false)
    case Return => g.(waiter := Running)
  }

  const GATE_START := Gate(false, Free, Running, map[], false)

  ghost predicate NotifyPending(g: Gate) { exists t :: t in g.signallers }

  ghost predicate GateSafe(g: Gate) {
    && (g.owner == Engine <==> g.waiter == Checking || g.waiter == Draining)
    && (forall t :: t in g.signallers ==> (g.signallers[t] == Locked <==> g.owner == Signal(t)))
    && (g.owner.Signal? ==> g.owner.t in g.signallers)
    && (g.waiter == Asleep && g.flag ==> NotifyPending(g))
  }

  lemma GateStepSafe(g: Gate, e: GateStep)
    requires GateSafe(g) && GateEnabled(g, e)
    ensures GateSafe(GateAfter(g, e))
  {
    if e.StoreFlag? || e.LockToNotify? {
      assert e.t in GateAfter(g, e).signallers;
    }
    if e.Timeout? || e.WakeForNothing? || e.Call? || e.TryRecv? || e.Return? {
      assert GateAfter(g, e).signallers == g.signallers;
    }
  }

  function GateRun(steps: seq<GateStep>): Option<Gate> {
    if steps == [] then Some(GATE_START)
    else
      var before := GateRun(steps[..|steps| - 1]);
      if before.None? || !GateEnabled(before.value, steps[|steps| - 1]) then None
      else Some(GateAfter(before.value, steps[|steps| - 1]))
  }

  /** In every interleaving with any number of signallers, an engine asleep
      with its flag set is still owed a notification. */
  lemma {:induction false} NoLostSignal(steps: seq<GateStep>)
    ensures var end := GateRun(steps);
            end.Some? ==>
              && GateSafe(end.value)
              && (end.value.waiter == Asleep && end.value.flag ==> NotifyPending(end.value))
  {
    hide GateAfter, GateEnabled;
    if steps != [] {
      NoLostSignal(steps[..|steps| - 1]);
      var before := GateRun(steps[..|steps| - 1]);
      if before.Some? && GateEnabled(before.value, steps[|steps| - 1]) {
        GateStepSafe(before.value, steps[|steps| - 1]);
      }
    }
  }

  // ---------------------------------------------------------------- signals are reported

  // A signal was stored that no look at the flag has seen yet.
  predicate Unseen(steps: seq<GateStep>) {
    steps != [] &&
    var last := steps[|steps| - 1];
    last.StoreFlag? ||
    (!last.FirstSwap? && !last.LastSwap? && !last.TryRecv? && Unseen(steps[..|steps| - 1]))
  }

  // The wait that is under way has run into its timeout.
  predicate RanOut(steps: seq<GateStep>) {
    steps != [] &&
    var last := steps[|steps| - 1];
    last.Timeout? || (!last.FirstSwap? && RanOut(steps[..|steps| - 1]))
  }

  lemma {:induction false} GateHistory(steps: seq<GateStep>)
    ensures var end := GateRun(steps);
            end.Some? ==> end.value.flag == Unseen(steps) && end.value.timedOut == RanOut(steps)
  {
    if steps != [] {
      GateHistory(steps[..|steps| - 1]);
    }
  }

  /** In every interleaving, a wait that looks at the flag while a signal is
      unseen reports it, and one reports no signal if and only if none is
      unseen and its time has run out. */
  lemma SignalsAreReportedExactly(steps: seq<GateStep>, look: GateStep)
    requires GateRun(steps + [look]).Some?
    ensures var g := GateRun(steps + [look]).value;
            && (look.FirstSwap? ==> g.waiter == if Unseen(steps) then Finished(true) else Asleep)
            && (look.LastSwap? ==> g.waiter == Finished(Unseen(steps) || !RanOut(steps)))
            && (look.FirstSwap? || look.LastSwap? || look.TryRecv? ==> !Unseen(steps + [look]))
  {
    hide GateEnabled;
    assert (steps + [look])[..|steps|] == steps;
    GateHistory(steps);
  }

  /** The notification owed to a sleeping engine wakes it, and it reports the
      signal. */
  lemma PendingSignalReturns(g: Gate, t: Thread)
    requires GateSafe(g) && g.waiter == Asleep && g.flag && g.owner == Free && t in g.signallers
    ensures GateEnabled(g, LockToNotify(t)) && GateEnabled(GateAfter(g, LockToNotify(t)), NotifyOne(t))
    ensures var h := GateAfter(GateAfter(g, LockToNotify(t)), NotifyOne(t));
            && GateEnabled(h, Relock) && GateEnabled(GateAfter(h, Relock), LastSwap)
            && GateAfter(GateAfter(h, Relock), LastSwap).waiter == Finished(true)
  {
    assert g.signallers[t] == Stored;
  }
}
