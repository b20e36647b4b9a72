/** The blocking write against the engine's tick, under every interleaving of
    their atomic steps: a writer that found the transmit ring full parks, and
    the tick that empties the ring notifies it only if the send window is open
    and no FIN is leaving. */
module WriterWakeup {
  import opened Types

  datatype WriteResult = GotError | Wrote | WouldBlock | WriteTimeout

  datatype Writer =
    | CheckError
    | TryWrite
    | TakeLock
    | RecheckRing
    | RecheckError
    | Park
    | Parked
    | Woken
    | DropGuard
    | Returned(result: WriteResult)

  datatype Holder = Nobody | ByWriter | ByEngine | ByOther

  // Where the engine stands: between emptying the ring and looking at the
  // window, on its way to a notification, notifying, or elsewhere.
  datatype Publisher = Idle | Drained | Published | Notifying | Notified

  // `passedOver` remembers that the ring was emptied by a shutdown, or by a
  // tick with the window closed or a FIN leaving, and that nothing has been
  // notified since.
  datatype Shared = Shared(
    cap: nat,
    used: nat,
    error: bool,
    lock: Holder,
    writer: Writer,
    engine: Publisher,
    passedOver: bool)

  datatype Step =
    | WriterStep(len: nat, timeout: bool, nonblocking: bool)
    | Spurious
    | Drain
    | LookAtWindow(open: bool, wasClosed: bool, fin: bool)
    | DrainForShutdown
    | LatchError
    | EngineLock
    | NotifyAll
    | EngineUnlock
    | OtherLock
    | OtherUnlock

  predicate Enabled(s: Shared, e: Step) {
    match e
    case WriterStep(_, _, _) =>
      !s.writer.Parked? && !s.writer.Returned? && (s.writer.TakeLock? || s.writer.Woken? ==> s.lock == Nobody)
    case Spurious => s.writer.Parked?
    case Drain => s.engine == Idle
    case LookAtWindow(_, _, _) => s.engine == Drained
    case DrainForShutdown => s.engine == Idle
    case LatchError => s.engine == Idle || s.engine == Published
    case EngineLock => (s.engine == Idle || s.engine == Published) && s.lock == Nobody
    case NotifyAll => s.engine == Notifying
    case EngineUnlock => s.engine == Notified
    case OtherLock => s.lock == Nobody
    case OtherUnlock => s.lock == ByOther
  }

  // One step of the write loop.
  function Write(s: Shared, len: nat, timeout: bool, nonblocking: bool): Shared
    requires Enabled(s, WriterStep(len, timeout, nonblocking))
  {
    match s.writer
    case CheckError => s.(writer := if s.error then Returned(GotError) else TryWrite)
    case TryWrite =>
      var n := Min(len, SaturatingSub(s.cap, s.used));
      if n > 0 then s.(used := s.used + n, writer := Returned(Wrote))
      else s.(writer := if nonblocking then Returned(WouldBlock) else TakeLock)
    case TakeLock => s.(lock := ByWriter, writer := RecheckRing)
    case RecheckRing => s.(writer := if s.used < s.cap then DropGuard else RecheckError)
    case RecheckError => s.(writer := if s.error then DropGuard else Park)
    case Park =>
      // Waiting releases the lock in the same step.
      s.(lock := Nobody, writer := if timeout then Returned(WriteTimeout) else Parked)
    case Woken => s.(lock := ByWriter, writer := DropGuard)
    case DropGuard => s.(lock := Nobody, writer := CheckError)
  }

  function After(s: Shared, e: Step): Shared
    requires Enabled(s, e)
  {
    match e
    case WriterStep(len, timeout, nonblocking) => Write(s, len, timeout, nonblocking)
    case Spurious => s.(writer := Woken)
    case Drain => s.(used := 0, engine := Drained)
    case LookAtWindow(open, wasClosed, fin) =>
      s.(engine := if !fin && open && (wasClosed || s.used < s.cap) then Published else Idle,
         passedOver := s.passedOver || fin || !open)
    case DrainForShutdown => s.(used := 0, passedOver := true)
    case LatchError => s.(error := true, engine := Published)
    case EngineLock => s.(lock := ByEngine, engine := Notifying)
    case NotifyAll =>
      s.(writer := if s.writer.Parked? then Woken else s.writer, engine := Notified, passedOver := false)
    case EngineUnlock => s.(lock := Nobody, engine := Idle)
    case OtherLock => s.(lock := ByOther)
    case OtherUnlock => s.(lock := Nobody)
  }

  function Start(cap: nat): Shared { Shared(cap, 0, false, Nobody, CheckError, Idle, false) }

  function Run(cap: nat, steps: seq<Step>): Option<Shared> {
    if steps == [] then Some(Start(cap))
    else
      var before := Run(cap, steps[..|steps| - 1]);
      if before.None? || !Enabled(before.value, steps[|steps| - 1]) then None
      else Some(After(before.value, steps[|steps| - 1]))
  }

  // ---------------------------------------------------------------- what every interleaving keeps

  predicate Holding(w: Writer) { w.RecheckRing? || w.RecheckError? || w.Park? || w.DropGuard? }

  // A notification lies ahead.
  predicate WillNotify(s: Shared) { s.engine == Published || s.engine == Notifying }

  predicate Safe(s: Shared) {
    && s.used <= s.cap
    && (s.lock == ByWriter <==> Holding(s.writer))
    && (s.lock == ByEngine <==> s.engine == Notifying || s.engine == Notified)
    && (s.writer.RecheckError? || s.writer.Park? || s.writer.Parked? ==>
          s.used == s.cap || WillNotify(s) || s.engine == Drained || s.passedOver)
    && (s.writer.Park? || s.writer.Parked? ==> !s.error || WillNotify(s))
  }

  lemma WriteSafe(s: Shared, len: nat, timeout: bool, nonblocking: bool)
    requires Safe(s) && Enabled(s, WriterStep(len, timeout, nonblocking))
    ensures Safe(Write(s, len, timeout, nonblocking))
  {
    match s.writer
    case CheckError =>
    case TryWrite =>
    case TakeLock =>
    case RecheckRing =>
    case RecheckError =>
    case Park =>
    case Woken =>
    case DropGuard =>
  }

  lemma StepSafe(s: Shared, e: Step)
    requires Safe(s) && Enabled(s, e)
    ensures Safe(After(s, e))
  {
    hide Write;
    match e
    case WriterStep(len, timeout, nonblocking) => WriteSafe(s, len, timeout, nonblocking);
    case Spurious =>
    case Drain =>
    case LookAtWindow(_, _, _) =>
    case DrainForShutdown =>
    case LatchError =>
    case EngineLock =>
    case NotifyAll =>
    case EngineUnlock =>
    case OtherLock =>
    case OtherUnlock =>
  }

  lemma {:induction false} RunSafe(cap: nat, steps: seq<Step>)
    ensures Run(cap, steps).Some? ==> Safe(Run(cap, steps).value) && Run(cap, steps).value.cap == cap
  {
    hide After, Enabled, Safe;
    if steps == [] {
      StartSafe(cap);
    } else {
      RunSafe(cap, steps[..|steps| - 1]);
      var before := Run(cap, steps[..|steps| - 1]);
      if before.Some? && Enabled(before.value, steps[|steps| - 1]) {
        StepSafe(before.value, steps[|steps| - 1]);
        SameCapacity(before.value, steps[|steps| - 1]);
      }
    }
  }

  lemma StartSafe(cap: nat)
    ensures Safe(Start(cap))
  {
  }

  lemma SameCapacity(s: Shared, e: Step)
    requires Enabled(s, e)
    ensures After(s, e).cap == s.cap
  {
  }

  // ---------------------------------------------------------------- lost and kept wake-ups

  /** In every interleaving, a parked writer with room in the ring is owed a
      notification, unless it was passed over: the ring was emptied for a
      shutdown, or by a tick while the send window was closed or the FIN left.
      With an error to return it always is. */
  lemma ParkedWriterIsOwedOrPassedOver(cap: nat, steps: seq<Step>)
    ensures var end := Run(cap, steps);
            end.Some? && end.value.writer.Parked? ==>
              && (end.value.error ==> WillNotify(end.value))
              && (end.value.used < cap ==> WillNotify(end.value) || end.value.engine == Drained || end.value.passedOver)
  {
    hide Run;
    RunSafe(cap, steps);
  }

  /** The exact condition, at the one place where the tick decides: a writer
      parked beside the room that the tick has just made is left without a
      notification if and only if the send window is closed or a FIN leaves. */
  lemma PassedOverExactly(s: Shared, open: bool, wasClosed: bool, fin: bool)
    requires Safe(s) && s.engine == Drained && s.writer.Parked? && s.used < s.cap
    ensures var t := After(s, LookAtWindow(open, wasClosed, fin));
            t.writer.Parked? && (WillNotify(t) <==> open && !fin)
  {
  }

  // The writer running alone for n steps.
  function Alone(s: Shared, n: nat, len: nat): Shared
    decreases n
  {
    if n == 0 || !Enabled(s, WriterStep(len, false, false)) then s
    else Alone(After(s, WriterStep(len, false, false)), n - 1, len)
  }

  // A ring of four bytes, full, and what a write makes of it.
  const FULL := Shared(4, 4, false, Nobody, CheckError, Idle, false)
  const PARKED := FULL.(writer := Parked)
  const LOCKED := FULL.(writer := RecheckRing, lock := ByWriter)

  lemma WriterLocks()
    ensures Alone(FULL, 6, 4) == Alone(LOCKED, 3, 4)
  {
    var w := WriterStep(4, false, false);
    assert After(FULL, w) == FULL.(writer := TryWrite);
    assert After(FULL.(writer := TryWrite), w) == FULL.(writer := TakeLock);
    assert Alone(FULL, 6, 4) == Alone(FULL.(writer := TryWrite), 5, 4) == Alone(FULL.(writer := TakeLock), 4, 4);
  }

  lemma WriterParks()
    ensures Alone(LOCKED, 3, 4) == PARKED
  {
    var w := WriterStep(4, false, false);
    var d, e := LOCKED.(writer := RecheckError), LOCKED.(writer := Park);
    assert After(LOCKED, w) == d && After(d, w) == e && After(e, w) == PARKED;
    assert Alone(LOCKED, 3, 4) == Alone(d, 2, 4) == Alone(e, 1, 4);
  }

  /** It does happen: the ring is full, the writer parks, a tick with a closed
      window empties the ring, and the writer sleeps beside the empty ring. */
  lemma WriterSleepsBesideEmptyRing()
    ensures Alone(FULL, 6, 4) == PARKED
    ensures After(After(PARKED, Drain), LookAtWindow(false, false, false)) == PARKED.(used := 0, passedOver := true)
  {
    hide Alone;
    WriterLocks();
    WriterParks();
  }

  /** A later tick with the window open repairs it: its notification wakes the
      writer, which then writes, or returns the error. */
  lemma OpenWindowWakesWriter(s: Shared, len: nat)
    requires Safe(s) && s.writer.Parked? && s.engine == Idle && s.lock == Nobody && len > 0 && s.cap > 0
    ensures var drained := After(s, Drain);
            var published := After(drained, LookAtWindow(true, false, false));
            var woken := After(After(published, EngineLock), NotifyAll);
            Alone(After(woken, EngineUnlock), 4, len).writer == Returned(if s.error then GotError else Wrote)
  {
    var published := After(After(s, Drain), LookAtWindow(true, false, false));
    var w := After(After(After(published, EngineLock), NotifyAll), EngineUnlock);
    var step := WriterStep(len, false, false);
    var a := After(w, step);
    var b := After(a, step);
    var c := After(b, step);
    assert Alone(w, 4, len) == Alone(a, 3, len) == Alone(b, 2, len) == Alone(c, 1, len);
  }

  /** A write takes as much as fits and reports nothing that is not so. */
  lemma WriteMeans(s: Shared, len: nat, timeout: bool, nonblocking: bool)
    requires Safe(s) && Enabled(s, WriterStep(len, timeout, nonblocking))
    ensures var t := Write(s, len, timeout, nonblocking);
            && (t.writer == Returned(Wrote) ==>
                  s.used < t.used <= s.cap && t.used - s.used <= len && (t.used < s.cap ==> t.used - s.used == len))
            && (t.writer != Returned(Wrote) ==> t.used == s.used)
            && (t.writer == Returned(GotError) ==> s.error)
            && (t.writer == Returned(WouldBlock) ==> nonblocking && (len == 0 || s.used == s.cap))
            && (t.writer == Returned(WriteTimeout) ==> timeout)
  {
  }
}
