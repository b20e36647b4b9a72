/** Congestion window (RFC 5681) and retransmission timeout (RFC 6298).
    Durations are nanoseconds; Rust's Duration arithmetic truncates them. */
module Congestion {
  import opened Modular
  import opened Types

  const SECOND: nat := 1_000_000_000
  const MILLISECOND: nat := 1_000_000
  const MIN_RTO: nat := SECOND
  const MAX_RTO: nat := 60 * SECOND

  datatype Cong = Cong(
    cwnd: u32,
    ssthresh: u32,
    srtt: Option<nat>,
    rttvar: Option<nat>,
    rto: nat,
    inRecovery: bool,
    dupAcks: u32)

  function InitialWindow(mss: u16): u32 { Min(10 * mss, Max(2 * mss, 14600)) }

  function New(mss: u16): Cong { Cong(InitialWindow(mss), U32_MAX, None, None, SECOND, false, 0) }

  function SaturatingAdd(a: u32, b: u32): u32 { Min(a + b, U32_MAX) }

  function SaturatingMul(a: u32, b: u32): u32
  {
    assert a * b >= 0;
    Min(a * b, U32_MAX)
  }

  function AfterAck(c: Cong, mss: u16): Cong {
    if c.inRecovery then c
    else if c.cwnd < c.ssthresh then c.(dupAcks := 0, cwnd := SaturatingAdd(c.cwnd, mss))
    else c.(dupAcks := 0, cwnd := SaturatingAdd(c.cwnd, Max(AvoidanceStep(c.cwnd, mss), 1)))
  }

  function AvoidanceStep(cwnd: u32, mss: u16): (n: u32)
  {
    DivideBound(SaturatingMul(mss, mss), Max(cwnd, 1));
    SaturatingMul(mss, mss) / Max(cwnd, 1)
  }

  lemma DivideBound(a: nat, b: int)
    requires b >= 1
    ensures 0 <= a / b <= a
  {
    var q := a / b;
    Product(q, b - 1);
    assert q * (b - 1) == q * b - q;
  }

  lemma Product(x: nat, y: nat)
    ensures x * y >= 0
  {
  }

  function AfterTripleDupAck(c: Cong, flight: u32, mss: u16): Cong {
    var ssthresh := Max(flight / 2, 2 * mss);
    c.(ssthresh := ssthresh, cwnd := ssthresh + 3 * mss, inRecovery := true)
  }

  function AfterPartialAck(c: Cong, bytesAcked: u32): Cong { c.(cwnd := SaturatingSub(c.cwnd, bytesAcked)) }

  function AfterRecoveryExit(c: Cong): Cong { c.(cwnd := c.ssthresh, inRecovery := false, dupAcks := 0) }

  function AfterTimeout(c: Cong, flight: u32, mss: u16): Cong {
    c.(ssthresh := Max(flight / 2, 2 * mss), cwnd := mss, inRecovery := false, dupAcks := 0)
  }

  function AfterBackoff(c: Cong): Cong { c.(rto := Min(c.rto * 2, MAX_RTO)) }

  function EffectiveWindow(c: Cong, rwnd: u32): u32 { Min(c.cwnd, rwnd) }

  function Distance(a: nat, b: nat): nat { if a > b then a - b else b - a }

  // Seven parts old, one part new, each truncated.
  function Smoothed(was: nat, sample: nat): nat { was * 7 / 8 + sample / 8 }

  // Three parts old, one part new, each truncated.
  function Deviation(was: nat, distance: nat): nat { was * 3 / 4 + distance / 4 }

  function AfterSample(c: Cong, sample: nat): Cong {
    var (srtt, rttvar) :=
      if c.srtt.None? || c.rttvar.None? then (sample, sample / 2)
      else (Smoothed(c.srtt.value, sample), Deviation(c.rttvar.value, Distance(sample, c.srtt.value)));
    var rto := srtt + Max(MILLISECOND, rttvar * 4);
    c.(srtt := Some(srtt), rttvar := Some(rttvar), rto := Max(MIN_RTO, Min(rto, MAX_RTO)))
  }

  /** The object the engine stores in each connection. */
  class CongestionState {
    var cwnd: u32
    var ssthresh: u32
    var srtt: Option<nat>
    var rttvar: Option<nat>
    var rto: nat
    var inRecovery: bool
    var dupAcks: u32

    ghost function View(): Cong
      reads this
    {
      Cong(cwnd, ssthresh, srtt, rttvar, rto, inRecovery, dupAcks)
    }

    constructor (mss: u16)
      ensures View() == New(mss) && Floors(View(), mss) && TimeoutBounded(View())
    {
      cwnd, ssthresh, rto := InitialWindow(mss), U32_MAX, SECOND;
      srtt, rttvar, inRecovery, dupAcks := None, None, false, 0;
    }

    method UpdateRtt(sample: nat)
      requires srtt.Some? <==> rttvar.Some?
      modifies this
      ensures View() == AfterSample(old(View()), sample) && TimeoutBounded(View())
      ensures forall lo: nat, hi: nat :: EstimatesWithin(old(View()), lo, hi) && lo <= sample <= hi ==>
                EstimatesWithin(View(), lo, hi)
    {
      hide Smoothed, Deviation, EstimatesWithin;
      ghost var before := View();
      forall lo: nat, hi: nat | EstimatesWithin(before, lo, hi) && lo <= sample <= hi
        ensures EstimatesWithin(AfterSample(before, sample), lo, hi)
      {
        EstimatesKept(before, sample, lo, hi);
      }
      if srtt.None? {
        srtt, rttvar := Some(sample), Some(sample / 2);
      } else {
        var diff := if sample > srtt.value then sample - srtt.value else srtt.value - sample;
        rttvar := Some(Deviation(rttvar.value, diff));
        srtt := Some(Smoothed(srtt.value, sample));
      }
      var timeout := srtt.value + Max(MILLISECOND, rttvar.value * 4);
      rto := if timeout < MIN_RTO then MIN_RTO else if timeout > MAX_RTO then MAX_RTO else timeout;
    }

    method OnAck(mss: u16)
      modifies this
      ensures View() == AfterAck(old(View()), mss) && old(cwnd) <= cwnd
      ensures !old(inRecovery) && old(cwnd) < old(ssthresh) ==> cwnd == Min(old(cwnd) + mss, U32_MAX)
      ensures old(cwnd) >= mss ==> cwnd <= old(cwnd) + Max(mss, 1)
      ensures Floors(old(View()), mss) ==> Floors(View(), mss)
    {
      hide AvoidanceStep;
      AckGrowth(View(), mss);
      if inRecovery {
        return;
      }
      dupAcks := 0;
      if cwnd < ssthresh {
        cwnd := SaturatingAdd(cwnd, mss);
      } else {
        var increment := AvoidanceStep(cwnd, mss);
        cwnd := SaturatingAdd(cwnd, Max(increment, 1));
      }
    }

    method OnTripleDupAck(flight: u32, mss: u16)
      modifies this
      ensures View() == AfterTripleDupAck(old(View()), flight, mss) && Floors(View(), mss)
    {
      ssthresh := Max(flight / 2, 2 * mss);
      cwnd := ssthresh + 3 * mss;
      inRecovery := true;
    }

    method OnPartialAck(bytesAcked: u32)
      modifies this
      ensures View() == AfterPartialAck(old(View()), bytesAcked)
      ensures forall mss: u16 :: Floors(old(View()), mss) ==>
                (Floors(View(), mss) <==> mss == 0 || bytesAcked <= old(cwnd) - mss)
    {
      cwnd := SaturatingSub(cwnd, bytesAcked);
    }

    method OnRecoveryExit()
      modifies this
      ensures View() == AfterRecoveryExit(old(View()))
      ensures forall mss: u16 :: Floors(old(View()), mss) ==> Floors(View(), mss)
    {
      cwnd, inRecovery, dupAcks := ssthresh, false, 0;
    }

    method OnRto(flight: u32, mss: u16)
      modifies this
      ensures View() == AfterTimeout(old(View()), flight, mss) && Floors(View(), mss)
    {
      ssthresh := Max(flight / 2, 2 * mss);
      cwnd, inRecovery, dupAcks := mss, false, 0;
    }

    method BackoffRto()
      modifies this
      ensures View() == AfterBackoff(old(View()))
      ensures TimeoutBounded(old(View())) ==> TimeoutBounded(View()) && old(rto) <= rto
    {
      rto := Min(rto * 2, MAX_RTO);
    }
  }

  // ---------------------------------------------------------------- windows

  datatype CongestionEvent =
    | Ack
    | TripleDupAck(flight: u32)
    | PartialAck(bytes: u32)
    | RecoveryExit
    | Timeout(flight: u32)
    | Sample(rtt: nat)
    | Backoff

  function Apply(c: Cong, e: CongestionEvent, mss: u16): Cong {
    match e
    case Ack => AfterAck(c, mss)
    case TripleDupAck(flight) => AfterTripleDupAck(c, flight, mss)
    case PartialAck(bytes) => AfterPartialAck(c, bytes)
    case RecoveryExit => AfterRecoveryExit(c)
    case Timeout(flight) => AfterTimeout(c, flight, mss)
    case Sample(rtt) => AfterSample(c, rtt)
    case Backoff => AfterBackoff(c)
  }

  function ApplyAll(c: Cong, events: seq<CongestionEvent>, mss: u16): Cong
    decreases |events|
  {
    if events == [] then c
    else Apply(ApplyAll(c, events[..|events| - 1], mss), events[|events| - 1], mss)
  }

  ghost predicate Floors(c: Cong, mss: u16) { c.cwnd >= mss && c.ssthresh >= Min(2 * mss, U32_MAX) }

  /** A partial ACK is the only event that can push the window under one
      segment, and it does exactly when it deflates by more than the excess. */
  lemma FloorsKeptExactly(c: Cong, e: CongestionEvent, mss: u16)
    requires Floors(c, mss)
    ensures Floors(Apply(c, e, mss), mss) <==> (e.PartialAck? ==> mss == 0 || e.bytes <= c.cwnd - mss)
  {
  }

  /** Over every run of events, with the deflations of fast recovery bounded
      as above, the window never falls below one segment nor the threshold
      below two. */
  lemma {:induction false} FloorsHoldOnEveryRun(events: seq<CongestionEvent>, mss: u16)
    requires forall i :: 0 <= i < |events| && events[i].PartialAck? ==>
               events[i].bytes <= Max(0, ApplyAll(New(mss), events[..i], mss).cwnd - mss)
    ensures Floors(ApplyAll(New(mss), events, mss), mss)
  {
    hide Apply, New;
    if events != [] {
      var last := |events| - 1;
      var front := events[..last];
      forall i | 0 <= i < |front| && front[i].PartialAck?
        ensures front[i].bytes <= Max(0, ApplyAll(New(mss), front[..i], mss).cwnd - mss)
      {
        assert events[i].PartialAck? && front[..i] == events[..i];
      }
      FloorsHoldOnEveryRun(front, mss);
      FloorsKeptExactly(ApplyAll(New(mss), front, mss), events[last], mss);
    } else {
      NewFloors(mss);
    }
  }

  lemma NewFloors(mss: u16)
    ensures Floors(New(mss), mss)
  {
  }

  /** One acknowledgment opens the window by at most one segment. */
  lemma AckGrowth(c: Cong, mss: u16)
    ensures c.cwnd <= AfterAck(c, mss).cwnd
    ensures c.cwnd >= mss ==> AfterAck(c, mss).cwnd <= c.cwnd + Max(mss, 1)
  {
    hide AvoidanceStep;
    if c.cwnd >= mss && mss >= 1 {
      AvoidanceAtMostMss(c.cwnd, mss);
    } else if mss == 0 {
      assert AvoidanceStep(c.cwnd, 0) == 0 by { NoAvoidance(c.cwnd); }
    }
  }

  lemma NoAvoidance(cwnd: u32)
    ensures AvoidanceStep(cwnd, 0) == 0
  {
  }

  lemma AvoidanceAtMostMss(cwnd: u32, mss: u16)
    requires 1 <= mss <= cwnd
    ensures AvoidanceStep(cwnd, mss) <= mss
  {
    SquareFits(mss);
    SquareBelow(mss, cwnd);
    QuotientAtMost(mss * mss, cwnd, mss);
  }

  lemma SquareBelow(m: nat, w: nat)
    requires m <= w
    ensures m * m <= m * w
  {
    Product(m, w - m);
    assert m * w == m * m + m * (w - m);
  }

  lemma QuotientAtMost(a: nat, b: int, q: nat)
    requires b >= 1 && a <= q * b
    ensures a / b <= q
  {
    QuotientTimesDivisor(a, b);
    assert (q + 1) * b == q * b + b;
    CancelFactor(a / b, q + 1, b);
  }

  /** Acknowledgments applied n times in a row. */
  function Acks(c: Cong, mss: u16, n: nat): Cong {
    if n == 0 then c else AfterAck(Acks(c, mss, n - 1), mss)
  }

  lemma QuotientAtLeast(a: nat, b: int, q: int)
    requires b >= 1 && q * b <= a
    ensures q <= a / b
  {
    assert a < (a / b + 1) * b;
    CancelFactor(q, a / b + 1, b);
  }

  lemma QuotientAntitone(a: nat, b: int, c: int)
    requires 1 <= b <= c
    ensures a / c <= a / b
  {
    var q := a / c;
    assert q >= 0;
    assert q * (c - b) >= 0;
    assert q * b == q * c - q * (c - b);
    QuotientAtLeast(a, b, q);
  }

  lemma {:induction false} AvoidanceGrowth(c: Cong, mss: u16, n: nat, step: nat)
    requires !c.inRecovery && c.ssthresh <= c.cwnd && 1 <= c.cwnd
    requires 1 <= step && mss * mss <= U32_MAX && step == mss * mss / c.cwnd
    ensures var r := Acks(c, mss, n);
            !r.inRecovery && r.ssthresh == c.ssthresh && c.cwnd <= r.cwnd <= c.cwnd + n * step
  {
    if n > 0 {
      AvoidanceGrowth(c, mss, n - 1, step);
      var r := Acks(c, mss, n - 1);
      QuotientAntitone(mss * mss, c.cwnd, r.cwnd);
      assert AvoidanceStep(r.cwnd, mss) <= step;
      assert n * step == (n - 1) * step + step;
    }
  }

  lemma SquareFits(mss: u16)
    ensures mss * mss <= U32_MAX
  {
    var gap: nat, m: nat := 65535 - mss, mss;
    assert gap * m >= 0;
    assert m * m == 65535 * m - gap * m;
  }

  lemma QuotientTimesDivisor(a: nat, b: int)
    requires b >= 1
    ensures a / b >= 0 && (a / b) * b <= a
  {
  }

  /** One window's worth of acknowledgments in congestion avoidance opens the
      window by at most one segment (section 3.1 of RFC 5681). */
  lemma OneSegmentPerWindow(c: Cong, mss: u16)
    requires !c.inRecovery && c.ssthresh <= c.cwnd && 1 <= mss <= c.cwnd <= mss * mss
    ensures c.cwnd <= Acks(c, mss, c.cwnd / mss).cwnd <= c.cwnd + mss
  {
    var n, step := c.cwnd / mss, mss * mss / c.cwnd;
    SquareFits(mss);
    var square := mss * mss;
    QuotientAtLeast(square, c.cwnd, 1);
    QuotientTimesDivisor(square, c.cwnd);
    QuotientTimesDivisor(c.cwnd, mss);
    AvoidanceGrowth(c, mss, n, step);
    ProductOfQuotients(c.cwnd, mss, n, step);
  }

  lemma ProductOfQuotients(w: nat, mss: int, n: nat, step: nat)
    requires mss >= 1 && n * mss <= w && step * w <= mss * mss
    ensures n * step <= mss
  {
    calc {
      n * step * mss;
      (n * mss) * step;
    <= { assert (w - n * mss) * step >= 0; }
      w * step;
    <=
      mss * mss;
    <
      (mss + 1) * mss;
    }
    CancelFactor(n * step, mss + 1, mss);
  }

  // ---------------------------------------------------------------- timeout

  ghost predicate TimeoutBounded(c: Cong) { MIN_RTO <= c.rto <= MAX_RTO }

  /** The timeout stays within [1 s, 60 s] on every run. */
  lemma {:induction false} TimeoutBoundedOnEveryRun(events: seq<CongestionEvent>, mss: u16)
    ensures TimeoutBounded(ApplyAll(New(mss), events, mss))
  {
    if events != [] {
      TimeoutBoundedOnEveryRun(events[..|events| - 1], mss);
    }
  }

  function Backoffs(c: Cong, k: nat): Cong { if k == 0 then c else AfterBackoff(Backoffs(c, k - 1)) }

  lemma Doubled(p: nat, r: nat)
    ensures (2 * p) * r == 2 * (p * r) && p * r >= 0
  {
  }

  /** k timeouts in a row double the timeout k times, up to the cap. */
  lemma {:induction false} BackoffIsExponential(c: Cong, k: nat)
    requires c.rto <= MAX_RTO
    ensures Backoffs(c, k) == c.(rto := Min(MAX_RTO, Pow2(k) * c.rto))
  {
    if k > 0 {
      BackoffIsExponential(c, k - 1);
      Doubled(Pow2(k - 1), c.rto);
    }
  }

  ghost predicate SamplesWithin(events: seq<CongestionEvent>, lo: nat, hi: nat) {
    forall i :: 0 <= i < |events| && events[i].Sample? ==> lo <= events[i].rtt <= hi
  }

  ghost predicate EstimatesWithin(c: Cong, lo: nat, hi: nat) {
    && (c.srtt.Some? <==> c.rttvar.Some?)
    && (c.srtt.Some? ==> lo - 14 <= c.srtt.value <= hi && c.rttvar.value <= Max(hi / 2, hi - lo + 14))
  }

  lemma EstimatesKept(c: Cong, sample: nat, lo: nat, hi: nat)
    requires EstimatesWithin(c, lo, hi) && lo <= sample <= hi
    ensures EstimatesWithin(AfterSample(c, sample), lo, hi)
  {
    if c.srtt.Some? {
      var d, v := Distance(sample, c.srtt.value), c.rttvar.value;
      assert d <= hi - lo + 14;
      assert v * 3 / 4 + d / 4 <= Max(v, d);
    }
  }

  /** Whatever the mix of samples and other events, samples within [lo, hi]
      keep the truncating estimators within 14 ns below lo and at hi, and the
      deviation within the spread. */
  lemma {:induction false} EstimatorsTrackTheSamples(events: seq<CongestionEvent>, mss: u16, lo: nat, hi: nat)
    requires SamplesWithin(events, lo, hi)
    ensures EstimatesWithin(ApplyAll(New(mss), events, mss), lo, hi)
  {
    if events != [] {
      var front := events[..|events| - 1];
      EstimatorsTrackTheSamples(front, mss, lo, hi);
      var last := events[|events| - 1];
      if last.Sample? {
        EstimatesKept(ApplyAll(New(mss), front, mss), last.rtt, lo, hi);
      }
    }
  }
}
