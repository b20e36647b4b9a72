/** What congestion control achieves, against RFC 5681, RFC 6298 and RFC 6928:
    not only that windows stay in bounds, but how far they move. */
module CongestionLaws {
  import opened Types
  import opened Congestion

  // ---------------------------------------------------------------- the initial window

  /** Ten segments up to 1460 bytes, then 14600 bytes, and never fewer than
      two segments (RFC 6928). */
  lemma InitialWindowIsLargestAllowed(mss: u16)
    ensures mss <= 1460 ==> InitialWindow(mss) == 10 * mss
    ensures 1460 <= mss <= 7300 ==> InitialWindow(mss) == 14600
    ensures 7300 <= mss ==> InitialWindow(mss) == 2 * mss
  {
  }

  // ---------------------------------------------------------------- growth

  /** One acknowledgment, exactly: nothing in recovery, one segment in slow
      start, and in congestion avoidance the whole number of bytes k with
      k * cwnd <= mss * mss < (k + 1) * cwnd, or one byte if that is none. */
  lemma AckGrowsExactly(c: Cong, mss: u16)
    ensures var r := AfterAck(c, mss);
            && r.(cwnd := c.cwnd, dupAcks := c.dupAcks) == c
            && (c.inRecovery ==> r == c)
            && (!c.inRecovery ==> r.dupAcks == 0)
            && (!c.inRecovery && c.cwnd < c.ssthresh ==> r.cwnd == Min(c.cwnd + mss, U32_MAX))
            && (!c.inRecovery && c.ssthresh <= c.cwnd && 1 <= c.cwnd && r.cwnd < U32_MAX ==>
                  var k := r.cwnd - c.cwnd;
                  && 1 <= k && (k == 1 || k * c.cwnd <= mss * mss) && mss * mss < (k + 1) * c.cwnd)
  {
    hide AvoidanceStep;
    if !c.inRecovery && c.ssthresh <= c.cwnd && 1 <= c.cwnd {
      StepIsQuotient(c.cwnd, mss);
    }
  }

  lemma StepIsQuotient(cwnd: u32, mss: u16)
    requires cwnd >= 1
    ensures var k := AvoidanceStep(cwnd, mss);
            && k * cwnd <= mss * mss < (k + 1) * cwnd
            && (k == 0 ==> mss * mss < 2 * cwnd)
  {
    SquareFits(mss);
    var square := mss * mss;
    assert square >= 0 by { Product(mss, mss); }
    QuotientTimesDivisor(square, cwnd);
    var q := square / cwnd;
    assert AvoidanceStep(cwnd, mss) == q;
    assert square == q * cwnd + square % cwnd;
    assert (q + 1) * cwnd == q * cwnd + cwnd;
  }

  /** Slow start: as long as the threshold is ahead, n acknowledgments open
      the window by exactly n segments. */
  lemma {:induction false} SlowStartGrows(c: Cong, mss: u16, n: nat)
    requires !c.inRecovery && c.cwnd + n * mss <= U32_MAX
    requires n > 0 ==> c.cwnd + (n - 1) * mss < c.ssthresh
    ensures Acks(c, mss, n).cwnd == c.cwnd + n * mss
    ensures !Acks(c, mss, n).inRecovery && Acks(c, mss, n).ssthresh == c.ssthresh
  {
    if n > 0 {
      assert n * mss == (n - 1) * mss + mss;
      if n > 1 {
        assert (n - 1) * mss == (n - 2) * mss + mss;
      }
      SlowStartGrows(c, mss, n - 1);
    }
  }

  /** So a window's worth of acknowledgments doubles it, to within a segment. */
  lemma SlowStartDoubles(c: Cong, mss: u16)
    requires !c.inRecovery && 1 <= mss <= c.cwnd && 2 * c.cwnd <= c.ssthresh
    ensures var r := Acks(c, mss, c.cwnd / mss).cwnd;
            r == c.cwnd + c.cwnd / mss * mss && 2 * c.cwnd - mss < r <= 2 * c.cwnd
  {
    var n := c.cwnd / mss;
    QuotientTimesDivisor(c.cwnd, mss);
    RoundedDown(c.cwnd, mss);
    QuotientAtLeast(c.cwnd, mss, 1);
    OneMore(n, mss);
    SlowStartGrows(c, mss, n);
  }

  lemma RoundedDown(x: nat, d: int)
    requires d >= 1
    ensures x - d < x / d * d <= x
  {
    assert x == x / d * d + x % d;
  }

  /** Whatever the number of acknowledgments, slow start reaches the threshold
      or has opened one segment for each. */
  lemma {:induction false} SlowStartReachesThreshold(c: Cong, mss: u16, n: nat)
    requires !c.inRecovery
    ensures var r := Acks(c, mss, n);
            && !r.inRecovery && r.ssthresh == c.ssthresh
            && r.cwnd >= Min(Min(c.cwnd + n * mss, c.ssthresh), U32_MAX)
  {
    if n > 0 {
      SlowStartReachesThreshold(c, mss, n - 1);
      assert n * mss == (n - 1) * mss + mss;
      var r := Acks(c, mss, n - 1);
      AckGrowth(r, mss);
      AckGrowsExactly(r, mss);
    }
  }

  // The window only opens while acknowledgments arrive.
  lemma {:induction false} AcksOpen(c: Cong, mss: u16, n: nat)
    requires !c.inRecovery
    ensures var r := Acks(c, mss, n); !r.inRecovery && r.ssthresh == c.ssthresh && c.cwnd <= r.cwnd
  {
    if n > 0 {
      AcksOpen(c, mss, n - 1);
      AckGrowth(Acks(c, mss, n - 1), mss);
      AckGrowsExactly(Acks(c, mss, n - 1), mss);
    }
  }

  // What every acknowledgment adds as long as the window stays at most `top`.
  function LeastStep(mss: u16, top: nat): nat
    requires 1 <= top
  {
    Product(mss, mss);
    Max(mss * mss / top, 1)
  }

  /** Congestion avoidance from below: while the window stays at most `top`,
      every acknowledgment opens it by at least mss * mss / top bytes. */
  lemma {:induction false} AvoidanceGrowsAtLeast(c: Cong, mss: u16, n: nat, top: nat)
    requires !c.inRecovery && c.ssthresh <= c.cwnd && 1 <= c.cwnd && 1 <= top < U32_MAX
    requires n > 0 ==> Acks(c, mss, n).cwnd <= top
    ensures Acks(c, mss, n).cwnd >= c.cwnd + n * LeastStep(mss, top)
  {
    hide LeastStep, AvoidanceStep, AfterAck;
    if n > 0 {
      var r := Acks(c, mss, n - 1);
      AcksOpen(c, mss, n - 1);
      AckGrowth(r, mss);
      AvoidanceGrowsAtLeast(c, mss, n - 1, top);
      OneMore(n, LeastStep(mss, top));
      OneAvoidanceStep(r, mss, top);
    }
  }

  lemma OneMore(n: nat, step: nat)
    requires n > 0
    ensures n * step == (n - 1) * step + step
  {
  }

  /** Beside the upper bound of one segment per window: a window's worth of
      acknowledgments adds at least mss * mss / (cwnd + mss) for each. */
  lemma NearlyOneSegmentPerWindow(c: Cong, mss: u16)
    requires !c.inRecovery && c.ssthresh <= c.cwnd && 1 <= mss <= c.cwnd <= mss * mss && c.cwnd + mss < U32_MAX
    ensures Acks(c, mss, c.cwnd / mss).cwnd >= c.cwnd + c.cwnd / mss * LeastStep(mss, c.cwnd + mss)
  {
    hide LeastStep;
    OneSegmentPerWindow(c, mss);
    AvoidanceGrowsAtLeast(c, mss, c.cwnd / mss, c.cwnd + mss);
  }

  lemma OneAvoidanceStep(r: Cong, mss: u16, top: nat)
    requires !r.inRecovery && r.ssthresh <= r.cwnd && 1 <= r.cwnd && AfterAck(r, mss).cwnd <= top < U32_MAX
    ensures 1 <= top && AfterAck(r, mss).cwnd >= r.cwnd + LeastStep(mss, top)
  {
    hide AvoidanceStep;
    AckGrowth(r, mss);
    SquareFits(mss);
    assert mss * mss >= 0 by { Product(mss, mss); }
    QuotientAntitone(mss * mss, r.cwnd, top);
    StepIs(r.cwnd, mss);
  }

  lemma StepIs(cwnd: u32, mss: u16)
    requires cwnd >= 1
    ensures AvoidanceStep(cwnd, mss) == mss * mss / cwnd
  {
    SquareFits(mss);
    assert mss * mss >= 0 by { Product(mss, mss); }
  }

  // ---------------------------------------------------------------- loss

  /** After a timeout the window is one segment and the threshold half the
      flight, but no less than two segments; slow start then brings the
      window back to that threshold in ssthresh / mss acknowledgments. */
  lemma TimeoutHalvesAndRestarts(c: Cong, flight: u32, mss: u16)
    requires mss >= 1
    ensures var r := AfterTimeout(c, flight, mss);
            && r.cwnd == mss && !r.inRecovery
            && r.ssthresh == (if flight < 4 * mss then 2 * mss else flight / 2)
            && Acks(r, mss, r.ssthresh / mss).cwnd >= r.ssthresh
            && r.rto == c.rto
  {
    hide Acks;
    var r := AfterTimeout(c, flight, mss);
    ThresholdReached(r, mss);
  }

  lemma ThresholdReached(c: Cong, mss: u16)
    requires !c.inRecovery && 1 <= mss <= c.cwnd
    ensures Acks(c, mss, c.ssthresh / mss).cwnd >= c.ssthresh
  {
    hide Acks;
    var n := c.ssthresh / mss;
    SlowStartReachesThreshold(c, mss, n);
    RoundedUp(c.ssthresh, mss);
  }

  lemma RoundedUp(x: nat, d: int)
    requires d >= 1
    ensures x / d >= 0 && x <= x / d * d + d
  {
    assert x == x / d * d + x % d;
  }

  // What can happen during fast recovery before it is left.
  predicate WithinRecovery(e: CongestionEvent) { e.Ack? || e.PartialAck? || e.Sample? || e.Backoff? }

  lemma {:induction false} RecoveryKeepsThreshold(c: Cong, events: seq<CongestionEvent>, mss: u16)
    requires c.inRecovery && forall i :: 0 <= i < |events| ==> WithinRecovery(events[i])
    ensures var r := ApplyAll(c, events, mss); r.inRecovery && r.ssthresh == c.ssthresh && r.cwnd <= c.cwnd
    decreases |events|
  {
    if events != [] {
      RecoveryKeepsThreshold(c, events[..|events| - 1], mss);
    }
  }

  /** Fast recovery: a third duplicate inflates the window by three segments
      over half the flight, whatever happens inside only deflates it, and
      leaving recovery sets it to that half. */
  lemma FastRecoveryHalves(c: Cong, flight: u32, mss: u16, events: seq<CongestionEvent>)
    requires forall i :: 0 <= i < |events| ==> WithinRecovery(events[i])
    ensures var half := if flight < 4 * mss then 2 * mss else flight / 2;
            var entered := AfterTripleDupAck(c, flight, mss);
            var left := AfterRecoveryExit(ApplyAll(entered, events, mss));
            && entered.cwnd == half + 3 * mss && entered.inRecovery
            && ApplyAll(entered, events, mss).cwnd <= half + 3 * mss
            && left.cwnd == left.ssthresh == half && !left.inRecovery && left.dupAcks == 0
  {
    RecoveryKeepsThreshold(AfterTripleDupAck(c, flight, mss), events, mss);
  }

  // ---------------------------------------------------------------- the estimators

  /** Each sample moves the smoothed time an eighth of the way to it and the
      deviation a quarter of the way to the new distance, to within two
      nanoseconds of truncation; the first sets them outright. The timeout is
      their sum as RFC 6298 asks, within its bounds. */
  lemma SampleMovesEstimates(c: Cong, sample: nat)
    requires c.srtt.Some? <==> c.rttvar.Some?
    ensures var r := AfterSample(c, sample);
            && r.srtt.Some? && r.rttvar.Some?
            && (c.srtt.None? ==> r.srtt.value == sample && r.rttvar.value == sample / 2)
            && (c.srtt.Some? ==>
                  && -2 < r.srtt.value - Weighted(7, c.srtt.value, 1, sample, 8) <= 0
                  && -2 < r.rttvar.value - Weighted(3, c.rttvar.value, 1, Distance(sample, c.srtt.value), 4) <= 0)
            && r.rto == Clamp(r.srtt.value + Max(1_000_000, 4 * r.rttvar.value), 1_000_000_000, 60_000_000_000)
            && r.(srtt := c.srtt, rttvar := c.rttvar, rto := c.rto) == c
  {
    hide Distance;
    if c.srtt.Some? {
      TruncatedParts(7 * c.srtt.value, sample, 8);
      TruncatedParts(3 * c.rttvar.value, Distance(sample, c.srtt.value), 4);
    }
  }

  // A weighted mean, truncated once.
  function Weighted(a: nat, x: nat, b: nat, y: nat, d: nat): int
    requires d >= 1
  {
    (a * x + b * y) / d
  }

  function Clamp(x: nat, lo: nat, hi: nat): nat { if x < lo then lo else if x > hi then hi else x }

  // Truncating the parts loses at most one more than truncating the sum.
  lemma TruncatedParts(x: nat, y: nat, d: nat)
    requires d == 4 || d == 8
    ensures (x + y) / d - 1 <= x / d + y / d <= (x + y) / d
  {
  }

  /** A sample sixteen nanoseconds or more below the smoothed time pulls it
      down, and not past the sample. */
  lemma LowSamplePullsDown(c: Cong, sample: nat)
    requires c.srtt.Some? && c.rttvar.Some? && c.srtt.value >= sample + 16
    ensures var r := AfterSample(c, sample).srtt.value; sample <= r < c.srtt.value
  {
  }
}
