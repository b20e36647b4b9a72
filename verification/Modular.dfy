/** Remainders with a variable modulus. */
module Modular {
  // Multiplication by a positive factor reflects the order.
  lemma CancelFactor(x: int, y: int, b: int)
    requires b >= 1 && x * b < y * b
    ensures x < y
  {
    assert (y - x) * b > 0;
  }

  lemma RemainderUnique(x: int, q: int, r: int, m: int)
    requires m >= 1 && x == q * m + r && 0 <= r < m
    ensures x % m == r && x / m == q
  {
    var d := x / m - q;
    assert d * m == r - x % m;
    CancelFactor(d, 1, m);
    CancelFactor(-1, d, m);
  }

  /** Two positions less than one lap apart never share a slot. */
  lemma DistinctWithinLap(x: int, y: int, m: int)
    requires m >= 1 && 0 < y - x < m
    ensures x % m != y % m
  {
    if x % m == y % m {
      var d := y / m - x / m;
      assert y - x == d * m;
      RemainderUnique(y - x, d, 0, m);
      RemainderUnique(y - x, 0, y - x, m);
    }
  }

  /** A counter that wraps at a multiple of the capacity keeps its slot. */
  lemma WrapKeepsSlot(x: nat, m: int, laps: nat, w: int)
    requires m >= 1 && w >= 1 && w == laps * m
    ensures (x % w) % m == x % m
  {
    var q, r := x / w, x % w;
    calc {
      x;
      q * w + r;
      q * (laps * m) + r;
      (q * laps) * m + r;
      (q * laps) * m + ((r / m) * m + r % m);
      (q * laps + r / m) * m + r % m;
    }
    RemainderUnique(x, q * laps + r / m, r % m, m);
  }

  lemma DifferenceOfWrapped(h: nat, t: nat, w: int)
    requires w >= 1 && t <= h < t + w
    ensures (h % w - t % w) % w == h - t
  {
    var d := t / w - h / w;
    assert h % w - t % w == (h - t) + d * w;
    RemainderUnique(h % w - t % w, d, h - t, w);
  }

  lemma AddToWrapped(h: nat, n: nat, w: int)
    requires w >= 1
    ensures (h % w + n) % w == (h + n) % w
  {
    var q := (h % w + n) / w;
    assert h + n == (h / w + q) * w + (h % w + n) % w;
    RemainderUnique(h + n, h / w + q, (h % w + n) % w, w);
  }

  /** The slot of the i-th byte of a copy that wraps at the end of the buffer. */
  lemma ChunkSlot(h: nat, i: nat, n: nat, m: int)
    requires m >= 1 && i < n <= m
    ensures var start := h % m;
            var first := if n <= m - start then n else m - start;
            (if i < first then start + i else i - first) == (h + i) % m
  {
    var start := h % m;
    var first := if n <= m - start then n else m - start;
    if i < first {
      RemainderUnique(h + i, h / m, start + i, m);
    } else {
      assert h + i == (h / m + 1) * m + (i - first);
      RemainderUnique(h + i, h / m + 1, i - first, m);
    }
  }
}
