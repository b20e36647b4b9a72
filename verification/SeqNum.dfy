/** 32-bit TCP sequence numbers with the serial comparison of section 3.4 of RFC 9293. */
module SeqNum {
  import opened Types

  type Seq = u32

  function Add(a: Seq, offset: u32): Seq { (a + offset) % TWO32 }

  // Unsigned distance from b to a.
  function Diff(a: Seq, b: Seq): u32 { (a - b) % TWO32 }

  predicate Lt(a: Seq, b: Seq) {
    var diff := Diff(b, a);
    diff != 0 && diff < TWO31
  }

  predicate Le(a: Seq, b: Seq) { a == b || Lt(a, b) }

  predicate Gt(a: Seq, b: Seq) { Lt(b, a) }

  predicate InRange(a: Seq, start: Seq, end: Seq) { Le(start, a) && Lt(a, end) }

  // The sequence number that names position n of an unbounded byte count.
  function Wrap(n: int): Seq { n % TWO32 }

  /** Within 2^31 of each other, serial arithmetic is the order and the
      subtraction of the unbounded positions. */
  lemma AgreesWithPositions(m: int, n: int)
    requires -TWO31 < m - n < TWO31
    ensures Lt(Wrap(m), Wrap(n)) <==> m < n
    ensures Le(Wrap(m), Wrap(n)) <==> m <= n
    ensures Gt(Wrap(m), Wrap(n)) <==> m > n
    ensures Wrap(m) == Wrap(n) <==> m == n
    ensures m >= n ==> Diff(Wrap(m), Wrap(n)) == m - n
  {
    DiffOfWraps(m, n);
    DiffOfWraps(n, m);
  }

  lemma DiffOfWraps(m: int, n: int)
    ensures Diff(Wrap(m), Wrap(n)) == (m - n) % TWO32
  {
    var a, b := m / TWO32, n / TWO32;
    assert m == a * TWO32 + Wrap(m) && n == b * TWO32 + Wrap(n);
    ModShift(Wrap(m) - Wrap(n), a - b);
  }

  lemma ModShift(r: int, k: int)
    ensures (r + k * TWO32) % TWO32 == r % TWO32
  {
    assert (r + k * TWO32) == (r / TWO32 + k) * TWO32 + r % TWO32;
  }

  lemma AddOfWrap(m: int, offset: u32)
    ensures Add(Wrap(m), offset) == Wrap(m + offset)
  {
    ModShift(Wrap(m) + offset, m / TWO32);
  }

  /** Serial comparison decides the order of two positions exactly when the
      positions are less than half the number space apart, modulo whole laps. */
  lemma ComparableExactly(m: int, n: int)
    ensures (Lt(Wrap(m), Wrap(n)) || Lt(Wrap(n), Wrap(m)) || Wrap(m) == Wrap(n)) <==> (m - n) % TWO32 != TWO31
    ensures !(Lt(Wrap(m), Wrap(n)) && Lt(Wrap(n), Wrap(m)))
  {
    DiffOfWraps(m, n);
    DiffOfWraps(n, m);
  }

  /** Two steps of the comparison compose exactly when together they stay
      below half the number space. */
  lemma TransitiveExactly(a: Seq, b: Seq, c: Seq)
    requires Lt(a, b) && Lt(b, c)
    ensures Lt(a, c) <==> Diff(b, a) + Diff(c, b) < TWO31
  {
  }

  /** So it is not an order on the whole number space. */
  lemma NotTransitive()
    ensures exists a: Seq, b: Seq, c: Seq :: Lt(a, b) && Lt(b, c) && Lt(c, a)
  {
    var a: Seq, b: Seq, c: Seq := 0, 0x6000_0000, 0xC000_0000;
    assert Lt(a, b) && Lt(b, c) && Lt(c, a);
  }

  /** Range membership is the interval of unbounded positions, for every
      window below half the number space and every position within half
      the number space of it. */
  lemma InRangeIsInterval(x: int, start: int, len: nat)
    requires len < TWO31 && -TWO31 < x - start < TWO31
    ensures InRange(Wrap(x), Wrap(start), Wrap(start + len)) <==> start <= x < start + len
  {
    AgreesWithPositions(start, x);
    DiffOfWraps(start + len, x);
  }
}
