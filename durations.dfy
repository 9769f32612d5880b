/** Duration helpers of util.go. A Go `time.Duration` is an int64 count of
    nanoseconds; its arithmetic wraps around, and `%` truncates toward zero.
    Both are written out here because Dafny's integers are unbounded and its
    `%` is Euclidean. */
module Durations {

  const MinDuration: int := -0x8000_0000_0000_0000
  const MaxDuration: int := 0x7FFF_FFFF_FFFF_FFFF

  type Duration = d: int | MinDuration <= d <= MaxDuration

  function Abs(x: int): nat {
    if x < 0 then -x else x
  }

  /** Go's `a % b` for b > 0: the remainder of truncated division, which takes the
      sign of `a` and leaves `a - r` a multiple of `b`. */
  function GoRem(a: int, b: int): (r: int)
    requires b > 0
    ensures Abs(r) < b
    ensures a >= 0 ==> 0 <= r <= a
    ensures a < 0 ==> a <= r <= 0
    ensures (a - r) % b == 0
  {
    if a >= 0 then
      DivisionFacts(a, b);
      MultipleOfDivisor(b, a / b);
      a % b
    else
      DivisionFacts(-a, b);
      MultipleOfDivisor(b, -((-a) / b));
      assert a + (-a) % b == b * -((-a) / b);
      -((-a) % b)
  }

  lemma MulAtLeast(m: int, j: int)
    requires m > 0 && j >= 1
    ensures m * j >= m
  {
  }

  lemma MulAtMost(m: int, j: int)
    requires m > 0 && j <= -1
    ensures m * j <= -m
  {
  }

  /** `m * k` is a multiple of `m`, with quotient `k`. */
  lemma MultipleOfDivisor(m: int, k: int)
    requires m > 0
    ensures (m * k) % m == 0 && (m * k) / m == k
  {
    var q, r := (m * k) / m, (m * k) % m;
    assert m * k == m * q + r;
    assert r == m * (k - q);
    if k - q >= 1 { MulAtLeast(m, k - q); }
    if k - q <= -1 { MulAtMost(m, k - q); }
  }

  lemma DivisionFacts(a: int, b: int)
    requires a >= 0 && b > 0
    ensures a == b * (a / b) + a % b
    ensures a / b >= 0 && 0 <= a % b <= a && a % b < b
  {
  }

  /** Two's-complement wrap-around of int64 arithmetic. */
  function Wrap(x: int): (w: Duration)
    ensures MinDuration <= x <= MaxDuration ==> w == x
    ensures (w - x) % 0x1_0000_0000_0000_0000 == 0
  {
    MultipleOfDivisor(0x1_0000_0000_0000_0000, -((x - MinDuration) / 0x1_0000_0000_0000_0000));
    (x - MinDuration) % 0x1_0000_0000_0000_0000 + MinDuration
  }

  /** TruncateTime (util.go:250-255): `d` rounded toward zero to a multiple of `m`;
      `d` itself when m <= 0. */
  function TruncateTime(d: Duration, m: Duration): (r: Duration)
    ensures m <= 0 ==> r == d
    ensures m > 0 ==> r % m == 0
    ensures m > 0 ==> Abs(r) <= Abs(d) && Abs(d - r) < m
    ensures r == 0 || (r < 0) == (d < 0)
  {
    if m <= 0 then d else d - GoRem(d, m)
  }

  /** `q` is the multiple of `m` nearest to `d`, halfway values going away from zero. */
  ghost predicate IsNearestMultiple(d: int, m: int, q: int)
    requires m > 0
  {
    && q % m == 0
    && 2 * Abs(q - d) <= m
    && (2 * Abs(q - d) == m ==> Abs(q) > Abs(d))
  }

  /** RoundTime with the halfway test written as Go's `lessThanHalf` does it, on
      unsigned values, so that `r + r` cannot wrap around. This is the behaviour the
      doc comment at util.go:257-262 promises. */
  function RoundTime(d: Duration, m: Duration): (q: Duration)
    ensures m <= 0 ==> q == d
  {
    if m <= 0 then d
    else
      var r := GoRem(d, m);
      if d < 0 then
        var r' := -r;
        if r' + r' < m then d + r'
        else
          var d1 := Wrap(d - m + r');
          if d1 < d then d1 else MinDuration
      else
        if r + r < m then d - r
        else
          var d1 := Wrap(d + m - r);
          if d1 > d then d1 else MaxDuration
  }

  /** RoundTime (util.go:263-285) exactly as written: the halfway tests `r+r < m`
      are int64 additions and wrap around once r > 2^62 - 1. */
  function RoundTimeAsWritten(d: Duration, m: Duration): (q: Duration)
    ensures m <= 0 ==> q == d
  {
    if m <= 0 then d
    else
      var r := GoRem(d, m);
      if d < 0 then
        var r' := -r;
        if Wrap(r' + r') < m then d + r'
        else
          var d1 := Wrap(d - m + r');
          if d1 < d then d1 else MinDuration
      else
        if Wrap(r + r) < m then d - r
        else
          var d1 := Wrap(d + m - r);
          if d1 > d then d1 else MaxDuration
  }

  /** RoundTime gives the nearest multiple of `m`, halfway values away from zero,
      and saturates to MaxDuration / MinDuration exactly when that multiple does
      not fit in a Duration. */
  lemma RoundTimeNearest(d: Duration, m: Duration)
    requires m > 0
    ensures var q := RoundTime(d, m);
      || IsNearestMultiple(d, m, q)
      || (q == MaxDuration && exists q' :: q' > MaxDuration && IsNearestMultiple(d, m, q'))
      || (q == MinDuration && exists q' :: q' < MinDuration && IsNearestMultiple(d, m, q'))
  {
    if d < 0 {
      RoundTimeNearestBelowZero(d, m);
    } else {
      RoundTimeNearestFromZero(d, m);
    }
  }

  /** RoundTimeNearest for negative `d`. */
  lemma RoundTimeNearestBelowZero(d: Duration, m: Duration)
    requires m > 0 && d < 0
    ensures var q := RoundTime(d, m);
      || IsNearestMultiple(d, m, q)
      || (q == MinDuration && exists q' :: q' < MinDuration && IsNearestMultiple(d, m, q'))
  {
    var r' := -GoRem(d, m);
    var q := RoundTime(d, m);
    if r' + r' < m {
      assert q == d + r';
    } else {
      var far := d - m + r';
      MultipleOfDivisor(m, -1);
      assert far == (d + r') + m * -1;
      SumOfMultiples(d + r', m * -1, m);
      assert IsNearestMultiple(d, m, far);
      if far >= MinDuration {
        assert q == far;
      } else {
        assert q == MinDuration;
      }
    }
  }

  /** RoundTimeNearest for non-negative `d`. */
  lemma RoundTimeNearestFromZero(d: Duration, m: Duration)
    requires m > 0 && d >= 0
    ensures var q := RoundTime(d, m);
      || IsNearestMultiple(d, m, q)
      || (q == MaxDuration && exists q' :: q' > MaxDuration && IsNearestMultiple(d, m, q'))
  {
    var r := GoRem(d, m);
    var q := RoundTime(d, m);
    if r + r < m {
      assert q == d - r;
    } else {
      var far := d + m - r;
      MultipleOfDivisor(m, 1);
      SumOfMultiples(d - r, m, m);
      assert IsNearestMultiple(d, m, far);
      if far <= MaxDuration {
        assert q == far;
      } else {
        assert q == MaxDuration;
      }
    }
  }

  lemma SumOfMultiples(x: int, y: int, m: int)
    requires m > 0 && x % m == 0 && y % m == 0
    ensures (x + y) % m == 0
  {
    MultipleOfDivisor(m, x / m + y / m);
    assert x + y == m * (x / m + y / m);
  }

  /** At most one multiple of `m` is nearest to `d`, so RoundTimeNearest pins the
      result down. */
  lemma NearestMultipleUnique(d: int, m: int, q1: int, q2: int)
    requires m > 0 && IsNearestMultiple(d, m, q1) && IsNearestMultiple(d, m, q2)
    ensures q1 == q2
  {
    if q1 != q2 {
      var lo, hi := if q1 < q2 then q1 else q2, if q1 < q2 then q2 else q1;
      assert IsNearestMultiple(d, m, lo) && IsNearestMultiple(d, m, hi);
      // Two distinct multiples of m are at least m apart.
      DistinctMultiplesApart(lo, hi, m);
      // So d lies exactly halfway between them, and both are ties.
      assert 2 * (d - lo) == m && 2 * (hi - d) == m;
      // The multiple nearer to zero is no farther from zero than d, so it is not a
      // tie broken away from zero.
      if d >= 0 {
        NegativeMultipleBelow(lo, m);
      } else {
        NegativeMultipleBelow(-hi, m);
      }
      assert false;
    }
  }

  lemma DistinctMultiplesApart(lo: int, hi: int, m: int)
    requires m > 0 && lo < hi && lo % m == 0 && hi % m == 0
    ensures hi - lo >= m
  {
    var k := hi / m - lo / m;
    assert hi - lo == m * k;
    assert k >= 1;
    assert m * k >= m * 1;
  }

  /** A negative multiple of m is at most -m. */
  lemma NegativeMultipleBelow(x: int, m: int)
    requires m > 0 && (x % m == 0 || (-x) % m == 0)
    ensures x >= 0 || x <= -m
  {
  }

  /** The written code agrees with the intended one while halfway tests cannot
      wrap, that is for every m up to 2^62. */
  lemma RoundTimeAsWrittenAgreesBelow2To62(d: Duration, m: Duration)
    requires m <= 0x4000_0000_0000_0000
    ensures RoundTimeAsWritten(d, m) == RoundTime(d, m)
  {
  }

  /** The input that shows the wrap-around: the nearest multiple of
      m = MaxDuration to d = MaxDuration - 1 is m itself, yet the code as written
      returns 0, because `r + r` wraps to -4. */
  lemma RoundTimeAsWrittenWrapsAround()
    ensures RoundTimeAsWritten(MaxDuration - 1, MaxDuration) == 0
    ensures !IsNearestMultiple(MaxDuration - 1, MaxDuration, 0)
    ensures RoundTime(MaxDuration - 1, MaxDuration) == MaxDuration
    ensures IsNearestMultiple(MaxDuration - 1, MaxDuration, MaxDuration)
  {
    assert GoRem(MaxDuration - 1, MaxDuration) == MaxDuration - 1;
    assert Wrap(2 * (MaxDuration - 1)) == -4;
    MultipleOfDivisor(MaxDuration, 1);
  }

  /** TruncateTime picks the multiple of m on d's side of zero that is closest to d. */
  lemma TruncateTimeBrackets(d: Duration, m: Duration)
    requires m > 0
    ensures var t := TruncateTime(d, m);
      (d >= 0 ==> t <= d < t + m) && (d < 0 ==> t - m < d <= t)
  {
  }
}
