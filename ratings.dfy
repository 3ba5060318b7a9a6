/**
 * Averages of star ratings, kept exact: the mean is a rational number and the value written back
 * to a book is a whole number of tenths, rounded the way the client (`Math.round(avg * 10) / 10`)
 * and the server (`avg.toFixed(1)`) round it.
 */
module Ratings {

  /** The exact mean of `count` ratings that add up to `sum`. */
  function Mean(sum: int, count: nat): real
    requires count > 0
  {
    (sum as real) / (count as real)
  }

  /** A whole number of tenths as a rating value (42 is 4.2). */
  function FromTenths(t: int): real {
    (t as real) / 10.0
  }

  /** `Math.round(10 * mean)`: the nearest whole number of tenths, a tie going up. */
  function RoundHalfUpTenths(sum: int, count: nat): (t: int)
    requires count > 0
    ensures (t as real) - 0.5 <= 10.0 * Mean(sum, count) < (t as real) + 0.5
  {
    var t := (20 * sum + count) / (2 * count);
    assert 2 * count * t <= 20 * sum + count < 2 * count * (t + 1);
    NearestTenth(sum, count, t);
    t
  }

  /** The floor bounds of the integer quotient, read as bounds on the real mean. */
  lemma NearestTenth(sum: int, count: nat, t: int)
    requires count > 0
    requires 2 * count * t <= 20 * sum + count < 2 * count * (t + 1)
    ensures (t as real) - 0.5 <= 10.0 * Mean(sum, count) < (t as real) + 0.5
  {
    var c := count as real;
    var ts := t as real;
    var x := 10.0 * (sum as real);
    CastMul(2 * count, t);
    CastMul(2 * count, t + 1);
    assert (ts - 0.5) * c <= x;
    assert x < (ts + 0.5) * c;
    LeDiv(ts - 0.5, x, c);
    DivLt(ts + 0.5, x, c);
    assert x / c == 10.0 * Mean(sum, count);
  }

  lemma CastMul(a: int, b: int)
    ensures (a * b) as real == (a as real) * (b as real)
  {
  }

  lemma LeDiv(a: real, b: real, c: real)
    requires c > 0.0 && a * c <= b
    ensures a <= b / c
  {
  }

  lemma DivLt(a: real, b: real, c: real)
    requires c > 0.0 && b < a * c
    ensures b / c < a
  {
  }

  /** `Number(mean.toFixed(1))` in tenths: the nearest whole number of tenths, a tie going away from zero. */
  function RoundHalfAwayTenths(sum: int, count: nat): (t: int)
    requires count > 0
    ensures sum >= 0 ==> t == RoundHalfUpTenths(sum, count)
    ensures sum < 0 ==> (t as real) - 0.5 < 10.0 * Mean(sum, count) <= (t as real) + 0.5
  {
    if sum >= 0 then RoundHalfUpTenths(sum, count)
    else
      var u := RoundHalfUpTenths(-sum, count);
      assert Mean(-sum, count) == -Mean(sum, count);
      -u
  }

  /** Ratings between `lo` and `hi` stars average to between `lo` and `hi` stars, rounding included. */
  lemma TenthsWithinBounds(sum: int, count: nat, lo: int, hi: int)
    requires count > 0
    requires lo * count <= sum <= hi * count
    ensures 10 * lo <= RoundHalfUpTenths(sum, count) <= 10 * hi
    ensures lo as real <= Mean(sum, count) <= hi as real
  {
    var d := 2 * count;
    var n := 20 * sum + count;
    assert d * (10 * lo) == 20 * (lo * count);
    assert d * (10 * hi + 1) == 20 * (hi * count) + d;
    QuotientBounds(n, d, 10 * lo, 10 * hi);
    var c := count as real;
    CastMul(lo, count);
    CastMul(hi, count);
    LeDiv(lo as real, sum as real, c);
    DivLe(hi as real, sum as real, c);
  }

  /** `d·a <= n < d·(b+1)` puts the integer quotient `n / d` between `a` and `b`. */
  lemma QuotientBounds(n: int, d: int, a: int, b: int)
    requires d > 0 && d * a <= n < d * (b + 1)
    ensures a <= n / d <= b
  {
    var q := n / d;
    assert d * q <= n < d * q + d;
    if q < a {
      MulLe(d, q + 1, a);
    }
    if q > b {
      MulLe(d, b + 1, q);
    }
  }

  lemma MulLe(d: int, x: int, y: int)
    requires d >= 0 && x <= y
    ensures d * x <= d * y
  {
    assert d * y - d * x == d * (y - x);
  }

  lemma DivLe(a: real, b: real, c: real)
    requires c > 0.0 && b <= a * c
    ensures b / c <= a
  {
  }
}
