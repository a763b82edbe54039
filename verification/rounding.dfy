/** `Math.round` of a quotient and the `roundnum` helper built on it.
    Both `Math.round(x)` and `x.toFixed(0)` for `x >= 0` pick the nearest
    integer and break a tie upward, so one definition serves both. */
module Rounding {

  import opened Wrappers

  function Abs(x: int): nat {
    if x < 0 then -x else x
  }

  /** `Math.round(n / d)` for a positive divisor: the integer `q` with
      `q*d - d/2 < n <= q*d + d/2`, a tie `n = q*d - d/2` going to the
      larger `q`. */
  function RoundDiv(n: int, d: int): (q: int)
    requires d > 0
    ensures -d <= 2 * n - 2 * q * d < d
  {
    var q := (2 * n + d) / (2 * d);
    assert 2 * n + d == 2 * d * q + (2 * n + d) % (2 * d);
    q
  }

  lemma MulAtLeast(x: int, d: int)
    requires x >= 1 && d > 0
    ensures x * d >= d
  {
    assert x * d == d + (x - 1) * d;
  }

  lemma MulMonotone(a: int, b: int, d: int)
    requires d > 0 && a < b
    ensures a * d + d <= b * d
  {
    MulAtLeast(b - a, d);
    assert b * d == a * d + (b - a) * d;
  }

  /** Only one integer satisfies `RoundDiv`'s bracket. */
  lemma RoundDivUnique(n: int, d: int, q: int)
    requires d > 0
    requires -d <= 2 * n - 2 * q * d < d
    ensures q == RoundDiv(n, d)
  {
    var p := RoundDiv(n, d);
    if q < p {
      MulMonotone(q, p, d);
    } else if p < q {
      MulMonotone(p, q, d);
    }
  }

  lemma MultipleMod(k: int, d: int)
    requires d != 0
    ensures (k * d) % d == 0
  {
    var m := (k * d) % d;
    var e := (k * d) / d;
    assert k * d == d * e + m;
    assert d * (k - e) == m;
    if d > 0 {
      if k - e >= 1 {
        MulAtLeast(k - e, d);
      } else if k - e <= -1 {
        MulAtLeast(e - k, d);
      }
    } else {
      assert d * (k - e) == (e - k) * -d;
      if k - e >= 1 {
        MulAtLeast(k - e, -d);
      } else if k - e <= -1 {
        MulAtLeast(e - k, -d);
      }
    }
  }

  /** `roundnum(num, roundBy)`: `Math.round(num / roundBy) * roundBy`.
      A zero step divides by zero and yields `NaN` (`None`). The quotient's
      tie goes up, so for a negative step the result's tie goes down. */
  function RoundNum(num: int, roundBy: int): (r: Option<int>)
    ensures r.None? <==> roundBy == 0
    ensures r.Some? ==> r.value % roundBy == 0
    ensures r.Some? ==> 2 * Abs(r.value - num) <= Abs(roundBy)
    ensures r.Some? && roundBy > 0 ==> -roundBy < 2 * (r.value - num) <= roundBy
    ensures r.Some? && roundBy < 0 ==> roundBy <= 2 * (r.value - num) < -roundBy
  {
    if roundBy == 0 then None
    else if roundBy > 0 then
      var q := RoundDiv(num, roundBy);
      MultipleMod(q, roundBy);
      Some(q * roundBy)
    else
      // num / roundBy == (-num) / (-roundBy), with a positive divisor
      var q := RoundDiv(-num, -roundBy);
      MultipleMod(q, roundBy);
      assert q * roundBy == -(q * -roundBy);
      Some(q * roundBy)
  }

  /** Rounding an already rounded value changes nothing. */
  lemma RoundNumIdempotent(num: int, roundBy: int)
    requires roundBy != 0
    ensures RoundNum(RoundNum(num, roundBy).value, roundBy) == RoundNum(num, roundBy)
  {
    var m := RoundNum(num, roundBy).value;
    if roundBy > 0 {
      var q := RoundDiv(num, roundBy);
      assert m == q * roundBy;
      RoundDivUnique(m, roundBy, q);
    } else {
      var q := RoundDiv(-num, -roundBy);
      assert -m == q * -roundBy;
      RoundDivUnique(-m, -roundBy, q);
    }
  }

  /** Every multiple of the step is a fixed point. */
  lemma RoundNumFixesMultiples(k: int, roundBy: int)
    requires roundBy != 0
    ensures RoundNum(k * roundBy, roundBy) == Some(k * roundBy)
  {
    if roundBy > 0 {
      RoundDivUnique(k * roundBy, roundBy, k);
    } else {
      assert -(k * roundBy) == k * -roundBy;
      RoundDivUnique(-(k * roundBy), -roundBy, k);
    }
  }
}
