/** Symmetric `[-bounds, bounds]` domains for the diverging bar charts,
    computed from the least and greatest amount of a series. */
module Bounds {

  import opened Wrappers
  import opened Seqs
  import opened Rounding

  /** `d3.min` of a non-empty series. */
  function MinOf(xs: seq<int>): (m: int)
    requires |xs| > 0
    ensures m in xs
    ensures forall i :: 0 <= i < |xs| ==> m <= xs[i]
  {
    if |xs| == 1 then xs[0]
    else
      var m := MinOf(xs[..|xs| - 1]);
      assert xs == xs[..|xs| - 1] + [xs[|xs| - 1]];
      if xs[|xs| - 1] < m then xs[|xs| - 1] else m
  }

  /** `d3.max` of a non-empty series. */
  function MaxOf(xs: seq<int>): (m: int)
    requires |xs| > 0
    ensures m in xs
    ensures forall i :: 0 <= i < |xs| ==> xs[i] <= m
  {
    if |xs| == 1 then xs[0]
    else
      var m := MaxOf(xs[..|xs| - 1]);
      assert xs == xs[..|xs| - 1] + [xs[|xs| - 1]];
      if xs[|xs| - 1] > m then xs[|xs| - 1] else m
  }

  function Max(a: nat, b: nat): nat {
    if a < b then b else a
  }

  /** The bounds expression of the scripts, `Math.abs(min) < max ?
      Math.abs(max) : Math.abs(min)`; the older scripts spell it
      `Math.abs(Math.abs(min) < max ? max : min)`, which is the same value.
      For a genuine `min <= max` it is the larger magnitude, so the domain
      `[-b, b]` holds both ends. */
  function BoundsExpr(lo: int, hi: int): (b: nat)
    ensures lo <= hi ==> b == Max(Abs(lo), Abs(hi))
    ensures lo <= hi ==> -(b as int) <= lo && hi <= b
  {
    if Abs(lo) < hi then Abs(hi) else Abs(lo)
  }

  /** The older scripts' spelling `Math.abs(Math.abs(min) < max ? max : min)`
      has the same value as `BoundsExpr` for every pair of numbers. */
  lemma AppBoundsSpelling(lo: int, hi: int)
    ensures Abs(if Abs(lo) < hi then hi else lo) == BoundsExpr(lo, hi)
  {
  }

  /** The bound of a series as test5 and test6 compute it. An empty series
      has no minimum: the script's bound is `NaN`, here `None`. Otherwise the
      bound is the largest magnitude in the series. */
  function SymmetricBounds(values: seq<int>): (b: Option<nat>)
    ensures b.None? <==> |values| == 0
    ensures b.Some? ==> forall i :: 0 <= i < |values| ==> -(b.value as int) <= values[i] <= b.value
    ensures b.Some? ==> exists i :: 0 <= i < |values| && Abs(values[i]) == b.value
  {
    if |values| == 0 then None
    else
      var lo, hi := MinOf(values), MaxOf(values);
      assert Abs(lo) <= BoundsExpr(lo, hi) && Abs(hi) <= BoundsExpr(lo, hi);
      Some(BoundsExpr(lo, hi))
  }

  /** `boundsIndustryScale`: the industry chart squeezes its domain. */
  const IndustryScale: real := 0.1

  /** `boundsIndustry *= boundsIndustryScale`: a tenth of the largest
      magnitude. As soon as one amount is non-zero, the largest one lies
      outside the damped domain (its bar is drawn past the axis). */
  function DampedBounds(values: seq<int>): (b: Option<real>)
    ensures b.None? <==> |values| == 0
    ensures b.Some? ==> forall i :: 0 <= i < |values| ==> Abs(values[i]) as real * IndustryScale <= b.value
    ensures b.Some? ==> exists i :: 0 <= i < |values| && Abs(values[i]) as real * IndustryScale == b.value
    ensures b.Some? && (exists i :: 0 <= i < |values| && values[i] != 0) ==>
      exists i :: 0 <= i < |values| && Abs(values[i]) as real > b.value
  {
    match SymmetricBounds(values)
    case None => None
    case Some(m) => Some(m as real * IndustryScale)
  }

  function Negate(x: int): int { -x }

  /** The bound as test2, app2 and app3 compute it: the "max" is taken over
      the negated amounts, so it is `-min`, and the comparison always picks
      `min`. The bound is the magnitude of the least amount, whatever the
      greatest amount is. */
  function NegatedMaxBounds(values: seq<int>): (b: Option<nat>)
    ensures b.None? <==> |values| == 0
    ensures b.Some? ==> b.value == Abs(MinOf(values))
    ensures b.Some? ==> forall i :: 0 <= i < |values| ==> -(b.value as int) <= values[i]
  {
    if |values| == 0 then None
    else
      var min := MinOf(values);
      var max := MaxOf(Project(values, Negate));
      assert max == -min by {
        var negs := Project(values, Negate);
        var j :| 0 <= j < |negs| && negs[j] == max;
        var k :| 0 <= k < |values| && values[k] == min;
        assert negs[k] == -min;
        assert max == -values[j];
      }
      Some(Abs(if Abs(min) < max then max else min))
  }

  /** The negated-max bound can leave the largest amount outside the domain:
      for the series [-1, 5] it is 1, and the bar for 5 overflows. */
  lemma NegatedMaxBoundsMissesLargest()
    ensures NegatedMaxBounds([-1, 5]) == Some(1)
    ensures SymmetricBounds([-1, 5]) == Some(5)
  {
    var xs := [-1, 5];
    assert MinOf(xs) == -1 by {
      assert MinOf(xs) <= xs[0];
    }
    var b := SymmetricBounds(xs).value;
    assert 5 <= b;
    var i :| 0 <= i < |xs| && Abs(xs[i]) == b;
  }
}
