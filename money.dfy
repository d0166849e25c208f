/**
  Exact monetary arithmetic shared by every campaign: sums, percentages and
  the clamp that keeps a discount between zero and what is left to discount.
  Money is an exact `real`; the floating-point rounding of the Python engine is
  not modelled.
*/
module Money {

  function Max(a: real, b: real): real { if a < b then b else a }

  function Min(a: real, b: real): real { if a < b then a else b }

  /** `x * (pct / 100)`, the percentage formula every campaign uses. */
  function PercentOf(x: real, pct: real): real { x * (pct / 100.0) }

  /**
    `max(0, min(x, cap))`: the share `x` cut down to `cap`, and never below
    zero, so that a negative share or a negative cap discounts nothing.
  */
  function Clamp(x: real, cap: real): (r: real)
    ensures x <= 0.0 || cap <= 0.0 ==> r == 0.0
    ensures 0.0 <= x <= cap ==> r == x
    ensures 0.0 <= cap <= x ==> r == cap
    ensures 0.0 <= r <= Max(0.0, cap) && r <= Max(0.0, x)
  {
    Max(0.0, Min(x, cap))
  }

  /** Left-to-right sum, as Python's `sum`; the empty sum is 0. */
  function SumReals(xs: seq<real>): (r: real)
    ensures xs == [] ==> r == 0.0
  {
    if xs == [] then 0.0 else SumReals(xs[..|xs| - 1]) + xs[|xs| - 1]
  }

  /** Summing is linear: the sum of pointwise sums is the sum of the sums. */
  lemma {:induction false} SumLinear(a: seq<real>, b: seq<real>, c: seq<real>)
    requires |a| == |b| == |c|
    requires forall k :: 0 <= k < |c| ==> c[k] == a[k] + b[k]
    ensures SumReals(c) == SumReals(a) + SumReals(b)
  {
    if c != [] {
      var n := |c| - 1;
      SumLinear(a[..n], b[..n], c[..n]);
    }
  }

  /** Summing is monotone: pointwise smaller terms give a smaller sum. */
  lemma {:induction false} SumMonotone(a: seq<real>, b: seq<real>)
    requires |a| == |b|
    requires forall k :: 0 <= k < |a| ==> a[k] <= b[k]
    ensures SumReals(a) <= SumReals(b)
  {
    if a != [] {
      var n := |a| - 1;
      SumMonotone(a[..n], b[..n]);
    }
  }

  /** Every term multiplied by `c`. */
  function Scale(xs: seq<real>, c: real): (r: seq<real>)
  {
    seq(|xs|, k requires 0 <= k < |xs| => xs[k] * c)
  }

  /** Multiplying every term by `c` multiplies the sum by `c`. */
  lemma {:induction false} SumScale(xs: seq<real>, c: real)
    ensures SumReals(Scale(xs, c)) == SumReals(xs) * c
  {
    if xs != [] {
      var n := |xs| - 1;
      var prefix := Scale(xs[..n], c);
      assert forall k :: 0 <= k < n ==> Scale(xs, c)[..n][k] == prefix[k];
      assert Scale(xs, c)[..n] == prefix;
      SumScale(xs[..n], c);
      DistributeProduct(SumReals(xs[..n]), xs[n], c);
    }
  }

  lemma DistributeProduct(a: real, b: real, c: real)
    ensures a * c + b * c == (a + b) * c
  {
  }

  /** A sum of non-negative terms is non-negative. */
  lemma {:induction false} SumNonNegative(a: seq<real>)
    requires forall k :: 0 <= k < |a| ==> 0.0 <= a[k]
    ensures 0.0 <= SumReals(a)
  {
    if a != [] {
      SumNonNegative(a[..|a| - 1]);
    }
  }

  /** `SumNonNegative` as an implication, for callers that do not know whether its premise holds. */
  lemma SumNonNegativeWhen(a: seq<real>)
    ensures (forall k :: 0 <= k < |a| ==> 0.0 <= a[k]) ==> 0.0 <= SumReals(a)
  {
    if forall k :: 0 <= k < |a| ==> 0.0 <= a[k] {
      SumNonNegative(a);
    }
  }
}
