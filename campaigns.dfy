/**
  The five campaign kinds and the pools they size against the run's
  original base price.
*/
module Campaigns {
  import opened Money

  /**
    A campaign. The value itself is the source written on every discount
    record it produces (the Python engine formats it into a display name).
  */
  datatype Campaign =
    | FixedCoupon(code: string, amount: real)
    | PercentCoupon(code: string, percentage: real)
    | Seasonal(code: string, everyAmount: real, discount: real)
    | CategoryOnTop(code: string, category: string, percentage: real)
    | PointOnTop(code: string, points: real)
  {
    predicate IsCoupon() { FixedCoupon? || PercentCoupon? }

    predicate IsOnTop() { CategoryOnTop? || PointOnTop? }

    /** The campaigns whose pool is spread by the shared allocation pass. */
    predicate IsPooled() { FixedCoupon? || PercentCoupon? || Seasonal? }

    /** A seasonal campaign divides by its threshold, which must not be zero. */
    predicate WellFormed() { Seasonal? ==> everyAmount != 0.0 }
  }

  /** Percentage of the base price that points may at most bring the total discount to. */
  const PointCapPercent: real := 20.0

  /**
    Floor division of `base` by `every`, rounding toward minus infinity as
    Python's `//` does: the largest whole number not above the ratio.
  */
  function Multiples(base: real, every: real): (n: int)
    requires every != 0.0
    ensures n as real <= base / every < n as real + 1.0
  {
    (base / every).Floor
  }

  lemma DivisionCancels(x: real, d: real)
    requires d != 0.0
    ensures x / d * d == x
  {
  }

  lemma MultiplyBelow(a: real, b: real, m: real)
    requires m > 0.0
    ensures a <= b ==> a * m <= b * m
    ensures a < b ==> a * m < b * m
  {
    assert b * m - a * m == (b - a) * m;
  }

  /** A non-negative amount below a positive threshold holds less than one threshold. */
  lemma RatioBelowOne(x: real, d: real)
    requires 0.0 <= x < d
    ensures 0.0 <= x / d < 1.0
  {
    DivisionCancels(x, d);
    FractionBounds(x, d, x / d);
  }

  lemma FractionBounds(x: real, d: real, q: real)
    requires 0.0 <= x < d && q * d == x
    ensures 0.0 <= q < 1.0
  {
    MultiplyBelow(1.0, q, d);
    MultiplyBelow(q, 0.0, d);
  }

  /**
    The pool of a campaign spread by the allocation pass. It is sized
    against the run's base price, never against the discounted total.
  */
  function Pool(c: Campaign, base: real): (pool: real)
    requires c.IsPooled() && c.WellFormed()
    ensures c.FixedCoupon? ==> pool == c.amount
    ensures c.PercentCoupon? ==> pool * 100.0 == base * c.percentage
  {
    match c
    case FixedCoupon(_, amount) => amount
    case PercentCoupon(_, percentage) => PercentOf(base, percentage)
    case Seasonal(_, every, discount) => Multiples(base, every) as real * discount
  }

  /**
    A seasonal pool is `discount` once for every whole `everyAmount` in the
    base price: a whole multiple of `discount`, never a fraction of one.
  */
  lemma SeasonalPoolIsWholeMultiple(c: Campaign, base: real)
    requires c.Seasonal? && c.WellFormed()
    ensures exists n: int {:trigger n as real * c.discount} ::
      Pool(c, base) == n as real * c.discount &&
      n as real <= base / c.everyAmount < n as real + 1.0
    ensures 0.0 <= base < c.everyAmount ==> Pool(c, base) == 0.0
  {
    var n := Multiples(base, c.everyAmount);
    if 0.0 <= base < c.everyAmount {
      RatioBelowOne(base, c.everyAmount);
    }
    assert Pool(c, base) == n as real * c.discount && n as real <= base / c.everyAmount < n as real + 1.0;
  }

  /**
    The value by which coupons are compared: the flat amount, or the
    percentage of the base price. Other campaign kinds are worth 0.
  */
  function CouponValue(c: Campaign, base: real): (v: real)
    ensures c.IsCoupon() ==> v == Pool(c, base)
    ensures !c.IsCoupon() ==> v == 0.0
  {
    match c
    case FixedCoupon(_, amount) => amount
    case PercentCoupon(_, percentage) => PercentOf(base, percentage)
    case _ => 0.0
  }
}
