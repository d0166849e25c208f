/**
  How each campaign kind changes the cart: the two on-top campaigns, which
  do not use the plain proportional pass, and the dispatch over all five
  kinds (`apply_to_cart`).
*/
module Strategies {
  import opened Money
  import opened Campaigns
  import opened Cart
  import opened Allocation

  /** What a category campaign takes off one matching line: a percentage of what is left of it. */
  function CategoryAmount(line: Line, percentage: real): (r: real)
    ensures 0.0 <= r <= Max(0.0, line.NetPrice())
    ensures line.NetPrice() >= 0.0 && 0.0 <= percentage <= 100.0 ==> r * 100.0 == line.NetPrice() * percentage
  {
    var net := line.NetPrice();
    var x := PercentOf(net, percentage);
    assert net >= 0.0 && 0.0 <= percentage <= 100.0 ==> 0.0 <= x <= net by {
      assert x == net * (percentage / 100.0);
    }
    Clamp(x, net)
  }

  /** The records a category campaign appends: one per item of its category, none elsewhere. */
  function CategoryRecords(lines: seq<Line>, c: Campaign): (extra: seq<seq<DiscountDetail>>)
    requires c.CategoryOnTop?
    ensures |extra| == |lines|
    ensures forall k :: 0 <= k < |lines| && lines[k].category != c.category ==> extra[k] == []
    ensures forall k :: 0 <= k < |lines| && lines[k].category == c.category ==>
      extra[k] == [DiscountDetail(c, CategoryAmount(lines[k], c.percentage))]
  {
    seq(|lines|, k requires 0 <= k < |lines| => CategoryRecord(lines[k], c))
  }

  /** The category step: only items of the campaign's category get a record. */
  function CategoryApplied(lines: seq<Line>, c: Campaign): (r: seq<Line>)
    requires c.CategoryOnTop?
    ensures IsStep(lines, r, c)
    ensures forall k :: 0 <= k < |lines| && lines[k].category != c.category ==> r[k] == lines[k]
    ensures forall k :: 0 <= k < |lines| && lines[k].category == c.category ==>
      |r[k].records| == |lines[k].records| + 1
  {
    var r := Append(lines, CategoryRecords(lines, c));
    assert forall k :: 0 <= k < |lines| && lines[k].category != c.category ==>
      r[k].records == lines[k].records + [];
    assert forall k :: 0 <= k < |lines| ==> r[k].records[..|lines[k].records|] == lines[k].records;
    r
  }

  /**
    The pool of a points campaign: the points, cut down to what is left
    below 20% of the base price once the discounts already given are
    counted, and never negative.
  */
  function PointPool(lines: seq<Line>, points: real, base: real): (pool: real)
    ensures 0.0 <= pool <= Max(0.0, points)
    ensures pool <= Max(0.0, PercentOf(base, PointCapPercent) - TotalDiscount(lines))
    ensures 0.0 <= points <= PercentOf(base, PointCapPercent) - TotalDiscount(lines) ==> pool == points
    ensures 0.0 <= PercentOf(base, PointCapPercent) - TotalDiscount(lines) <= points ==>
      pool == PercentOf(base, PointCapPercent) - TotalDiscount(lines)
  {
    Clamp(points, PercentOf(base, PointCapPercent) - TotalDiscount(lines))
  }

  /**
    The points step: the pool is spread over the items in proportion to
    what is left of each, each share capped by that same remainder.
  */
  function PointApplied(lines: seq<Line>, c: Campaign, base: real): (r: seq<Line>)
    requires c.PointOnTop?
    ensures IsStep(lines, r, c)
    ensures PointPool(lines, c.points, base) <= 0.0 || NetTotal(lines) <= 0.0 ==> r == lines
    ensures !(PointPool(lines, c.points, base) <= 0.0 || NetTotal(lines) <= 0.0) ==>
      forall k :: 0 <= k < |r| ==> |r[k].records| == |lines[k].records| + 1
  {
    var pool := PointPool(lines, c.points, base);
    var subtotal := NetTotal(lines);
    if pool <= 0.0 || subtotal <= 0.0 then lines
    else
      PointsSpread(lines, c, subtotal, pool)
  }

  /** Every line gets one record of its share of `pool`, weighted and capped by what is left of it. */
  function PointsSpread(lines: seq<Line>, c: Campaign, subtotal: real, pool: real): (r: seq<Line>)
    requires subtotal != 0.0
    ensures IsStep(lines, r, c)
    ensures forall k :: 0 <= k < |r| ==> |r[k].records| == |lines[k].records| + 1
  {
    var extra := Singletons(c, Shares(Nets(lines), Nets(lines), subtotal, pool));
    var r := Append(lines, extra);
    assert forall k :: 0 <= k < |lines| ==> r[k].records[..|lines[k].records|] == lines[k].records;
    r
  }

  /**
    On a cart where no item is below zero, the points step gives away no
    more than its pool, and so never takes the cart-wide discount past 20%
    of the base price (nor raises it if it was already past).
  */
  lemma PointAppliedWithinCap(lines: seq<Line>, c: Campaign, base: real)
    requires c.PointOnTop? && Sound(lines)
    ensures TotalDiscount(PointApplied(lines, c, base)) - TotalDiscount(lines)
         <= PointPool(lines, c.points, base)
    ensures TotalDiscount(PointApplied(lines, c, base))
         <= Max(TotalDiscount(lines), PercentOf(base, PointCapPercent))
  {
    var pool := PointPool(lines, c.points, base);
    var subtotal := NetTotal(lines);
    if !(pool <= 0.0 || subtotal <= 0.0) {
      var shares := Shares(Nets(lines), Nets(lines), subtotal, pool);
      SharesWithinPool(Nets(lines), Nets(lines), subtotal, pool);
      AppendAdds(lines, Singletons(c, shares));
    }
  }

  /** The step each campaign kind takes, given the run's base price. */
  function Applied(lines: seq<Line>, c: Campaign, base: real): (r: seq<Line>)
    requires c.WellFormed()
    ensures IsStep(lines, r, c)
  {
    match c
    case CategoryOnTop(_, _, _) => CategoryApplied(lines, c)
    case PointOnTop(_, _) => PointApplied(lines, c, base)
    case _ => Distributed(lines, c, Pool(c, base), base)
  }

  /**
    The fixed, percentage and seasonal steps, with `base` the cart's base
    price and no negative item price, give away no more than their pool.
  */
  lemma PooledWithinPool(lines: seq<Line>, c: Campaign, base: real)
    requires c.IsPooled() && c.WellFormed()
    requires forall k :: 0 <= k < |lines| ==> lines[k].initialPrice >= 0.0
    requires base == BasePrice(lines)
    ensures TotalDiscount(Applied(lines, c, base)) - TotalDiscount(lines) <= Max(0.0, Pool(c, base))
  {
    DistributedWithinPool(lines, c, Pool(c, base), base);
  }

  /** `CategoryOnTop.apply_to_cart`. */
  method ApplyCategoryOnTop(cart: seq<Item>, c: Campaign) returns (used: real)
    requires c.CategoryOnTop? && Distinct(cart)
    modifies cart
    ensures Snapshot(cart) == CategoryApplied(old(Snapshot(cart)), c)
    ensures used == TotalDiscount(Snapshot(cart)) - TotalDiscount(old(Snapshot(cart)))
  {
    ghost var before := Snapshot(cart);
    ghost var extra := CategoryRecords(before, c);
    forall k | 0 <= k < |cart|
      ensures extra[k] == CategoryRecord(cart[k].Value(), c)
    {
      assert cart[k].Value() == before[k];
    }
    used := TakeCategory(cart, c, extra);
    AppendedOutcome(cart, before, extra);
  }

  /** The records a category campaign appends to one line. */
  function CategoryRecord(line: Line, c: Campaign): (extra: seq<DiscountDetail>)
    requires c.CategoryOnTop?
    ensures line.category == c.category <==> |extra| == 1
    ensures line.category != c.category <==> extra == []
  {
    if line.category == c.category
    then [DiscountDetail(c, CategoryAmount(line, c.percentage))]
    else []
  }

  /**
    The loop of `CategoryOnTop.apply_to_cart`: every item of the campaign's
    category, in cart order, gets one record of the campaign's percentage
    of what is left of it; the others are skipped. The result is the sum of
    the amounts appended. The ghost `extra` names those records as they
    stand before the loop.
  */
  method TakeCategory(cart: seq<Item>, c: Campaign, ghost extra: seq<seq<DiscountDetail>>)
    returns (used: real)
    requires c.CategoryOnTop? && Distinct(cart) && |extra| == |cart|
    requires forall k :: 0 <= k < |cart| ==> extra[k] == CategoryRecord(cart[k].Value(), c)
    modifies cart
    ensures forall k :: 0 <= k < |cart| ==> cart[k].records == old(cart[k].records) + extra[k]
    ensures used == Added(extra)
  {
    used := 0.0;
    var i := 0;
    while i < |cart|
      invariant 0 <= i <= |cart|
      invariant forall k :: 0 <= k < i ==> cart[k].records == old(cart[k].records) + extra[k]
      invariant forall k :: i <= k < |cart| ==> cart[k].records == old(cart[k].records)
      invariant used == Added(extra[..i])
    {
      var item := cart[i];
      AddedPrefix(extra, i);
      if item.category == c.category {
        var priceRemaining := item.NetPrice();
        var discount := PercentOf(priceRemaining, c.percentage);
        discount := Min(discount, priceRemaining);
        discount := Max(0.0, discount);
        assert extra[i] == [DiscountDetail(c, discount)] by {
          assert item.Value() == old(item.Value());
        }
        item.records := item.records + [DiscountDetail(c, discount)];
        assert SumAmounts(extra[i]) == discount by {
          assert extra[i][..0] == [];
        }
        used := used + discount;
      } else {
        assert item.records == old(item.records) + extra[i];
      }
      i := i + 1;
    }
    assert extra[..|cart|] == extra;
  }

  /** The share the points step computes for line `k` of the cart. */
  lemma PointShareOfLine(lines: seq<Line>, k: nat, subtotal: real, pool: real)
    requires k < |lines| && subtotal != 0.0
    ensures Shares(Nets(lines), Nets(lines), subtotal, pool)[k]
         == Share(lines[k].NetPrice(), lines[k].NetPrice(), subtotal, pool)
  {
  }

  /** `PointOnTop.apply_to_cart`: the pool is sized first, then spread by `SpreadPoints`. */
  method ApplyPointOnTop(cart: seq<Item>, c: Campaign, base: real) returns (used: real)
    requires c.PointOnTop? && Distinct(cart)
    modifies cart
    ensures Snapshot(cart) == PointApplied(old(Snapshot(cart)), c, base)
    ensures used == TotalDiscount(Snapshot(cart)) - TotalDiscount(old(Snapshot(cart)))
  {
    ghost var before := Snapshot(cart);
    var currentTotalDiscount := TotalDiscount(Snapshot(cart));
    var maxCapValue := PercentOf(base, PointCapPercent);
    var remainingCap := maxCapValue - currentTotalDiscount;
    var pool := Min(c.points, remainingCap);
    pool := Max(0.0, pool);
    assert pool == PointPool(before, c.points, base);
    var subtotal := NetTotal(Snapshot(cart));
    if pool <= 0.0 || subtotal <= 0.0 {
      return 0.0;
    }
    ghost var shares := Shares(Nets(before), Nets(before), subtotal, pool);
    forall k | 0 <= k < |cart|
      ensures shares[k] == Share(cart[k].NetPrice(), cart[k].NetPrice(), subtotal, pool)
    {
      PointShareOfLine(before, k, subtotal, pool);
    }
    used := SpreadPoints(cart, c, subtotal, pool, shares);
    AppendedOutcome(cart, before, Singletons(c, shares));
  }

  /**
    The loop of `PointOnTop.apply_to_cart`: every item, in cart order, gets
    one record of its share of `pool`, weighted and capped by what is left
    of it, and the result is the sum of the shares. The ghost `shares` names
    those shares as they stand before the loop.
  */
  method SpreadPoints(cart: seq<Item>, c: Campaign, subtotal: real, pool: real, ghost shares: seq<real>)
    returns (used: real)
    requires Distinct(cart) && subtotal != 0.0 && |shares| == |cart|
    requires forall k :: 0 <= k < |cart| ==>
      shares[k] == Share(cart[k].NetPrice(), cart[k].NetPrice(), subtotal, pool)
    modifies cart
    ensures forall k :: 0 <= k < |cart| ==>
      cart[k].records == old(cart[k].records) + [DiscountDetail(c, shares[k])]
    ensures used == SumReals(shares)
  {
    used := 0.0;
    var i := 0;
    while i < |cart|
      invariant 0 <= i <= |cart|
      invariant forall k :: 0 <= k < i ==>
        cart[k].records == old(cart[k].records) + [DiscountDetail(c, shares[k])]
      invariant forall k :: i <= k < |cart| ==> cart[k].records == old(cart[k].records)
      invariant used == SumReals(shares[..i])
    {
      var item := cart[i];
      var itemPriceRemaining := item.NetPrice();
      var discount := Share(itemPriceRemaining, itemPriceRemaining, subtotal, pool);
      assert discount == shares[i] by {
        assert item.Value() == old(item.Value());
      }
      item.records := item.records + [DiscountDetail(c, discount)];
      assert SumReals(shares[..i + 1]) == SumReals(shares[..i]) + discount by {
        assert shares[..i + 1][..i] == shares[..i];
      }
      used := used + discount;
      i := i + 1;
    }
    assert shares[..|cart|] == shares;
  }

  /** `FixedCoupon.apply_to_cart`: the pool is the coupon's amount. */
  method ApplyFixedCoupon(cart: seq<Item>, c: Campaign, base: real) returns (used: real)
    requires c.FixedCoupon? && Distinct(cart)
    modifies cart
    ensures Snapshot(cart) == Distributed(old(Snapshot(cart)), c, Pool(c, base), base)
    ensures used == TotalDiscount(Snapshot(cart)) - TotalDiscount(old(Snapshot(cart)))
  {
    used := Distribute(cart, c, c.amount, base);
  }

  /** `PercentCoupon.apply_to_cart`: the pool is the percentage of the base price. */
  method ApplyPercentCoupon(cart: seq<Item>, c: Campaign, base: real) returns (used: real)
    requires c.PercentCoupon? && Distinct(cart)
    modifies cart
    ensures Snapshot(cart) == Distributed(old(Snapshot(cart)), c, Pool(c, base), base)
    ensures used == TotalDiscount(Snapshot(cart)) - TotalDiscount(old(Snapshot(cart)))
  {
    var discountPool := PercentOf(base, c.percentage);
    assert discountPool == Pool(c, base);
    used := Distribute(cart, c, discountPool, base);
  }

  /** `SeasonalCampaign.apply_to_cart`: the pool is `discount` per whole `everyAmount` of the base price. */
  method ApplySeasonal(cart: seq<Item>, c: Campaign, base: real) returns (used: real)
    requires c.Seasonal? && c.WellFormed() && Distinct(cart)
    modifies cart
    ensures Snapshot(cart) == Distributed(old(Snapshot(cart)), c, Pool(c, base), base)
    ensures used == TotalDiscount(Snapshot(cart)) - TotalDiscount(old(Snapshot(cart)))
  {
    var totalDiscountPool := Multiples(base, c.everyAmount) as real * c.discount;
    assert totalDiscountPool == Pool(c, base);
    used := Distribute(cart, c, totalDiscountPool, base);
  }

  /** `apply_to_cart` of every campaign kind, dispatched on the campaign's tag. */
  method ApplyCampaign(cart: seq<Item>, c: Campaign, base: real) returns (used: real)
    requires c.WellFormed() && Distinct(cart)
    modifies cart
    ensures Snapshot(cart) == Applied(old(Snapshot(cart)), c, base)
    ensures used == TotalDiscount(Snapshot(cart)) - TotalDiscount(old(Snapshot(cart)))
  {
    match c
    case FixedCoupon(_, _) =>
      used := ApplyFixedCoupon(cart, c, base);
    case PercentCoupon(_, _) =>
      used := ApplyPercentCoupon(cart, c, base);
    case Seasonal(_, _, _) =>
      used := ApplySeasonal(cart, c, base);
    case CategoryOnTop(_, _, _) =>
      used := ApplyCategoryOnTop(cart, c);
    case PointOnTop(_, _) =>
      used := ApplyPointOnTop(cart, c, base);
  }
}
