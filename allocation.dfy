/**
  The allocation primitive shared by the fixed, percentage and seasonal
  campaigns (and, with other weights, by the points campaign): one pass
  over the cart giving every item a share of the pool in proportion to its
  weight, clamped to what is left of that item's price.
*/
module Allocation {
  import opened Money
  import opened Campaigns
  import opened Cart

  /**
    The share of `pool` each weight earns out of `denominator`, each cut
    down to its cap and never negative. Every share is computed from the
    same, undiminished pool: what one cap cuts off is not handed to others.
  */
  function Shares(weights: seq<real>, caps: seq<real>, denominator: real, pool: real): (r: seq<real>)
    requires |caps| == |weights| && denominator != 0.0
    ensures |r| == |weights|
    ensures forall k :: 0 <= k < |r| ==> 0.0 <= r[k] <= Max(0.0, caps[k])
  {
    var r := seq(|weights|, k requires 0 <= k < |weights| => Share(weights[k], caps[k], denominator, pool));
    assert forall k :: 0 <= k < |r| ==> r[k] == Share(weights[k], caps[k], denominator, pool);
    r
  }

  /** One item's share: its part of the pool, clamped to its cap. */
  function Share(weight: real, cap: real, denominator: real, pool: real): (r: real)
    requires denominator != 0.0
    ensures 0.0 <= r <= Max(0.0, cap)
    ensures 0.0 <= weight / denominator * pool <= cap ==> r == weight / denominator * pool
  {
    Clamp(weight / denominator * pool, cap)
  }

  /** A share is at most the item's uncapped part of the pool. */
  lemma ShareBelowPart(weights: seq<real>, caps: seq<real>, denominator: real, pool: real, k: nat)
    requires |caps| == |weights| && denominator > 0.0 && pool >= 0.0 && k < |weights|
    requires weights[k] >= 0.0
    ensures Shares(weights, caps, denominator, pool)[k] <= Scale(weights, pool / denominator)[k]
  {
    assert Shares(weights, caps, denominator, pool)[k] == Share(weights[k], caps[k], denominator, pool);
    var x := weights[k] / denominator * pool;
    assert x == weights[k] * (pool / denominator);
  }

  /** All shares together are at most the weights' uncapped parts of the pool. */
  lemma SharesBelowParts(weights: seq<real>, caps: seq<real>, denominator: real, pool: real)
    requires |caps| == |weights| && denominator > 0.0 && pool >= 0.0
    requires forall k :: 0 <= k < |weights| ==> weights[k] >= 0.0
    ensures SumReals(Shares(weights, caps, denominator, pool)) <= SumReals(Scale(weights, pool / denominator))
  {
    var shares := Shares(weights, caps, denominator, pool);
    var parts := Scale(weights, pool / denominator);
    forall k | 0 <= k < |weights|
      ensures shares[k] <= parts[k]
    {
      ShareBelowPart(weights, caps, denominator, pool, k);
    }
    SumMonotone(shares, parts);
  }

  /** Parts taken in proportion to weights that sum to the denominator add up to the pool. */
  lemma PartsSumToPool(weights: seq<real>, denominator: real, pool: real)
    requires denominator > 0.0
    requires SumReals(weights) == denominator
    ensures SumReals(Scale(weights, pool / denominator)) == pool
  {
    SumScale(weights, pool / denominator);
    CancelRatio(denominator, pool);
  }

  lemma CancelRatio(d: real, p: real)
    requires d > 0.0
    ensures d * (p / d) == p
  {
  }

  /**
    When the denominator is the total of the non-negative weights, the
    shares never add up to more than the pool, however the caps cut them.
  */
  lemma SharesWithinPool(weights: seq<real>, caps: seq<real>, denominator: real, pool: real)
    requires |caps| == |weights| && denominator > 0.0 && pool >= 0.0
    requires forall k :: 0 <= k < |weights| ==> weights[k] >= 0.0
    requires SumReals(weights) == denominator
    ensures SumReals(Shares(weights, caps, denominator, pool)) <= pool
  {
    SharesBelowParts(weights, caps, denominator, pool);
    PartsSumToPool(weights, denominator, pool);
  }

  /** A pool no larger than the denominator hands each non-negative weight at most itself. */
  lemma PartAtMostWeight(weight: real, denominator: real, pool: real)
    requires 0.0 <= weight && 0.0 <= pool <= denominator && denominator > 0.0
    ensures 0.0 <= weight / denominator * pool <= weight
  {
    var q := pool / denominator;
    DivisionCancels(pool, denominator);
    FractionAtMostOne(pool, denominator, q);
    assert weight / denominator * pool == weight * q;
    if weight > 0.0 {
      MultiplyBelow(q, 1.0, weight);
      MultiplyBelow(0.0, q, weight);
    }
  }

  lemma FractionAtMostOne(x: real, d: real, q: real)
    requires 0.0 <= x <= d && d > 0.0 && q * d == x
    ensures 0.0 <= q <= 1.0
  {
    MultiplyBelow(1.0, q, d);
    MultiplyBelow(q, 0.0, d);
  }

  /** One record from `source` per amount, to append to the matching line. */
  function Singletons(source: Campaign, amounts: seq<real>): (extra: seq<seq<DiscountDetail>>)
    ensures |extra| == |amounts|
    ensures forall k :: 0 <= k < |amounts| ==> extra[k] == [DiscountDetail(source, amounts[k])]
    ensures Added(extra) == SumReals(amounts)
  {
    var extra := seq(|amounts|, k requires 0 <= k < |amounts| => [DiscountDetail(source, amounts[k])]);
    var sums := seq(|extra|, k requires 0 <= k < |extra| => SumAmounts(extra[k]));
    forall k | 0 <= k < |extra|
      ensures sums[k] == amounts[k]
    {
      assert extra[k][..0] == [];
      assert SumAmounts(extra[k]) == SumAmounts([]) + amounts[k];
    }
    assert sums == amounts;
    extra
  }

  /** The proportional step: weights are base prices, caps are what is left of each item. */
  function Distributed(lines: seq<Line>, source: Campaign, pool: real, total: real): (r: seq<Line>)
    ensures IsStep(lines, r, source)
    ensures total == 0.0 || pool <= 0.0 ==> r == lines
    ensures !(total == 0.0 || pool <= 0.0) ==>
      forall k :: 0 <= k < |r| ==> |r[k].records| == |lines[k].records| + 1
  {
    if total == 0.0 || pool <= 0.0 then lines
    else
      var r := Append(lines, Singletons(source, Shares(Prices(lines), Nets(lines), total, pool)));
      assert forall k :: 0 <= k < |lines| ==> r[k].records[..|lines[k].records|] == lines[k].records;
      r
  }

  /**
    When `total` is the cart's base price and no item price is negative, the
    step gives away no more than the pool.
  */
  lemma DistributedWithinPool(lines: seq<Line>, source: Campaign, pool: real, total: real)
    requires forall k :: 0 <= k < |lines| ==> lines[k].initialPrice >= 0.0
    requires total == BasePrice(lines)
    ensures TotalDiscount(Distributed(lines, source, pool, total)) - TotalDiscount(lines) <= Max(0.0, pool)
  {
    if !(total == 0.0 || pool <= 0.0) {
      var shares := Shares(Prices(lines), Nets(lines), total, pool);
      SumNonNegative(Prices(lines));
      SharesWithinPool(Prices(lines), Nets(lines), total, pool);
      AppendAdds(lines, Singletons(source, shares));
    }
  }

  /** A share whose cap is its own non-negative weight, from a pool no larger than the denominator, is never cut. */
  lemma ShareUncapped(weight: real, denominator: real, pool: real)
    requires 0.0 <= weight && 0.0 <= pool <= denominator && denominator > 0.0
    ensures Share(weight, weight, denominator, pool) == weight * (pool / denominator)
  {
    PartAtMostWeight(weight, denominator, pool);
    assert weight / denominator * pool == weight * (pool / denominator);
  }

  /** Shares capped by their own non-negative weights, from a pool no larger than the denominator, are the uncapped parts. */
  lemma SharesUncapped(weights: seq<real>, denominator: real, pool: real)
    requires forall k :: 0 <= k < |weights| ==> 0.0 <= weights[k]
    requires 0.0 <= pool <= denominator && denominator > 0.0
    ensures Shares(weights, weights, denominator, pool) == Scale(weights, pool / denominator)
  {
    var shares := Shares(weights, weights, denominator, pool);
    forall k | 0 <= k < |weights|
      ensures shares[k] == Scale(weights, pool / denominator)[k]
    {
      ShareUncapped(weights[k], denominator, pool);
    }
  }

  /** On a cart with empty logs every net price is the base price and no discount has been given. */
  lemma FreshCart(lines: seq<Line>)
    requires forall k :: 0 <= k < |lines| ==> lines[k].records == []
    ensures Nets(lines) == Prices(lines)
    ensures TotalDiscount(lines) == 0.0
  {
    assert Discounts(lines) == Scale(Prices(lines), 0.0);
    SumScale(Prices(lines), 0.0);
  }

  /**
    Proportional fairness: on a cart with no discount yet and no negative
    price, a pool of at most the base price is given away in full, each
    item receiving exactly its base price times `ratio`, the pool's
    fraction of the cart's base price.
  */
  lemma DistributedExact(lines: seq<Line>, source: Campaign, pool: real, ratio: real)
    requires forall k :: 0 <= k < |lines| ==> lines[k].initialPrice >= 0.0 && lines[k].records == []
    requires 0.0 < pool <= BasePrice(lines) && ratio == pool / BasePrice(lines)
    ensures forall k :: 0 <= k < |lines| ==>
      Distributed(lines, source, pool, BasePrice(lines))[k].records
        == [DiscountDetail(source, lines[k].initialPrice * ratio)]
    ensures TotalDiscount(Distributed(lines, source, pool, BasePrice(lines))) == pool
  {
    FreshCart(lines);
    DistributedEach(lines, source, pool, BasePrice(lines), ratio);
    DistributedSum(lines, source, pool, BasePrice(lines));
  }

  /** The per-item half of `DistributedExact`. */
  lemma DistributedEach(lines: seq<Line>, source: Campaign, pool: real, total: real, ratio: real)
    requires forall k :: 0 <= k < |lines| ==> lines[k].initialPrice >= 0.0 && lines[k].records == []
    requires Nets(lines) == Prices(lines) && 0.0 < pool <= total && ratio == pool / total
    ensures forall k :: 0 <= k < |lines| ==>
      Distributed(lines, source, pool, total)[k].records
        == [DiscountDetail(source, lines[k].initialPrice * ratio)]
  {
    DistributedUncapped(lines, source, pool, total);
    FreshRecords(lines, source, ratio);
  }

  /** The whole-cart half of `DistributedExact`. */
  lemma DistributedSum(lines: seq<Line>, source: Campaign, pool: real, total: real)
    requires forall k :: 0 <= k < |lines| ==> lines[k].initialPrice >= 0.0
    requires Nets(lines) == Prices(lines) && TotalDiscount(lines) == 0.0
    requires total == BasePrice(lines) && 0.0 < pool <= total
    ensures TotalDiscount(Distributed(lines, source, pool, total)) == pool
  {
    var extra := Singletons(source, Scale(Prices(lines), pool / total));
    DistributedUncapped(lines, source, pool, total);
    PartsSumToPool(Prices(lines), total, pool);
    AppendAdds(lines, extra);
  }

  /** With every cap at least its weight's part, the allocation appends exactly the uncapped parts. */
  lemma DistributedUncapped(lines: seq<Line>, source: Campaign, pool: real, total: real)
    requires forall k :: 0 <= k < |lines| ==> lines[k].initialPrice >= 0.0
    requires Nets(lines) == Prices(lines) && 0.0 < pool <= total
    ensures Distributed(lines, source, pool, total)
         == Append(lines, Singletons(source, Scale(Prices(lines), pool / total)))
  {
    SharesUncapped(Prices(lines), total, pool);
  }

  /** On a cart with empty logs, appending the parts of `ratio` leaves each log holding just its part. */
  lemma FreshRecords(lines: seq<Line>, source: Campaign, ratio: real)
    requires forall k :: 0 <= k < |lines| ==> lines[k].records == []
    ensures forall k :: 0 <= k < |lines| ==>
      Append(lines, Singletons(source, Scale(Prices(lines), ratio)))[k].records
        == [DiscountDetail(source, lines[k].initialPrice * ratio)]
  {
    var parts := Scale(Prices(lines), ratio);
    var extra := Singletons(source, parts);
    forall k | 0 <= k < |lines|
      ensures Append(lines, extra)[k].records == [DiscountDetail(source, lines[k].initialPrice * ratio)]
    {
      assert parts[k] == lines[k].initialPrice * ratio;
      assert extra[k] == [DiscountDetail(source, parts[k])];
      assert Append(lines, extra)[k].records == [] + extra[k] == extra[k];
    }
  }

  /** The share the allocation pass computes for line `k` of the cart. */
  lemma ShareOfLine(lines: seq<Line>, k: nat, total: real, pool: real)
    requires k < |lines| && total != 0.0
    ensures Shares(Prices(lines), Nets(lines), total, pool)[k]
         == Share(lines[k].initialPrice, lines[k].NetPrice(), total, pool)
  {
  }

  /**
    `distribute_discount`: appends one record per item, in cart order, and
    returns the sum of what it appended. A zero base price or a pool that
    is not positive is a no-op that returns 0.
  */
  method Distribute(cart: seq<Item>, source: Campaign, pool: real, total: real) returns (used: real)
    requires Distinct(cart)
    modifies cart
    ensures Snapshot(cart) == Distributed(old(Snapshot(cart)), source, pool, total)
    ensures used == TotalDiscount(Snapshot(cart)) - TotalDiscount(old(Snapshot(cart)))
  {
    ghost var before := Snapshot(cart);
    if total == 0.0 || pool <= 0.0 {
      return 0.0;
    }
    ghost var shares := Shares(Prices(before), Nets(before), total, pool);
    forall k | 0 <= k < |cart|
      ensures shares[k] == Share(cart[k].initialPrice, cart[k].NetPrice(), total, pool)
    {
      ShareOfLine(before, k, total, pool);
    }
    used := Allot(cart, source, pool, total, shares);
    AppendedOutcome(cart, before, Singletons(source, shares));
  }

  /**
    The loop of `distribute_discount`: every item, in cart order, gets one
    record of its share of `pool`, weighted by its base price and capped by
    what is left of it, and the result is the sum of the shares. The ghost
    `shares` names those shares as they stand before the loop.
  */
  method Allot(cart: seq<Item>, source: Campaign, pool: real, total: real, ghost shares: seq<real>)
    returns (used: real)
    requires Distinct(cart) && total != 0.0 && |shares| == |cart|
    requires forall k :: 0 <= k < |cart| ==>
      shares[k] == Share(cart[k].initialPrice, cart[k].NetPrice(), total, pool)
    modifies cart
    ensures forall k :: 0 <= k < |cart| ==>
      cart[k].records == old(cart[k].records) + [DiscountDetail(source, shares[k])]
    ensures used == SumReals(shares)
  {
    used := 0.0;
    var remaining := pool;
    var i := 0;
    while i < |cart|
      invariant 0 <= i <= |cart|
      invariant forall k :: 0 <= k < i ==>
        cart[k].records == old(cart[k].records) + [DiscountDetail(source, shares[k])]
      invariant forall k :: i <= k < |cart| ==> cart[k].records == old(cart[k].records)
      invariant used == SumReals(shares[..i])
    {
      var item := cart[i];
      var itemPrice := item.initialPrice;
      var maxItemDiscount := itemPrice - item.CurrentDiscount();
      assert maxItemDiscount == old(cart[i].NetPrice()) by {
        assert item.records == old(item.records);
      }
      var discount := Share(itemPrice, maxItemDiscount, total, remaining);
      item.records := item.records + [DiscountDetail(source, discount)];
      assert SumReals(shares[..i + 1]) == SumReals(shares[..i]) + discount by {
        assert shares[..i + 1][..i] == shares[..i];
      }
      used := used + discount;
      i := i + 1;
    }
    assert shares[..|cart|] == shares;
  }
}
