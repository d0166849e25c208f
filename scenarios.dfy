/**
  Concrete pricing runs with exact numbers: each pins the model to a
  value worked out by hand from the discount rules.
*/
module Scenarios {
  import opened Wrappers
  import opened Campaigns
  import opened Cart
  import opened Allocation
  import opened Strategies
  import opened Processor

  /**
    Base price 400: a flat 50 beats 10 percent (worth 40), and on a tie
    between a flat 40 and 10 percent the earlier candidate is kept.
  */
  lemma FixedBeatsPercent()
    ensures BestCoupon([PercentCoupon("P10", 10.0), FixedCoupon("F50", 50.0)], 400.0) == Some(FixedCoupon("F50", 50.0))
    ensures BestCoupon([FixedCoupon("F40", 40.0), PercentCoupon("P10", 10.0)], 400.0) == Some(FixedCoupon("F40", 40.0))
  {
    var pair := [PercentCoupon("P10", 10.0), FixedCoupon("F50", 50.0)];
    assert pair[..1] == [pair[0]] && pair[..1][..0] == [];
    var tie := [FixedCoupon("F40", 40.0), PercentCoupon("P10", 10.0)];
    assert tie[..1] == [tie[0]] && tie[..1][..0] == [];
  }

  /** Every 300 get 40, on a base of 650: two whole thresholds, so 80 and not 650 / 300 * 40. */
  lemma SeasonalRoundsDown()
    ensures Pool(Seasonal("S", 300.0, 40.0), 650.0) == 80.0
  {
    var n := Multiples(650.0, 300.0);
    assert n == 2;
  }

  /** 1000 points on a base of 500 with no earlier discount: capped at 20 percent, 100. */
  lemma PointsCappedAtFifthOfBase()
    ensures PointPool([Line(500.0, "X", [])], 1000.0, 500.0) == 100.0
  {
    assert TotalDiscount([Line(500.0, "X", [])]) == 0.0;
  }

  /** A definition of an unknown type is reported by name, and nothing is applied. */
  lemma UnknownTypeRejected(lines: seq<Line>)
    ensures Priced(lines, [Unrecognised("buy_one_get_one")]) == Err(UnknownType("buy_one_get_one"))
    ensures Message(UnknownType("buy_one_get_one")) == "Unknown campaign type: buy_one_get_one"
  {
    var defs := [Unrecognised("buy_one_get_one")];
    assert defs[..0] == [];
    assert Classification(defs) == Err(UnknownType("buy_one_get_one"));
  }

  /** A second seasonal campaign is rejected even when the first has a zero threshold, which is never divided by. */
  lemma ZeroThresholdStillRejected(lines: seq<Line>)
    ensures Priced(lines, [Known(Seasonal("S", 0.0, 10.0)), Known(Seasonal("T", 100.0, 5.0))]) == Err(DuplicateSeasonal)
  {
    var defs := [Known(Seasonal("S", 0.0, 10.0)), Known(Seasonal("T", 100.0, 5.0))];
    assert defs[..1] == [defs[0]] && defs[..1][..0] == [];
    assert Classification(defs[..1]) == Ok(Plan([], None, Some(Seasonal("S", 0.0, 10.0))));
  }

  /** One category campaign and one points campaign are two on-top campaigns. */
  lemma TwoOnTopRejected(lines: seq<Line>)
    ensures Priced(lines, [Known(CategoryOnTop("C", "X", 10.0)), Known(PointOnTop("P", 50.0))]) == Err(DuplicateOnTop)
  {
    var defs := [Known(CategoryOnTop("C", "X", 10.0)), Known(PointOnTop("P", 50.0))];
    assert defs[..1] == [defs[0]] && defs[..1][..0] == [];
    assert Classification(defs[..1]) == Ok(Plan([], Some(CategoryOnTop("C", "X", 10.0)), None));
  }

  /** A lone flat coupon is classified as the only coupon candidate. */
  lemma LoneCouponClassified(coupon: Campaign)
    requires coupon.IsCoupon()
    ensures Classification([Known(coupon)]) == Ok(Plan([coupon], None, None))
  {
    var defs := [Known(coupon)];
    assert defs[..0] == [];
    assert Plan([], None, None).coupons + [coupon] == [coupon];
  }

  /** A flat 20 spread over one line of 200 puts all 20 on that line. */
  lemma FlatCouponSpread()
    ensures Applied([Line(200.0, "X", [])], FixedCoupon("F1", 20.0), 200.0)
         == [Line(200.0, "X", [DiscountDetail(FixedCoupon("F1", 20.0), 20.0)])]
  {
    var coupon := FixedCoupon("F1", 20.0);
    var lines := [Line(200.0, "X", [])];
    WholeShare();
    var extra := Singletons(coupon, [20.0]);
    assert extra == [[DiscountDetail(coupon, 20.0)]] by {
      assert |extra| == 1 && extra[0] == [DiscountDetail(coupon, 20.0)];
    }
    assert Pool(coupon, 200.0) == 20.0;
    assert Distributed(lines, coupon, 20.0, 200.0) == Append(lines, extra);
    assert Append(lines, extra)[0] == Line(200.0, "X", [DiscountDetail(coupon, 20.0)]);
  }

  /** The only line of a cart takes the whole pool. */
  lemma WholeShare()
    ensures Shares(Prices([Line(200.0, "X", [])]), Nets([Line(200.0, "X", [])]), 200.0, 20.0) == [20.0]
  {
    var lines := [Line(200.0, "X", [])];
    assert Prices(lines) == [200.0];
    assert Nets(lines) == [200.0];
    assert 200.0 / 200.0 * 20.0 == 20.0;
    assert Share(200.0, 200.0, 200.0, 20.0) == 20.0;
  }

  /** The plan holding only a flat 20 applies that coupon and nothing else. */
  lemma FlatCouponPlanApplied()
    ensures PlanApplied([Line(200.0, "X", [])], Plan([FixedCoupon("F1", 20.0)], None, None), 200.0)
         == [Line(200.0, "X", [DiscountDetail(FixedCoupon("F1", 20.0), 20.0)])]
  {
    var coupon := FixedCoupon("F1", 20.0);
    assert BestCoupon([coupon], 200.0) == Some(coupon) by {
      assert [coupon][..0] == [];
    }
    FlatCouponSpread();
  }

  /**
    One line of base price 200 and one flat coupon of 20: the coupon is
    chosen, the line logs one record of 20 and the final price is 180.
  */
  lemma FlatCouponPriced()
    ensures Priced([Line(200.0, "X", [])], [Known(FixedCoupon("F1", 20.0))])
         == Ok([Line(200.0, "X", [DiscountDetail(FixedCoupon("F1", 20.0), 20.0)])])
    ensures NetTotal([Line(200.0, "X", [DiscountDetail(FixedCoupon("F1", 20.0), 20.0)])]) == 180.0
  {
    var lines := [Line(200.0, "X", [])];
    LoneCouponClassified(FixedCoupon("F1", 20.0));
    assert BasePrice(lines) == 200.0 by {
      assert Prices(lines) == [200.0];
    }
    FlatCouponPlanApplied();
    FlatCouponNet();
  }

  /** A line of 200 carrying one record of 20 nets 180. */
  lemma FlatCouponNet()
    ensures NetTotal([Line(200.0, "X", [DiscountDetail(FixedCoupon("F1", 20.0), 20.0)])]) == 180.0
  {
    var after := [Line(200.0, "X", [DiscountDetail(FixedCoupon("F1", 20.0), 20.0)])];
    assert after[0].records[..0] == [];
    assert Nets(after) == [180.0];
  }
}
