/**
  The discount processor: it classifies the campaign definitions, picks
  the best coupon and applies coupon, on-top campaign and seasonal
  campaign in that fixed order.
*/
module Processor {
  import opened Wrappers
  import opened Money
  import opened Campaigns
  import opened Cart
  import opened Strategies

  /**
    One campaign definition as given to the processor: a campaign of one of
    the five known types, or a definition whose `type` is none of them.
    `Unrecognised` only ever carries a type name outside the five known
    tags, since a definition with a known tag is parsed into `Known`.
  */
  datatype Definition = Known(campaign: Campaign) | Unrecognised(typeName: string)

  /** The validation errors; each aborts the run before any discount is applied. */
  datatype Error = DuplicateOnTop | DuplicateSeasonal | UnknownType(typeName: string)

  /** The prefix of the message for an unknown type, followed by that type's name. */
  const UnknownTypePrefix: string := "Unknown campaign type: "

  /** The message the processor returns for each error; an unknown type's name can be read back from it. */
  function Message(e: Error): (r: string)
    ensures e.UnknownType? <==> |r| >= |UnknownTypePrefix| && r[..|UnknownTypePrefix|] == UnknownTypePrefix
    ensures e.UnknownType? ==> r[|UnknownTypePrefix|..] == e.typeName
  {
    match e
    case DuplicateOnTop =>
      var m := "Only one On Top campaign is allowed";
      assert m[0] != UnknownTypePrefix[0];
      m
    case DuplicateSeasonal =>
      var m := "Only one Seasonal campaign is allowed";
      assert m[0] != UnknownTypePrefix[0];
      m
    case UnknownType(t) => UnknownTypePrefix + t
  }

  /** Different errors have different messages. */
  lemma MessageIdentifiesError(e1: Error, e2: Error)
    ensures Message(e1) == Message(e2) ==> e1 == e2
  {
    if Message(e1) == Message(e2) {
      if e1.UnknownType? || e2.UnknownType? {
        assert e1.typeName == Message(e1)[|UnknownTypePrefix|..] == e2.typeName;
      } else {
        assert Message(e1)[5] == Message(e2)[5];
      }
    }
  }

  /** Every seasonal definition has a non-zero threshold. */
  predicate WellFormedDefinitions(defs: seq<Definition>)
  {
    forall k :: 0 <= k < |defs| && defs[k].Known? ==> defs[k].campaign.WellFormed()
  }

  /** What classification keeps: the coupon candidates, in order, and at most one on-top and one seasonal campaign. */
  datatype Plan = Plan(coupons: seq<Campaign>, onTop: Option<Campaign>, seasonal: Option<Campaign>)

  /**
    One turn of the classification loop: an unknown type, or a second
    on-top or seasonal campaign, is an error; otherwise the campaign is
    added in its role and nothing else in the plan changes.
  */
  function ClassifyOne(plan: Plan, d: Definition): (r: Result<Plan, Error>)
    ensures d.Unrecognised? ==> r == Err(UnknownType(d.typeName))
    ensures r.Err? <==>
      d.Unrecognised? || (d.campaign.IsOnTop() && plan.onTop.Some?) || (d.campaign.Seasonal? && plan.seasonal.Some?)
    ensures r.Ok? ==>
      r.value.coupons == plan.coupons + (if d.campaign.IsCoupon() then [d.campaign] else []) &&
      r.value.onTop == (if d.campaign.IsOnTop() then Some(d.campaign) else plan.onTop) &&
      r.value.seasonal == (if d.campaign.Seasonal? then Some(d.campaign) else plan.seasonal)
  {
    match d
    case Unrecognised(t) => Err(UnknownType(t))
    case Known(c) =>
      if c.IsCoupon() then Ok(plan.(coupons := plan.coupons + [c]))
      else if c.IsOnTop() then
        if plan.onTop.Some? then Err(DuplicateOnTop) else Ok(plan.(onTop := Some(c)))
      else
        if plan.seasonal.Some? then Err(DuplicateSeasonal) else Ok(plan.(seasonal := Some(c)))
  }

  /**
    Classification of `defs` in input order, stopping at the first error.
    Whatever it keeps comes from `defs`, in the role its type gives it.
  */
  function Classification(defs: seq<Definition>): (r: Result<Plan, Error>)
    ensures r.Ok? ==> forall c :: c in r.value.coupons ==> c.IsCoupon() && Known(c) in defs
    ensures r.Ok? && r.value.onTop.Some? ==>
      r.value.onTop.value.IsOnTop() && Known(r.value.onTop.value) in defs
    ensures r.Ok? && r.value.seasonal.Some? ==>
      r.value.seasonal.value.Seasonal? && Known(r.value.seasonal.value) in defs
    ensures r.Err? && r.error.UnknownType? ==> Unrecognised(r.error.typeName) in defs
  {
    if defs == [] then Ok(Plan([], None, None))
    else
      var n := |defs| - 1;
      assert defs == defs[..n] + [defs[n]];
      match Classification(defs[..n])
      case Err(e) => Err(e)
      case Ok(plan) => ClassifyOne(plan, defs[n])
  }

  /** How many definitions are on-top campaigns. */
  function OnTopCount(defs: seq<Definition>): nat
  {
    if defs == [] then 0
    else
      var last := defs[|defs| - 1];
      OnTopCount(defs[..|defs| - 1]) + if last.Known? && last.campaign.IsOnTop() then 1 else 0
  }

  /** How many definitions are seasonal campaigns. */
  function SeasonalCount(defs: seq<Definition>): nat
  {
    if defs == [] then 0
    else
      var last := defs[|defs| - 1];
      SeasonalCount(defs[..|defs| - 1]) + if last.Known? && last.campaign.Seasonal? then 1 else 0
  }

  /** The coupon campaigns of `defs`, in input order. */
  function Coupons(defs: seq<Definition>): seq<Campaign>
  {
    if defs == [] then []
    else
      var last := defs[|defs| - 1];
      Coupons(defs[..|defs| - 1]) + if last.Known? && last.campaign.IsCoupon() then [last.campaign] else []
  }

  /** Definitions the processor accepts: all types known, at most one on-top, at most one seasonal. */
  predicate Accepted(defs: seq<Definition>)
  {
    (forall k :: 0 <= k < |defs| ==> defs[k].Known?) && OnTopCount(defs) <= 1 && SeasonalCount(defs) <= 1
  }

  /**
    Classification succeeds exactly on accepted definitions; it then
    keeps every coupon in order, and an on-top or seasonal campaign exactly
    when one was given. Otherwise the error names a fault the definitions
    really have.
  */
  lemma {:induction false} ClassificationSpec(defs: seq<Definition>)
    ensures Classification(defs).Ok? <==> Accepted(defs)
    ensures Classification(defs).Ok? ==>
      var plan := Classification(defs).value;
      plan.coupons == Coupons(defs) &&
      (plan.onTop.Some? <==> OnTopCount(defs) == 1) &&
      (plan.seasonal.Some? <==> SeasonalCount(defs) == 1)
    ensures Classification(defs) == Err(DuplicateOnTop) ==> OnTopCount(defs) >= 2
    ensures Classification(defs) == Err(DuplicateSeasonal) ==> SeasonalCount(defs) >= 2
  {
    if defs != [] {
      var n := |defs| - 1;
      ClassificationSpec(defs[..n]);
      AcceptedStep(defs);
    }
  }

  /** A list is accepted exactly when its prefix is, its last type is known and the counts stay within one. */
  lemma AcceptedStep(defs: seq<Definition>)
    requires defs != []
    ensures Accepted(defs) <==>
      Accepted(defs[..|defs| - 1]) && defs[|defs| - 1].Known? && OnTopCount(defs) <= 1 && SeasonalCount(defs) <= 1
  {
    var n := |defs| - 1;
    var prefix := defs[..n];
    assert forall k :: 0 <= k < n ==> prefix[k] == defs[k];
    assert OnTopCount(prefix) <= OnTopCount(defs) && SeasonalCount(prefix) <= SeasonalCount(defs);
  }

  /** Once classification has failed on a prefix, the whole run fails with that error. */
  lemma {:induction false} ClassificationErrorSticks(defs: seq<Definition>, i: nat)
    requires i <= |defs| && Classification(defs[..i]).Err?
    ensures Classification(defs) == Classification(defs[..i])
  {
    if i < |defs| {
      var n := |defs| - 1;
      assert defs[..n][..i] == defs[..i];
      ClassificationErrorSticks(defs[..n], i);
    } else {
      assert defs[..i] == defs;
    }
  }

  /** The classification pass of `calculate_final_price`. */
  method Classify(defs: seq<Definition>) returns (r: Result<Plan, Error>)
    ensures r == Classification(defs)
  {
    var couponCandidates: seq<Campaign> := [];
    var onTopDiscount: Option<Campaign> := None;
    var seasonalDiscount: Option<Campaign> := None;
    var i := 0;
    while i < |defs|
      invariant 0 <= i <= |defs|
      invariant Classification(defs[..i]) == Ok(Plan(couponCandidates, onTopDiscount, seasonalDiscount))
    {
      assert defs[..i + 1][..i] == defs[..i];
      match defs[i] {
        case Unrecognised(t) =>
          ClassificationErrorSticks(defs, i + 1);
          return Err(UnknownType(t));
        case Known(c) =>
          if c.IsCoupon() {
            couponCandidates := couponCandidates + [c];
          } else if c.IsOnTop() {
            if onTopDiscount.Some? {
              ClassificationErrorSticks(defs, i + 1);
              return Err(DuplicateOnTop);
            }
            onTopDiscount := Some(c);
          } else {
            if seasonalDiscount.Some? {
              ClassificationErrorSticks(defs, i + 1);
              return Err(DuplicateSeasonal);
            }
            seasonalDiscount := Some(c);
          }
      }
      i := i + 1;
    }
    assert defs[..i] == defs;
    r := Ok(Plan(couponCandidates, onTopDiscount, seasonalDiscount));
  }

  /**
    The running maximum of `_select_best_coupon`: the index of the chosen
    candidate (-1 for none yet) and the largest value seen, starting from
    the sentinel -1.
  */
  function Selection(candidates: seq<Campaign>, base: real): (r: (int, real))
    ensures -1 <= r.0 < |candidates|
    ensures r.0 == -1 ==> r.1 == -1.0
    ensures r.0 >= 0 ==> r.1 == CouponValue(candidates[r.0], base)
  {
    if candidates == [] then (-1, -1.0)
    else
      var n := |candidates| - 1;
      var (best, maxDiscount) := Selection(candidates[..n], base);
      var value := CouponValue(candidates[n], base);
      if value > maxDiscount then (n, value) else (best, maxDiscount)
  }

  /**
    The coupon `_select_best_coupon` returns: a candidate worth more than
    the sentinel -1 and at least as much as every other, or none exactly
    when no candidate is worth more than -1.
  */
  function BestCoupon(candidates: seq<Campaign>, base: real): (r: Option<Campaign>)
    ensures r.None? <==> forall k :: 0 <= k < |candidates| ==> CouponValue(candidates[k], base) <= -1.0
    ensures r.Some? ==> r.value in candidates && CouponValue(r.value, base) > -1.0
    ensures r.Some? ==> forall k :: 0 <= k < |candidates| ==> CouponValue(candidates[k], base) <= CouponValue(r.value, base)
  {
    SelectionIsFirstStrictMax(candidates, base);
    var i := Selection(candidates, base).0;
    if i < 0 then None else Some(candidates[i])
  }

  /**
    The chosen coupon is the first candidate worth strictly more than every
    earlier one and at least as much as every later one; none is chosen
    exactly when no candidate is worth more than the sentinel -1 (in
    particular when there are no candidates).
  */
  lemma {:induction false} SelectionIsFirstStrictMax(candidates: seq<Campaign>, base: real)
    ensures var i := Selection(candidates, base).0;
      (i == -1 <==> forall k :: 0 <= k < |candidates| ==> CouponValue(candidates[k], base) <= -1.0) &&
      (i >= 0 ==>
        CouponValue(candidates[i], base) > -1.0 &&
        (forall k :: 0 <= k < i ==> CouponValue(candidates[k], base) < CouponValue(candidates[i], base)) &&
        (forall k :: i < k < |candidates| ==> CouponValue(candidates[k], base) <= CouponValue(candidates[i], base)))
  {
    if candidates != [] {
      var n := |candidates| - 1;
      SelectionIsFirstStrictMax(candidates[..n], base);
      assert forall k :: 0 <= k < n ==> candidates[..n][k] == candidates[k];
    }
  }

  /** `_select_best_coupon`: a strict running maximum over the candidates. */
  method SelectBestCoupon(base: real, candidates: seq<Campaign>) returns (best: Option<Campaign>)
    ensures best == BestCoupon(candidates, base)
  {
    best := None;
    var maxDiscount := -1.0;
    ghost var bestIndex := -1;
    var i := 0;
    while i < |candidates|
      invariant 0 <= i <= |candidates|
      invariant Selection(candidates[..i], base) == (bestIndex, maxDiscount)
      invariant best == if bestIndex < 0 then None else Some(candidates[bestIndex])
    {
      assert candidates[..i + 1][..i] == candidates[..i];
      var coupon := candidates[i];
      var discountValue := 0.0;
      match coupon {
        case FixedCoupon(_, amount) =>
          discountValue := amount;
        case PercentCoupon(_, percentage) =>
          discountValue := PercentOf(base, percentage);
        case _ =>
      }
      if discountValue > maxDiscount {
        maxDiscount := discountValue;
        best := Some(coupon);
        bestIndex := i;
      }
      i := i + 1;
    }
    assert candidates[..i] == candidates;
  }

  /** Every campaign the plan holds can be applied. */
  predicate WellFormedPlan(plan: Plan)
  {
    (forall c :: c in plan.coupons ==> c.WellFormed()) &&
    (plan.onTop.Some? ==> plan.onTop.value.WellFormed()) &&
    (plan.seasonal.Some? ==> plan.seasonal.value.WellFormed())
  }

  /** The plan of well-formed definitions can be applied. */
  lemma ClassificationWellFormed(defs: seq<Definition>)
    requires WellFormedDefinitions(defs) && Classification(defs).Ok?
    ensures WellFormedPlan(Classification(defs).value)
  {
    var plan := Classification(defs).value;
    if plan.seasonal.Some? {
      var k :| 0 <= k < |defs| && defs[k] == Known(plan.seasonal.value);
    }
  }

  /** A campaign step when a campaign was chosen, and no change otherwise. */
  function ApplyChosen(lines: seq<Line>, chosen: Option<Campaign>, base: real): (r: seq<Line>)
    requires chosen.Some? ==> chosen.value.WellFormed()
    ensures chosen.None? ==> r == lines
    ensures chosen.Some? ==> IsStep(lines, r, chosen.value)
  {
    if chosen.Some? then Applied(lines, chosen.value, base) else lines
  }

  /**
    Applying a chosen campaign, or none, keeps every item at or above zero,
    keeps the base price, only appends to the logs and never decreases the
    cart-wide discount.
  */
  lemma ApplyChosenKeeps(lines: seq<Line>, chosen: Option<Campaign>, base: real)
    requires chosen.Some? ==> chosen.value.WellFormed()
    ensures Extends(lines, ApplyChosen(lines, chosen, base))
    ensures BasePrice(ApplyChosen(lines, chosen, base)) == BasePrice(lines)
    ensures TotalDiscount(lines) <= TotalDiscount(ApplyChosen(lines, chosen, base))
    ensures Sound(lines) ==> Sound(ApplyChosen(lines, chosen, base))
  {
    if chosen.Some? {
      var after := Applied(lines, chosen.value, base);
      StepExtends(lines, after, chosen.value);
      StepMonotone(lines, after, chosen.value);
      if Sound(lines) {
        StepKeepsSound(lines, after, chosen.value);
      }
    }
  }

  /** The best coupon, then the on-top campaign, then the seasonal campaign, each sized against `base`. */
  function PlanApplied(lines: seq<Line>, plan: Plan, base: real): (r: seq<Line>)
    requires WellFormedPlan(plan)
    ensures plan.coupons == [] && plan.onTop.None? && plan.seasonal.None? ==> r == lines
    ensures |r| == |lines|
  {
    var best := BestCoupon(plan.coupons, base);
    assert best.Some? ==> best.value in plan.coupons;
    ApplyChosen(ApplyChosen(ApplyChosen(lines, best, base), plan.onTop, base), plan.seasonal, base)
  }

  /**
    `calculate_final_price` on values: the classified definitions applied
    to the cart, with the base price computed once, before any discount.
  */
  function Priced(lines: seq<Line>, defs: seq<Definition>): (r: Result<seq<Line>, Error>)
    requires Accepted(defs) ==> WellFormedDefinitions(defs)
    ensures r.Err? <==> !Accepted(defs)
  {
    ClassificationSpec(defs);
    match Classification(defs)
    case Err(e) => Err(e)
    case Ok(plan) =>
      ClassificationWellFormed(defs);
      Ok(PlanApplied(lines, plan, BasePrice(lines)))
  }

  /**
    A successful run on a cart with no item below zero leaves no item below
    zero, keeps the base price, only appends records, never takes a
    discount back, and its final price is the base price less every
    discount given.
  */
  lemma PricedRun(lines: seq<Line>, defs: seq<Definition>)
    requires (Accepted(defs) ==> WellFormedDefinitions(defs)) && Sound(lines) && Priced(lines, defs).Ok?
    ensures var after := Priced(lines, defs).value;
      Sound(after) &&
      Extends(lines, after) &&
      BasePrice(after) == BasePrice(lines) &&
      TotalDiscount(lines) <= TotalDiscount(after) &&
      NetTotal(after) == BasePrice(lines) - TotalDiscount(after)
  {
    ClassificationSpec(defs);
    ClassificationWellFormed(defs);
    var after := PlanApplied(lines, Classification(defs).value, BasePrice(lines));
    PlanAppliedKeeps(lines, Classification(defs).value, BasePrice(lines));
    NetTotalIsBaseLessDiscount(after);
  }

  /** The three steps of a plan together keep what each step keeps. */
  lemma PlanAppliedKeeps(lines: seq<Line>, plan: Plan, base: real)
    requires WellFormedPlan(plan) && Sound(lines)
    ensures var after := PlanApplied(lines, plan, base);
      Sound(after) &&
      Extends(lines, after) &&
      BasePrice(after) == BasePrice(lines) &&
      TotalDiscount(lines) <= TotalDiscount(after)
  {
    var best := BestCoupon(plan.coupons, base);
    assert best.Some? ==> best.value in plan.coupons;
    var afterCoupon := ApplyChosen(lines, best, base);
    ApplyChosenKeeps(lines, best, base);
    var afterOnTop := ApplyChosen(afterCoupon, plan.onTop, base);
    ApplyChosenKeeps(afterCoupon, plan.onTop, base);
    var after := ApplyChosen(afterOnTop, plan.seasonal, base);
    ApplyChosenKeeps(afterOnTop, plan.seasonal, base);
    ExtendsTransitive(lines, afterCoupon, afterOnTop);
    ExtendsTransitive(lines, afterOnTop, after);
  }

  /**
    `calculate_final_price`: on an inadmissible definition list it reports
    the first fault and leaves every item as it was; otherwise it applies
    the plan to the cart in place and returns the sum of the net prices.
  */
  method CalculateFinalPrice(cart: seq<Item>, defs: seq<Definition>) returns (r: Result<real, Error>)
    requires Distinct(cart) && (Accepted(defs) ==> WellFormedDefinitions(defs))
    modifies cart
    ensures r.Err? ==> Priced(old(Snapshot(cart)), defs) == Err(r.error)
    ensures r.Err? ==> Snapshot(cart) == old(Snapshot(cart))
    ensures r.Ok? ==> Priced(old(Snapshot(cart)), defs) == Ok(Snapshot(cart))
    ensures r.Ok? ==> r.value == NetTotal(Snapshot(cart))
  {
    ghost var before := Snapshot(cart);
    var classified := Classify(defs);
    if classified.Err? {
      return Err(classified.error);
    }
    var plan := classified.value;
    ClassificationSpec(defs);
    ClassificationWellFormed(defs);
    var totalBasePrice := BasePrice(Snapshot(cart));
    var bestCoupon := SelectBestCoupon(totalBasePrice, plan.coupons);
    assert bestCoupon.Some? ==> bestCoupon.value in plan.coupons;
    if bestCoupon.Some? {
      var _ := ApplyCampaign(cart, bestCoupon.value, totalBasePrice);
    }
    if plan.onTop.Some? {
      var _ := ApplyCampaign(cart, plan.onTop.value, totalBasePrice);
    }
    if plan.seasonal.Some? {
      var _ := ApplyCampaign(cart, plan.seasonal.value, totalBasePrice);
    }
    var finalTotalPrice := NetTotal(Snapshot(cart));
    r := Ok(finalTotalPrice);
  }
}
