# Discount pricing engine, modelled in Dafny

The engine prices a shopping cart under a list of promotion campaigns. Each
cart item has a unit price, a quantity and a category. Its base price is
price × quantity. It keeps an append-only log of discount records, and its
net price is the base price less the sum of that log.

There are five campaign kinds, in three roles:

- **Coupons.** A flat amount, or a percentage of the base price. Any number
  may be given, and the one worth most is chosen.
- **On-top campaigns.** A percentage off the items of one category, or
  points capped at 20% of the base price. At most one may be given.
- **Seasonal campaign.** A fixed discount for every whole threshold
  contained in the base price. At most one may be given.

The flat, percentage and seasonal campaigns share one allocation pass. Each
item receives a share of the pool proportional to its base price. That
share is cut down to what is left of the item's price, and never goes
below zero. The points campaign spreads its pool in proportion to the
remaining net prices. The category campaign takes its percentage of what is
left of each matching item.

The processor runs in this order:

1. It classifies the definitions and rejects unknown types, a second on-top
   campaign or a second seasonal campaign before anything is applied.
2. It computes the base price once.
3. It applies the best coupon, then the on-top campaign, then the seasonal
   campaign.
4. It returns the sum of the net prices.

## Layout

- `money.dfy`: exact amounts (`real`), clamping, and sums with their
  linearity, monotonicity and scaling lemmas.
- `campaigns.dfy`: the campaign variants, floor division, and the pool each
  pooled campaign spreads.
- `cart.dfy`: discount records, the mutable `Item` class, and the value view
  of a cart.
  - `Snapshot` turns the cart into `seq<Line>`.
  - It defines base price, total discount and net total.
  - `IsStep` is the step relation every campaign obeys.
- `allocation.dfy`: the shared proportional allocation. `Distributed` is the
  specification, and `Distribute` is the in-place loop proved against it.
- `strategies.dfy`: each campaign's application to the cart, both as a
  function on values and as a method that updates the items in place.
- `processor.dfy`: classification, best-coupon selection and the whole
  pricing run, both as the function `Priced` and the method
  `CalculateFinalPrice`.
- `scenarios.dfy`: worked runs with exact numbers.

Every in-place method states the new cart value as a specification function
of the old one. Every campaign-step method also states that the amount it
reports is exactly the total it appended; `CalculateFinalPrice` reports the
net total of the new cart. The properties of the run are proved as lemmas about
those functions.

## Model

| member | source | states |
|---|---|---|
| Cart.Item.constructor | discount_module.py:10-16 | a new item's base price is price × quantity, its log is empty, and its net price equals its base price |
| Cart.Item.CurrentDiscount | discount_module.py:18-19 | an item's current discount is the sum of the amounts in its log, and 0 for an empty log |
| Cart.Item.NetPrice | discount_module.py:21-22 | an item's net price is its base price less its current discount |
| Cart.SumAmountsConcat | discount_module.py:18-19 | the current discount of a log is additive over appended records |
| Cart.SumAmounts | discount_module.py:18-19 | a log sums its amounts in log order; the empty log sums to 0 (additivity is `SumAmountsConcat`) |
| Cart.Line.Discount | discount_module.py:18-19 | the discount of a line value is the sum of its log: 0 when the log is empty and never negative when no amount is |
| Cart.Line.NetPrice | discount_module.py:21-22 | the net price of a line value is its base price less its discount (no contract of its own; the cart-wide relation is `NetTotalIsBaseLessDiscount`) |
| Cart.BasePrice | discount_module.py:179 | the base price of a cart is the sum of its items' base prices: 0 for an empty cart and never negative when no item price is |
| Cart.TotalDiscount | discount_module.py:106 | the cart-wide discount is the sum of every item's discount: 0 for an empty cart and never negative when no item's discount is |
| Cart.NetTotal | discount_module.py:192 | the net total is the sum of the net prices: 0 for an empty cart and never negative when no item is below zero |
| Cart.NetTotalIsBaseLessDiscount | discount_module.py:192 | the sum of net prices is the total base price less the sum of every discount record in the cart |
| Cart.AppendAdds | discount_module.py:47-48 | appending records leaves the base price unchanged and raises the cart-wide discount by exactly the amounts appended |
| Cart.StepExtends | discount_module.py:47 | a campaign step only appends to logs: every earlier record stays in place, and prices and categories stay unchanged |
| Cart.ExtendsTransitive | discount_module.py:47 | two append-only steps in a row are one append-only step |
| Cart.StepKeepsSound | discount_module.py:44-46 | a step whose records lie between zero and what is left of each item leaves no item's net price below zero |
| Cart.StepMonotone | discount_module.py:45-47 | a step keeps the base price and never lowers the cart-wide discount |
| Money.Clamp | discount_module.py:45-46 | min-then-max-with-zero yields the value itself when it is in range, the cap when above it, and zero when either is non-positive; the result always lies in [0, max(0, cap)] |
| Money.SumReals | discount_module.py:19 | Python's left-to-right `sum`, with the empty sum 0; its linearity, monotonicity, scaling and non-negativity are the lemmas `SumLinear`, `SumMonotone`, `SumScale` and `SumNonNegative` |
| Allocation.Shares | discount_module.py:41-46 | one share per item, each between zero and max(0, what is left of that item) |
| Allocation.Share | discount_module.py:42-46 | one item's share lies between zero and max(0, cap), and is exactly its weight over the denominator times the pool whenever that lies in [0, cap] |
| Allocation.SharesWithinPool | discount_module.py:41-48 | with non-negative weights that sum to the denominator, the shares add up to at most the pool, even though each is computed from the undiminished pool |
| Allocation.Distributed | discount_module.py:34-49 | no change when the base price is 0 or the pool is not positive; otherwise exactly one admissible record per item, and nothing else changes |
| Allocation.DistributedWithinPool | discount_module.py:34-49 | on a cart of non-negative prices, sized by its own base price, the allocation gives away at most max(0, pool) in total |
| Allocation.DistributedExact | discount_module.py:34-49 | proportional fairness: on a cart with no discounts yet and non-negative prices, a pool in (0, base price] is given away in full, and each item's log becomes the single record of its base price times pool/base price |
| Allocation.DistributedEach | discount_module.py:41-47 | on such a cart, each item's log after the step is exactly one record of its base price times the ratio |
| Allocation.DistributedSum | discount_module.py:41-49 | on such a cart, sized by its own base price, the step's records add up to exactly the pool |
| Allocation.DistributedUncapped | discount_module.py:41-47 | when no item has been discounted and the pool is at most the total, no cap bites: the step appends exactly each base price times pool/total |
| Allocation.SharesUncapped | discount_module.py:43-46 | with each cap equal to its non-negative weight and the pool at most the denominator, every share is exactly weight times pool/denominator |
| Allocation.Distribute | discount_module.py:34-49 | the in-place loop produces exactly `Distributed` of the old cart and returns exactly the amount it appended |
| Allocation.Allot | discount_module.py:40-49 | the loop gives every item, in cart order, exactly one record of the share it was due before the loop began (its base price over the total, times the pool, cut to what is left of it), and returns the sum of those shares |
| Campaigns.Multiples | discount_module.py:75 | floor division: the result is the whole number n with n ≤ base/every < n+1 |
| Campaigns.Pool | discount_module.py:56-76 | a flat coupon's pool is its amount; a percentage coupon's pool is that percentage of the base price; a seasonal pool is sized by floor division |
| Campaigns.SeasonalPoolIsWholeMultiple | discount_module.py:74-76 | a seasonal pool is a whole multiple of its discount, namely the floor of base/threshold; below one threshold it is 0 |
| Campaigns.CouponValue | discount_module.py:140-145 | a coupon is compared by the pool it would spread; any other campaign is worth 0 |
| Strategies.CategoryAmount | discount_module.py:88-92 | the category discount lies in [0, max(0, net)], and for a percentage in [0, 100] on a non-negative net it is exactly that percentage of the net |
| Strategies.CategoryRecords | discount_module.py:86-95 | one entry per item: no record for an item outside the category, and exactly the record of `CategoryAmount` for an item inside it |
| Strategies.CategoryApplied | discount_module.py:84-96 | items outside the category are untouched; each matching item gets exactly one admissible record |
| Strategies.CategoryRecord | discount_module.py:87-94 | a line of the campaign's category gets exactly one record and any other line gets none |
| Strategies.ApplyCategoryOnTop | discount_module.py:84-96 | the in-place loop produces exactly `CategoryApplied` of the old cart and returns exactly the amount it appended |
| Strategies.TakeCategory | discount_module.py:86-96 | the loop appends to every item exactly the records `CategoryRecord` gives for its value before the loop, and returns the sum of their amounts |
| Strategies.PointPool | discount_module.py:105-110 | the points pool is at most the points and at most what is left below 20% of the base price; it equals the points when they fit, and what is left below the cap when the points exceed it |
| Strategies.PointApplied | discount_module.py:105-129 | no change when the pool or the remaining subtotal is not positive; otherwise every item gets exactly one admissible record |
| Strategies.PointsSpread | discount_module.py:118-127 | when the pool is spread, every item keeps its price and category and gets exactly one admissible record |
| Strategies.PointAppliedWithinCap | discount_module.py:105-129 | on a cart with no negative net price, points give away at most their pool, so the cart-wide discount never passes 20% of the base price unless it already had |
| Strategies.ApplyPointOnTop | discount_module.py:105-129 | the in-place method produces exactly `PointApplied` of the old cart and returns exactly the amount it appended |
| Strategies.SpreadPoints | discount_module.py:118-129 | the loop gives every item, in cart order, exactly one record of the share it was due before the loop began (its remainder over the subtotal, times the pool, cut to that remainder), and returns the sum of those shares |
| Strategies.ApplyFixedCoupon | discount_module.py:56-57 | the flat coupon spreads its amount by the shared allocation |
| Strategies.ApplyPercentCoupon | discount_module.py:64-66 | the percentage coupon spreads its percentage of the base price by the shared allocation |
| Strategies.ApplySeasonal | discount_module.py:74-76 | the seasonal campaign spreads its floor-sized pool by the shared allocation |
| Strategies.Applied | discount_module.py:56-129 | every campaign kind's step keeps prices and categories and appends at most one admissible record per item |
| Strategies.PooledWithinPool | discount_module.py:34-76 | flat, percentage and seasonal steps on a cart of non-negative prices never give away more than their pool |
| Strategies.ApplyCampaign | discount_module.py:183-190 | dispatch by campaign kind; the cart becomes `Applied` of the old cart |
| Processor.Classification | discount_module.py:158-177 | everything the plan keeps comes from the definitions, in the role its type gives it; an unknown-type error names a definition that was given |
| Processor.Message | discount_module.py:167-177 | the three error texts; a message starts with "Unknown campaign type: " exactly when the error is an unknown type, and the type's name is what follows |
| Processor.MessageIdentifiesError | discount_module.py:167-177 | different errors have different messages |
| Processor.ClassifyOne | discount_module.py:159-177 | one definition: an unknown type, or an on-top or seasonal campaign when one is already held, is an error; otherwise the campaign is added in its role and the rest of the plan is unchanged |
| Processor.Accepted | discount_module.py:158-177 | the lists the processor accepts: every type known, at most one on-top and at most one seasonal campaign (no contract of its own; `ClassificationSpec` proves classification succeeds exactly on them) |
| Processor.ClassificationSpec | discount_module.py:158-177 | classification succeeds exactly when all types are known, with at most one on-top and at most one seasonal; it then keeps every coupon in order, and a duplicate error implies two or more of that role |
| Processor.ClassificationErrorSticks | discount_module.py:158-177 | the first error stops classification: it is the result whatever follows |
| Processor.Classify | discount_module.py:154-177 | the classification loop computes exactly `Classification` |
| Processor.AcceptedStep | discount_module.py:158-177 | a list of definitions is accepted exactly when the list without its last entry is, that entry has a known type, and the list holds at most one on-top and one seasonal campaign |
| Processor.ClassificationWellFormed | discount_module.py:173-175 | an accepted plan holds only campaigns that can be applied |
| Processor.Selection | discount_module.py:135-151 | the running maximum starts at the sentinel -1 with no choice; a chosen index is in range and its value is the maximum kept |
| Processor.BestCoupon | discount_module.py:135-151 | none exactly when no candidate is worth more than -1; otherwise a candidate worth more than -1 and at least as much as every other |
| Processor.SelectionIsFirstStrictMax | discount_module.py:135-151 | the chosen coupon is worth more than -1, strictly more than every earlier candidate, and at least as much as every later one; none is chosen exactly when every candidate is worth -1 or less |
| Processor.SelectBestCoupon | discount_module.py:135-151 | the selection loop returns exactly `BestCoupon` |
| Processor.ApplyChosen | discount_module.py:183-190 | no change when nothing was chosen; otherwise one campaign step of the chosen campaign |
| Processor.PlanApplied | discount_module.py:181-190 | the best coupon, then the on-top campaign, then the seasonal campaign; a plan holding nothing leaves the cart as it was |
| Processor.ApplyChosenKeeps | discount_module.py:183-190 | applying a chosen campaign, or none, keeps the base price, only appends, never lowers the discount and keeps every net price at or above zero |
| Processor.PlanAppliedKeeps | discount_module.py:183-190 | the best coupon, then the on-top campaign, then the seasonal campaign, together keep every net price at or above zero, keep the base price, only append and never lower the discount |
| Processor.Priced | discount_module.py:153-194 | a run fails exactly when the definitions are not accepted |
| Processor.PricedRun | discount_module.py:179-194 | a successful run keeps every net price at or above zero, keeps the base price, only appends, never takes a discount back, and its final price is the base price less every discount given |
| Processor.CalculateFinalPrice | discount_module.py:153-194 | on rejected definitions it returns the error and the cart is unchanged; otherwise the cart becomes `Priced` of the old cart and the result is its net total |
| Scenarios.FixedBeatsPercent | discount_module.py:135-151 | on a base of 400, a flat 50 beats 10 percent; on a tie the earlier coupon is kept |
| Scenarios.SeasonalRoundsDown | discount_module.py:75 | every 300 get 40 on a base of 650 yields 80 |
| Scenarios.PointsCappedAtFifthOfBase | discount_module.py:105-110 | 1000 points on a base of 500 with no earlier discount yield a pool of 100 |
| Scenarios.UnknownTypeRejected | discount_module.py:176-177 | an unknown type is rejected by name, with the message "Unknown campaign type: …" |
| Scenarios.TwoOnTopRejected | discount_module.py:166-171 | a category campaign followed by a points campaign is rejected as a second on-top campaign |
| Scenarios.ZeroThresholdStillRejected | discount_module.py:173-175 | a seasonal campaign with a zero threshold followed by a second seasonal campaign gets the seasonal duplicate error, since nothing is applied |
| Scenarios.LoneCouponClassified | discount_module.py:161-164 | a lone coupon definition becomes the only coupon candidate |
| Scenarios.FlatCouponSpread | discount_module.py:34-57 | a flat 20 on a one-item cart of 200 logs one record of 20 |
| Scenarios.FlatCouponPlanApplied | discount_module.py:179-190 | the plan holding only a flat 20 on a one-item cart of 200 logs one record of 20 and nothing else |
| Scenarios.FlatCouponPriced | discount_module.py:153-194 | one item of 200 with a flat coupon of 20 is priced at 180, and the item logs one record of 20 |
| Scenarios.FlatCouponNet | discount_module.py:21-22 | a line of 200 carrying one record of 20 nets 180 |

## Left out

- `main.py` is not part of this model. It covers JSON loading, printing test cases, and the 0.01 tolerance used to compare results.
- The `__str__` methods are not modelled, because they are display only.
- Amounts are exact reals, not IEEE doubles. Rounding is not modelled, and the additivity and cap results hold exactly rather than to a tolerance.
- Each discount record names its source by the campaign value itself, not by the display name the source formats from it. Codes are kept on the flat, percentage and seasonal campaigns, which store them and never use them. `CategoryOnTop` and `PointOnTop` take a code and discard it, and the model keeps it anyway; it plays no part in any result.
- Definitions are already parsed into campaign values. A missing field is not modelled: it would raise a `KeyError` in the source.
- A definition without a `type` field is not modelled separately. It is an unknown type whose name would print as `None`.
- Campaigns.WellFormed: a seasonal threshold of zero is excluded, but only from definition lists that are accepted. There the source would apply the campaign and raise `ZeroDivisionError`. A list that classification rejects may hold a zero threshold and still gets its validation error.
- `Unrecognised` stands only for a type name outside the five known tags. A definition with a known tag is always parsed into `Known`, so a value such as `Unrecognised("seasonal")` does not arise.
- A validation failure is returned as an `Error` value, with `Processor.Message` giving the exact text. The source returns a `(None, None, message)` triple.
- On success, the source also returns the mutated cart list. The model's cart is the same sequence of objects, which the method updates in place.
- The same item object appearing twice in one cart is excluded by the `Distinct` precondition. Aliasing within a cart is not modelled.
- Quantities are unbounded integers. Prices are not required to be non-negative; the bounds that need that say so in their own preconditions.
