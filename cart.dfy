/**
  Cart items and their append-only discount logs.

  An `Item` is the mutable object the campaigns update in place; a `Line`
  is the value of one item at one moment (its base price, its category and
  its log), and the specification of every campaign is stated on a
  sequence of lines.
*/
module Cart {
  import opened Money
  import opened Campaigns

  /** One contribution of one campaign to one item; never changed once appended. */
  datatype DiscountDetail = DiscountDetail(source: Campaign, amount: real)

  /** Sum of the amounts of a discount log, in log order; an empty log or one of non-negative amounts sums to at least 0. */
  function SumAmounts(records: seq<DiscountDetail>): (r: real)
    ensures records == [] ==> r == 0.0
    ensures (forall k :: 0 <= k < |records| ==> 0.0 <= records[k].amount) ==> 0.0 <= r
  {
    if records == [] then 0.0
    else SumAmounts(records[..|records| - 1]) + records[|records| - 1].amount
  }

  /** Appending records to a log adds exactly their amounts to its sum. */
  lemma {:induction false} SumAmountsConcat(a: seq<DiscountDetail>, b: seq<DiscountDetail>)
    ensures SumAmounts(a + b) == SumAmounts(a) + SumAmounts(b)
  {
    if b != [] {
      var n := |b| - 1;
      assert (a + b)[..|a + b| - 1] == a + b[..n];
      SumAmountsConcat(a, b[..n]);
    } else {
      assert a + b == a;
    }
  }

  /** The value of an item: its base price (`unit price * quantity`), category and log. */
  datatype Line = Line(initialPrice: real, category: string, records: seq<DiscountDetail>)
  {
    /** Discount given so far: the sum of the log. */
    function Discount(): (r: real)
      ensures records == [] ==> r == 0.0
      ensures (forall k :: 0 <= k < |records| ==> 0.0 <= records[k].amount) ==> 0.0 <= r
    {
      SumAmounts(records)
    }

    /** What is left to pay for the item. */
    function NetPrice(): real { initialPrice - Discount() }
  }

  class Item {
    const name: string
    const price: real
    const quantity: int
    const category: string
    const initialPrice: real
    var records: seq<DiscountDetail>

    /** A fresh item carries no discount: its net price is its base price. */
    constructor (name: string, price: real, quantity: int, category: string)
      ensures this.name == name && this.price == price && this.quantity == quantity
      ensures this.category == category
      ensures initialPrice == price * quantity as real
      ensures records == []
      ensures NetPrice() == price * quantity as real
    {
      this.name := name;
      this.price := price;
      this.quantity := quantity;
      this.category := category;
      this.initialPrice := price * quantity as real;
      this.records := [];
    }

    function Value(): Line
      reads this
    {
      Line(initialPrice, category, records)
    }

    /** `calculate_current_discount`: the sum of the item's log. */
    function CurrentDiscount(): (r: real)
      reads this
      ensures r == SumAmounts(records)
      ensures records == [] ==> r == 0.0
    {
      Value().Discount()
    }

    /** `get_net_price`: the base price less the current discount. */
    function NetPrice(): (r: real)
      reads this
      ensures r == initialPrice - CurrentDiscount()
    {
      Value().NetPrice()
    }
  }

  /** The value of a whole cart, item by item. */
  function Snapshot(cart: seq<Item>): (lines: seq<Line>)
    reads cart
    ensures |lines| == |cart|
    ensures forall k :: 0 <= k < |cart| ==> lines[k] == cart[k].Value()
  {
    seq(|cart|, k requires 0 <= k < |cart| reads cart => cart[k].Value())
  }

  /** No item object appears twice in the cart. */
  predicate Distinct(cart: seq<Item>)
  {
    forall i, j :: 0 <= i < j < |cart| ==> cart[i] != cart[j]
  }

  function Prices(lines: seq<Line>): (r: seq<real>)
  {
    seq(|lines|, k requires 0 <= k < |lines| => lines[k].initialPrice)
  }

  function Discounts(lines: seq<Line>): (r: seq<real>)
  {
    seq(|lines|, k requires 0 <= k < |lines| => lines[k].Discount())
  }

  function Nets(lines: seq<Line>): (r: seq<real>)
  {
    seq(|lines|, k requires 0 <= k < |lines| => lines[k].NetPrice())
  }

  /** The cart's base price: the sum of the items' base prices. */
  function BasePrice(lines: seq<Line>): (r: real)
    ensures lines == [] ==> r == 0.0
    ensures (forall k :: 0 <= k < |lines| ==> 0.0 <= lines[k].initialPrice) ==> 0.0 <= r
  {
    SumNonNegativeWhen(Prices(lines));
    SumReals(Prices(lines))
  }

  /** All discount given so far, over the whole cart. */
  function TotalDiscount(lines: seq<Line>): (r: real)
    ensures lines == [] ==> r == 0.0
    ensures (forall k :: 0 <= k < |lines| ==> 0.0 <= lines[k].Discount()) ==> 0.0 <= r
  {
    SumNonNegativeWhen(Discounts(lines));
    SumReals(Discounts(lines))
  }

  /** The cart's net total: the sum of the items' net prices. */
  function NetTotal(lines: seq<Line>): (r: real)
    ensures lines == [] ==> r == 0.0
    ensures Sound(lines) ==> 0.0 <= r
  {
    SumNonNegativeWhen(Nets(lines));
    SumReals(Nets(lines))
  }

  /** Additivity: the net total is the base price less every discount given. */
  lemma NetTotalIsBaseLessDiscount(lines: seq<Line>)
    ensures NetTotal(lines) == BasePrice(lines) - TotalDiscount(lines)
  {
    SumLinear(Nets(lines), Discounts(lines), Prices(lines));
  }

  /** The invariant every allocation step keeps: no item is discounted below zero. */
  predicate Sound(lines: seq<Line>)
  {
    forall k :: 0 <= k < |lines| ==> lines[k].NetPrice() >= 0.0
  }

  /** Every line gets the records `extra[k]` appended to its log. */
  function Append(lines: seq<Line>, extra: seq<seq<DiscountDetail>>): (r: seq<Line>)
    requires |extra| == |lines|
  {
    seq(|lines|, k requires 0 <= k < |lines| =>
      lines[k].(records := lines[k].records + extra[k]))
  }

  /** A cart whose every item's log is its old log followed by `extra` has the value `Append`. */
  lemma SnapshotAppended(cart: seq<Item>, before: seq<Line>, extra: seq<seq<DiscountDetail>>)
    requires |before| == |cart| == |extra|
    requires forall k :: 0 <= k < |cart| ==>
      before[k].initialPrice == cart[k].initialPrice && before[k].category == cart[k].category
    requires forall k :: 0 <= k < |cart| ==> cart[k].records == before[k].records + extra[k]
    ensures Snapshot(cart) == Append(before, extra)
  {
  }

  /** The sum of every amount in `extra`. */
  function Added(extra: seq<seq<DiscountDetail>>): real
  {
    SumReals(seq(|extra|, k requires 0 <= k < |extra| => SumAmounts(extra[k])))
  }

  /**
    Appending only adds: prices stay, and the cart-wide discount grows by
    exactly the amounts appended.
  */
  lemma AppendAdds(lines: seq<Line>, extra: seq<seq<DiscountDetail>>)
    requires |extra| == |lines|
    ensures BasePrice(Append(lines, extra)) == BasePrice(lines)
    ensures TotalDiscount(Append(lines, extra)) == TotalDiscount(lines) + Added(extra)
  {
    var after := Append(lines, extra);
    assert Prices(after) == Prices(lines);
    var added := seq(|extra|, k requires 0 <= k < |extra| => SumAmounts(extra[k]));
    forall k | 0 <= k < |lines|
      ensures Discounts(after)[k] == Discounts(lines)[k] + added[k]
    {
      SumAmountsConcat(lines[k].records, extra[k]);
    }
    SumLinear(Discounts(lines), added, Discounts(after));
  }

  /** `Added` over one more entry adds that entry's amounts. */
  lemma AddedPrefix(extra: seq<seq<DiscountDetail>>, i: nat)
    requires i < |extra|
    ensures Added(extra[..i + 1]) == Added(extra[..i]) + SumAmounts(extra[i])
  {
    var longer := seq(i + 1, k requires 0 <= k < i + 1 => SumAmounts(extra[..i + 1][k]));
    var shorter := seq(i, k requires 0 <= k < i => SumAmounts(extra[..i][k]));
    assert longer[..i] == shorter;
  }

  /**
    A cart whose every item's log is its old log followed by `extra` has
    the value `Append`, and its discount grew by the amounts of `extra`.
  */
  lemma AppendedOutcome(cart: seq<Item>, before: seq<Line>, extra: seq<seq<DiscountDetail>>)
    requires |before| == |cart| == |extra|
    requires forall k :: 0 <= k < |cart| ==>
      before[k].initialPrice == cart[k].initialPrice && before[k].category == cart[k].category
    requires forall k :: 0 <= k < |cart| ==> cart[k].records == before[k].records + extra[k]
    ensures Snapshot(cart) == Append(before, extra)
    ensures TotalDiscount(Snapshot(cart)) == TotalDiscount(before) + Added(extra)
  {
    SnapshotAppended(cart, before, extra);
    AppendAdds(before, extra);
  }

  /**
    One campaign step from `before` to `after`: every item keeps its price
    and category, and its log either stays as it was or grows by exactly
    one record from `source` whose amount lies between zero and what was
    left of the item's price.
  */
  ghost predicate IsStep(before: seq<Line>, after: seq<Line>, source: Campaign)
  {
    |after| == |before| &&
    forall k :: 0 <= k < |before| ==>
      after[k].initialPrice == before[k].initialPrice &&
      after[k].category == before[k].category &&
      (after[k].records == before[k].records ||
       (|after[k].records| == |before[k].records| + 1 &&
        after[k].records[..|before[k].records|] == before[k].records &&
        Admissible(after[k].records[|before[k].records|], source, before[k])))
  }

  /** A record `source` may append to `line`: never negative, never more than is left. */
  predicate Admissible(d: DiscountDetail, source: Campaign, line: Line)
  {
    d.source == source && 0.0 <= d.amount <= Max(0.0, line.NetPrice())
  }

  /**
    `after` is `before` with more records appended: same items, same
    prices and categories, and every old log a prefix of the new one.
  */
  ghost predicate Extends(before: seq<Line>, after: seq<Line>)
  {
    |after| == |before| &&
    forall k :: 0 <= k < |before| ==>
      after[k].initialPrice == before[k].initialPrice &&
      after[k].category == before[k].category &&
      before[k].records <= after[k].records
  }

  /** Appending twice is appending. */
  lemma ExtendsTransitive(a: seq<Line>, b: seq<Line>, c: seq<Line>)
    requires Extends(a, b) && Extends(b, c)
    ensures Extends(a, c)
  {
    forall k | 0 <= k < |a|
      ensures a[k].records <= c[k].records
    {
      assert a[k].records == b[k].records[..|a[k].records|];
      assert b[k].records == c[k].records[..|b[k].records|];
      assert c[k].records[..|b[k].records|][..|a[k].records|] == c[k].records[..|a[k].records|];
    }
  }

  /** The log of a step only grows. */
  lemma StepExtends(before: seq<Line>, after: seq<Line>, source: Campaign)
    requires IsStep(before, after, source)
    ensures Extends(before, after)
  {
  }

  /** Non-negativity: a step keeps every net price that was non-negative so. */
  lemma StepKeepsSound(before: seq<Line>, after: seq<Line>, source: Campaign)
    requires IsStep(before, after, source)
    requires Sound(before)
    ensures Sound(after)
  {
    forall k | 0 <= k < |after|
      ensures after[k].NetPrice() >= 0.0
    {
      var n := |before[k].records|;
      if after[k].records != before[k].records {
        assert after[k].records == before[k].records + [after[k].records[n]];
        SumAmountsConcat(before[k].records, [after[k].records[n]]);
      }
    }
  }

  /**
    A step never takes a discount back: the cart-wide discount does not
    decrease, and the base price is untouched.
  */
  lemma StepMonotone(before: seq<Line>, after: seq<Line>, source: Campaign)
    requires IsStep(before, after, source)
    ensures BasePrice(after) == BasePrice(before)
    ensures TotalDiscount(before) <= TotalDiscount(after)
  {
    assert Prices(after) == Prices(before);
    forall k | 0 <= k < |after|
      ensures Discounts(before)[k] <= Discounts(after)[k]
    {
      var n := |before[k].records|;
      if after[k].records != before[k].records {
        assert after[k].records == before[k].records + [after[k].records[n]];
        SumAmountsConcat(before[k].records, [after[k].records[n]]);
      }
    }
    SumMonotone(Discounts(before), Discounts(after));
  }
}
