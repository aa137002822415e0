/** Order amounts and their reconstruction (store/app/crm/orders.py). Money is integer cents and
    percentages are basis points; rounding is any rounding to the nearest. */
module Pricing {
  import opened Common

  datatype Line = Line(unitPrice: int, quantity: int)

  datatype Settings = Settings(threshold: int, percent: int)

  datatype Amounts = Amounts(subtotal: int, applied: bool, percent: int, discount: int, total: int)

  /** Rounds a fraction, given as numerator and positive denominator. */
  type Rounding = (int, int) -> int

  predicate Nearest(n: int, num: int, den: int) {
    -den <= 2 * (n * den - num) <= den
  }

  ghost predicate RoundsNearest(round: Rounding) {
    forall num, den :: den > 0 ==> Nearest(round(num, den), num, den)
  }

  function Subtotal(items: seq<Line>): int {
    if items == [] then 0
        else Subtotal(items[..|items| - 1]) + items[|items| - 1].unitPrice * items[|items| - 1].quantity
  }

  /** `_calculate_order_amounts`. */
  function CalculateAmounts(items: seq<Line>, settings: Settings, round: Rounding): Amounts {
    var subtotal := Subtotal(items);
    var applied := settings.percent > 0 && settings.threshold > 0 && subtotal > settings.threshold;
    var discount := if applied then round(subtotal * settings.percent, 10000) else 0;
    Amounts(subtotal, applied, if applied then settings.percent else 0, discount, subtotal - discount)
  }

  lemma SubtotalAdds(items: seq<Line>, line: Line)
    ensures Subtotal([]) == 0 && Subtotal(items + [line]) == Subtotal(items) + line.unitPrice * line.quantity
  {
    assert (items + [line])[..|items|] == items;
  }

  /** Only a subtotal above the threshold, of settings that give a discount at all, is reduced: by the
      cents nearest to its percentage. At the threshold and below the customer pays the subtotal. */
  lemma DiscountExactly(items: seq<Line>, settings: Settings, round: Rounding)
    requires RoundsNearest(round)
    ensures var a := CalculateAmounts(items, settings, round);
      && a.subtotal == Subtotal(items) && a.total == a.subtotal - a.discount
      && (a.applied <==> 0 < settings.percent && 0 < settings.threshold < Subtotal(items))
      && (a.applied ==> a.percent == settings.percent
                        && -10000 <= 2 * (a.discount * 10000 - a.subtotal * settings.percent) <= 10000)
      && (!a.applied ==> a.percent == 0 && a.discount == 0)
      && (a.subtotal <= settings.threshold ==> a.total == a.subtotal)
  {
    var a := CalculateAmounts(items, settings, round);
    if a.applied {
      assert Nearest(a.discount, a.subtotal * settings.percent, 10000);
    }
  }

  /** A larger order never costs less, except across the threshold, where the discount sets in. */
  lemma MoreCostsMore(less: seq<Line>, more: seq<Line>, settings: Settings, round: Rounding)
    requires RoundsNearest(round) && Storable(settings.percent) && Subtotal(less) < Subtotal(more)
    requires !(Subtotal(less) <= settings.threshold < Subtotal(more))
    ensures CalculateAmounts(less, settings, round).total <= CalculateAmounts(more, settings, round).total
  {
    var (a, b) := (CalculateAmounts(less, settings, round), CalculateAmounts(more, settings, round));
    DiscountExactly(less, settings, round);
    DiscountExactly(more, settings, round);
    if b.applied {
      DiscountStep(a.subtotal, b.subtotal, settings.percent, a.discount, b.discount);
    }
  }

  lemma DiscountStep(x: int, y: int, percent: int, less: int, more: int)
    requires x < y && 0 <= percent <= 10000
    requires -10000 <= 2 * (less * 10000 - x * percent) <= 10000
    requires -10000 <= 2 * (more * 10000 - y * percent) <= 10000
    ensures more - less <= y - x
  {
    assert y * percent - x * percent == (y - x) * percent;
    if percent == 10000 {
      assert less == x && more == y;
    } else {
      assert (y - x) * (10000 - percent) >= 1 by {
        MultipleAtLeast(y - x, 10000 - percent);
      }
      assert (y - x) * percent == (y - x) * 10000 - (y - x) * (10000 - percent);
    }
  }

  /** Across the threshold it can: at ten percent from 100.00 on, one cent more costs 9.99 less. */
  lemma ThresholdCostsLess(round: Rounding)
    requires RoundsNearest(round)
    ensures var settings := Settings(10000, 1000);
      && CalculateAmounts([Line(10000, 1)], settings, round).total == 10000
      && CalculateAmounts([Line(10001, 1)], settings, round).total == 9001
  {
    SubtotalAdds([], Line(10000, 1));
    SubtotalAdds([], Line(10001, 1));
    assert [] + [Line(10000, 1)] == [Line(10000, 1)] && [] + [Line(10001, 1)] == [Line(10001, 1)];
    DiscountExactly([Line(10001, 1)], Settings(10000, 1000), round);
  }

  /** The percentages the settings endpoint stores. */
  predicate Storable(percent: int) {
    0 <= percent <= 10000
  }

  /** With a percentage up to 100 a discount is never negative nor more than the subtotal. */
  lemma DiscountFits(items: seq<Line>, settings: Settings, round: Rounding)
    requires RoundsNearest(round) && Storable(settings.percent)
    ensures var a := CalculateAmounts(items, settings, round);
      0 <= a.discount && (a.applied ==> a.discount <= a.subtotal && 0 <= a.total)
  {
    var a := CalculateAmounts(items, settings, round);
    if a.applied {
      Bounded(a.subtotal, settings.percent);
      assert Nearest(a.discount, a.subtotal * settings.percent, 10000);
    }
  }

  lemma Bounded(subtotal: int, percent: int)
    requires subtotal >= 0 && 0 <= percent <= 10000
    ensures 0 <= subtotal * percent <= subtotal * 10000
  {
    assert subtotal * (10000 - percent) >= 0;
  }

  /** Exactly when a discount eats more than the subtotal: when the percentage exceeds 100 by more
      than half a cent of the subtotal; at half a cent the rounding decides. */
  lemma TotalSignExactly(items: seq<Line>, settings: Settings, round: Rounding)
    requires RoundsNearest(round) && CalculateAmounts(items, settings, round).applied
    ensures var a := CalculateAmounts(items, settings, round);
      && (a.subtotal * (settings.percent - 10000) < 5000 ==> a.total >= 0)
      && (a.subtotal * (settings.percent - 10000) > 5000 ==> a.total < 0)
  {
    var a := CalculateAmounts(items, settings, round);
    assert Nearest(a.discount, a.subtotal * settings.percent, 10000);
    assert a.subtotal * (settings.percent - 10000) == a.subtotal * settings.percent - a.subtotal * 10000;
  }

  // ---------------------------------------------------------------- reading an order back

  /** What a row keeps of its prices; old rows have no merchandise total. */
  datatype Stored = Stored(items: seq<Line>, total: int, shippingFee: int, merchandise: Option<int>)

  /** The breakdown shown with an order. */
  datatype Breakdown = Breakdown(subtotal: int, merchandise: int, applied: bool, discount: int, percent: int)

  function Hydrated(o: Stored, round: Rounding): Breakdown {
    var subtotal := Subtotal(o.items);
    var merchandise := o.merchandise.GetOr(Max(o.total - o.shippingFee, 0));
    var discount := Max(subtotal - merchandise, 0);
    var percent := if discount > 0 && subtotal > 0 then round(discount * 10000, subtotal) else 0;
    Breakdown(subtotal, merchandise, discount > 0, discount, percent)
  }

  /** The order `create_order` stores for these amounts. */
  function Created(items: seq<Line>, a: Amounts, shippingFee: int): Stored {
    Stored(items, a.total + shippingFee, shippingFee, Some(a.total))
  }

  /** Subtotal, discount and merchandise total come back exactly; also from an old row, unless its
      merchandise total was negative. */
  lemma AmountsComeBack(items: seq<Line>, settings: Settings, shippingFee: int, round: Rounding)
    requires RoundsNearest(round) && Storable(settings.percent)
    ensures var a := CalculateAmounts(items, settings, round);
      var b := Hydrated(Created(items, a, shippingFee), round);
      var older := Hydrated(Stored(items, a.total + shippingFee, shippingFee, None), round);
      && Created(items, a, shippingFee) == Stored(items, a.total + shippingFee, shippingFee, Some(a.total))
      && b.subtotal == a.subtotal && b.discount == a.discount && b.merchandise == a.total
      && (a.total >= 0 ==> older == b)
      && (b.applied <==> a.discount > 0)
  {
    DiscountFits(items, settings, round);
  }

  lemma MultipleAtLeast(d: int, k: int)
    requires k > 0
    ensures d >= 1 ==> d * k >= k
    ensures d <= -1 ==> d * k <= -k
  {
    if d >= 1 {
      assert (d - 1) * k >= 0;
    } else if d <= -1 {
      assert (-1 - d) * k >= 0;
    }
  }

  /** From a discount nearest to `percent` of the subtotal, the percentage nearest to it is off by at
      most 5000 / subtotal plus half a basis point. */
  lemma PercentBound(subtotal: int, percent: int, discount: int, recovered: int)
    requires subtotal > 0
    requires Nearest(discount, subtotal * percent, 10000) && Nearest(recovered, discount * 10000, subtotal)
    ensures -(10000 + subtotal) <= 2 * (recovered - percent) * subtotal <= 10000 + subtotal
    ensures subtotal > 10000 ==> recovered == percent
  {
    assert 2 * (recovered * subtotal - discount * 10000) + 2 * (discount * 10000 - subtotal * percent)
        == 2 * (recovered - percent) * subtotal;
    MultipleAtLeast(recovered - percent, subtotal);
  }

  /** The recovered percentage: within the bound of the configured one, and equal to it from a
      subtotal of 100.00 on. */
  lemma PercentComesBack(items: seq<Line>, settings: Settings, shippingFee: int, round: Rounding)
    requires RoundsNearest(round) && Storable(settings.percent)
    ensures var a := CalculateAmounts(items, settings, round);
      var b := Hydrated(Created(items, a, shippingFee), round);
      && (a.applied ==> -(10000 + a.subtotal) <= 2 * (b.percent - a.percent) * a.subtotal <= 10000 + a.subtotal)
      && (!a.applied || a.subtotal >= 10000 ==> b.percent == a.percent)
  {
    var a := CalculateAmounts(items, settings, round);
    var b := Hydrated(Created(items, a, shippingFee), round);
    DiscountFits(items, settings, round);
    if a.applied {
      assert Nearest(a.discount, a.subtotal * a.percent, 10000);
      if a.discount > 0 {
        assert Nearest(b.percent, a.discount * 10000, a.subtotal);
        if a.subtotal == 10000 {
          assert a.discount == a.percent;
        }
      } else {
        NothingOff(a.subtotal, a.percent);
        assert Nearest(0, 0 * 10000, a.subtotal);
      }
      PercentBound(a.subtotal, a.percent, a.discount, b.percent);
    }
  }

  /** A discount of nothing stays nothing. */
  lemma NothingOff(subtotal: int, percent: int)
    requires subtotal > 0 && percent > 0 && Nearest(0, subtotal * percent, 10000)
    ensures subtotal < 10000
  {
    MultipleAtLeast(percent, subtotal);
  }

  /** The percentage read back from an order created under these settings. */
  function Recovered(items: seq<Line>, settings: Settings, shippingFee: int, round: Rounding): int {
    Hydrated(Created(items, CalculateAmounts(items, settings, round), shippingFee), round).percent
  }

  predicate AllComeBack(items: seq<Line>, threshold: int, shippingFee: int, round: Rounding, upTo: int) {
    forall percent :: 0 <= percent <= upTo ==>
        Recovered(items, Settings(threshold, percent), shippingFee, round) == percent
  }

  /** A larger percentage never gives a smaller discount. */
  lemma DiscountGrows(subtotal: int, percent: int, less: int, more: int)
    requires subtotal > 0 && Nearest(less, subtotal * percent, 10000) && Nearest(more, subtotal * (percent + 1), 10000)
    ensures less <= more
  {
    assert subtotal * (percent + 1) == subtotal * percent + subtotal;
  }

  /** Percentages that all come back have different discounts, so the discounts keep up with them. */
  lemma {:induction false} DiscountsKeepUp(items: seq<Line>, threshold: int, shippingFee: int, round: Rounding,
                                           percent: nat)
    requires RoundsNearest(round) && 0 < threshold < Subtotal(items) && percent <= 10000
    requires AllComeBack(items, threshold, shippingFee, round, percent)
    ensures CalculateAmounts(items, Settings(threshold, percent), round).discount >= percent
  {
    if percent > 0 {
      var s := Subtotal(items);
      DiscountsKeepUp(items, threshold, shippingFee, round, percent - 1);
      DiscountFits(items, Settings(threshold, percent), round);
      AmountsComeBack(items, Settings(threshold, percent), shippingFee, round);
      AmountsComeBack(items, Settings(threshold, percent - 1), shippingFee, round);
      var before, after := Settings(threshold, percent - 1), Settings(threshold, percent);
      assert Recovered(items, before, shippingFee, round) == percent - 1;
      assert Recovered(items, after, shippingFee, round) == percent;
      if percent > 1 {
        DiscountGrows(s, percent - 1, CalculateAmounts(items, before, round).discount,
            CalculateAmounts(items, after, round).discount);
      }
    }
  }

  /** Every percentage the settings accept comes back from an order exactly when the subtotal is at
      least 100.00: below it there are fewer discounts than percentages. */
  lemma AllPercentsComeBackExactly(items: seq<Line>, threshold: int, shippingFee: int, round: Rounding)
    requires RoundsNearest(round) && 0 < threshold < Subtotal(items)
    ensures AllComeBack(items, threshold, shippingFee, round, 10000) <==> Subtotal(items) >= 10000
  {
    if AllComeBack(items, threshold, shippingFee, round, 10000) {
      DiscountsKeepUp(items, threshold, shippingFee, round, 10000);
      DiscountFits(items, Settings(threshold, 10000), round);
    }
    if Subtotal(items) >= 10000 {
      forall percent | 0 <= percent <= 10000
        ensures Recovered(items, Settings(threshold, percent), shippingFee, round) == percent
      {
        PercentComesBack(items, Settings(threshold, percent), shippingFee, round);
      }
    }
  }

  /** So half of 99.99 comes back as 50.01 percent. */
  lemma SmallSubtotalDrifts(recovered: int)
    ensures Nearest(5000, 9999 * 5000, 10000)
    ensures Nearest(recovered, 5000 * 10000, 9999) ==> recovered == 5001
  {
  }

  /** An order detail, completed in place. */
  class OrderDetail {
    const items: seq<Line>
    const total: int
    var shippingFee: int
    var merchandise: Option<int>
    var subtotal: int
    var discount: int
    var applied: bool
    var percent: int

    constructor (o: Stored)
      ensures items == o.items && total == o.total && shippingFee == o.shippingFee && merchandise == o.merchandise
    {
      items, total, shippingFee, merchandise := o.items, o.total, o.shippingFee, o.merchandise;
      subtotal, discount, applied, percent := 0, 0, false, 0;
    }

    /** `_hydrate_order_pricing`; a second call changes nothing. */
    method Hydrate(round: Rounding)
      requires RoundsNearest(round)
      modifies this
      ensures shippingFee == old(shippingFee)
      ensures var b := Hydrated(Stored(items, total, old(shippingFee), old(merchandise)), round);
        && merchandise == Some(b.merchandise) && subtotal == b.subtotal && discount == b.discount
        && applied == b.applied && percent == b.percent
        && Hydrated(Stored(items, total, shippingFee, merchandise), round) == b
    {
      var sum := 0;
      for i := 0 to |items|
        invariant sum == Subtotal(items[..i])
        invariant shippingFee == old(shippingFee) && merchandise == old(merchandise)
      {
        assert items[..i + 1][..i] == items[..i];
        sum := sum + items[i].unitPrice * items[i].quantity;
      }
      assert items[..|items|] == items;
      var goods := if merchandise.Some? then merchandise.value else Max(total - shippingFee, 0);
      subtotal, merchandise := sum, Some(goods);
      discount := Max(subtotal - goods, 0);
      applied := discount > 0;
      percent := 0;
      if applied && subtotal > 0 {
        percent := round(discount * 10000, subtotal);
      }
    }
  }
}
