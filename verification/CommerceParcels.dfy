/**
 What is in a split: over every run, the lines on its purchase order are of its seller and
 supplier, and add up to its subtotal.
 */
module CommerceParcels {
  import opened CommerceCart
  import opened CommerceOrders
  import opened CommercePricing
  import opened CommerceRuns
  import opened Inventory
  import opened Results
  import opened Sums

  /** The total of the order line with a number. */
  function TotalAt(lines: seq<OrderLine>): nat -> int { (d: nat) => if d < |lines| then Total(lines[d].goods) else 0 }

  ghost predicate ParcelFits(s: Shop, p: nat)
    requires p < |s.splits| && p < |s.purchaseOrders|
  {
    && s.splits[p].subtotal == SumBy(s.purchaseOrders[p].lines, TotalAt(s.orderLines))
    && forall d :: d in s.purchaseOrders[p].lines ==>
         d < |s.orderLines| && KeyOf(s.orderLines[d].goods) == GroupKey(s.splits[p].seller, s.splits[p].supplier)
  }

  ghost predicate ParcelsFit(s: Shop) {
    |s.splits| == |s.purchaseOrders| && forall p :: 0 <= p < |s.splits| ==> ParcelFits(s, p)
  }

  // ----- a new order's parcels -------------------------------------------------------

  lemma {:induction false} GroupOpened(lines: seq<Priced>, key: string, base: nat)
    requires key in Keys(lines)
    ensures key == GroupKey(GroupOf(lines, key, base).seller, GroupOf(lines, key, base).supplier)
  {
    var n := |lines| - 1;
    if key in Keys(lines[..n]) { GroupOpened(lines[..n], key, base); }
  }

  lemma {:induction false} IdsTotal(lines: seq<Priced>, key: string, base: nat, all: seq<OrderLine>)
    requires base + |lines| <= |all| && forall k :: 0 <= k < |lines| ==> all[base + k].goods == lines[k]
    ensures SumBy(IdsUnder(lines, key, base), TotalAt(all)) == SumBy(lines, TotalUnder(key))
  {
    if |lines| > 0 {
      var n := |lines| - 1;
      IdsTotal(lines[..n], key, base, all);
      var earlier := IdsUnder(lines[..n], key, base);
      if KeyOf(lines[n]) == key {
        SumByAppend<nat>(earlier, base + n, TotalAt(all));
      } else {
        assert IdsUnder(lines, key, base) == earlier;
      }
    }
  }

  lemma NewParcel(s: Shop, cartId: nat, user: nat, key: string, quote: Quote, lines: seq<Priced>, stock: Stock, j: nat)
    requires cartId < |s.carts| && |s.splits| == |s.purchaseOrders| && j < |Keys(lines)|
    ensures ParcelFits(Place(s, cartId, user, key, quote, lines, stock), |s.splits| + j)
  {
    var s' := Place(s, cartId, user, key, quote, lines, stock);
    var base := |s.orderLines|;
    GroupSubtotal(lines, Keys(lines)[j], base);
    GroupOpened(lines, Keys(lines)[j], base);
    IdsTotal(lines, Keys(lines)[j], base, s'.orderLines);
    IdsUnderExact(lines, Keys(lines)[j], base);
  }

  lemma OldParcel(s: Shop, s': Shop, p: nat)
    requires p < |s.splits| <= |s'.splits| && p < |s.purchaseOrders| <= |s'.purchaseOrders| && ParcelFits(s, p)
    requires s'.splits[p] == s.splits[p].(accepted := s'.splits[p].accepted)
    requires s'.purchaseOrders[p].lines == s.purchaseOrders[p].lines
    requires |s.orderLines| <= |s'.orderLines| && s'.orderLines[..|s.orderLines|] == s.orderLines
    ensures ParcelFits(s', p)
  {
    assert forall d :: 0 <= d < |s.orderLines| ==> s'.orderLines[d] == s'.orderLines[..|s.orderLines|][d];
    var ids := s.purchaseOrders[p].lines;
    forall i | 0 <= i < |ids| ensures TotalAt(s.orderLines)(ids[i]) == TotalAt(s'.orderLines)(ids[i]) {
      assert ids[i] in ids;
    }
    SumByPointwise(ids, TotalAt(s.orderLines), ids, TotalAt(s'.orderLines));
  }

  lemma PlaceKeepsParcels(s: Shop, cartId: nat, user: nat, key: string, quote: Quote, lines: seq<Priced>, stock: Stock)
    requires cartId < |s.carts| && ParcelsFit(s)
    ensures ParcelsFit(Place(s, cartId, user, key, quote, lines, stock))
  {
    var s' := Place(s, cartId, user, key, quote, lines, stock);
    forall p | 0 <= p < |s'.splits| ensures ParcelFits(s', p) {
      if p < |s.splits| { OldParcel(s, s', p); } else { NewParcel(s, cartId, user, key, quote, lines, stock, p - |s.splits|); }
    }
  }

  lemma PlainKeepsParcels(s: Shop, step: ShopStep)
    requires ShopInv(s) && ParcelsFit(s) && !step.PlaceOrder?
    ensures ParcelsFit(Proceed(s, step))
  {
    var s' := Proceed(s, step);
    forall p | 0 <= p < |s'.splits| ensures ParcelFits(s', p) { OldParcel(s, s', p); }
  }

  lemma ProceedKeepsParcels(s: Shop, step: ShopStep)
    requires ShopInv(s) && ParcelsFit(s)
    ensures ParcelsFit(Proceed(s, step))
  {
    if step.PlaceOrder? {
      var outcome := Checkout(s, step.cart, step.user, step.key, step.version, step.quote, step.now);
      if outcome.Ok? && FindOrder(s.orders, step.key).None? {
        PlaceKeepsParcels(s, step.cart, step.user, step.key, step.quote,
                          PriceLines(s.offers, s.carts[step.cart].lines), outcome.value.stock);
      }
    } else {
      PlainKeepsParcels(s, step);
    }
  }

  lemma {:induction false} ParcelsKept(s: Shop, steps: seq<ShopStep>)
    requires ShopInv(s) && ParcelsFit(s)
    ensures ParcelsFit(RunShop(s, steps))
    decreases |steps|
  {
    if |steps| > 0 {
      ProceedKeepsParcels(s, steps[0]);
      ProceedKeeps(s, steps[0]);
      ParcelsKept(Proceed(s, steps[0]), steps[1..]);
    }
  }

  /**
   Every line on a purchase order is of its split's seller and supplier, where identifiers have no
   colon, and the split's subtotal is the sum of just those lines.
   */
  lemma SplitsHoldTheirLines(start: Shop, steps: seq<ShopStep>, p: nat, d: nat)
    requires NewShop(start) && ShopInv(start)
    ensures var s := RunShop(start, steps);
      p < |s.splits| ==>
        && s.splits[p].subtotal == SumBy(s.purchaseOrders[p].lines, TotalAt(s.orderLines))
        && (d in s.purchaseOrders[p].lines ==>
             && d < |s.orderLines|
             && var goods := s.orderLines[d].goods;
             (ColonFree(goods.seller) && ColonFree(s.splits[p].seller) ==>
                goods.seller == s.splits[p].seller && goods.supplier == s.splits[p].supplier))
  {
    ParcelsKept(start, steps);
    var s := RunShop(start, steps);
    if p < |s.splits| {
      assert ParcelFits(s, p);
      if d in s.purchaseOrders[p].lines {
        var goods := s.orderLines[d].goods;
        if ColonFree(goods.seller) && ColonFree(s.splits[p].seller) {
          GroupKeyInjective(goods.seller, goods.supplier, s.splits[p].seller, s.splits[p].supplier);
        }
      }
    }
  }
}
