/**
 Orders: the checkout transaction, the acceptance of purchase orders, and everything that can
 run between them.
 */
module CommerceOrders {
  import opened Basics
  import opened CommerceCart
  import opened CommercePricing
  import opened Inventory
  import opened Results
  import opened Sums

  datatype OrderLine = OrderLine(order: nat, goods: Priced)

  datatype Split = Split(order: nat, seller: string, supplier: string, subtotal: int, accepted: bool)

  /** `lines` holds the numbers of the order lines to deliver. */
  datatype PurchaseOrder = PurchaseOrder(split: nat, total: int, lines: seq<nat>, accepted: bool)

  datatype Order = Order(cart: nat, user: nat, key: string, quote: Quote, confirmed: bool)

  datatype Shop = Shop(
    offers: seq<Offer>,
    carts: seq<Cart>,
    stock: Stock,
    orders: seq<Order>,
    orderLines: seq<OrderLine>,
    splits: seq<Split>,
    purchaseOrders: seq<PurchaseOrder>)

  datatype ShopError =
    | KeyBound
    | Missing
    | CartChanged
    | CartEmpty
    | OfferOutdated
    | StockShort(cause: StockError)

  type Outcome = Result<Shop, ShopError>

  // ----- checkout --------------------------------------------------------------------

  function FindOrder(orders: seq<Order>, key: string): (found: Option<nat>)
    ensures found.Some? ==> found.value < |orders| && orders[found.value].key == key
    ensures found.None? ==> forall k :: 0 <= k < |orders| ==> orders[k].key != key
  {
    if |orders| == 0 then None
    else if orders[|orders| - 1].key == key then Some(|orders| - 1)
    else FindOrder(orders[..|orders| - 1], key)
  }

  function Demands(lines: seq<Priced>, base: nat): seq<DemandLine> {
    seq(|lines|, k requires 0 <= k < |lines| => DemandLine(lines[k].product, base + k, lines[k].quantity))
  }

  function OrderLines(order: nat, lines: seq<Priced>): seq<OrderLine> {
    seq(|lines|, k requires 0 <= k < |lines| => OrderLine(order, lines[k]))
  }

  function Splits(order: nat, groups: seq<Group>): seq<Split> {
    seq(|groups|, j requires 0 <= j < |groups| =>
      Split(order, groups[j].seller, groups[j].supplier, groups[j].subtotal, false))
  }

  function PurchaseOrders(firstSplit: nat, groups: seq<Group>): seq<PurchaseOrder> {
    seq(|groups|, j requires 0 <= j < |groups| =>
      PurchaseOrder(firstSplit + j, groups[j].subtotal, groups[j].ids, false))
  }

  ghost predicate CartsKnown(s: Shop) { forall c :: 0 <= c < |s.carts| ==> Known(s.offers, s.carts[c].lines) }

  /** The rows that a checkout adds. */
  function Place(s: Shop, cartId: nat, user: nat, key: string, quote: Quote, lines: seq<Priced>, stock: Stock): Shop
    requires cartId < |s.carts|
  {
    var order := |s.orders|;
    var groups := Groups(lines, |s.orderLines|);
    var cart := s.carts[cartId];
    s.(stock := stock,
       carts := s.carts[cartId := cart.(active := false, version := cart.version + 1)],
       orders := s.orders + [Order(cartId, user, key, quote, false)],
       orderLines := s.orderLines + OrderLines(order, lines),
       splits := s.splits + Splits(order, groups),
       purchaseOrders := s.purchaseOrders + PurchaseOrders(|s.splits|, groups))
  }

  function Checkout(s: Shop, cartId: nat, user: nat, key: string, version: nat, quote: Quote, now: Time): Outcome
    requires CartsKnown(s)
  {
    var replay := FindOrder(s.orders, key);
    if replay.Some? then
      var order := s.orders[replay.value];
      if order.cart == cartId && order.user == user then Ok(s) else Err(KeyBound)
    else if cartId >= |s.carts| then Err(Missing)
    else
      var cart := s.carts[cartId];
      if cart.user != user || !cart.active || cart.expiresAt <= now then Err(Missing)
      else if cart.version != version then Err(CartChanged)
      else if |cart.lines| == 0 then Err(CartEmpty)
      else if !OffersStillHold(s.offers, cart) then Err(OfferOutdated)
      else
        var lines := PriceLines(s.offers, cart.lines);
        match ReserveAll(s.stock, Demands(lines, |s.orderLines|), now)
        case Err(e) => Err(StockShort(e))
        case Ok(stock) => Ok(Place(s, cartId, user, key, quote, lines, stock))
  }

  // ----- acceptance ------------------------------------------------------------------

  predicate AnyPending(splits: seq<Split>, order: nat) {
    exists k :: 0 <= k < |splits| && splits[k].order == order && !splits[k].accepted
  }

  function Accepted(s: Shop, po: nat, stock: Stock): Shop
    requires po < |s.purchaseOrders| && s.purchaseOrders[po].split < |s.splits|
    requires s.splits[s.purchaseOrders[po].split].order < |s.orders|
  {
    var split := s.purchaseOrders[po].split;
    var order := s.splits[split].order;
    var splits := s.splits[split := s.splits[split].(accepted := true)];
    s.(stock := stock,
       purchaseOrders := s.purchaseOrders[po := s.purchaseOrders[po].(accepted := true)],
       splits := splits,
       orders := if AnyPending(splits, order) then s.orders
         else s.orders[order := s.orders[order].(confirmed := true)])
  }

  /** Foreign keys, and the pairing of each split with its purchase order. */
  ghost predicate Paired(s: Shop) {
    && |s.purchaseOrders| == |s.splits|
    && forall p :: 0 <= p < |s.splits| ==>
         var po := s.purchaseOrders[p];
         po.split == p && po.total == s.splits[p].subtotal && po.accepted == s.splits[p].accepted
         && s.splits[p].order < |s.orders|
  }

  function Accept(s: Shop, po: nat, now: Time): Outcome
    requires Paired(s)
  {
    if po >= |s.purchaseOrders| || s.purchaseOrders[po].accepted then Err(Missing)
    else
      match AllocateAll(s.stock, s.purchaseOrders[po].lines, now)
      case Err(e) => Err(StockShort(e))
      case Ok(stock) =>
        assert s.purchaseOrders[po].split == po;
        Ok(Accepted(s, po, stock))
  }

  // ----- what every run keeps --------------------------------------------------------

  function LineTotalOf(order: nat): OrderLine -> int {
    (line: OrderLine) => if line.order == order then Total(line.goods) else 0
  }

  function SplitTotalOf(order: nat): Split -> int {
    (split: Split) => if split.order == order then split.subtotal else 0
  }

  ghost predicate TotalsAgree(s: Shop) {
    && (forall d :: 0 <= d < |s.orderLines| ==> s.orderLines[d].order < |s.orders|)
    && forall o: nat :: SumBy(s.orderLines, LineTotalOf(o)) == SumBy(s.splits, SplitTotalOf(o))
  }

  ghost predicate ConfirmedWhenAccepted(s: Shop) {
    forall o :: 0 <= o < |s.orders| ==> (s.orders[o].confirmed <==> !AnyPending(s.splits, o))
  }

  /** Reservation and order line rows are created together, one for one. */
  ghost predicate Matched(s: Shop) {
    && |s.stock.reservations| == |s.orderLines|
    && forall d :: 0 <= d < |s.orderLines| ==>
         s.stock.reservations[d].demand == d && s.stock.reservations[d].quantity == s.orderLines[d].goods.quantity
  }

  ghost predicate Owns(s: Shop, p: int, d: nat) { 0 <= p < |s.purchaseOrders| && d in s.purchaseOrders[p].lines }

  ghost predicate Delivered(s: Shop, d: nat) { exists p :: Owns(s, p, d) }

  /** Every order line is delivered by exactly one purchase order, which belongs to its order. */
  ghost predicate Owned(s: Shop) {
    && (forall p, d: nat :: Owns(s, p, d) ==>
         d < |s.orderLines| && p < |s.splits| && s.orderLines[d].order == s.splits[p].order)
    && (forall d: nat :: d < |s.orderLines| ==> Delivered(s, d))
    && (forall p, q, d: nat :: Owns(s, p, d) && Owns(s, q, d) ==> p == q)
    && (forall p :: 0 <= p < |s.purchaseOrders| ==>
         Distinct(s.purchaseOrders[p].lines) && |s.purchaseOrders[p].lines| > 0)
  }

  ghost predicate AllocatedWhenAccepted(s: Shop) {
    forall p, d: nat :: Owns(s, p, d) && d < |s.stock.reservations| ==>
      (s.stock.reservations[d].allocatedAt.Some? <==> s.purchaseOrders[p].accepted)
  }

  ghost predicate ShopInv(s: Shop) {
    && CartsKnown(s) && StockInv(s.stock) && Paired(s) && TotalsAgree(s) && ConfirmedWhenAccepted(s)
    && Matched(s) && Owned(s) && AllocatedWhenAccepted(s)
  }

  // ----- checkout keeps it -----------------------------------------------------------

  lemma {:induction false} ReserveAllAppends(s: Stock, lines: seq<DemandLine>, now: Time)
    requires ReserveAll(s, lines, now).Ok?
    ensures var s' := ReserveAll(s, lines, now).value;
      && |s'.reservations| == |s.reservations| + |lines|
      && (forall k :: 0 <= k < |s.reservations| ==> s'.reservations[k] == s.reservations[k])
      && forall d :: |s.reservations| <= d < |s'.reservations| ==>
           var r, line := s'.reservations[d], lines[d - |s.reservations|];
           r.demand == line.demand && r.quantity == line.quantity && Open(r)
  {
    if |lines| > 0 {
      ReserveAllAppends(s, lines[..|lines| - 1], now);
    }
  }

  lemma NewTotals(order: nat, lines: seq<Priced>, groups: seq<Group>, base: nat, o: nat)
    requires groups == Groups(lines, base)
    ensures SumBy(OrderLines(order, lines), LineTotalOf(o)) == SumBy(Splits(order, groups), SplitTotalOf(o))
  {
    if o == order {
      SumByPointwise(OrderLines(order, lines), LineTotalOf(o), lines, Total);
      SumByPointwise(Splits(order, groups), SplitTotalOf(o), groups, (g: Group) => g.subtotal);
      GroupsSumToLines(lines, base);
    } else {
      SumByZero(OrderLines(order, lines), LineTotalOf(o));
      SumByZero(Splits(order, groups), SplitTotalOf(o));
    }
  }

  lemma PlaceKeepsTotals(s: Shop, cartId: nat, user: nat, key: string, quote: Quote, lines: seq<Priced>, stock: Stock)
    requires cartId < |s.carts| && TotalsAgree(s)
    ensures TotalsAgree(Place(s, cartId, user, key, quote, lines, stock))
  {
    var s' := Place(s, cartId, user, key, quote, lines, stock);
    var groups := Groups(lines, |s.orderLines|);
    forall o: nat ensures SumBy(s'.orderLines, LineTotalOf(o)) == SumBy(s'.splits, SplitTotalOf(o)) {
      assert SumBy(s.orderLines, LineTotalOf(o)) == SumBy(s.splits, SplitTotalOf(o));
      SumByConcat(s.orderLines, OrderLines(|s.orders|, lines), LineTotalOf(o));
      SumByConcat(s.splits, Splits(|s.orders|, groups), SplitTotalOf(o));
      NewTotals(|s.orders|, lines, groups, |s.orderLines|, o);
    }
  }

  lemma PlaceKeepsConfirmed(s: Shop, cartId: nat, user: nat, key: string, quote: Quote, lines: seq<Priced>, stock: Stock)
    requires cartId < |s.carts| && Paired(s) && ConfirmedWhenAccepted(s) && |lines| > 0
    ensures Paired(Place(s, cartId, user, key, quote, lines, stock))
    ensures ConfirmedWhenAccepted(Place(s, cartId, user, key, quote, lines, stock))
  {
    var s' := Place(s, cartId, user, key, quote, lines, stock);
    KeysAreTheLinesKeys(lines);
    assert KeyOf(lines[0]) in Keys(lines);
    forall o | 0 <= o < |s'.orders| ensures s'.orders[o].confirmed <==> !AnyPending(s'.splits, o) {
      if o < |s.orders| {
        assert AnyPending(s.splits, o) ==> AnyPending(s'.splits, o) by {
          if AnyPending(s.splits, o) {
            var k :| 0 <= k < |s.splits| && s.splits[k].order == o && !s.splits[k].accepted;
            assert s'.splits[k] == s.splits[k];
          }
        }
        assert forall k :: |s.splits| <= k < |s'.splits| ==> s'.splits[k].order != o;
      } else {
        assert s'.splits[|s.splits|].order == o && !s'.splits[|s.splits|].accepted;
      }
    }
  }

  lemma GroupIds(lines: seq<Priced>, base: nat, j: nat, d: nat)
    requires j < |Groups(lines, base)|
    ensures d in Groups(lines, base)[j].ids <==> base <= d < base + |lines| && KeyOf(lines[d - base]) == Keys(lines)[j]
    ensures Distinct(Groups(lines, base)[j].ids)
  {
    IdsUnderExact(lines, Keys(lines)[j], base);
  }

  /** The purchase orders that were there keep their lines. */
  lemma PlaceKeepsOwners(s: Shop, cartId: nat, user: nat, key: string, quote: Quote, lines: seq<Priced>, stock: Stock, p: int, d: nat)
    requires cartId < |s.carts| && Paired(s) && p < |s.splits|
    ensures Owns(Place(s, cartId, user, key, quote, lines, stock), p, d) <==> Owns(s, p, d)
  {
  }

  lemma PlaceAddsOwners(s: Shop, cartId: nat, user: nat, key: string, quote: Quote, lines: seq<Priced>, stock: Stock, j: nat, d: nat)
    requires cartId < |s.carts| && Paired(s) && j < |Keys(lines)|
    ensures Owns(Place(s, cartId, user, key, quote, lines, stock), |s.splits| + j, d)
       <==> |s.orderLines| <= d < |s.orderLines| + |lines| && KeyOf(lines[d - |s.orderLines|]) == Keys(lines)[j]
  {
    GroupIds(lines, |s.orderLines|, j, d);
  }

  lemma PlaceAddsNoMore(s: Shop, cartId: nat, user: nat, key: string, quote: Quote, lines: seq<Priced>, stock: Stock, p: int, d: nat)
    requires cartId < |s.carts| && Paired(s) && p >= |s.splits| + |Keys(lines)|
    ensures !Owns(Place(s, cartId, user, key, quote, lines, stock), p, d)
    ensures |Place(s, cartId, user, key, quote, lines, stock).splits| == |s.splits| + |Keys(lines)|
  {
  }

  lemma PlaceOwns(s: Shop, cartId: nat, user: nat, key: string, quote: Quote, lines: seq<Priced>, stock: Stock, p: int, d: nat)
    requires cartId < |s.carts| && Paired(s) && Owned(s)
    ensures var s' := Place(s, cartId, user, key, quote, lines, stock);
      && (p < |s.splits| ==> (Owns(s', p, d) <==> Owns(s, p, d)))
      && (p >= |s.splits| ==> (Owns(s', p, d) <==>
           (&& p < |s'.splits| && |s.orderLines| <= d < |s'.orderLines|
            && KeyOf(lines[d - |s.orderLines|]) == Keys(lines)[p - |s.splits|])))
  {
    if p < |s.splits| {
      PlaceKeepsOwners(s, cartId, user, key, quote, lines, stock, p, d);
    } else if p < |s.splits| + |Keys(lines)| {
      PlaceAddsOwners(s, cartId, user, key, quote, lines, stock, p - |s.splits|, d);
    } else {
      PlaceAddsNoMore(s, cartId, user, key, quote, lines, stock, p, d);
    }
  }

  lemma PlacedInRange(s: Shop, cartId: nat, user: nat, key: string, quote: Quote, lines: seq<Priced>, stock: Stock, p: int, d: nat)
    requires cartId < |s.carts| && Paired(s) && Owned(s)
    requires Owns(Place(s, cartId, user, key, quote, lines, stock), p, d)
    ensures var s' := Place(s, cartId, user, key, quote, lines, stock);
      d < |s'.orderLines| && p < |s'.splits| && s'.orderLines[d].order == s'.splits[p].order
  {
    PlaceOwns(s, cartId, user, key, quote, lines, stock, p, d);
  }

  lemma PlacedOnce(s: Shop, cartId: nat, user: nat, key: string, quote: Quote, lines: seq<Priced>, stock: Stock, p: int, q: int, d: nat)
    requires cartId < |s.carts| && Paired(s) && Owned(s)
    requires Owns(Place(s, cartId, user, key, quote, lines, stock), p, d)
    requires Owns(Place(s, cartId, user, key, quote, lines, stock), q, d)
    ensures p == q
  {
    PlaceOwns(s, cartId, user, key, quote, lines, stock, p, d);
    PlaceOwns(s, cartId, user, key, quote, lines, stock, q, d);
    KeysAreTheLinesKeys(lines);
  }

  lemma PlacedDelivered(s: Shop, cartId: nat, user: nat, key: string, quote: Quote, lines: seq<Priced>, stock: Stock, d: nat)
    requires cartId < |s.carts| && Paired(s) && Owned(s)
    requires d < |s.orderLines| + |lines|
    ensures Delivered(Place(s, cartId, user, key, quote, lines, stock), d)
  {
    var s' := Place(s, cartId, user, key, quote, lines, stock);
    if d < |s.orderLines| {
      assert Delivered(s, d);
      var p :| Owns(s, p, d);
      PlaceOwns(s, cartId, user, key, quote, lines, stock, p, d);
      assert Owns(s', p, d);
    } else {
      KeysAreTheLinesKeys(lines);
      var j :| 0 <= j < |Keys(lines)| && Keys(lines)[j] == KeyOf(lines[d - |s.orderLines|]);
      PlaceOwns(s, cartId, user, key, quote, lines, stock, |s.splits| + j, d);
      assert Owns(s', |s.splits| + j, d);
    }
  }

  lemma NewOrderHasLines(lines: seq<Priced>, base: nat, j: nat)
    requires j < |Groups(lines, base)|
    ensures Distinct(Groups(lines, base)[j].ids) && |Groups(lines, base)[j].ids| > 0
  {
    KeysAreTheLinesKeys(lines);
    assert Keys(lines)[j] in Keys(lines);
    var i :| 0 <= i < |lines| && KeyOf(lines[i]) == Keys(lines)[j];
    GroupIds(lines, base, j, base + i);
  }

  lemma PlacedLines(s: Shop, cartId: nat, user: nat, key: string, quote: Quote, lines: seq<Priced>, stock: Stock, p: nat)
    requires cartId < |s.carts| && Paired(s) && Owned(s)
    requires p < |Place(s, cartId, user, key, quote, lines, stock).purchaseOrders|
    ensures var po := Place(s, cartId, user, key, quote, lines, stock).purchaseOrders[p];
      Distinct(po.lines) && |po.lines| > 0
  {
    if p >= |s.splits| { NewOrderHasLines(lines, |s.orderLines|, p - |s.splits|); }
  }

  lemma PlaceKeepsOwned(s: Shop, cartId: nat, user: nat, key: string, quote: Quote, lines: seq<Priced>, stock: Stock)
    requires cartId < |s.carts| && Paired(s) && Owned(s)
    ensures Owned(Place(s, cartId, user, key, quote, lines, stock))
  {
    var s' := Place(s, cartId, user, key, quote, lines, stock);
    forall p, d: nat | Owns(s', p, d)
      ensures d < |s'.orderLines| && p < |s'.splits| && s'.orderLines[d].order == s'.splits[p].order
    {
      PlacedInRange(s, cartId, user, key, quote, lines, stock, p, d);
    }
    forall p, q, d: nat | Owns(s', p, d) && Owns(s', q, d) ensures p == q {
      PlacedOnce(s, cartId, user, key, quote, lines, stock, p, q, d);
    }
    forall d: nat | d < |s'.orderLines| ensures Delivered(s', d) {
      PlacedDelivered(s, cartId, user, key, quote, lines, stock, d);
    }
    forall p | 0 <= p < |s'.purchaseOrders|
      ensures Distinct(s'.purchaseOrders[p].lines) && |s'.purchaseOrders[p].lines| > 0
    {
      PlacedLines(s, cartId, user, key, quote, lines, stock, p);
    }
  }

  /** Lines that were there keep their reservation and purchase order; new ones are neither allocated nor accepted. */
  lemma PlaceKeepsAllocated(s: Shop, cartId: nat, user: nat, key: string, quote: Quote, lines: seq<Priced>, stock: Stock,
                            now: Time, p: int, d: nat)
    requires ShopInv(s) && cartId < |s.carts|
    requires ReserveAll(s.stock, Demands(lines, |s.orderLines|), now) == Ok(stock) && d < |stock.reservations|
    requires Owns(Place(s, cartId, user, key, quote, lines, stock), p, d)
    ensures stock.reservations[d].allocatedAt.Some?
       <==> Place(s, cartId, user, key, quote, lines, stock).purchaseOrders[p].accepted
  {
    ReserveAllAppends(s.stock, Demands(lines, |s.orderLines|), now);
    PlaceOwns(s, cartId, user, key, quote, lines, stock, p, d);
  }

  /** The stock that was reserved fits the order lines, old and new. */
  lemma PlaceKeepsStock(s: Shop, cartId: nat, user: nat, key: string, quote: Quote, lines: seq<Priced>, stock: Stock, now: Time)
    requires ShopInv(s) && cartId < |s.carts|
    requires ReserveAll(s.stock, Demands(lines, |s.orderLines|), now) == Ok(stock)
    ensures StockInv(stock) && Matched(Place(s, cartId, user, key, quote, lines, stock))
  {
    ReserveAllKeeps(s.stock, Demands(lines, |s.orderLines|), now);
    ReserveAllAppends(s.stock, Demands(lines, |s.orderLines|), now);
  }

  lemma PlaceKeepsAllocations(s: Shop, cartId: nat, user: nat, key: string, quote: Quote, lines: seq<Priced>, stock: Stock,
                              now: Time)
    requires ShopInv(s) && cartId < |s.carts|
    requires ReserveAll(s.stock, Demands(lines, |s.orderLines|), now) == Ok(stock)
    ensures AllocatedWhenAccepted(Place(s, cartId, user, key, quote, lines, stock))
  {
    var s' := Place(s, cartId, user, key, quote, lines, stock);
    forall p, d: nat | Owns(s', p, d) && d < |stock.reservations|
      ensures stock.reservations[d].allocatedAt.Some? <==> s'.purchaseOrders[p].accepted
    {
      PlaceKeepsAllocated(s, cartId, user, key, quote, lines, stock, now, p, d);
    }
  }

  lemma PlaceKeepsCarts(s: Shop, cartId: nat, user: nat, key: string, quote: Quote, lines: seq<Priced>, stock: Stock)
    requires CartsKnown(s) && cartId < |s.carts|
    ensures CartsKnown(Place(s, cartId, user, key, quote, lines, stock))
  {
  }

  lemma PlaceKeeps(s: Shop, cartId: nat, user: nat, key: string, quote: Quote, lines: seq<Priced>, stock: Stock, now: Time)
    requires ShopInv(s) && cartId < |s.carts| && |lines| > 0
    requires ReserveAll(s.stock, Demands(lines, |s.orderLines|), now) == Ok(stock)
    ensures ShopInv(Place(s, cartId, user, key, quote, lines, stock))
  {
    PlaceKeepsCarts(s, cartId, user, key, quote, lines, stock);
    PlaceKeepsStock(s, cartId, user, key, quote, lines, stock, now);
    PlaceKeepsTotals(s, cartId, user, key, quote, lines, stock);
    PlaceKeepsConfirmed(s, cartId, user, key, quote, lines, stock);
    PlaceKeepsOwned(s, cartId, user, key, quote, lines, stock);
    PlaceKeepsAllocations(s, cartId, user, key, quote, lines, stock, now);
  }

  lemma CheckoutKeeps(s: Shop, cartId: nat, user: nat, key: string, version: nat, quote: Quote, now: Time)
    requires ShopInv(s) && Checkout(s, cartId, user, key, version, quote, now).Ok?
    ensures ShopInv(Checkout(s, cartId, user, key, version, quote, now).value)
  {
    if FindOrder(s.orders, key).None? {
      var lines := PriceLines(s.offers, s.carts[cartId].lines);
      var stock := ReserveAll(s.stock, Demands(lines, |s.orderLines|), now).value;
      PlaceKeeps(s, cartId, user, key, quote, lines, stock, now);
    }
  }

  // ----- acceptance keeps it ---------------------------------------------------------

  /** What allocating some demands leaves, where the n-th reservation serves demand n. */
  ghost predicate AllocatedExactly(s: Stock, s': Stock, demands: seq<nat>, now: Time) {
    && StockInv(s') && |s'.reservations| == |s.reservations|
    && forall d: nat :: d < |s.reservations| ==>
         s'.reservations[d] == if d in demands then s.reservations[d].(allocatedAt := Some(now)) else s.reservations[d]
  }

  lemma OneMoreAllocated(s: Stock, mid: Stock, earlier: seq<nat>, d: nat, now: Time)
    requires AllocatedExactly(s, mid, earlier, now) && d < |s.reservations| && d !in earlier
    requires forall k :: 0 <= k < |s.reservations| ==> s.reservations[k].demand == k
    ensures AllocateLine(mid, d, now).Ok? <==> Open(s.reservations[d])
    ensures AllocateLine(mid, d, now).Ok? ==>
      AllocatedExactly(s, AllocateLine(mid, d, now).value, earlier + [d], now)
  {
    forall k | 0 <= k < |mid.reservations| ensures mid.reservations[k].demand == k {
      assert mid.reservations[k].demand == s.reservations[k].demand;
    }
    assert mid.reservations[d] == s.reservations[d];
    AllocateOne(mid, d, now);
  }

  predicate AllOpen(s: Stock, demands: seq<nat>) {
    forall k :: 0 <= k < |demands| ==> demands[k] < |s.reservations| && Open(s.reservations[demands[k]])
  }

  lemma AllOpenSplits(s: Stock, demands: seq<nat>)
    requires |demands| > 0
    ensures var n := |demands| - 1;
      AllOpen(s, demands)
      <==> AllOpen(s, demands[..n]) && demands[n] < |s.reservations| && Open(s.reservations[demands[n]])
  {
    var n := |demands| - 1;
    assert forall k :: 0 <= k < n ==> demands[k] == demands[..n][k];
  }

  /** Where the n-th reservation serves demand n, allocation touches exactly the demands asked for. */
  lemma {:induction false} AllocateAllExact(s: Stock, demands: seq<nat>, now: Time)
    requires StockInv(s) && Distinct(demands)
    requires forall k :: 0 <= k < |s.reservations| ==> s.reservations[k].demand == k
    requires forall k :: 0 <= k < |demands| ==> demands[k] < |s.reservations|
    ensures AllocateAll(s, demands, now).Ok? <==> AllOpen(s, demands)
    ensures AllocateAll(s, demands, now).Ok? ==> AllocatedExactly(s, AllocateAll(s, demands, now).value, demands, now)
  {
    if |demands| > 0 {
      var n := |demands| - 1;
      var earlier := demands[..n];
      AllocateAllExact(s, earlier, now);
      assert demands == earlier + [demands[n]] && demands[n] !in earlier;
      AllOpenSplits(s, demands);
      if AllocateAll(s, earlier, now).Ok? {
        OneMoreAllocated(s, AllocateAll(s, earlier, now).value, earlier, demands[n], now);
      }
    }
  }

  lemma AllocateOne(s: Stock, d: nat, now: Time)
    requires StockInv(s) && d < |s.reservations|
    requires forall k :: 0 <= k < |s.reservations| ==> s.reservations[k].demand == k
    ensures AllocateLine(s, d, now).Ok? <==> Open(s.reservations[d])
    ensures AllocateLine(s, d, now).Ok? ==>
      var s' := AllocateLine(s, d, now).value;
      StockInv(s') && s'.reservations == s.reservations[d := s.reservations[d].(allocatedAt := Some(now))]
  {
    var found := FindOpen(s.reservations, d, 0);
    if found.Some? {
      assert s.reservations[found.value].demand == found.value;
      CloseKeeps(s, d, Allocated, now);
    }
  }

  lemma AcceptedKeepsTotals(s: Shop, po: nat, stock: Stock)
    requires Paired(s) && TotalsAgree(s) && po < |s.purchaseOrders|
    ensures TotalsAgree(Accepted(s, po, stock))
  {
    var s' := Accepted(s, po, stock);
    forall o: nat ensures SumBy(s'.orderLines, LineTotalOf(o)) == SumBy(s'.splits, SplitTotalOf(o)) {
      assert SumBy(s.orderLines, LineTotalOf(o)) == SumBy(s.splits, SplitTotalOf(o));
      SumByUpdate(s.splits, po, s.splits[po].(accepted := true), SplitTotalOf(o));
    }
  }

  lemma AcceptedKeepsConfirmed(s: Shop, po: nat, stock: Stock)
    requires Paired(s) && ConfirmedWhenAccepted(s) && po < |s.purchaseOrders| && !s.purchaseOrders[po].accepted
    ensures Paired(Accepted(s, po, stock)) && ConfirmedWhenAccepted(Accepted(s, po, stock))
  {
    var s' := Accepted(s, po, stock);
    var order := s.splits[po].order;
    assert AnyPending(s.splits, order) by {
      assert !s.splits[po].accepted;
    }
    forall o | 0 <= o < |s'.orders| ensures s'.orders[o].confirmed <==> !AnyPending(s'.splits, o) {
      if o != order {
        assert s'.orders[o] == s.orders[o];
        if AnyPending(s.splits, o) {
          var k :| 0 <= k < |s.splits| && s.splits[k].order == o && !s.splits[k].accepted;
          assert s'.splits[k] == s.splits[k];
        }
        if AnyPending(s'.splits, o) {
          var k :| 0 <= k < |s'.splits| && s'.splits[k].order == o && !s'.splits[k].accepted;
          assert s'.splits[k] == s.splits[k];
        }
      }
    }
  }

  lemma AcceptKeepsOwned(s: Shop, po: nat, now: Time)
    requires Paired(s) && Owned(s) && Accept(s, po, now).Ok?
    ensures Owned(Accept(s, po, now).value)
  {
    var s' := Accept(s, po, now).value;
    forall p, d: nat ensures Owns(s', p, d) <==> Owns(s, p, d) {}
    forall d: nat | d < |s'.orderLines| ensures Delivered(s', d) {
      assert Delivered(s, d);
      var p :| Owns(s, p, d);
      assert Owns(s', p, d);
    }
  }

  lemma DemandsAreReserved(s: Shop, po: nat)
    requires ShopInv(s) && po < |s.purchaseOrders|
    ensures Distinct(s.purchaseOrders[po].lines)
    ensures forall k :: 0 <= k < |s.purchaseOrders[po].lines| ==> s.purchaseOrders[po].lines[k] < |s.stock.reservations|
  {
    var demands := s.purchaseOrders[po].lines;
    forall k | 0 <= k < |demands| ensures demands[k] < |s.stock.reservations| { assert Owns(s, po, demands[k]); }
  }

  /** The accepted purchase order's reservations are allocated, and no others. */
  lemma AcceptKeepsAllocations(s: Shop, po: nat, now: Time)
    requires ShopInv(s) && Accept(s, po, now).Ok?
    ensures AllocatedWhenAccepted(Accept(s, po, now).value)
  {
    var s' := Accept(s, po, now).value;
    var demands := s.purchaseOrders[po].lines;
    DemandsAreReserved(s, po);
    AllocateAllExact(s.stock, demands, now);
    forall p, d: nat | Owns(s', p, d) && d < |s'.stock.reservations|
      ensures s'.stock.reservations[d].allocatedAt.Some? <==> s'.purchaseOrders[p].accepted
    {
      assert Owns(s, p, d);
      assert d in demands <==> p == po by { assert Owns(s, po, d) <==> d in demands; }
    }
  }

  lemma AcceptKeeps(s: Shop, po: nat, now: Time)
    requires ShopInv(s) && Accept(s, po, now).Ok?
    ensures ShopInv(Accept(s, po, now).value)
  {
    var s' := Accept(s, po, now).value;
    DemandsAreReserved(s, po);
    AllocateAllExact(s.stock, s.purchaseOrders[po].lines, now);
    AcceptedKeepsTotals(s, po, s'.stock);
    AcceptedKeepsConfirmed(s, po, s'.stock);
    AcceptKeepsOwned(s, po, now);
    AcceptKeepsAllocations(s, po, now);
  }
}
