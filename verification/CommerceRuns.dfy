/** Runs of the shop: carts, orders, purchase orders and stock, interleaved in any way. */
module CommerceRuns {
  import opened Basics
  import opened CommerceCart
  import opened CommerceOrders
  import opened CommercePricing
  import opened Inventory
  import opened Results
  import opened Sums

  datatype ShopStep =
    | CreateOffer(offer: Offer)
    | PublishOffer(id: nat)
    | OpenCart(user: nat, store: nat, currency: string, expiresAt: Time)
    | EditCart(cart: nat, edit: Edit)
    | PlaceOrder(cart: nat, user: nat, key: string, version: nat, quote: Quote, now: Time)
    | AcceptOrder(po: nat, now: Time)
    | ExpireReservation(reservation: nat, now: Time)
    | CountStock(feed: FeedKey, facility: nat, sku: string, product: nat, quantity: int)
    | ReceiveGoods(facility: nat, sku: string, product: nat, accepted: Quantity)

  predicate EditKnown(s: Shop, edit: Edit) { edit.Put? ==> edit.line.offer < |s.offers| }

  function Settle(s: Shop, outcome: Outcome): Shop { if outcome.Ok? then outcome.value else s }

  function Proceed(s: Shop, step: ShopStep): Shop
    requires ShopInv(s)
  {
    match step
    case CreateOffer(offer) => s.(offers := s.offers + [offer])
    case PublishOffer(id) =>
      if id >= |s.offers| || s.offers[id].active then s
      else s.(offers := s.offers[id := s.offers[id].(active := true, version := s.offers[id].version + 1)])
    case OpenCart(user, store, currency, expiresAt) =>
      s.(carts := s.carts + [Cart(user, store, currency, true, expiresAt, 0, [], 0)])
    case EditCart(cart, edit) =>
      if cart >= |s.carts| || !EditKnown(s, edit) then s
      else s.(carts := s.carts[cart := Apply(s.carts[cart], edit)])
    case PlaceOrder(cart, user, key, version, quote, now) => Settle(s, Checkout(s, cart, user, key, version, quote, now))
    case AcceptOrder(po, now) => Settle(s, Accept(s, po, now))
    case ExpireReservation(id, now) => s.(stock := Next(s.stock, ExpireStep(id, now)))
    case CountStock(feed, facility, sku, product, quantity) =>
      s.(stock := Next(s.stock, FeedStep(feed, facility, sku, product, quantity)))
    case ReceiveGoods(facility, sku, product, accepted) =>
      s.(stock := Next(s.stock, ReceiveStep(facility, sku, product, accepted)))
  }

  // ----- every step keeps the invariant ----------------------------------------------

  /** One order per cart and per key; an ordered cart stays closed. */
  ghost predicate OncePerCart(s: Shop) {
    && (forall o :: 0 <= o < |s.orders| ==> s.orders[o].cart < |s.carts| && !s.carts[s.orders[o].cart].active)
    && forall o, q :: 0 <= o < q < |s.orders| ==>
         s.orders[o].cart != s.orders[q].cart && s.orders[o].key != s.orders[q].key
  }

  lemma StockOnly(s: Shop, stock: Stock)
    requires ShopInv(s) && StockInv(stock) && |stock.reservations| == |s.stock.reservations|
    requires forall d :: 0 <= d < |stock.reservations| ==>
      var r, was := stock.reservations[d], s.stock.reservations[d];
      r.demand == was.demand && r.quantity == was.quantity && r.allocatedAt == was.allocatedAt
    ensures ShopInv(s.(stock := stock))
  {
    var s' := s.(stock := stock);
    assert forall p, d: nat :: Owns(s', p, d) <==> Owns(s, p, d);
    forall d: nat | d < |s'.orderLines| ensures Delivered(s', d) {
      assert Delivered(s, d);
      var p :| Owns(s, p, d);
      assert Owns(s', p, d);
    }
  }

  lemma ShelfOnly(s: Shop, offers: seq<Offer>, carts: seq<Cart>)
    requires ShopInv(s) && CartsKnown(s.(offers := offers, carts := carts))
    ensures ShopInv(s.(offers := offers, carts := carts))
  {
    var s' := s.(offers := offers, carts := carts);
    assert forall p, d: nat :: Owns(s', p, d) <==> Owns(s, p, d);
    forall d: nat | d < |s'.orderLines| ensures Delivered(s', d) {
      assert Delivered(s, d);
      var p :| Owns(s, p, d);
      assert Owns(s', p, d);
    }
  }

  lemma EditKnows(offers: seq<Offer>, c: Cart, edit: Edit)
    requires Known(offers, c.lines) && (edit.Put? ==> edit.line.offer < |offers|)
    ensures Known(offers, Apply(c, edit).lines)
  {
  }

  lemma ShelfStepKeeps(s: Shop, step: ShopStep)
    requires ShopInv(s) && (step.CreateOffer? || step.PublishOffer? || step.OpenCart?)
    ensures ShopInv(Proceed(s, step))
  {
    ShelfOnly(s, Proceed(s, step).offers, Proceed(s, step).carts);
  }

  lemma EditStepKeeps(s: Shop, step: ShopStep)
    requires ShopInv(s) && step.EditCart?
    ensures ShopInv(Proceed(s, step))
  {
    if step.cart < |s.carts| && EditKnown(s, step.edit) {
      EditKnows(s.offers, s.carts[step.cart], step.edit);
      ShelfOnly(s, s.offers, Proceed(s, step).carts);
    }
  }

  lemma PlaceStepKeeps(s: Shop, step: ShopStep)
    requires ShopInv(s) && step.PlaceOrder?
    ensures ShopInv(Proceed(s, step))
  {
    if Checkout(s, step.cart, step.user, step.key, step.version, step.quote, step.now).Ok? {
      CheckoutKeeps(s, step.cart, step.user, step.key, step.version, step.quote, step.now);
    }
  }

  lemma AcceptStepKeeps(s: Shop, step: ShopStep)
    requires ShopInv(s) && step.AcceptOrder?
    ensures ShopInv(Proceed(s, step))
  {
    match step
    case AcceptOrder(po, now) => if Accept(s, po, now).Ok? { AcceptKeeps(s, po, now); }
  }

  lemma ExpiryStepKeeps(s: Shop, step: ShopStep)
    requires ShopInv(s) && step.ExpireReservation?
    ensures ShopInv(Proceed(s, step))
  {
    match step
    case ExpireReservation(id, now) =>
      NextKeeps(s.stock, ExpireStep(id, now));
      StockOnly(s, Proceed(s, step).stock);
  }

  lemma SupplyStepKeeps(s: Shop, step: ShopStep)
    requires ShopInv(s) && (step.CountStock? || step.ReceiveGoods?)
    ensures ShopInv(Proceed(s, step))
  {
    match step
    case CountStock(feed, facility, sku, product, quantity) =>
      NextKeeps(s.stock, FeedStep(feed, facility, sku, product, quantity));
      StockOnly(s, Proceed(s, step).stock);
    case ReceiveGoods(facility, sku, product, accepted) =>
      NextKeeps(s.stock, ReceiveStep(facility, sku, product, accepted));
      StockOnly(s, Proceed(s, step).stock);
  }

  lemma ProceedKeeps(s: Shop, step: ShopStep)
    requires ShopInv(s)
    ensures ShopInv(Proceed(s, step))
  {
    match step
    case EditCart(_, _) => EditStepKeeps(s, step);
    case PlaceOrder(_, _, _, _, _, _) => PlaceStepKeeps(s, step);
    case AcceptOrder(_, _) => AcceptStepKeeps(s, step);
    case ExpireReservation(_, _) => ExpiryStepKeeps(s, step);
    case CountStock(_, _, _, _, _) => SupplyStepKeeps(s, step);
    case ReceiveGoods(_, _, _, _) => SupplyStepKeeps(s, step);
    case _ => ShelfStepKeeps(s, step);
  }

  lemma SameOrdersOnce(s: Shop, s': Shop)
    requires OncePerCart(s) && |s'.carts| >= |s.carts| && |s'.orders| == |s.orders|
    requires forall o :: 0 <= o < |s.orders| ==> s'.orders[o].cart == s.orders[o].cart && s'.orders[o].key == s.orders[o].key
    requires forall c :: 0 <= c < |s.carts| && !s.carts[c].active ==> !s'.carts[c].active
    ensures OncePerCart(s')
  {
  }

  lemma PlaceOnce(s: Shop, cartId: nat, user: nat, key: string, quote: Quote, lines: seq<Priced>, stock: Stock)
    requires OncePerCart(s) && cartId < |s.carts| && s.carts[cartId].active && FindOrder(s.orders, key).None?
    ensures OncePerCart(Place(s, cartId, user, key, quote, lines, stock))
  {
  }

  lemma PlaceStepOnce(s: Shop, step: ShopStep)
    requires ShopInv(s) && OncePerCart(s) && step.PlaceOrder?
    ensures OncePerCart(Proceed(s, step))
  {
    var cart := step.cart;
    var outcome := Checkout(s, cart, step.user, step.key, step.version, step.quote, step.now);
    if outcome.Ok? && FindOrder(s.orders, step.key).None? {
      PlaceOnce(s, cart, step.user, step.key, step.quote, PriceLines(s.offers, s.carts[cart].lines), outcome.value.stock);
    }
  }

  lemma ProceedKeepsOnce(s: Shop, step: ShopStep)
    requires ShopInv(s) && OncePerCart(s)
    ensures OncePerCart(Proceed(s, step))
  {
    if step.PlaceOrder? {
      PlaceStepOnce(s, step);
    } else {
      SameOrdersOnce(s, Proceed(s, step));
    }
  }

  function RunShop(s: Shop, steps: seq<ShopStep>): (s': Shop)
    requires ShopInv(s)
    ensures ShopInv(s')
    decreases |steps|
  {
    if |steps| == 0 then s
    else
      ProceedKeeps(s, steps[0]);
      RunShop(Proceed(s, steps[0]), steps[1..])
  }

  predicate NewShop(s: Shop) {
    && s.carts == [] && s.orders == [] && s.orderLines == [] && s.splits == [] && s.purchaseOrders == []
    && Empty(s.stock)
  }

  lemma NewShopInv(s: Shop)
    requires NewShop(s)
    ensures ShopInv(s) && OncePerCart(s)
  {
    EmptyInv(s.stock);
  }

  lemma {:induction false} OnceKept(s: Shop, steps: seq<ShopStep>)
    requires ShopInv(s) && OncePerCart(s)
    ensures OncePerCart(RunShop(s, steps))
    decreases |steps|
  {
    if |steps| > 0 {
      ProceedKeeps(s, steps[0]);
      ProceedKeepsOnce(s, steps[0]);
      OnceKept(Proceed(s, steps[0]), steps[1..]);
    }
  }

  // ----- main results: orders --------------------------------------------------------

  function PurchaseTotalOf(splits: seq<Split>, order: nat): PurchaseOrder -> int {
    (po: PurchaseOrder) => if po.split < |splits| && splits[po.split].order == order then po.total else 0
  }

  /** Order lines, splits and purchase orders of an order add up to the same amount, always. */
  lemma OrderTotalsAgree(start: Shop, steps: seq<ShopStep>, o: nat)
    requires NewShop(start)
    ensures ShopInv(start)
    ensures var s := RunShop(start, steps);
      && SumBy(s.orderLines, LineTotalOf(o)) == SumBy(s.splits, SplitTotalOf(o))
      && SumBy(s.splits, SplitTotalOf(o)) == SumBy(s.purchaseOrders, PurchaseTotalOf(s.splits, o))
  {
    NewShopInv(start);
    var s := RunShop(start, steps);
    SumByPointwise(s.splits, SplitTotalOf(o), s.purchaseOrders, PurchaseTotalOf(s.splits, o));
  }

  /** Every order line is on exactly one purchase order, of its own order, and once. */
  lemma EachLineDelivered(start: Shop, steps: seq<ShopStep>, d: nat)
    requires NewShop(start)
    ensures ShopInv(start)
    ensures var s := RunShop(start, steps);
      d < |s.orderLines| ==>
        exists p :: (&& Owns(s, p, d) && s.splits[p].order == s.orderLines[d].order
                     && Distinct(s.purchaseOrders[p].lines)
                     && forall q :: Owns(s, q, d) ==> q == p)
  {
    NewShopInv(start);
    var s := RunShop(start, steps);
    if d < |s.orderLines| {
      assert Delivered(s, d);
    }
  }

  predicate Pending(s: Shop, po: nat) { po < |s.purchaseOrders| && !s.purchaseOrders[po].accepted }

  /** A purchase order can be accepted exactly while it is pending and none of its reservations was released. */
  lemma AcceptanceExact(start: Shop, steps: seq<ShopStep>, po: nat, now: Time)
    requires NewShop(start)
    ensures ShopInv(start)
    ensures var s := RunShop(start, steps);
      Accept(s, po, now).Ok? <==>
        (&& Pending(s, po)
         && forall d: nat :: d in s.purchaseOrders[po].lines && d < |s.stock.reservations| ==>
              s.stock.reservations[d].releasedAt.None?)
  {
    NewShopInv(start);
    var s := RunShop(start, steps);
    if Pending(s, po) {
      var demands := s.purchaseOrders[po].lines;
      forall k | 0 <= k < |demands| ensures demands[k] < |s.stock.reservations| { assert Owns(s, po, demands[k]); }
      AllocateAllExact(s.stock, demands, now);
      forall k | 0 <= k < |demands|
        ensures Open(s.stock.reservations[demands[k]]) <==> s.stock.reservations[demands[k]].releasedAt.None?
      {
        assert Owns(s, po, demands[k]);
      }
    }
  }

  ghost predicate AllAllocated(s: Shop, o: nat) {
    forall d :: 0 <= d < |s.orderLines| && d < |s.stock.reservations| && s.orderLines[d].order == o ==>
      s.stock.reservations[d].allocatedAt.Some?
  }

  /** An order is confirmed exactly when all of its stock is allocated. */
  lemma ConfirmedExact(start: Shop, steps: seq<ShopStep>, o: nat)
    requires NewShop(start)
    ensures ShopInv(start)
    ensures var s := RunShop(start, steps);
      o < |s.orders| ==> (s.orders[o].confirmed <==> AllAllocated(s, o))
  {
    NewShopInv(start);
    var s := RunShop(start, steps);
    if o < |s.orders| {
      if s.orders[o].confirmed {
        forall d | 0 <= d < |s.orderLines| && s.orderLines[d].order == o
          ensures s.stock.reservations[d].allocatedAt.Some?
        {
          assert Delivered(s, d);
          var p :| Owns(s, p, d);
          assert s.splits[p].order == o;
          assert s.splits[p].accepted;
        }
      } else {
        var p :| 0 <= p < |s.splits| && s.splits[p].order == o && !s.splits[p].accepted;
        var d := s.purchaseOrders[p].lines[0];
        assert Owns(s, p, d);
        assert !AllAllocated(s, o);
      }
    }
  }

  /** So an order that lost a reservation to expiry is never confirmed. */
  lemma ExpiredNeverConfirmed(start: Shop, steps: seq<ShopStep>, d: nat)
    requires NewShop(start)
    ensures ShopInv(start)
    ensures var s := RunShop(start, steps);
      d < |s.orderLines| && s.stock.reservations[d].releasedAt.Some? ==> !s.orders[s.orderLines[d].order].confirmed
  {
    NewShopInv(start);
    var s := RunShop(start, steps);
    if d < |s.orderLines| {
      ConfirmedExact(start, steps, s.orderLines[d].order);
    }
  }

  /** A cart is ordered at most once, whatever keys are used, and a key never orders twice. */
  lemma OneOrderPerCart(start: Shop, steps: seq<ShopStep>, cart: nat, user: nat, key: string, version: nat,
                        quote: Quote, now: Time, o: nat)
    requires NewShop(start)
    ensures ShopInv(start)
    ensures var s := RunShop(start, steps);
      o < |s.orders| && (s.orders[o].cart == cart || s.orders[o].key == key) ==>
        Checkout(s, cart, user, key, version, quote, now) ==
          if s.orders[o] == Order(cart, user, key, s.orders[o].quote, s.orders[o].confirmed) then Ok(s)
          else if FindOrder(s.orders, key).Some? then Err(KeyBound) else Err(Missing)
  {
    NewShopInv(start);
    OnceKept(start, steps);
  }
}
