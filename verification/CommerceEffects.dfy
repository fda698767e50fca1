/**
 What cart edits, checkout and acceptance leave behind, row by row, and exactly when they go
 through. What belongs to an order for good, and what adds up, is in the modules on runs.
 */
module CommerceEffects {
  import opened Basics
  import opened CommerceCart
  import opened CommerceOrders
  import opened CommercePricing
  import opened CommerceRuns
  import opened Inventory
  import opened InventoryItems
  import opened Results

  // ----- cart edits ------------------------------------------------------------------

  /** A cart has one line an offer, as its unique key says. */
  ghost predicate OnePerOffer(lines: seq<CartLine>) {
    forall i, j :: 0 <= i < j < |lines| ==> lines[i].offer != lines[j].offer
  }

  /** Putting a line makes it the cart's line for its offer; all other lines stay. */
  lemma PutEffect(c: Cart, line: CartLine, other: CartLine)
    requires OnePerOffer(c.lines)
    ensures var c' := Apply(c, Put(line));
      && (other in c'.lines <==> other == line || (other in c.lines && other.offer != line.offer))
      && OnePerOffer(c'.lines) && c' == c.(lines := c'.lines, version := c.version + 1)
  {
    var c' := Apply(c, Put(line));
    var found := FindLine(c.lines, line.offer);
    if found.Some? {
      assert c'.lines[found.value] == line;
      if other in c.lines && other.offer != line.offer {
        var i :| 0 <= i < |c.lines| && c.lines[i] == other;
        assert c'.lines[i] == other;
      }
    }
  }

  /** Changing a line gives it the quantity, price and version; its offer and all other lines stay. */
  lemma ChangeEffect(c: Cart, k: nat, quantity: Quantity, unitPrice: nat, offerVersion: nat)
    requires k < |c.lines| && OnePerOffer(c.lines)
    ensures var c' := Apply(c, Change(k, quantity, unitPrice, offerVersion));
      && OnlyRow(c.lines, c'.lines, k)
      && c'.lines[k] == CartLine(c.lines[k].offer, quantity, unitPrice, offerVersion)
      && OnePerOffer(c'.lines) && c' == c.(lines := c'.lines, version := c.version + 1)
  {
  }

  /** A removal takes out that line alone, and leaves the version to its second statement. */
  lemma RemoveEffect(c: Cart, k: nat, other: CartLine)
    requires k < |c.lines| && OnePerOffer(c.lines)
    ensures var c' := Apply(c, Remove(k));
      && (other in c'.lines <==> other in c.lines && other.offer != c.lines[k].offer)
      && OnePerOffer(c'.lines) && c' == c.(lines := c'.lines, removing := c.removing + 1)
      && Apply(c', Bump) == c'.(version := c.version + 1, removing := c.removing)
  {
    var c' := Apply(c, Remove(k));
    assert forall i :: 0 <= i < k ==> c'.lines[i] == c.lines[i];
    assert forall i :: k < i < |c.lines| ==> c'.lines[i - 1] == c.lines[i];
  }

  ghost predicate CartsSound(s: Shop) { forall c :: 0 <= c < |s.carts| ==> OnePerOffer(s.carts[c].lines) }

  lemma EditKeepsSound(c: Cart, edit: Edit)
    requires OnePerOffer(c.lines)
    ensures OnePerOffer(Apply(c, edit).lines)
  {
    match edit
    case Put(line) => PutEffect(c, line, line);
    case Change(k, quantity, unitPrice, offerVersion) =>
    case Remove(k) => if k < |c.lines| { RemoveEffect(c, k, c.lines[k]); }
    case Bump =>
  }

  /** However carts are edited, none ever has two lines of one offer. */
  lemma {:induction false} OneLinePerOffer(s: Shop, steps: seq<ShopStep>)
    requires ShopInv(s) && CartsSound(s)
    ensures CartsSound(RunShop(s, steps))
    decreases |steps|
  {
    if |steps| > 0 {
      match steps[0] {
        case EditCart(cart, edit) => if cart < |s.carts| { EditKeepsSound(s.carts[cart], edit); }
        case _ =>
      }
      ProceedKeeps(s, steps[0]);
      OneLinePerOffer(Proceed(s, steps[0]), steps[1..]);
    }
  }

  /** Offers are added as they are, and published once, which is a new version; a new cart is active and empty. */
  lemma ShelfEffect(s: Shop, offer: Offer, id: nat, user: nat, store: nat, currency: string, expiresAt: Time)
    requires ShopInv(s)
    ensures Proceed(s, CreateOffer(offer)) == s.(offers := s.offers + [offer])
    ensures Proceed(s, OpenCart(user, store, currency, expiresAt))
      == s.(carts := s.carts + [Cart(user, store, currency, true, expiresAt, 0, [], 0)])
    ensures var s' := Proceed(s, PublishOffer(id));
      if id < |s.offers| && !s.offers[id].active then
        && OnlyRow(s.offers, s'.offers, id) && s' == s.(offers := s'.offers)
        && s'.offers[id] == s.offers[id].(active := true, version := s.offers[id].version + 1)
      else s' == s
  {
  }

  // ----- checkout --------------------------------------------------------------------

  /** The buyer's open cart, at the version that was quoted, with offers that still say what its lines say. */
  ghost predicate Orderable(s: Shop, cart: nat, user: nat, version: nat, now: Time)
    requires CartsKnown(s)
  {
    && cart < |s.carts|
    && var c := s.carts[cart];
    && c.user == user && c.active && now < c.expiresAt && c.version == version && c.lines != []
    && forall k :: 0 <= k < |c.lines| ==>
         var offer := s.offers[c.lines[k].offer];
         && offer.active && offer.version == c.lines[k].offerVersion && offer.price == c.lines[k].unitPrice
         && offer.store == c.store && offer.currency == c.currency
  }

  /** What the cart's lines ask of stock; each gets the number of its order line to be. */
  function Asked(s: Shop, cart: nat): seq<DemandLine>
    requires cart < |s.carts| && Known(s.offers, s.carts[cart].lines)
  {
    Demands(PriceLines(s.offers, s.carts[cart].lines), |s.orderLines|)
  }

  /** A checkout under a new key succeeds exactly for an orderable cart whose lines stock can meet together. */
  lemma CheckoutGoesThrough(s: Shop, cart: nat, user: nat, key: string, version: nat, quote: Quote, now: Time)
    requires ShopInv(s) && forall o :: 0 <= o < |s.orders| ==> s.orders[o].key != key
    ensures Checkout(s, cart, user, key, version, quote, now).Ok? <==>
      && Orderable(s, cart, user, version, now)
      && AllServed(s.stock.items, Asked(s, cart)) && Enough(s.stock, Asked(s, cart))
  {
    if cart < |s.carts| { ReserveAllGoesThrough(s.stock, Asked(s, cart), now); }
  }

  /** Line `k` of the cart becomes the order line of that number, with a reservation for a day. */
  ghost predicate LinePlaced(s: Shop, s': Shop, cart: nat, k: nat, now: Time)
    requires cart < |s.carts| && k < |s.carts[cart].lines| && s.carts[cart].lines[k].offer < |s.offers|
  {
    var line, d := s.carts[cart].lines[k], |s.orderLines| + k;
    var offer := s.offers[line.offer];
    && d < |s'.orderLines| && d < |s'.stock.reservations|
    && s'.orderLines[d]
       == OrderLine(|s.orders|, Priced(offer.product, offer.seller, offer.supplier, line.quantity, line.unitPrice))
    && Serves(s.stock, s'.stock.reservations[d].item, offer.product)
    && s'.stock.reservations[d]
       == Reservation(s'.stock.reservations[d].item, d, line.quantity, now + 86_400_000, None, None)
  }

  /** Why it is refused: not the buyer's open cart, changed since, empty, offers outdated, or else stock. */
  lemma CheckoutRefused(s: Shop, cart: nat, user: nat, key: string, version: nat, quote: Quote, now: Time)
    requires ShopInv(s) && forall o :: 0 <= o < |s.orders| ==> s.orders[o].key != key
    ensures var answer := Checkout(s, cart, user, key, version, quote, now);
      var usable := cart < |s.carts| && s.carts[cart].user == user && s.carts[cart].active && now < s.carts[cart].expiresAt;
      && (answer == Err(Missing) <==> !usable)
      && (answer == Err(CartChanged) <==> usable && s.carts[cart].version != version)
      && (answer == Err(CartEmpty) <==> usable && s.carts[cart].version == version && s.carts[cart].lines == [])
      && (answer == Err(OfferOutdated) <==>
           usable && s.carts[cart].version == version && s.carts[cart].lines != [] && !Orderable(s, cart, user, version, now))
  {
  }

  /** A checkout that succeeds closes its cart and adds one order, with the quote it was given. */
  lemma CheckoutEffect(s: Shop, cart: nat, user: nat, key: string, version: nat, quote: Quote, now: Time)
    requires ShopInv(s) && forall o :: 0 <= o < |s.orders| ==> s.orders[o].key != key
    requires Checkout(s, cart, user, key, version, quote, now).Ok?
    ensures var s' := Checkout(s, cart, user, key, version, quote, now).value;
      && s'.orders == s.orders + [Order(cart, user, key, quote, false)]
      && s'.offers == s.offers && OnlyRow(s.carts, s'.carts, cart)
      && s'.carts[cart] == s.carts[cart].(active := false, version := version + 1)
      && SetAside(s.stock, s'.stock, Asked(s, cart), now)
  {
    ReserveAllGoesThrough(s.stock, Asked(s, cart), now);
  }

  lemma BookedLine(s: Shop, s': Shop, cart: nat, k: nat, now: Time)
    requires Matched(s) && cart < |s.carts| && Known(s.offers, s.carts[cart].lines) && k < |s.carts[cart].lines|
    requires Booked(s.stock, s'.stock, Asked(s, cart), now)
    requires s'.orderLines == s.orderLines + OrderLines(|s.orders|, PriceLines(s.offers, s.carts[cart].lines))
    ensures LinePlaced(s, s', cart, k, now)
  {
    var lines := PriceLines(s.offers, s.carts[cart].lines);
    assert Asked(s, cart)[k] == DemandLine(lines[k].product, |s.orderLines| + k, lines[k].quantity);
  }

  /** It adds an order line and a reservation for each line of the cart, in order. */
  lemma CheckoutLines(s: Shop, cart: nat, user: nat, key: string, version: nat, quote: Quote, now: Time)
    requires ShopInv(s) && forall o :: 0 <= o < |s.orders| ==> s.orders[o].key != key
    requires Checkout(s, cart, user, key, version, quote, now).Ok?
    ensures var s' := Checkout(s, cart, user, key, version, quote, now).value;
      && |s'.orderLines| == |s.orderLines| + |s.carts[cart].lines| && s'.orderLines[..|s.orderLines|] == s.orderLines
      && forall k: nat :: k < |s.carts[cart].lines| ==> LinePlaced(s, s', cart, k, now)
  {
    var s' := Checkout(s, cart, user, key, version, quote, now).value;
    ReserveAllGoesThrough(s.stock, Asked(s, cart), now);
    forall k: nat | k < |s.carts[cart].lines| ensures LinePlaced(s, s', cart, k, now) { BookedLine(s, s', cart, k, now); }
  }

  /** It adds at least one split, each with its purchase order, all still to be accepted. */
  lemma CheckoutSplits(s: Shop, cart: nat, user: nat, key: string, version: nat, quote: Quote, now: Time)
    requires ShopInv(s) && forall o :: 0 <= o < |s.orders| ==> s.orders[o].key != key
    requires Checkout(s, cart, user, key, version, quote, now).Ok?
    ensures var s' := Checkout(s, cart, user, key, version, quote, now).value;
      && |s'.splits| == |s'.purchaseOrders| > |s.splits|
      && s'.splits[..|s.splits|] == s.splits && s'.purchaseOrders[..|s.splits|] == s.purchaseOrders
      && forall p :: |s.splits| <= p < |s'.splits| ==>
           && s'.splits[p].order == |s.orders| && !s'.splits[p].accepted
           && s'.purchaseOrders[p].split == p && !s'.purchaseOrders[p].accepted
  {
    var lines := PriceLines(s.offers, s.carts[cart].lines);
    KeysAreTheLinesKeys(lines);
    assert KeyOf(lines[0]) in Keys(lines);
  }

  // ----- acceptance ------------------------------------------------------------------

  /** Accepting a purchase order touches its own rows, the stock of its lines, and confirms an order it completes. */
  lemma AcceptEffect(s: Shop, po: nat, now: Time)
    requires ShopInv(s) && Accept(s, po, now).Ok?
    ensures var s' := Accept(s, po, now).value;
      var o := s.splits[po].order;
      && OnlyRow(s.purchaseOrders, s'.purchaseOrders, po)
      && s'.purchaseOrders[po] == s.purchaseOrders[po].(accepted := true)
      && OnlyRow(s.splits, s'.splits, po) && s'.splits[po] == s.splits[po].(accepted := true)
      && OnlyRow(s.orders, s'.orders, o) && s'.orders[o] == s.orders[o].(confirmed := s'.orders[o].confirmed)
      && (s'.orders[o].confirmed <==> forall p :: 0 <= p < |s'.splits| && s'.splits[p].order == o ==> s'.splits[p].accepted)
      && s' == s.(purchaseOrders := s'.purchaseOrders, splits := s'.splits, orders := s'.orders, stock := s'.stock)
    ensures var s' := Accept(s, po, now).value;
      && |s'.stock.reservations| == |s.stock.reservations|
      && forall d: nat :: d < |s.stock.reservations| ==>
           s'.stock.reservations[d] == if d in s.purchaseOrders[po].lines
             then s.stock.reservations[d].(allocatedAt := Some(now)) else s.stock.reservations[d]
  {
    DemandsAreReserved(s, po);
    AllocateAllExact(s.stock, s.purchaseOrders[po].lines, now);
    AcceptedKeepsConfirmed(s, po, Accept(s, po, now).value.stock);
  }
}
