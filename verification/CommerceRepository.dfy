/** The commerce repository: cart edits, checkout and acceptance over its own tables and the stock tables. */
module CommerceRepository {
  import opened CommerceCart
  import opened CommerceOrders
  import opened CommercePricing
  import opened Inventory
  import opened InventoryTables
  import opened Results
  import opened Sums

  /** How a transaction's outcome shows: the specified tables, or the old tables and an error. */
  ghost predicate Concluded(before: Shop, outcome: Outcome, after: Shop, error: Option<ShopError>) {
    match outcome
    case Ok(s) => after == s && error == None
    case Err(e) => after == before && error == Some(e)
  }

  /** The insertion-ordered map that checkout fills line by line holds the groups of those lines. */
  ghost predicate Grouped(keys: seq<string>, groups: map<string, Group>, lines: seq<Priced>, base: nat) {
    && keys == Keys(lines)
    && groups.Keys == (set key | key in keys)
    && forall key :: key in groups ==> groups[key] == GroupOf(lines, key, base)
  }

  /** What one more line does to the group of a key. */
  lemma GroupGrows(lines: seq<Priced>, line: Priced, key: string, base: nat)
    requires key in Keys(lines + [line])
    ensures GroupOf(lines + [line], key, base) ==
      if key !in Keys(lines) then Group(line.seller, line.supplier, Total(line), [base + |lines|])
      else
        var group := GroupOf(lines, key, base);
        if KeyOf(line) != key then group
        else group.(subtotal := group.subtotal + Total(line), ids := group.ids + [base + |lines|])
  {
    var more := lines + [line];
    assert more[..|lines|] == lines;
    SumByAppend(lines, line, TotalUnder(key));
    if key in Keys(lines) { GroupSubtotal(lines, key, base); } else { NothingUnder(lines, key, base); }
  }

  /** Opening or extending the group of one more line. */
  lemma GroupedStep(keys: seq<string>, groups: map<string, Group>, lines: seq<Priced>, base: nat, line: Priced)
    requires Grouped(keys, groups, lines, base)
    ensures var key := KeyOf(line);
      var group := if key in groups then groups[key] else Group(line.seller, line.supplier, 0, []);
      var extended := group.(subtotal := group.subtotal + Total(line), ids := group.ids + [base + |lines|]);
      Grouped(if key in groups then keys else keys + [key], groups[key := extended], lines + [line], base)
  {
    assert (lines + [line])[..|lines|] == lines;
    assert [] + [base + |lines|] == [base + |lines|];
    forall key | key in Keys(lines + [line])
      ensures GroupOf(lines + [line], key, base) ==
        if key !in Keys(lines) then Group(line.seller, line.supplier, Total(line), [base + |lines|])
        else
          var group := GroupOf(lines, key, base);
          if KeyOf(line) != key then group
          else group.(subtotal := group.subtotal + Total(line), ids := group.ids + [base + |lines|])
    {
      GroupGrows(lines, line, key, base);
    }
  }

  lemma {:induction false} NothingUnder(lines: seq<Priced>, key: string, base: nat)
    requires key !in Keys(lines)
    ensures SumBy(lines, TotalUnder(key)) == 0 && IdsUnder(lines, key, base) == []
  {
    if |lines| > 0 {
      NothingUnder(lines[..|lines| - 1], key, base);
    }
  }

  /** Reserving one more line, and what its failure means for all of them. */
  lemma ReserveStep(s: Stock, lines: seq<Priced>, base: nat, i: nat, stock: Stock, now: Time)
    requires i < |lines| && ReserveAll(s, Demands(lines[..i], base), now) == Ok(stock)
    ensures var answer := ReserveLine(stock, DemandLine(lines[i].product, base + i, lines[i].quantity), now);
      && ReserveAll(s, Demands(lines[..i + 1], base), now) == answer
      && (answer.Err? ==> ReserveAll(s, Demands(lines, base), now) == answer)
  {
    var demands := Demands(lines[..i + 1], base);
    assert demands[..i] == Demands(lines[..i], base);
    assert demands[i] == DemandLine(lines[i].product, base + i, lines[i].quantity);
    if ReserveAll(s, demands, now).Err? {
      assert Demands(lines, base)[..i + 1] == demands;
      ReserveFailsAt(s, Demands(lines, base), i + 1, now, ReserveAll(s, demands, now).error);
    }
  }

  lemma AllocateStep(s: Stock, demands: seq<nat>, i: nat, stock: Stock, now: Time)
    requires i < |demands| && AllocateAll(s, demands[..i], now) == Ok(stock)
    ensures var answer := AllocateLine(stock, demands[i], now);
      && AllocateAll(s, demands[..i + 1], now) == answer
      && (answer.Err? ==> AllocateAll(s, demands, now) == answer)
  {
    assert demands[..i + 1][..i] == demands[..i];
    if AllocateLine(stock, demands[i], now).Err? {
      AllocateFailsAt(s, demands, i + 1, now, AllocateLine(stock, demands[i], now).error);
    }
  }

  lemma {:induction false} ReserveFailsAt(s: Stock, demands: seq<DemandLine>, i: nat, now: Time, e: StockError)
    requires i <= |demands| && ReserveAll(s, demands[..i], now) == Err(e)
    ensures ReserveAll(s, demands, now) == Err(e)
    decreases |demands|
  {
    if i == |demands| {
      assert demands[..i] == demands;
    } else {
      assert demands[..|demands| - 1][..i] == demands[..i];
      ReserveFailsAt(s, demands[..|demands| - 1], i, now, e);
    }
  }

  lemma {:induction false} AllocateFailsAt(s: Stock, demands: seq<nat>, i: nat, now: Time, e: StockError)
    requires i <= |demands| && AllocateAll(s, demands[..i], now) == Err(e)
    ensures AllocateAll(s, demands, now) == Err(e)
    decreases |demands|
  {
    if i == |demands| {
      assert demands[..i] == demands;
    } else {
      assert demands[..|demands| - 1][..i] == demands[..i];
      AllocateFailsAt(s, demands[..|demands| - 1], i, now, e);
    }
  }

  class Repository {
    const stock: StockTables
    var offers: seq<Offer>
    var carts: seq<Cart>
    var orders: seq<Order>
    var orderLines: seq<OrderLine>
    var splits: seq<Split>
    var purchaseOrders: seq<PurchaseOrder>

    function View(): Shop
      reads this, stock
    {
      Shop(offers, carts, stock.View(), orders, orderLines, splits, purchaseOrders)
    }

    constructor (stock: StockTables, offers: seq<Offer>)
      ensures this.stock == stock && View() == Shop(offers, [], stock.View(), [], [], [], [])
    {
      this.stock, this.offers := stock, offers;
      carts, orders, orderLines, splits, purchaseOrders := [], [], [], [], [];
    }

    method Rollback(saved: Shop)
      modifies this, stock
      ensures View() == saved
    {
      stock.Rollback(saved.stock);
      offers, carts, orders := saved.offers, saved.carts, saved.orders;
      orderLines, splits, purchaseOrders := saved.orderLines, saved.splits, saved.purchaseOrders;
    }

    // ----- cart edits ----------------------------------------------------------------

    method AddCartLine(cart: nat, offer: nat, quantity: Quantity)
      requires cart < |carts| && offer < |offers|
      modifies this`carts
      ensures carts == old(carts)[cart := Apply(old(carts)[cart],
        Put(CartLine(offer, quantity, offers[offer].price, offers[offer].version)))]
    {
      var line := CartLine(offer, quantity, offers[offer].price, offers[offer].version);
      var row := carts[cart];
      var lines := row.lines;
      match FindLine(lines, offer) {
        case Some(k) => lines := lines[k := line];
        case None => lines := lines + [line];
      }
      carts := carts[cart := row.(lines := lines, version := row.version + 1)];
    }

    method UpdateCartLine(cart: nat, index: nat, quantity: Quantity) returns (found: bool)
      requires cart < |carts| && Known(offers, carts[cart].lines)
      modifies this`carts
      ensures found <==> index < |old(carts)[cart].lines|
      ensures carts == if !found then old(carts) else
        var offer := offers[old(carts)[cart].lines[index].offer];
        old(carts)[cart := Apply(old(carts)[cart], Change(index, quantity, offer.price, offer.version))]
    {
      var row := carts[cart];
      if index >= |row.lines| {
        return false;
      }
      var line := row.lines[index];
      var offer := offers[line.offer];
      carts := carts[cart := row.(
        lines := row.lines[index := line.(quantity := quantity, unitPrice := offer.price, offerVersion := offer.version)],
        version := row.version + 1)];
      found := true;
    }

    /** First statement of a removal. */
    method DeleteCartLine(cart: nat, index: nat) returns (count: nat)
      requires cart < |carts|
      modifies this`carts
      ensures count == if index < |old(carts)[cart].lines| then 1 else 0
      ensures carts == old(carts)[cart := Apply(old(carts)[cart], Remove(index))]
    {
      var row := carts[cart];
      if index >= |row.lines| {
        return 0;
      }
      carts := carts[cart := row.(lines := Without(row.lines, index), removing := row.removing + 1)];
      count := 1;
    }

    /** Second statement of a removal, after which nothing is outstanding from it. */
    method BumpCartVersion(cart: nat)
      requires cart < |carts| && carts[cart].removing > 0
      modifies this`carts
      ensures carts == old(carts)[cart := Apply(old(carts)[cart], Bump)]
    {
      carts := carts[cart := carts[cart].(version := carts[cart].version + 1, removing := carts[cart].removing - 1)];
    }

    // ----- checkout ------------------------------------------------------------------

    /** Opens the line's group, or extends it. */
    static method AddToGroup(keys: seq<string>, groups: map<string, Group>, lines: seq<Priced>, i: nat, id: nat)
      returns (keys': seq<string>, groups': map<string, Group>)
      requires i < |lines| && id >= i && Grouped(keys, groups, lines[..i], id - i)
      ensures Grouped(keys', groups', lines[..i + 1], id - i)
    {
      var line := lines[i];
      GroupedStep(keys, groups, lines[..i], id - i, line);
      assert lines[..i] + [line] == lines[..i + 1];
      var key := GroupKey(line.seller, line.supplier);
      var group := if key in groups then groups[key] else Group(line.seller, line.supplier, 0, []);
      keys' := if key in groups then keys else keys + [key];
      groups' := groups[key := group.(subtotal := group.subtotal + Total(line), ids := group.ids + [id])];
    }

    /** The stock and the order line of one cart line; the line's number, or why it cannot be had. */
    method OrderOne(lines: seq<Priced>, i: nat, now: Time, ghost before: Stock, ghost base: nat)
      returns (id: nat, error: Option<StockError>)
      requires i < |lines| && |orderLines| == base + i
      requires ReserveAll(before, Demands(lines[..i], base), now) == Ok(stock.View())
      modifies stock, this`orderLines
      ensures error.Some? ==> ReserveAll(before, Demands(lines, base), now) == Err(error.value)
      ensures error.None? ==>
        && id == base + i && orderLines == old(orderLines) + [OrderLine(|orders|, lines[i])]
        && ReserveAll(before, Demands(lines[..i + 1], base), now) == Ok(stock.View())
    {
      ReserveStep(before, lines, base, i, stock.View(), now);
      id := |orderLines|;
      error := stock.Reserve(DemandLine(lines[i].product, id, lines[i].quantity), now);
      if error.None? {
        orderLines := orderLines + [OrderLine(|orders|, lines[i])];
      }
    }

    /** Reserves and records every line, grouping as it goes; stops at the first that cannot be reserved. */
    method OrderLinesOf(lines: seq<Priced>, now: Time)
      returns (keys: seq<string>, groups: map<string, Group>, error: Option<StockError>)
      modifies stock, this`orderLines
      ensures error.Some? ==>
        ReserveAll(old(stock.View()), Demands(lines, |old(orderLines)|), now) == Err(error.value)
      ensures error.None? ==>
        && ReserveAll(old(stock.View()), Demands(lines, |old(orderLines)|), now) == Ok(stock.View())
        && orderLines == old(orderLines) + OrderLines(|orders|, lines)
        && Grouped(keys, groups, lines, |old(orderLines)|)
    {
      keys, groups, error := [], map[], None;
      ghost var before := stock.View();
      ghost var base := |orderLines|;
      var i := 0;
      while i < |lines|
        invariant 0 <= i <= |lines| && error.None?
        invariant ReserveAll(before, Demands(lines[..i], base), now) == Ok(stock.View())
        invariant orderLines == old(orderLines) + OrderLines(|orders|, lines[..i])
        invariant Grouped(keys, groups, lines[..i], base)
      {
        var id;
        id, error := OrderOne(lines, i, now, before, base);
        if error.Some? {
          return;
        }
        keys, groups := AddToGroup(keys, groups, lines, i, id);
        i := i + 1;
      }
      assert lines[..i] == lines;
    }

    /** One split and one purchase order per group, in the order in which groups were opened. */
    method SplitOrder(order: nat, keys: seq<string>, groups: map<string, Group>, ghost lines: seq<Priced>, ghost base: nat)
      requires Grouped(keys, groups, lines, base)
      modifies this`splits, this`purchaseOrders
      ensures splits == old(splits) + Splits(order, Groups(lines, base))
      ensures purchaseOrders == old(purchaseOrders) + PurchaseOrders(|old(splits)|, Groups(lines, base))
    {
      ghost var all := Groups(lines, base);
      var i := 0;
      while i < |keys|
        invariant 0 <= i <= |keys| == |all|
        invariant splits == old(splits) + Splits(order, all[..i])
        invariant purchaseOrders == old(purchaseOrders) + PurchaseOrders(|old(splits)|, all[..i])
      {
        assert keys[i] in groups;
        var group := groups[keys[i]];
        assert group == all[i];
        purchaseOrders := purchaseOrders + [PurchaseOrder(|splits|, group.subtotal, group.ids, false)];
        splits := splits + [Split(order, group.seller, group.supplier, group.subtotal, false)];
        i := i + 1;
      }
      assert all[..i] == all;
    }

    method CheckoutCart(cart: nat, user: nat, key: string, version: nat, quote: Quote, now: Time)
      returns (error: Option<ShopError>)
      requires CartsKnown(View())
      modifies this, stock
      ensures Concluded(old(View()), Checkout(old(View()), cart, user, key, version, quote, now), View(), error)
    {
      ghost var specified := Checkout(View(), cart, user, key, version, quote, now);
      var saved := View();
      var replay := FindOrder(orders, key);
      if replay.Some? {
        var order := orders[replay.value];
        return if order.cart == cart && order.user == user then None else Some(KeyBound);
      }
      if cart >= |carts| {
        return Some(Missing);
      }
      var row := carts[cart];
      if row.user != user || !row.active || row.expiresAt <= now {
        return Some(Missing);
      }
      if row.version != version {
        return Some(CartChanged);
      }
      if |row.lines| == 0 {
        return Some(CartEmpty);
      }
      if !OffersStillHold(offers, row) {
        return Some(OfferOutdated);
      }
      var lines := PriceLines(offers, row.lines);
      ghost var base := |orderLines|;
      var keys, groups, failed := OrderLinesOf(lines, now);
      if failed.Some? {
        Rollback(saved);
        return Some(StockShort(failed.value));
      }
      SplitOrder(|orders|, keys, groups, lines, base);
      orders := orders + [Order(cart, user, key, quote, false)];
      carts := carts[cart := row.(active := false, version := row.version + 1)];
      assert View() == Place(saved, cart, user, key, quote, lines, stock.View());
      error := None;
    }

    // ----- acceptance ----------------------------------------------------------------

    method AllocateLines(demands: seq<nat>, now: Time) returns (error: Option<StockError>)
      modifies stock
      ensures error.Some? ==> AllocateAll(old(stock.View()), demands, now) == Err(error.value)
      ensures error.None? ==> AllocateAll(old(stock.View()), demands, now) == Ok(stock.View())
    {
      ghost var before := stock.View();
      var i := 0;
      while i < |demands|
        invariant 0 <= i <= |demands|
        invariant AllocateAll(before, demands[..i], now) == Ok(stock.View())
      {
        AllocateStep(before, demands, i, stock.View(), now);
        error := stock.Allocate(demands[i], now);
        if error.Some? {
          return;
        }
        i := i + 1;
      }
      assert demands[..i] == demands;
      error := None;
    }

    method AcceptPurchaseOrder(po: nat, now: Time) returns (error: Option<ShopError>)
      requires Paired(View())
      modifies this, stock
      ensures Concluded(old(View()), Accept(old(View()), po, now), View(), error)
    {
      var saved := View();
      if po >= |purchaseOrders| || purchaseOrders[po].accepted {
        return Some(Missing);
      }
      var failed := AllocateLines(purchaseOrders[po].lines, now);
      if failed.Some? {
        Rollback(saved);
        return Some(StockShort(failed.value));
      }
      var split := purchaseOrders[po].split;
      assert split == po;
      var order := splits[split].order;
      purchaseOrders := purchaseOrders[po := purchaseOrders[po].(accepted := true)];
      splits := splits[split := splits[split].(accepted := true)];
      if !AnyPending(splits, order) {
        orders := orders[order := orders[order].(confirmed := true)];
      }
      error := None;
    }
  }
}
