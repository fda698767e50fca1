/**
 From the quote to the order: what the order row says of its quote, for good, and which lines and
 splits belong to it, whatever the shop does before, in between and afterwards.
 */
module CommerceQuotes {
  import opened CommerceCart
  import opened CommerceOrders
  import opened CommercePricing
  import opened CommerceRuns
  import opened Inventory
  import opened Results
  import opened Sums

  // ----- carts since they were quoted ------------------------------------------------

  lemma StepSince(s: Shop, step: ShopStep, cart: nat)
    requires ShopInv(s) && cart < |s.carts|
    ensures var s' := Proceed(s, step);
      |s'.carts| >= |s.carts| && Since(s.carts[cart], s'.carts[cart]) && SameGoods(s.offers, s'.offers)
  {
    match step
    case EditCart(c, edit) => if c == cart { EditSince(s.carts[cart], edit); }
    case _ =>
  }

  lemma {:induction false} CartSince(s: Shop, steps: seq<ShopStep>, cart: nat)
    requires ShopInv(s) && cart < |s.carts|
    ensures var s' := RunShop(s, steps);
      |s'.carts| >= |s.carts| && Since(s.carts[cart], s'.carts[cart]) && SameGoods(s.offers, s'.offers)
    decreases |steps|
  {
    if |steps| > 0 {
      StepSince(s, steps[0], cart);
      ProceedKeeps(s, steps[0]);
      CartSince(Proceed(s, steps[0]), steps[1..], cart);
      SinceTrans(s.carts[cart], Proceed(s, steps[0]).carts[cart], RunShop(s, steps).carts[cart]);
      GoodsTrans(s.offers, Proceed(s, steps[0]).offers, RunShop(s, steps).offers);
    }
  }

  lemma GoodsTrans(a: seq<Offer>, b: seq<Offer>, c: seq<Offer>)
    requires SameGoods(a, b) && SameGoods(b, c)
    ensures SameGoods(a, c)
  {
  }

  lemma CartWorth(offers: seq<Offer>, lines: seq<CartLine>)
    requires Known(offers, lines)
    ensures SumBy(PriceLines(offers, lines), Total) == SumBy(lines, Worth)
  {
    SumByPointwise(PriceLines(offers, lines), Total, lines, Worth);
  }

  // ----- the rows of an order --------------------------------------------------------

  /** The goods of an order, in the order of its lines. */
  function GoodsOf(lines: seq<OrderLine>, order: nat): seq<Priced> {
    if |lines| == 0 then []
    else
      var n := |lines| - 1;
      GoodsOf(lines[..n], order) + if lines[n].order == order then [lines[n].goods] else []
  }

  function SplitOf(order: nat): Split -> int { (split: Split) => if split.order == order then 1 else 0 }

  lemma {:induction false} GoodsOfConcat(a: seq<OrderLine>, b: seq<OrderLine>, order: nat)
    ensures GoodsOf(a + b, order) == GoodsOf(a, order) + GoodsOf(b, order)
  {
    if |b| == 0 {
      assert a + b == a;
    } else {
      var n := |b| - 1;
      GoodsOfConcat(a, b[..n], order);
      assert (a + b)[..|a| + n] == a + b[..n];
    }
  }

  lemma {:induction false} GoodsOfOthers(lines: seq<OrderLine>, order: nat)
    requires forall d :: 0 <= d < |lines| ==> lines[d].order != order
    ensures GoodsOf(lines, order) == []
  {
    if |lines| > 0 { GoodsOfOthers(lines[..|lines| - 1], order); }
  }

  lemma {:induction false} GoodsOfNew(order: nat, goods: seq<Priced>)
    ensures GoodsOf(OrderLines(order, goods), order) == goods
  {
    if |goods| > 0 {
      var n := |goods| - 1;
      GoodsOfNew(order, goods[..n]);
      assert OrderLines(order, goods)[..n] == OrderLines(order, goods[..n]);
    }
  }

  /** What an order row, its lines and its splits keep from one state to a later one. */
  ghost predicate Stands(s: Shop, s': Shop, o: nat) {
    && o < |s.orders| <= |s'.orders|
    && s'.orders[o] == s.orders[o].(confirmed := s'.orders[o].confirmed)
    && (s.orders[o].confirmed ==> s'.orders[o].confirmed)
    && GoodsOf(s'.orderLines, o) == GoodsOf(s.orderLines, o)
    && SumBy(s'.orderLines, LineTotalOf(o)) == SumBy(s.orderLines, LineTotalOf(o))
    && SumBy(s'.splits, SplitOf(o)) == SumBy(s.splits, SplitOf(o))
  }

  lemma PlaceStands(s: Shop, cartId: nat, user: nat, key: string, quote: Quote, lines: seq<Priced>, stock: Stock, o: nat)
    requires cartId < |s.carts| && o < |s.orders|
    ensures Stands(s, Place(s, cartId, user, key, quote, lines, stock), o)
  {
    var order := |s.orders|;
    var added := OrderLines(order, lines);
    var splits := Splits(order, Groups(lines, |s.orderLines|));
    GoodsOfConcat(s.orderLines, added, o);
    GoodsOfOthers(added, o);
    SumByConcat(s.orderLines, added, LineTotalOf(o));
    SumByZero(added, LineTotalOf(o));
    SumByConcat(s.splits, splits, SplitOf(o));
    SumByZero(splits, SplitOf(o));
  }

  lemma AcceptedStands(s: Shop, po: nat, stock: Stock, o: nat)
    requires Paired(s) && po < |s.purchaseOrders| && o < |s.orders|
    ensures Stands(s, Accepted(s, po, stock), o)
  {
    SumByUpdate(s.splits, po, s.splits[po].(accepted := true), SplitOf(o));
  }

  lemma CheckoutStands(s: Shop, step: ShopStep, o: nat)
    requires ShopInv(s) && o < |s.orders| && step.PlaceOrder?
    ensures Stands(s, Proceed(s, step), o)
  {
    var outcome := Checkout(s, step.cart, step.user, step.key, step.version, step.quote, step.now);
    if outcome.Ok? && FindOrder(s.orders, step.key).None? {
      PlaceStands(s, step.cart, step.user, step.key, step.quote, PriceLines(s.offers, s.carts[step.cart].lines),
                  outcome.value.stock, o);
    }
  }

  lemma AcceptStands(s: Shop, step: ShopStep, o: nat)
    requires ShopInv(s) && o < |s.orders| && step.AcceptOrder?
    ensures Stands(s, Proceed(s, step), o)
  {
    var outcome := Accept(s, step.po, step.now);
    if outcome.Ok? { AcceptedStands(s, step.po, outcome.value.stock, o); }
  }

  lemma AsideStands(s: Shop, step: ShopStep, o: nat)
    requires ShopInv(s) && o < |s.orders| && !step.PlaceOrder? && !step.AcceptOrder?
    ensures Stands(s, Proceed(s, step), o)
  {
    var s' := Proceed(s, step);
    assert s'.orders == s.orders && s'.orderLines == s.orderLines && s'.splits == s.splits;
  }

  lemma StepStands(s: Shop, step: ShopStep, o: nat)
    requires ShopInv(s) && o < |s.orders|
    ensures Stands(s, Proceed(s, step), o)
  {
    if step.PlaceOrder? {
      CheckoutStands(s, step, o);
    } else if step.AcceptOrder? {
      AcceptStands(s, step, o);
    } else {
      AsideStands(s, step, o);
    }
  }

  /** An order keeps its cart, buyer, key and quote, its lines and its splits, whatever follows. */
  lemma {:induction false} OrderStands(s: Shop, steps: seq<ShopStep>, o: nat)
    requires ShopInv(s) && o < |s.orders|
    ensures Stands(s, RunShop(s, steps), o)
    decreases |steps|
  {
    if |steps| > 0 {
      StepStands(s, steps[0], o);
      ProceedKeeps(s, steps[0]);
      OrderStands(Proceed(s, steps[0]), steps[1..], o);
    }
  }

  // ----- main results ----------------------------------------------------------------

  /** A quote is taken in `quoted`; later, in `now`, the order is placed with the version read then. */
  ghost predicate PlacedFromQuote(quoted: Shop, later: Shop, cart: nat, user: nat, key: string,
                                  code: Option<Option<Promotion>>, tax: nat, shipping: nat, quote: Quote, now: Time)
  {
    && CartsKnown(quoted) && CartsKnown(later) && cart < |quoted.carts| && cart < |later.carts|
    && QuoteCart(quoted.offers, quoted.carts[cart], code, tax, shipping) == Ok(quote)
    && FindOrder(later.orders, key).None?
    && Checkout(later, cart, user, key, quoted.carts[cart].version, quote, now).Ok?
  }

  /** How the rows of order `o` fit the quote on it; `asked` is what was quoted. */
  ghost predicate OrderFitsQuote(was: Cart, current: Cart, asked: seq<Priced>, s: Shop, o: nat)
    requires o < |s.orders|
  {
    var quote := s.orders[o].quote;
    var same := current.removing == was.removing;
    && (same <==> GoodsOf(s.orderLines, o) == asked)
    && (same ==> SumBy(s.orderLines, LineTotalOf(o)) == quote.subtotal && SumBy(s.splits, SplitOf(o)) == quote.splitCount)
    && SumBy(s.orderLines, LineTotalOf(o)) <= quote.subtotal
  }

  lemma NewGoods(lines: seq<OrderLine>, o: nat, goods: seq<Priced>)
    requires forall d :: 0 <= d < |lines| ==> lines[d].order < o
    ensures GoodsOf(lines + OrderLines(o, goods), o) == goods
    ensures SumBy(lines + OrderLines(o, goods), LineTotalOf(o)) == SumBy(goods, Total)
  {
    GoodsOfConcat(lines, OrderLines(o, goods), o);
    GoodsOfOthers(lines, o);
    GoodsOfNew(o, goods);
    SumByConcat(lines, OrderLines(o, goods), LineTotalOf(o));
    SumByZero(lines, LineTotalOf(o));
    SumByPointwise(OrderLines(o, goods), LineTotalOf(o), goods, Total);
  }

  lemma NewSplits(splits: seq<Split>, o: nat, groups: seq<Group>)
    requires forall k :: 0 <= k < |splits| ==> splits[k].order < o
    ensures SumBy(splits + Splits(o, groups), SplitOf(o)) == |groups|
  {
    SumByConcat(splits, Splits(o, groups), SplitOf(o));
    SumByZero(splits, SplitOf(o));
    SumOfOnes(Splits(o, groups), SplitOf(o));
  }

  lemma PlaceAddsRows(s: Shop, cartId: nat, user: nat, key: string, quote: Quote, lines: seq<Priced>, stock: Stock)
    requires cartId < |s.carts|
    requires forall d :: 0 <= d < |s.orderLines| ==> s.orderLines[d].order < |s.orders|
    requires forall k :: 0 <= k < |s.splits| ==> s.splits[k].order < |s.orders|
    ensures var placed := Place(s, cartId, user, key, quote, lines, stock);
      var o := |s.orders|;
      && GoodsOf(placed.orderLines, o) == lines
      && SumBy(placed.orderLines, LineTotalOf(o)) == SumBy(lines, Total)
      && SumBy(placed.splits, SplitOf(o)) == SplitCount(lines)
  {
    NewGoods(s.orderLines, |s.orders|, lines);
    NewSplits(s.splits, |s.orders|, Groups(lines, |s.orderLines|));
    GroupsAsManyAsQuoted(lines, |s.orderLines|);
  }

  /** A checkout under a new key adds one order, of the cart, buyer, key and quote it was given, and its rows. */
  lemma PlacedRows(s: Shop, cart: nat, user: nat, key: string, version: nat, quote: Quote, now: Time)
    requires ShopInv(s) && Checkout(s, cart, user, key, version, quote, now).Ok?
    requires forall o :: 0 <= o < |s.orders| ==> s.orders[o].key != key
    ensures var placed := Checkout(s, cart, user, key, version, quote, now).value;
      && cart < |s.carts| && s.carts[cart].version == version
      && placed.orders == s.orders + [Order(cart, user, key, quote, false)]
      && var got := PriceLines(s.offers, s.carts[cart].lines);
      && GoodsOf(placed.orderLines, |s.orders|) == got
      && SumBy(placed.orderLines, LineTotalOf(|s.orders|)) == SumBy(got, Total)
      && SumBy(placed.splits, SplitOf(|s.orders|)) == SplitCount(got)
  {
    var got := PriceLines(s.offers, s.carts[cart].lines);
    PlaceAddsRows(s, cart, user, key, quote, got, Checkout(s, cart, user, key, version, quote, now).value.stock);
  }

  lemma {:induction false} SumOfOnes<T>(rows: seq<T>, f: T -> int)
    requires forall k :: 0 <= k < |rows| ==> f(rows[k]) == 1
    ensures SumBy(rows, f) == |rows|
  {
    if |rows| > 0 { SumOfOnes(rows[..|rows| - 1], f); }
  }

  lemma FitsWhenSince(offers: seq<Offer>, later: seq<Offer>, was: Cart, current: Cart, quote: Quote)
    requires Known(offers, was.lines) && Known(later, current.lines) && SameGoods(offers, later)
    requires Since(was, current) && current.version == was.version
    requires quote.subtotal == SumBy(PriceLines(offers, was.lines), Total)
    ensures var asked, got := PriceLines(offers, was.lines), PriceLines(later, current.lines);
      (current.removing == was.removing <==> got == asked) && SumBy(got, Total) <= quote.subtotal
  {
    PricedAlike(offers, later, was.lines);
    CartWorth(offers, was.lines);
    CartWorth(later, current.lines);
    assert |PriceLines(later, current.lines)| == |current.lines| && |PriceLines(offers, was.lines)| == |was.lines|;
  }

  lemma QuoteSays(offers: seq<Offer>, c: Cart, code: Option<Option<Promotion>>, tax: nat, shipping: nat)
    requires Known(offers, c.lines) && QuoteCart(offers, c, code, tax, shipping).Ok?
    ensures var quote := QuoteCart(offers, c, code, tax, shipping).value;
      && quote.subtotal == SumBy(PriceLines(offers, c.lines), Total)
      && quote.splitCount == SplitCount(PriceLines(offers, c.lines))
  {
  }

  lemma RowsFit(was: Cart, current: Cart, asked: seq<Priced>, got: seq<Priced>, s: Shop, o: nat)
    requires o < |s.orders| && GoodsOf(s.orderLines, o) == got
    requires SumBy(s.orderLines, LineTotalOf(o)) == SumBy(got, Total) <= s.orders[o].quote.subtotal
    requires SumBy(s.splits, SplitOf(o)) == SplitCount(got)
    requires current.removing == was.removing <==> got == asked
    requires s.orders[o].quote.subtotal == SumBy(asked, Total) && s.orders[o].quote.splitCount == SplitCount(asked)
    ensures OrderFitsQuote(was, current, asked, s, o)
  {
  }

  lemma ChargedFits(quoted: Shop, later: Shop, cart: nat, user: nat, key: string,
                    code: Option<Option<Promotion>>, tax: nat, shipping: nat, quote: Quote, now: Time)
    requires PlacedFromQuote(quoted, later, cart, user, key, code, tax, shipping, quote, now) && ShopInv(later)
    requires Since(quoted.carts[cart], later.carts[cart]) && SameGoods(quoted.offers, later.offers)
    ensures var placed := Checkout(later, cart, user, key, quoted.carts[cart].version, quote, now).value;
      && placed.orders == later.orders + [Order(cart, user, key, quote, false)]
      && OrderFitsQuote(quoted.carts[cart], later.carts[cart], PriceLines(quoted.offers, quoted.carts[cart].lines),
                        placed, |later.orders|)
  {
    var placed := Checkout(later, cart, user, key, quoted.carts[cart].version, quote, now).value;
    PlacedRows(later, cart, user, key, quoted.carts[cart].version, quote, now);
    QuoteSays(quoted.offers, quoted.carts[cart], code, tax, shipping);
    FitsWhenSince(quoted.offers, later.offers, quoted.carts[cart], later.carts[cart], quote);
    RowsFit(quoted.carts[cart], later.carts[cart], PriceLines(quoted.offers, quoted.carts[cart].lines),
            PriceLines(later.offers, later.carts[cart].lines), placed, |later.orders|);
  }

  lemma PlacedAndAfter(quoted: Shop, later: Shop, after: seq<ShopStep>, cart: nat, user: nat, key: string,
                       code: Option<Option<Promotion>>, tax: nat, shipping: nat, quote: Quote, now: Time)
    requires PlacedFromQuote(quoted, later, cart, user, key, code, tax, shipping, quote, now) && ShopInv(later)
    requires Since(quoted.carts[cart], later.carts[cart]) && SameGoods(quoted.offers, later.offers)
    ensures var o := |later.orders|;
      var s := RunShop(later, [PlaceOrder(cart, user, key, quoted.carts[cart].version, quote, now)] + after);
      && o < |s.orders| && s.orders[o] == Order(cart, user, key, quote, s.orders[o].confirmed)
      && OrderFitsQuote(quoted.carts[cart], later.carts[cart], PriceLines(quoted.offers, quoted.carts[cart].lines), s, o)
  {
    var step := PlaceOrder(cart, user, key, quoted.carts[cart].version, quote, now);
    ChargedFits(quoted, later, cart, user, key, code, tax, shipping, quote, now);
    OneThenMore(later, step, after);
    FitsAfterwards(quoted.carts[cart], later.carts[cart], PriceLines(quoted.offers, quoted.carts[cart].lines),
                   Proceed(later, step), after, |later.orders|);
  }

  lemma FitsAfterwards(was: Cart, current: Cart, asked: seq<Priced>, placed: Shop, after: seq<ShopStep>, o: nat)
    requires ShopInv(placed) && o < |placed.orders| && OrderFitsQuote(was, current, asked, placed, o)
    ensures var s := RunShop(placed, after);
      && o < |s.orders| && s.orders[o] == placed.orders[o].(confirmed := s.orders[o].confirmed)
      && OrderFitsQuote(was, current, asked, s, o)
  {
    OrderStands(placed, after, o);
    FitsStands(was, current, asked, placed, RunShop(placed, after), o);
  }

  /**
   The order that a quote is charged for carries that quote for good, and its lines are exactly the
   quoted ones if and only if no removal slipped in between its two statements. Then the subtotal
   on the order is the sum of its lines, and it has one split per quoted parcel; in any case the
   lines are never worth more than the subtotal.
   */
  lemma QuotedIsOrdered(start: Shop, before: seq<ShopStep>, between: seq<ShopStep>, after: seq<ShopStep>,
                        quoted: Shop, later: Shop, cart: nat, user: nat, key: string,
                        code: Option<Option<Promotion>>, tax: nat, shipping: nat, quote: Quote, now: Time)
    requires NewShop(start) && ShopInv(start) && quoted == RunShop(start, before) && later == RunShop(quoted, between)
    requires PlacedFromQuote(quoted, later, cart, user, key, code, tax, shipping, quote, now)
    ensures var o := |later.orders|;
      var s := RunShop(later, [PlaceOrder(cart, user, key, quoted.carts[cart].version, quote, now)] + after);
      && o < |s.orders| && s.orders[o] == Order(cart, user, key, quote, s.orders[o].confirmed)
      && OrderFitsQuote(quoted.carts[cart], later.carts[cart], PriceLines(quoted.offers, quoted.carts[cart].lines), s, o)
  {
    CartSince(quoted, between, cart);
    PlacedAndAfter(quoted, later, after, cart, user, key, code, tax, shipping, quote, now);
  }

  lemma OneThenMore(s: Shop, step: ShopStep, after: seq<ShopStep>)
    requires ShopInv(s)
    ensures ShopInv(Proceed(s, step)) && RunShop(s, [step] + after) == RunShop(Proceed(s, step), after)
  {
    ProceedKeeps(s, step);
    assert ([step] + after)[1..] == after;
  }

  lemma FitsStands(was: Cart, current: Cart, asked: seq<Priced>, s: Shop, s': Shop, o: nat)
    requires Stands(s, s', o) && OrderFitsQuote(was, current, asked, s, o)
    ensures OrderFitsQuote(was, current, asked, s', o)
  {
  }
}
