/** A run in which the buyer pays for a line that the order does not have. */
module CommerceCounterexample {
  import opened CommerceCart
  import opened CommerceOrders
  import opened CommercePricing
  import opened CommerceQuotes
  import opened CommerceRuns
  import opened Inventory
  import opened Results
  import opened Sums

  function Shelf(): seq<Offer> {
    [Offer(0, "seller", "supplier", 0, "USD", 100, true, 1), Offer(1, "seller", "supplier", 0, "USD", 50, true, 1)]
  }

  const LAMP := CartLine(0, 1, 100, 1)
  const CABLE := CartLine(1, 1, 50, 1)

  function CartWith(version: nat, lines: seq<CartLine>, removing: nat): Cart {
    Cart(7, 0, "USD", true, 1000, version, lines, removing)
  }

  const NO_STOCK := Stock([], map[], [], [], map[])
  const COUNT := FeedKey("warehouse", "count-1")
  const FIVE_CABLES :=
    Stock([Item(0, "cable", 1)], map[(0, OnHand) := 5], [LedgerEntry(0, OnHand, 5)], [], map[COUNT := 5])

  function ShopWith(carts: seq<Cart>, stock: Stock): Shop { Shop(Shelf(), carts, stock, [], [], [], []) }

  const FILLING: seq<ShopStep> :=
    [OpenCart(7, 0, "USD", 1000), EditCart(0, Put(LAMP)), EditCart(0, Put(CABLE)), CountStock(COUNT, 0, "cable", 1, 5)]

  const REMOVING: seq<ShopStep> := [EditCart(0, Remove(0))]

  const PRICE := Quote(150, 0, 0, 0, 150, 1)

  lemma FourSteps(s0: Shop, s1: Shop, s2: Shop, s3: Shop, steps: seq<ShopStep>)
    requires ShopInv(s0) && ShopInv(s1) && ShopInv(s2) && ShopInv(s3) && |steps| == 4
    requires Proceed(s0, steps[0]) == s1 && Proceed(s1, steps[1]) == s2 && Proceed(s2, steps[2]) == s3
    ensures RunShop(s0, steps) == Proceed(s3, steps[3])
  {
    assert steps[1..][0] == steps[1] && steps[1..][1..] == steps[2..];
    assert steps[2..][0] == steps[2] && steps[2..][1..] == steps[3..];
    assert steps[3..][0] == steps[3] && steps[3..][1..] == [];
    ProceedKeeps(s3, steps[3]);
    assert RunShop(s3, steps[3..]) == Proceed(s3, steps[3]);
    assert RunShop(s2, steps[2..]) == Proceed(s3, steps[3]);
    assert RunShop(s1, steps[1..]) == Proceed(s3, steps[3]);
  }

  lemma Opened()
    ensures ShopInv(ShopWith([], NO_STOCK))
    ensures Proceed(ShopWith([], NO_STOCK), FILLING[0]) == ShopWith([CartWith(0, [], 0)], NO_STOCK)
  {
    NewShopInv(ShopWith([], NO_STOCK));
  }

  lemma OneLine()
    ensures ShopInv(ShopWith([CartWith(0, [], 0)], NO_STOCK))
    ensures Proceed(ShopWith([CartWith(0, [], 0)], NO_STOCK), FILLING[1]) == ShopWith([CartWith(1, [LAMP], 0)], NO_STOCK)
  {
    Opened();
    ProceedKeeps(ShopWith([], NO_STOCK), FILLING[0]);
    PutBoth();
  }

  lemma PutBoth()
    ensures PutLine([], LAMP) == [LAMP] && PutLine([LAMP], CABLE) == [LAMP, CABLE]
  {
    assert [LAMP][..0] == [];
  }

  lemma TwoLines()
    ensures ShopInv(ShopWith([CartWith(1, [LAMP], 0)], NO_STOCK))
    ensures Proceed(ShopWith([CartWith(1, [LAMP], 0)], NO_STOCK), FILLING[2])
      == ShopWith([CartWith(2, [LAMP, CABLE], 0)], NO_STOCK)
  {
    OneLine();
    ProceedKeeps(ShopWith([CartWith(0, [], 0)], NO_STOCK), FILLING[1]);
    PutBoth();
  }

  lemma Filled()
    ensures ShopInv(ShopWith([], NO_STOCK))
    ensures RunShop(ShopWith([], NO_STOCK), FILLING) == ShopWith([CartWith(2, [LAMP, CABLE], 0)], FIVE_CABLES)
  {
    Opened();
    OneLine();
    TwoLines();
    var full := ShopWith([CartWith(2, [LAMP, CABLE], 0)], NO_STOCK);
    ProceedKeeps(ShopWith([CartWith(1, [LAMP], 0)], NO_STOCK), FILLING[2]);
    FourSteps(ShopWith([], NO_STOCK), ShopWith([CartWith(0, [], 0)], NO_STOCK), ShopWith([CartWith(1, [LAMP], 0)], NO_STOCK),
              full, FILLING);
    assert Next(NO_STOCK, FeedStep(COUNT, 0, "cable", 1, 5)) == FIVE_CABLES;
    assert Proceed(full, FILLING[3]) == ShopWith([CartWith(2, [LAMP, CABLE], 0)], FIVE_CABLES);
  }

  lemma Removed()
    ensures ShopInv(ShopWith([CartWith(2, [LAMP, CABLE], 0)], FIVE_CABLES))
    ensures RunShop(ShopWith([CartWith(2, [LAMP, CABLE], 0)], FIVE_CABLES), REMOVING)
      == ShopWith([CartWith(2, [CABLE], 1)], FIVE_CABLES)
  {
    Filled();
    var s := ShopWith([CartWith(2, [LAMP, CABLE], 0)], FIVE_CABLES);
    assert Proceed(s, REMOVING[0]) == ShopWith([CartWith(2, [CABLE], 1)], FIVE_CABLES) by {
      assert Without([LAMP, CABLE], 0) == [CABLE];
    }
    ProceedKeeps(s, REMOVING[0]);
    assert REMOVING[1..] == [];
  }

  const LAMP_PRICED := Priced(0, "seller", "supplier", 1, 100)
  const CABLE_PRICED := Priced(1, "seller", "supplier", 1, 50)

  lemma QuotedAt150(s: Shop)
    requires s == ShopWith([CartWith(2, [LAMP, CABLE], 0)], FIVE_CABLES)
    ensures CartsKnown(s) && QuoteCart(s.offers, s.carts[0], None, 0, 0) == Ok(PRICE)
  {
    var lines := PriceLines(s.offers, s.carts[0].lines);
    assert lines == [LAMP_PRICED, CABLE_PRICED];
    SumByAppend([], LAMP_PRICED, Total);
    SumByAppend([] + [LAMP_PRICED], CABLE_PRICED, Total);
    assert [] + [LAMP_PRICED] + [CABLE_PRICED] == lines;
    assert Total(LAMP_PRICED) == 100 && Total(CABLE_PRICED) == 50;
    assert KeyOf(lines[0]) == KeyOf(lines[1]);
    assert (set i | 0 <= i < |lines| :: KeyOf(lines[i])) == {KeyOf(lines[0])};
  }

  lemma OrderedAt50(s: Shop)
    requires s == ShopWith([CartWith(2, [CABLE], 1)], FIVE_CABLES)
    ensures CartsKnown(s) && FindOrder(s.orders, "key").None?
    ensures var outcome := Checkout(s, 0, 7, "key", 2, PRICE, 0);
      outcome.Ok? && SumBy(outcome.value.orderLines, LineTotalOf(0)) == 50
  {
    var lines := PriceLines(s.offers, s.carts[0].lines);
    assert lines == [CABLE_PRICED];
    var demands := Demands(lines, 0);
    assert demands == [DemandLine(1, 0, 1)] && demands[..0] == [];
    assert ReserveAll(s.stock, demands[..0], 0) == Ok(s.stock);
    assert FindItem(s.stock.items, 1, 0) == Some(0);
    assert ReserveLine(s.stock, demands[0], 0).Ok?;
    var placed := Checkout(s, 0, 7, "key", 2, PRICE, 0).value;
    assert placed.orderLines == [OrderLine(0, CABLE_PRICED)] && placed.orderLines[..0] == [];
    assert Total(CABLE_PRICED) == 50;
  }

  /** The version check passes, yet the buyer is charged 150 for goods worth 50. */
  lemma LateRemovalMisprices()
    ensures ShopInv(ShopWith([], NO_STOCK))
    ensures var quoted := RunShop(ShopWith([], NO_STOCK), FILLING);
      var later := RunShop(quoted, REMOVING);
      && NewShop(ShopWith([], NO_STOCK))
      && PlacedFromQuote(quoted, later, 0, 7, "key", None, 0, 0, PRICE, 0)
      && PRICE.subtotal == 150
      && SumBy(Checkout(later, 0, 7, "key", quoted.carts[0].version, PRICE, 0).value.orderLines, LineTotalOf(0)) == 50
  {
    Filled();
    Removed();
    QuotedAt150(ShopWith([CartWith(2, [LAMP, CABLE], 0)], FIVE_CABLES));
    OrderedAt50(ShopWith([CartWith(2, [CABLE], 1)], FIVE_CABLES));
  }
}
