/**
 Cart edits and the version that is meant to tell a quote from a changed cart. Adding and
 changing a line write the line and the version in one transaction; removing a line writes
 them in two statements, so other requests can run in between.
 */
module CommerceCart {
  import opened CommercePricing
  import opened Inventory
  import opened Results
  import opened Sums

  /** An offer's goods, parties and price are fixed at creation; publishing changes the rest. */
  datatype Offer = Offer(product: nat, seller: string, supplier: string, store: nat, currency: string, price: nat,
                         active: bool, version: nat)

  datatype CartLine = CartLine(offer: nat, quantity: Quantity, unitPrice: nat, offerVersion: nat)

  /** `removing` counts removals whose version bump is still to come. */
  datatype Cart = Cart(user: nat, store: nat, currency: string, active: bool, expiresAt: Time, version: nat,
                       lines: seq<CartLine>, removing: nat)

  datatype Edit =
    | Put(line: CartLine)
    | Change(index: nat, quantity: Quantity, unitPrice: nat, offerVersion: nat)
    | Remove(index: nat)
    | Bump

  function FindLine(lines: seq<CartLine>, offer: nat): (found: Option<nat>)
    ensures found.Some? ==> found.value < |lines| && lines[found.value].offer == offer
    ensures found.None? ==> forall k :: 0 <= k < |lines| ==> lines[k].offer != offer
  {
    if |lines| == 0 then None
    else if lines[|lines| - 1].offer == offer then Some(|lines| - 1)
    else FindLine(lines[..|lines| - 1], offer)
  }

  /** The line is inserted, or replaces the one with the same offer. */
  function PutLine(lines: seq<CartLine>, line: CartLine): seq<CartLine> {
    match FindLine(lines, line.offer)
    case Some(k) => lines[k := line]
    case None => lines + [line]
  }

  function Without<T>(rows: seq<T>, k: nat): seq<T>
    requires k < |rows|
  {
    rows[..k] + rows[k + 1..]
  }

  function Apply(c: Cart, edit: Edit): Cart {
    match edit
    case Put(line) => c.(lines := PutLine(c.lines, line), version := c.version + 1)
    case Change(k, quantity, unitPrice, offerVersion) =>
      if k >= |c.lines| then c
      else c.(lines := c.lines[k := CartLine(c.lines[k].offer, quantity, unitPrice, offerVersion)], version := c.version + 1)
    case Remove(k) =>
      if k >= |c.lines| then c else c.(lines := Without(c.lines, k), removing := c.removing + 1)
    case Bump =>
      if c.removing == 0 then c else c.(version := c.version + 1, removing := c.removing - 1)
  }

  // ----- what the version tells -------------------------------------------------------

  function Worth(line: CartLine): int { line.unitPrice * line.quantity }

  /**
   What is known of a cart that was read earlier as `c` and is `later` now. At an unchanged
   version it can only have lost lines, to removals that have not bumped yet; so it is the same
   cart exactly when no such removal has been added, and it is never worth more.
   */
  ghost predicate Since(c: Cart, later: Cart) {
    && later.version >= c.version
    && (later.version == c.version ==>
      && later.removing >= c.removing
      && |later.lines| + later.removing == |c.lines| + c.removing
      && (|later.lines| == |c.lines| ==> later.lines == c.lines)
      && SumBy(later.lines, Worth) <= SumBy(c.lines, Worth)
      && later.(lines := c.lines, removing := c.removing) == c)
  }

  lemma SumWithout<T>(rows: seq<T>, k: nat, f: T -> int)
    requires k < |rows|
    ensures SumBy(Without(rows, k), f) == SumBy(rows, f) - f(rows[k])
  {
    var front, back := rows[..k], rows[k + 1..];
    SumByConcat(front, back, f);
    SumByAppend(front, rows[k], f);
    SumByConcat(front + [rows[k]], back, f);
    assert front + [rows[k]] + back == rows;
  }

  lemma EditSince(c: Cart, edit: Edit)
    ensures Since(c, Apply(c, edit))
  {
    if edit.Remove? && edit.index < |c.lines| {
      SumWithout(c.lines, edit.index, Worth);
      var line := c.lines[edit.index];
      var quantity: int := line.quantity;
      assert line.unitPrice * quantity >= 0;
    }
  }

  lemma SinceTrans(c: Cart, mid: Cart, later: Cart)
    requires Since(c, mid) && Since(mid, later)
    ensures Since(c, later)
  {
  }

  // ----- pricing a cart ---------------------------------------------------------------

  ghost predicate Known(offers: seq<Offer>, lines: seq<CartLine>) {
    forall k :: 0 <= k < |lines| ==> lines[k].offer < |offers|
  }

  function PriceLine(offers: seq<Offer>, line: CartLine): Priced
    requires line.offer < |offers|
  {
    var offer := offers[line.offer];
    Priced(offer.product, offer.seller, offer.supplier, line.quantity, line.unitPrice)
  }

  function PriceLines(offers: seq<Offer>, lines: seq<CartLine>): seq<Priced>
    requires Known(offers, lines)
  {
    seq(|lines|, k requires 0 <= k < |lines| => PriceLine(offers, lines[k]))
  }

  /** The check made when quoting. */
  predicate OffersHold(offers: seq<Offer>, lines: seq<CartLine>)
    requires Known(offers, lines)
  {
    forall k :: 0 <= k < |lines| ==>
      var offer := offers[lines[k].offer];
      offer.active && offer.version == lines[k].offerVersion && offer.price == lines[k].unitPrice
  }

  /** The check made again inside the checkout transaction also compares store and currency. */
  predicate OffersStillHold(offers: seq<Offer>, c: Cart)
    requires Known(offers, c.lines)
  {
    && OffersHold(offers, c.lines)
    && forall k :: 0 <= k < |c.lines| ==>
         offers[c.lines[k].offer].store == c.store && offers[c.lines[k].offer].currency == c.currency
  }

  /** Later offer tables: nothing is lost and what an offer sells never changes. */
  ghost predicate SameGoods(offers: seq<Offer>, later: seq<Offer>) {
    && |offers| <= |later|
    && forall k :: 0 <= k < |offers| ==>
         offers[k].product == later[k].product && offers[k].seller == later[k].seller
         && offers[k].supplier == later[k].supplier && offers[k].price == later[k].price
  }

  function QuoteCart(offers: seq<Offer>, c: Cart, code: Option<Option<Promotion>>, tax: nat, shipping: nat):
    Result<Quote, QuoteError>
    requires Known(offers, c.lines)
  {
    CalculateQuote(PriceLines(offers, c.lines), c.active, OffersHold(offers, c.lines), code, tax, shipping)
  }

  lemma PricedAlike(offers: seq<Offer>, later: seq<Offer>, lines: seq<CartLine>)
    requires SameGoods(offers, later) && Known(offers, lines)
    ensures Known(later, lines) && PriceLines(later, lines) == PriceLines(offers, lines)
  {
  }
}
