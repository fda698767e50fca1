/**
 Items under their unique key: a facility and SKU has one row however often it is counted or
 received, and a count or a receipt lands on that row and no other.
 */
module InventoryItems {
  import opened Inventory
  import opened Results
  import opened Sums

  predicate Names(s: Stock, item: nat, facility: nat, sku: string) {
    item < |s.items| && s.items[item].facility == facility && s.items[item].sku == sku
  }

  /** One row per key, and stock and reservations of existing rows only. */
  ghost predicate Shelved(s: Stock) {
    && UniqueItems(s.items)
    && (forall key :: key in s.balances ==> key.0 < |s.items|)
    && forall r :: 0 <= r < |s.reservations| ==> s.reservations[r].item < |s.items|
  }

  /** After the step, `item` is the one row of the key and sells the product; every other row is as it was. */
  ghost predicate Filed(s: Stock, s': Stock, item: nat, facility: nat, sku: string, product: nat) {
    && (forall other: nat :: Names(s', other, facility, sku) <==> other == item)
    && item < |s'.items| && s'.items[item].product == product
    && (forall other: nat :: other < |s.items| && other != item ==> other < |s'.items| && s'.items[other] == s.items[other])
    && (if exists was: nat :: Names(s, was, facility, sku) then |s'.items| == |s.items|
        else item == |s.items| && |s'.items| == |s.items| + 1)
  }

  /** Only the item's balance on hand differs. */
  ghost predicate OnHandOnly(s: Stock, s': Stock, item: nat) {
    forall other: nat, state :: (other != item || state != OnHand) ==> Balance(s', other, state) == Balance(s, other, state)
  }

  lemma UpsertFiles(s: Stock, facility: nat, sku: string, product: nat)
    requires Shelved(s)
    ensures var (upserted, item) := UpsertItem(s, facility, sku, product);
      Shelved(upserted) && Filed(s, upserted, item, facility, sku, product)
  {
    var (upserted, item) := UpsertItem(s, facility, sku, product);
    if FindSku(s.items, facility, sku, 0).Some? {
      assert Names(s, item, facility, sku);
    }
  }

  lemma {:induction false} ReserveAllKeepsItems(s: Stock, lines: seq<DemandLine>, now: Time)
    requires Shelved(s) && ReserveAll(s, lines, now).Ok?
    ensures Shelved(ReserveAll(s, lines, now).value) && ReserveAll(s, lines, now).value.items == s.items
  {
    if |lines| > 0 {
      ReserveAllKeepsItems(s, lines[..|lines| - 1], now);
    }
  }

  lemma {:induction false} AllocateAllKeepsItems(s: Stock, demands: seq<nat>, now: Time)
    requires Shelved(s) && AllocateAll(s, demands, now).Ok?
    ensures Shelved(AllocateAll(s, demands, now).value) && AllocateAll(s, demands, now).value.items == s.items
  {
    if |demands| > 0 {
      AllocateAllKeepsItems(s, demands[..|demands| - 1], now);
    }
  }

  lemma NextKeepsItems(s: Stock, step: Step)
    requires Shelved(s)
    ensures Shelved(Next(s, step))
  {
    match step
    case FeedStep(key, facility, sku, product, quantity) => UpsertFiles(s, facility, sku, product);
    case CheckoutStep(lines, now) => if ReserveAll(s, lines, now).Ok? { ReserveAllKeepsItems(s, lines, now); }
    case AcceptStep(demands, now) => if AllocateAll(s, demands, now).Ok? { AllocateAllKeepsItems(s, demands, now); }
    case ExpireStep(id, now) =>
    case ReceiveStep(facility, sku, product, accepted) => UpsertFiles(s, facility, sku, product);
  }

  lemma {:induction false} ItemsKept(s: Stock, steps: seq<Step>)
    requires Shelved(s)
    ensures Shelved(Run(s, steps))
    decreases |steps|
  {
    if |steps| > 0 {
      NextKeepsItems(s, steps[0]);
      ItemsKept(Next(s, steps[0]), steps[1..]);
    }
  }

  // ----- main results ----------------------------------------------------------------

  /** However feeds and receipts interleave, a facility never has two rows of one SKU. */
  lemma OneItemPerSku(start: Stock, steps: seq<Step>, a: nat, b: nat)
    requires Empty(start)
    requires a < |Run(start, steps).items| && b < |Run(start, steps).items|
    requires Run(start, steps).items[a].facility == Run(start, steps).items[b].facility
    requires Run(start, steps).items[a].sku == Run(start, steps).items[b].sku
    ensures a == b
  {
    ItemsKept(start, steps);
  }

  lemma FeedFiles(s: Stock, key: FeedKey, facility: nat, sku: string, product: nat, quantity: int)
    requires Shelved(s) && key !in s.feeds && Feed(s, key, facility, sku, product, quantity).Ok?
    ensures var (_, item) := UpsertItem(s, facility, sku, product);
      var s' := Feed(s, key, facility, sku, product, quantity).value;
      && Filed(s, s', item, facility, sku, product)
      && Balance(s', item, OnHand) == quantity && OnHandOnly(s, s', item)
  {
    UpsertFiles(s, facility, sku, product);
  }

  /**
   A new count leaves exactly the counted quantity on the one item of its facility and SKU,
   whatever was there before, and every other balance as it was; replayed, it changes nothing.
   */
  lemma FeedSetsItem(start: Stock, steps: seq<Step>, s: Stock, key: FeedKey, facility: nat, sku: string, product: nat,
                     quantity: int)
    requires Empty(start) && s == Run(start, steps)
    requires key !in s.feeds && Feed(s, key, facility, sku, product, quantity).Ok?
    ensures var s' := Feed(s, key, facility, sku, product, quantity).value;
      && (exists item: nat :: Filed(s, s', item, facility, sku, product)
            && Balance(s', item, OnHand) == quantity && OnHandOnly(s, s', item))
      && s'.reservations == s.reservations && s'.feeds == s.feeds[key := quantity]
      && Feed(s', key, facility, sku, product, quantity) == Ok(s')
  {
    ItemsKept(start, steps);
    FeedFiles(s, key, facility, sku, product, quantity);
    var (_, item) := UpsertItem(s, facility, sku, product);
    assert Filed(s, Feed(s, key, facility, sku, product, quantity).value, item, facility, sku, product);
  }

  /** A count is taken exactly when it is a possible quantity and its difference can be posted. */
  lemma FeedGoesThrough(start: Stock, steps: seq<Step>, s: Stock, key: FeedKey, facility: nat, sku: string, product: nat,
                     quantity: int)
    requires Empty(start) && s == Run(start, steps) && key !in s.feeds
    ensures Feed(s, key, facility, sku, product, quantity).Ok? <==>
      && 0 <= quantity <= 9_007_199_254_740_991
      && forall item: nat :: Names(s, item, facility, sku) ==>
           Balance(s, item, OnHand) - quantity <= 9_007_199_254_740_991
  {
    EmptyInv(start);
    InvKept(start, steps);
    ItemsKept(start, steps);
    UpsertFiles(s, facility, sku, product);
    var item := UpsertItem(s, facility, sku, product).1;
    if item < |s.items| {
      assert Names(s, item, facility, sku);
      assert Balance(s, item, OnHand) >= 0;
    } else {
      assert Balance(s, item, OnHand) == 0;
    }
  }

  /** What is on hand of an item that is there under this key. */
  function Held(s: Stock, item: nat, facility: nat, sku: string): int {
    if Names(s, item, facility, sku) then Balance(s, item, OnHand) else 0
  }

  /** The receipt's units are on the one item of its key, on top of what that held. */
  ghost predicate Landed(s: Stock, s': Stock, item: nat, facility: nat, sku: string, product: nat, quantity: int) {
    && Filed(s, s', item, facility, sku, product) && OnHandOnly(s, s', item)
    && Balance(s', item, OnHand) == Balance(s, item, OnHand) + quantity
    && Balance(s, item, OnHand) == Held(s, item, facility, sku)
  }

  lemma ReceiptLands(s: Stock, facility: nat, sku: string, product: nat, quantity: Quantity)
    requires Shelved(s)
    ensures var (_, item) := UpsertItem(s, facility, sku, product);
      Landed(s, Receive(s, facility, sku, product, quantity), item, facility, sku, product, quantity)
  {
    UpsertFiles(s, facility, sku, product);
    var (_, item) := UpsertItem(s, facility, sku, product);
    assert item < |s.items| ==> Names(s, item, facility, sku);
  }

  /** A receipt adds its units to the one item of its facility and SKU; a new item starts from nothing. */
  lemma ReceiptAddsToItem(start: Stock, steps: seq<Step>, s: Stock, facility: nat, sku: string, product: nat, quantity: Quantity)
    requires Empty(start) && s == Run(start, steps)
    ensures var s' := Receive(s, facility, sku, product, quantity);
      && (exists item: nat :: Filed(s, s', item, facility, sku, product)
            && Balance(s', item, OnHand) == Held(s, item, facility, sku) + quantity && OnHandOnly(s, s', item))
      && s'.reservations == s.reservations && s'.feeds == s.feeds
  {
    ItemsKept(start, steps);
    ReceiptLands(s, facility, sku, product, quantity);
    var (_, item) := UpsertItem(s, facility, sku, product);
    assert Filed(s, Receive(s, facility, sku, product, quantity), item, facility, sku, product);
  }

  // ----- reservations ----------------------------------------------------------------

  /** A transfer between two states of an item, and nothing else. */
  ghost predicate Moved(s: Stock, s': Stock, item: nat, from: StockState, to: StockState, quantity: int) {
    && s'.items == s.items && s'.feeds == s.feeds
    && s'.ledger == s.ledger + [LedgerEntry(item, from, -quantity), LedgerEntry(item, to, quantity)]
    && forall other: nat, state :: Balance(s', other, state) == Balance(s, other, state)
         + if other != item then 0 else if state == from then -quantity else if state == to then quantity else 0
  }

  /** The item that serves a product: the first that carries it. */
  ghost predicate Serves(s: Stock, item: nat, product: nat) {
    && item < |s.items| && s.items[item].product == product
    && forall k :: 0 <= k < item ==> s.items[k].product != product
  }

  /** A checkout line is reserved exactly when the item that serves its product has enough on hand. */
  lemma ReserveGoesThrough(s: Stock, line: DemandLine, now: Time)
    requires NonNegative(s)
    ensures ReserveLine(s, line, now).Ok? <==>
      exists item: nat :: Serves(s, item, line.product) && Balance(s, item, OnHand) >= line.quantity
  {
    var found := FindItem(s.items, line.product, 0);
    if found.Some? { assert Serves(s, found.value, line.product); }
  }

  /** Its units are set aside for one day, for its demand. */
  lemma ReserveEffect(s: Stock, line: DemandLine, now: Time, item: nat)
    requires ReserveLine(s, line, now).Ok? && Serves(s, item, line.product)
    ensures var s' := ReserveLine(s, line, now).value;
      && Moved(s, s', item, OnHand, Reserved, line.quantity)
      && s'.reservations == s.reservations
           + [Reservation(item, line.demand, line.quantity, now + 86_400_000, None, None)]
  {
    assert FindItem(s.items, line.product, 0) == Some(item);
  }

  /** What the lines of a checkout ask of one item. */
  function DemandOn(items: seq<Item>, item: nat): DemandLine -> int {
    (line: DemandLine) => if FindItem(items, line.product, 0) == Some(item) then line.quantity as int else 0
  }

  predicate AllServed(items: seq<Item>, lines: seq<DemandLine>) {
    forall k :: 0 <= k < |lines| ==> FindItem(items, lines[k].product, 0).Some?
  }

  /** Each item has moved what the lines ask of it from what is on hand to what is reserved. */
  ghost predicate Gave(s: Stock, s': Stock, lines: seq<DemandLine>) {
    && (forall item: nat :: Balance(s', item, OnHand) == Balance(s, item, OnHand) - SumBy(lines, DemandOn(s.items, item)))
    && (forall item: nat :: Balance(s', item, Reserved) == Balance(s, item, Reserved) + SumBy(lines, DemandOn(s.items, item)))
    && (forall item: nat :: Balance(s', item, Allocated) == Balance(s, item, Allocated))
  }

  /** One reservation a line, in order, on the item that serves it and for one day. */
  ghost predicate Booked(s: Stock, s': Stock, lines: seq<DemandLine>, now: Time) {
    && |s'.reservations| == |s.reservations| + |lines|
    && s'.reservations[..|s.reservations|] == s.reservations
    && forall k :: 0 <= k < |lines| ==>
         var r := s'.reservations[|s.reservations| + k];
         && Serves(s, r.item, lines[k].product)
         && r == Reservation(r.item, lines[k].demand, lines[k].quantity, now + 86_400_000, None, None)
  }

  /** What the lines of a checkout leave behind. */
  ghost predicate SetAside(s: Stock, s': Stock, lines: seq<DemandLine>, now: Time) {
    s'.items == s.items && s'.feeds == s.feeds && NonNegative(s') && Gave(s, s', lines) && Booked(s, s', lines, now)
  }

  ghost predicate Enough(s: Stock, lines: seq<DemandLine>) {
    forall item: nat :: SumBy(lines, DemandOn(s.items, item)) <= Balance(s, item, OnHand)
  }

  lemma OneMoreEnough(s: Stock, lines: seq<DemandLine>, item: nat)
    requires NonNegative(s) && |lines| > 0 && FindItem(s.items, lines[|lines| - 1].product, 0) == Some(item)
    ensures Enough(s, lines) <==>
      && Enough(s, lines[..|lines| - 1])
      && SumBy(lines[..|lines| - 1], DemandOn(s.items, item)) + lines[|lines| - 1].quantity <= Balance(s, item, OnHand)
  {
    var n := |lines| - 1;
    assert lines == lines[..n] + [lines[n]];
    forall other: nat
      ensures SumBy(lines, DemandOn(s.items, other))
        == SumBy(lines[..n], DemandOn(s.items, other)) + if other == item then lines[n].quantity as int else 0
    {
      SumByAppend(lines[..n], lines[n], DemandOn(s.items, other));
    }
  }

  lemma OneMoreGave(s: Stock, mid: Stock, s': Stock, lines: seq<DemandLine>, item: nat)
    requires |lines| > 0 && Gave(s, mid, lines[..|lines| - 1])
    requires FindItem(s.items, lines[|lines| - 1].product, 0) == Some(item)
    requires Moved(mid, s', item, OnHand, Reserved, lines[|lines| - 1].quantity)
    ensures Gave(s, s', lines)
  {
    var n := |lines| - 1;
    assert lines == lines[..n] + [lines[n]];
    forall other: nat
      ensures SumBy(lines, DemandOn(s.items, other))
        == SumBy(lines[..n], DemandOn(s.items, other)) + if other == item then lines[n].quantity as int else 0
    {
      SumByAppend(lines[..n], lines[n], DemandOn(s.items, other));
    }
  }

  lemma OneMoreBooked(s: Stock, mid: Stock, s': Stock, lines: seq<DemandLine>, now: Time, item: nat)
    requires |lines| > 0 && Booked(s, mid, lines[..|lines| - 1], now) && Serves(s, item, lines[|lines| - 1].product)
    requires s'.reservations == mid.reservations
      + [Reservation(item, lines[|lines| - 1].demand, lines[|lines| - 1].quantity, now + 86_400_000, None, None)]
    ensures Booked(s, s', lines, now)
  {
    var n := |lines| - 1;
    assert forall k :: 0 <= k < n ==>
      lines[k] == lines[..n][k] && s'.reservations[|s.reservations| + k] == mid.reservations[|s.reservations| + k];
  }

  lemma OneMoreSetAside(s: Stock, mid: Stock, lines: seq<DemandLine>, now: Time, item: nat)
    requires |lines| > 0 && SetAside(s, mid, lines[..|lines| - 1], now)
    requires FindItem(s.items, lines[|lines| - 1].product, 0) == Some(item)
    requires ReserveLine(mid, lines[|lines| - 1], now).Ok?
    ensures SetAside(s, ReserveLine(mid, lines[|lines| - 1], now).value, lines, now)
  {
    var last := lines[|lines| - 1];
    var s' := ReserveLine(mid, last, now).value;
    assert Serves(mid, item, last.product) && Serves(s, item, last.product);
    ReserveEffect(mid, last, now, item);
    OneMoreGave(s, mid, s', lines, item);
    OneMoreBooked(s, mid, s', lines, now, item);
  }

  /** A checkout is reserved exactly when all its products have items, and those have enough for all lines together. */
  lemma {:induction false} ReserveAllGoesThrough(s: Stock, lines: seq<DemandLine>, now: Time)
    requires NonNegative(s)
    ensures ReserveAll(s, lines, now).Ok? <==> AllServed(s.items, lines) && Enough(s, lines)
    ensures ReserveAll(s, lines, now).Ok? ==> SetAside(s, ReserveAll(s, lines, now).value, lines, now)
  {
    if |lines| == 0 {
      assert forall item: nat :: Balance(s, item, OnHand) >= 0;
    } else {
      var n := |lines| - 1;
      ReserveAllGoesThrough(s, lines[..n], now);
      assert AllServed(s.items, lines) <==>
        AllServed(s.items, lines[..n]) && FindItem(s.items, lines[n].product, 0).Some?;
      var found := FindItem(s.items, lines[n].product, 0);
      if found.Some? {
        OneMoreEnough(s, lines, found.value);
        if ReserveAll(s, lines[..n], now).Ok? {
          var mid := ReserveAll(s, lines[..n], now).value;
          ReserveGoesThrough(mid, lines[n], now);
          assert Serves(mid, found.value, lines[n].product);
          if ReserveLine(mid, lines[n], now).Ok? { OneMoreSetAside(s, mid, lines, now, found.value); }
        }
      }
    }
  }

  /** Accepting a line allocates the first open reservation of its demand and moves its units. */
  lemma AllocateEffect(s: Stock, demand: nat, now: Time, id: nat)
    requires StockInv(s) && id < |s.reservations| && s.reservations[id].demand == demand && Open(s.reservations[id])
    requires forall k :: 0 <= k < id ==> s.reservations[k].demand != demand || !Open(s.reservations[k])
    ensures AllocateLine(s, demand, now).Ok?
    ensures var s' := AllocateLine(s, demand, now).value;
      && Moved(s, s', s.reservations[id].item, Reserved, Allocated, s.reservations[id].quantity)
      && s'.reservations == s.reservations[id := s.reservations[id].(allocatedAt := Some(now))]
  {
    assert FindOpen(s.reservations, demand, 0) == Some(id);
    OpenIsCovered(s, id);
  }

  /** Letting an expired reservation go returns its units to what is on hand. */
  lemma ReleaseEffect(s: Stock, id: nat, now: Time)
    requires StockInv(s) && id < |s.reservations|
    ensures Release(s, id, now).Ok?
    ensures var s' := Release(s, id, now).value;
      var r := s.reservations[id];
      if r.releasedAt == None && r.allocatedAt == None && r.expiresAt <= now then
        && Moved(s, s', r.item, Reserved, OnHand, r.quantity)
        && s'.reservations == s.reservations[id := r.(releasedAt := Some(now))]
      else s' == s
  {
    if Open(s.reservations[id]) { OpenIsCovered(s, id); }
  }
}
