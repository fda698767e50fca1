/**
 What stock promises over every run of feeds, checkouts, acceptances, expiries and receipts
 from empty tables.
 */
module InventoryTheorems {
  import opened Results
  import opened Sums
  import opened Inventory
  import opened InventoryItems

  // ----- reservations account for stock ----------------------------------------------

  /** RESERVED is what open reservations hold, ALLOCATED what allocated ones hold, and none is both. */
  lemma ReservationsAccountForStock(start: Stock, steps: seq<Step>, item: nat)
    requires Empty(start)
    ensures var s := Run(start, steps);
      && Balance(s, item, Reserved) == SumBy(s.reservations, OpenOf(item))
      && Balance(s, item, Allocated) == SumBy(s.reservations, AllocatedOf(item))
      && forall k :: 0 <= k < |s.reservations| ==>
           !(s.reservations[k].releasedAt.Some? && s.reservations[k].allocatedAt.Some?)
  {
    EmptyInv(start);
    InvKept(start, steps);
  }

  /** The sweeper never finds a reservation without its balance. */
  lemma ExpiryNeverFails(start: Stock, steps: seq<Step>, id: nat, now: Time)
    requires Empty(start)
    ensures Release(Run(start, steps), id, now).Ok?
  {
    EmptyInv(start);
    InvKept(start, steps);
    var s := Run(start, steps);
    if id < |s.reservations| && Expired(s.reservations[id], now) {
      OpenIsCovered(s, id);
    }
  }

  lemma {:induction false} AllocateNeverShort(s: Stock, demands: seq<nat>, now: Time)
    requires StockInv(s)
    ensures AllocateAll(s, demands, now).Err? ==> AllocateAll(s, demands, now).error == ReservationUnavailable
  {
    if |demands| > 0 {
      var n := |demands| - 1;
      AllocateNeverShort(s, demands[..n], now);
      if AllocateAll(s, demands[..n], now).Ok? {
        var s' := AllocateAll(s, demands[..n], now).value;
        AllocateAllKeeps(s, demands[..n], now);
        var found := FindOpen(s'.reservations, demands[n], 0);
        if found.Some? { OpenIsCovered(s', found.value); }
      }
    }
  }

  /** Accepting a purchase order can fail only because a reservation is gone, never for lack of stock. */
  lemma AcceptanceNeverShort(start: Stock, steps: seq<Step>, demands: seq<nat>, now: Time)
    requires Empty(start)
    ensures AllocateAll(Run(start, steps), demands, now).Err? ==>
      AllocateAll(Run(start, steps), demands, now).error == ReservationUnavailable
  {
    EmptyInv(start);
    InvKept(start, steps);
    AllocateNeverShort(Run(start, steps), demands, now);
  }

  // ----- reconciliation and conservation ---------------------------------------------

  /** The (item, state) pairs that reconciliation reports on. */
  function Reported(s: Stock): set<(nat, StockState)> {
    s.balances.Keys + set e | e in s.ledger :: (e.item, e.state)
  }

  predicate Reconciled(s: Stock) {
    forall key | key in Reported(s) :: Balance(s, key.0, key.1) == LedgerTotal(s, key.0, key.1)
  }

  /** However feeds, orders, expiries and receipts interleave, reconciliation finds no mismatch. */
  lemma AlwaysReconciled(start: Stock, steps: seq<Step>)
    requires Empty(start)
    ensures Reconciled(Run(start, steps)) && NonNegative(Run(start, steps))
  {
    EmptyInv(start);
    InvKept(start, steps);
  }

  /** Units of an item over the three states. */
  function Units(s: Stock, item: nat): int {
    Balance(s, item, OnHand) + Balance(s, item, Reserved) + Balance(s, item, Allocated)
  }

  lemma MoveConserves(s: Stock, moved: nat, from: StockState, to: StockState, quantity: int, item: nat)
    requires StockInv(s) && from != to && quantity >= 0
    requires Move(s, moved, from, to, quantity).Some?
    ensures Units(Move(s, moved, from, to, quantity).value, item) == Units(s, item)
  {
    MoveKeepsLedger(s, moved, from, to, quantity);
  }

  lemma AllocateLineConserves(s: Stock, demand: nat, now: Time, item: nat)
    requires StockInv(s) && AllocateLine(s, demand, now).Ok?
    ensures Units(AllocateLine(s, demand, now).value, item) == Units(s, item)
  {
    var r := s.reservations[FindOpen(s.reservations, demand, 0).value];
    MoveConserves(s, r.item, Reserved, Allocated, r.quantity, item);
  }

  lemma ReserveLineConserves(s: Stock, line: DemandLine, now: Time, item: nat)
    requires StockInv(s) && ReserveLine(s, line, now).Ok?
    ensures Units(ReserveLine(s, line, now).value, item) == Units(s, item)
  {
    MoveConserves(s, FindItem(s.items, line.product, 0).value, OnHand, Reserved, line.quantity, item);
  }

  lemma {:induction false} ReserveAllConserves(s: Stock, lines: seq<DemandLine>, now: Time, item: nat)
    requires StockInv(s) && ReserveAll(s, lines, now).Ok?
    ensures Units(ReserveAll(s, lines, now).value, item) == Units(s, item)
  {
    if |lines| > 0 {
      var n := |lines| - 1;
      ReserveAllConserves(s, lines[..n], now, item);
      ReserveAllKeeps(s, lines[..n], now);
      ReserveLineConserves(ReserveAll(s, lines[..n], now).value, lines[n], now, item);
    }
  }

  lemma {:induction false} AllocateAllConserves(s: Stock, demands: seq<nat>, now: Time, item: nat)
    requires StockInv(s) && AllocateAll(s, demands, now).Ok?
    ensures Units(AllocateAll(s, demands, now).value, item) == Units(s, item)
  {
    if |demands| > 0 {
      var n := |demands| - 1;
      AllocateAllConserves(s, demands[..n], now, item);
      AllocateAllKeeps(s, demands[..n], now);
      AllocateLineConserves(AllocateAll(s, demands[..n], now).value, demands[n], now, item);
    }
  }

  /** Checkout, acceptance and expiry move units between states and neither make nor lose any. */
  lemma UnitsConserved(start: Stock, steps: seq<Step>, step: Step, item: nat)
    requires Empty(start)
    requires step.CheckoutStep? || step.AcceptStep? || step.ExpireStep?
    ensures Units(Next(Run(start, steps), step), item) == Units(Run(start, steps), item)
  {
    EmptyInv(start);
    InvKept(start, steps);
    var s := Run(start, steps);
    match step
    case CheckoutStep(lines, now) =>
      if ReserveAll(s, lines, now).Ok? { ReserveAllConserves(s, lines, now, item); }
    case AcceptStep(demands, now) =>
      if AllocateAll(s, demands, now).Ok? { AllocateAllConserves(s, demands, now, item); }
    case ExpireStep(id, now) =>
      if id < |s.reservations| && Expired(s.reservations[id], now) {
        OpenIsCovered(s, id);
        MoveConserves(s, s.reservations[id].item, Reserved, OnHand, s.reservations[id].quantity, item);
      }
  }

  /** What the ledger gained for an item in this step, over all states. */
  function Posted(s: Stock, s': Stock, item: nat): int {
    LedgerTotal(s', item, OnHand) + LedgerTotal(s', item, Reserved) + LedgerTotal(s', item, Allocated)
    - LedgerTotal(s, item, OnHand) - LedgerTotal(s, item, Reserved) - LedgerTotal(s, item, Allocated)
  }

  /** The units of an item that a step brings in: a new count's difference, or what a receipt accepts. */
  ghost function Arrived(s: Stock, step: Step, item: nat): int {
    match step
    case FeedStep(key, facility, sku, product, quantity) =>
      if key !in s.feeds && Feed(s, key, facility, sku, product, quantity).Ok? && Names(Next(s, step), item, facility, sku)
      then quantity - Balance(s, item, OnHand) else 0
    case ReceiveStep(facility, sku, product, accepted) =>
      if Names(Next(s, step), item, facility, sku) then accepted else 0
    case _ => 0
  }

  /** A step that only brings units in on hand posts just what it brings. */
  lemma ArrivalIsPosted(s: Stock, s': Stock, item: nat, filed: nat, arrived: int)
    requires LedgerAgrees(s) && LedgerAgrees(s') && OnHandOnly(s, s', filed)
    requires item == filed ==> Balance(s', item, OnHand) == Balance(s, item, OnHand) + arrived
    ensures Units(s', item) - Units(s, item) == (if item == filed then arrived else 0) == Posted(s, s', item)
  {
  }

  lemma FeedFollowsLedger(s: Stock, step: Step, item: nat)
    requires Shelved(s) && step.FeedStep? && LedgerAgrees(s) && LedgerAgrees(Next(s, step))
    ensures Units(Next(s, step), item) - Units(s, item) == Arrived(s, step, item) == Posted(s, Next(s, step), item)
  {
    match step
    case FeedStep(key, facility, sku, product, quantity) =>
      if key !in s.feeds && Feed(s, key, facility, sku, product, quantity).Ok? {
        var (_, filed) := UpsertItem(s, facility, sku, product);
        FeedFiles(s, key, facility, sku, product, quantity);
        ArrivalIsPosted(s, Next(s, step), item, filed, quantity - Balance(s, filed, OnHand));
      }
  }

  lemma ReceiptFollowsLedger(s: Stock, step: Step, item: nat)
    requires Shelved(s) && step.ReceiveStep? && LedgerAgrees(s) && LedgerAgrees(Next(s, step))
    ensures Units(Next(s, step), item) - Units(s, item) == Arrived(s, step, item) == Posted(s, Next(s, step), item)
  {
    match step
    case ReceiveStep(facility, sku, product, accepted) =>
      var (_, filed) := UpsertItem(s, facility, sku, product);
      ReceiptLands(s, facility, sku, product, accepted);
      ArrivalIsPosted(s, Next(s, step), item, filed, accepted);
  }

  /** Every step changes the units of an item by what arrives under its facility and SKU, and posts just that. */
  lemma UnitsFollowLedger(start: Stock, steps: seq<Step>, step: Step, item: nat)
    requires Empty(start)
    ensures var s := Run(start, steps);
      Units(Next(s, step), item) - Units(s, item) == Arrived(s, step, item) == Posted(s, Next(s, step), item)
  {
    EmptyInv(start);
    InvKept(start, steps);
    var s := Run(start, steps);
    NextKeeps(s, step);
    ItemsKept(start, steps);
    if step.FeedStep? {
      FeedFollowsLedger(s, step, item);
    } else if step.ReceiveStep? {
      ReceiptFollowsLedger(s, step, item);
    } else {
      UnitsConserved(start, steps, step, item);
    }
  }
}
