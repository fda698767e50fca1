/** The inventory tables, updated row by row as the transactions do. */
module InventoryTables {
  import opened Inventory
  import opened Queries
  import opened Results

  ghost predicate Answered(before: Stock, answer: Answer, after: Stock, error: Option<StockError>) {
    match answer
    case Ok(s) => after == s && error == None
    case Err(e) => after == before && error == Some(e)
  }

  /** The sweeper's batch, one transaction per reservation. */
  function ReleaseAll(s: Stock, batch: seq<nat>, now: Time): Stock {
    if |batch| == 0 then s else Next(ReleaseAll(s, batch[..|batch| - 1], now), ExpireStep(batch[|batch| - 1], now))
  }

  /** A batch releases exactly its expired reservations; one that others closed meanwhile is left alone. */
  lemma {:induction false} ReleaseAllExact(s: Stock, batch: seq<nat>, now: Time, id: nat)
    requires StockInv(s) && id < |s.reservations|
    ensures var s' := ReleaseAll(s, batch, now);
      && StockInv(s') && |s'.reservations| == |s.reservations|
      && s'.reservations[id] ==
           if id in batch && Expired(s.reservations[id], now) then s.reservations[id].(releasedAt := Some(now))
           else s.reservations[id]
  {
    if |batch| > 0 {
      var n := |batch| - 1;
      var earlier := ReleaseAll(s, batch[..n], now);
      ReleaseAllExact(s, batch[..n], now, id);
      assert batch == batch[..n] + [batch[n]];
      ReleaseNext(earlier, batch[n], now);
    }
  }

  /** No transaction of the sweep throws, and each keeps the stock invariant. */
  lemma ReleaseNext(s: Stock, id: nat, now: Time)
    requires StockInv(s)
    ensures Release(s, id, now) == Ok(Next(s, ExpireStep(id, now)))
    ensures StockInv(Next(s, ExpireStep(id, now)))
  {
    NextKeeps(s, ExpireStep(id, now));
    if id < |s.reservations| && Expired(s.reservations[id], now) {
      OpenIsCovered(s, id);
    }
  }

  const SWEEP_LIMIT := 100

  /** Open reservations that have expired, by their expiry. */
  function ExpiryKeys(s: Stock, now: Time): seq<Option<int>> {
    seq(|s.reservations|, r requires 0 <= r < |s.reservations| =>
      if Expired(s.reservations[r], now) then Some(s.reservations[r].expiresAt) else None)
  }

  /** What the sweep fetches. */
  function DueReservations(s: Stock, now: Time): seq<nat> { First(ExpiryKeys(s, now), SWEEP_LIMIT) }

  /** A sweep leaves a reservation that has expired only to a full batch of earlier ones. */
  lemma SweepExact(s: Stock, now: Time, id: nat)
    requires StockInv(s) && id < |s.reservations| && Expired(s.reservations[id], now)
    ensures var batch := DueReservations(s, now);
      var s' := ReleaseAll(s, batch, now);
      && |s'.reservations| == |s.reservations|
      && (s'.reservations[id].releasedAt == Some(now)
          || (|batch| == SWEEP_LIMIT
              && forall k :: k in batch ==> k < |s.reservations| && s.reservations[k].expiresAt <= s.reservations[id].expiresAt))
  {
    var keys, batch := ExpiryKeys(s, now), DueReservations(s, now);
    ReleaseAllExact(s, batch, now, id);
    assert Matches(keys, id as int);
    forall k | k in batch
      ensures k < |s.reservations| && (id !in batch ==> s.reservations[k].expiresAt <= s.reservations[id].expiresAt)
    {
      var i :| 0 <= i < |batch| && batch[i] == k;
      assert Matches(keys, batch[i]);
    }
  }

  class StockTables {
    var items: seq<Item>
    var balances: map<(nat, StockState), int>
    var ledger: seq<LedgerEntry>
    var reservations: seq<Reservation>
    var feeds: map<FeedKey, int>

    function View(): Stock
      reads this
    {
      Stock(items, balances, ledger, reservations, feeds)
    }

    constructor ()
      ensures Empty(View())
    {
      items, balances, ledger, reservations, feeds := [], map[], [], [], map[];
    }

    method Rollback(saved: Stock)
      modifies this
      ensures View() == saved
    {
      items, balances, ledger, reservations, feeds :=
        saved.items, saved.balances, saved.ledger, saved.reservations, saved.feeds;
    }

    /** Guarded decrement, upserting increment, and a ledger entry on each side. */
    method Transfer(item: nat, from: StockState, to: StockState, quantity: int) returns (count: nat)
      modifies this`balances, this`ledger
      ensures count == if Move(old(View()), item, from, to, quantity).Some? then 1 else 0
      ensures View() == if count == 1 then Move(old(View()), item, from, to, quantity).value else old(View())
    {
      if (item, from) !in balances || balances[(item, from)] < quantity {
        return 0;
      }
      balances := balances[(item, from) := balances[(item, from)] - quantity];
      var current := if (item, to) in balances then balances[(item, to)] else 0;
      balances := balances[(item, to) := current + quantity];
      ledger := ledger + [LedgerEntry(item, from, -quantity), LedgerEntry(item, to, quantity)];
      assert ledger == old(ledger) + [LedgerEntry(item, from, -quantity)] + [LedgerEntry(item, to, quantity)];
      count := 1;
    }

    method Upsert(facility: nat, sku: string, product: nat) returns (item: nat)
      modifies this`items
      ensures (View(), item) == UpsertItem(old(View()), facility, sku, product)
    {
      match FindSku(items, facility, sku, 0)
      case Some(k) =>
        items := items[k := items[k].(product := product)];
        item := k;
      case None =>
        item := |items|;
        items := items + [Item(facility, sku, product)];
    }

    method InventoryFeed(key: FeedKey, facility: nat, sku: string, product: nat, quantity: int)
      returns (error: Option<StockError>)
      modifies this
      ensures Answered(old(View()), Feed(old(View()), key, facility, sku, product, quantity), View(), error)
    {
      var saved := View();
      if quantity < 0 || quantity > MAX_SAFE_INTEGER {
        return Some(InvalidQuantity);
      }
      if key in feeds {
        return if feeds[key] == quantity then None else Some(FeedKeyReused);
      }
      var item := Upsert(facility, sku, product);
      var current := if (item, OnHand) in balances then balances[(item, OnHand)] else 0;
      var delta := quantity - current;
      balances := balances[(item, OnHand) := quantity];
      feeds := feeds[key := quantity];
      if delta != 0 {
        ledger := ledger + [LedgerEntry(item, OnHand, delta)];
      }
      if delta < -MAX_SAFE_INTEGER || delta > MAX_SAFE_INTEGER {
        Rollback(saved);
        return Some(OutOfRange);
      }
      error := None;
    }

    /** The stock side of one checkout line. */
    method Reserve(line: DemandLine, now: Time) returns (error: Option<StockError>)
      modifies this
      ensures Answered(old(View()), ReserveLine(old(View()), line, now), View(), error)
    {
      var item := FindItem(items, line.product, 0);
      if item.None? {
        return Some(NoInventory);
      }
      var changed := Transfer(item.value, OnHand, Reserved, line.quantity);
      if changed != 1 {
        return Some(Insufficient);
      }
      reservations := reservations
        + [Reservation(item.value, line.demand, line.quantity, now + RESERVATION_MS, None, None)];
      error := None;
    }

    /** The stock side of accepting one purchase order line. */
    method Allocate(demand: nat, now: Time) returns (error: Option<StockError>)
      modifies this
      ensures Answered(old(View()), AllocateLine(old(View()), demand, now), View(), error)
    {
      var found := FindOpen(reservations, demand, 0);
      if found.None? {
        return Some(ReservationUnavailable);
      }
      var reservation := reservations[found.value];
      var changed := Transfer(reservation.item, Reserved, Allocated, reservation.quantity);
      if changed != 1 {
        return Some(ReservedUnavailable);
      }
      reservations := reservations[found.value := reservation.(allocatedAt := Some(now))];
      error := None;
    }

    /** One transaction of the expiry sweeper: claim the reservation first, then move its units. */
    method ReleaseReservation(id: nat, now: Time) returns (error: Option<StockError>)
      modifies this
      ensures Answered(old(View()), Release(old(View()), id, now), View(), error)
    {
      var saved := View();
      error := None;
      if id < |reservations| && Expired(reservations[id], now) {
        var reservation := reservations[id];
        reservations := reservations[id := reservation.(releasedAt := Some(now))];
        var changed := Transfer(reservation.item, Reserved, OnHand, reservation.quantity);
        if changed != 1 {
          Rollback(saved);
          error := Some(ReservedUnavailable);
        }
      }
    }

    /** The sweep over the rows that are due never throws, so it reaches every one of them. */
    method ReleaseBatch(now: Time)
      requires StockInv(View())
      modifies this
      ensures View() == ReleaseAll(old(View()), DueReservations(old(View()), now), now) && StockInv(View())
    {
      var batch := DueReservations(View(), now);
      var i := 0;
      while i < |batch|
        invariant 0 <= i <= |batch| && StockInv(View())
        invariant View() == ReleaseAll(old(View()), batch[..i], now)
      {
        assert batch[..i + 1][..i] == batch[..i];
        ReleaseNext(View(), batch[i], now);
        var error := ReleaseReservation(batch[i], now);
        assert error.None?;
        i := i + 1;
      }
      assert batch[..i] == batch;
    }
  }
}
