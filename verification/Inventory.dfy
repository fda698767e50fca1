/**
 Stock of inventory items: balances per state, the append-only stock ledger, and the
 reservations that explain what is reserved and allocated. Each function is the effect of one
 transaction; `Err` means that it throws and rolls back.
 */
module Inventory {
  import opened Results
  import opened Sums

  type Time = int

  const RESERVATION_MS := 86_400_000
  const MAX_SAFE_INTEGER := 9_007_199_254_740_991

  /** Quantities of cart and receipt lines are validated to be at least one. */
  type Quantity = n: int | n > 0 witness 1

  datatype StockState = OnHand | Reserved | Allocated

  datatype Item = Item(facility: nat, sku: string, product: nat)

  datatype LedgerEntry = LedgerEntry(item: nat, state: StockState, delta: int)

  datatype Reservation = Reservation(item: nat, demand: nat, quantity: int, 
                                     expiresAt: Time, releasedAt: Option<Time>, allocatedAt: Option<Time>)

  datatype FeedKey = FeedKey(source: string, externalKey: string)

  datatype Stock = Stock(
    items: seq<Item>,
    balances: map<(nat, StockState), int>,
    ledger: seq<LedgerEntry>,
    reservations: seq<Reservation>,
    feeds: map<FeedKey, int>)

  datatype StockError =
    | NoInventory
    | Insufficient
    | ReservationUnavailable
    | ReservedUnavailable
    | FeedKeyReused
    | OutOfRange
    | InvalidQuantity

  type Answer = Result<Stock, StockError>

  function Balance(s: Stock, item: nat, state: StockState): int {
    if (item, state) in s.balances then s.balances[(item, state)] else 0
  }

  // ----- writes ----------------------------------------------------------------------

  /** The guarded SQL decrement: it changes a row only if the row holds enough. */
  predicate Holds(s: Stock, item: nat, state: StockState, quantity: int) {
    (item, state) in s.balances && s.balances[(item, state)] >= quantity
  }

  function Add(s: Stock, item: nat, state: StockState, delta: int): Stock {
    s.(balances := s.balances[(item, state) := Balance(s, item, state) + delta],
       ledger := s.ledger + [LedgerEntry(item, state, delta)])
  }

  /** A transfer between two states of one item, posted on both sides. */
  function Move(s: Stock, item: nat, from: StockState, to: StockState, quantity: int): Option<Stock> {
    if Holds(s, item, from, quantity)
    then Some(Add(Add(s, item, from, -quantity), item, to, quantity))
    else None
  }

  // ----- items -----------------------------------------------------------------------

  function FindItem(items: seq<Item>, product: nat, start: nat): (found: Option<nat>)
    requires start <= |items|
    ensures found.Some? ==>
      && start <= found.value < |items| && items[found.value].product == product
      && forall k :: start <= k < found.value ==> items[k].product != product
    ensures found.None? ==> forall k :: start <= k < |items| ==> items[k].product != product
    decreases |items| - start
  {
    if start == |items| then None
    else if items[start].product == product then Some(start)
    else FindItem(items, product, start + 1)
  }

  function FindSku(items: seq<Item>, facility: nat, sku: string, start: nat): (found: Option<nat>)
    requires start <= |items|
    ensures found.Some? ==>
      start <= found.value < |items| && items[found.value].facility == facility && items[found.value].sku == sku
    ensures found.None? ==> forall k :: start <= k < |items| ==> items[k].facility != facility || items[k].sku != sku
    decreases |items| - start
  {
    if start == |items| then None
    else if items[start].facility == facility && items[start].sku == sku then Some(start)
    else FindSku(items, facility, sku, start + 1)
  }

  /** The item row of a facility and SKU, created on first use. */
  function UpsertItem(s: Stock, facility: nat, sku: string, product: nat): (Stock, nat) {
    match FindSku(s.items, facility, sku, 0)
    case Some(k) => (s.(items := s.items[k := s.items[k].(product := product)]), k)
    case None => (s.(items := s.items + [Item(facility, sku, product)]), |s.items|)
  }

  // ----- transactions ----------------------------------------------------------------

  /** An absolute stock count from a feed; the ledger gets the difference, if there is one. */
  function Feed(s: Stock, key: FeedKey, facility: nat, sku: string, product: nat, quantity: int): Answer {
    if quantity < 0 || quantity > MAX_SAFE_INTEGER then Err(InvalidQuantity)
    else if key in s.feeds then if s.feeds[key] == quantity then Ok(s) else Err(FeedKeyReused)
    else
      var (upserted, item) := UpsertItem(s, facility, sku, product);
      var delta := quantity - Balance(upserted, item, OnHand);
      if delta < -MAX_SAFE_INTEGER || delta > MAX_SAFE_INTEGER then Err(OutOfRange)
      else
        var counted := if delta != 0 then Add(upserted, item, OnHand, delta)
          else upserted.(balances := upserted.balances[(item, OnHand) := quantity]);
        Ok(counted.(feeds := counted.feeds[key := quantity]))
  }

  datatype DemandLine = DemandLine(product: nat, demand: nat, quantity: Quantity)

  /** What checkout does to stock for one cart line. */
  function ReserveLine(s: Stock, line: DemandLine, now: Time): Answer {
    var item := FindItem(s.items, line.product, 0);
    if item.None? then Err(NoInventory)
    else
      match Move(s, item.value, OnHand, Reserved, line.quantity)
      case None => Err(Insufficient)
      case Some(moved) =>
        Ok(moved.(reservations := moved.reservations
          + [Reservation(item.value, line.demand, line.quantity, now + RESERVATION_MS, None, None)]))
  }

  function ReserveAll(s: Stock, lines: seq<DemandLine>, now: Time): Answer {
    if |lines| == 0 then Ok(s)
    else
      match ReserveAll(s, lines[..|lines| - 1], now)
      case Err(e) => Err(e)
      case Ok(reserved) => ReserveLine(reserved, lines[|lines| - 1], now)
  }

  predicate Open(r: Reservation) { r.releasedAt.None? && r.allocatedAt.None? }

  function FindOpen(reservations: seq<Reservation>, demand: nat, start: nat): (found: Option<nat>)
    requires start <= |reservations|
    ensures found.Some? ==>
      && start <= found.value < |reservations|
      && reservations[found.value].demand == demand && Open(reservations[found.value])
      && (forall k :: start <= k < found.value ==> reservations[k].demand != demand || !Open(reservations[k]))
    ensures found.None? ==> forall k :: start <= k < |reservations| ==>
      reservations[k].demand != demand || !Open(reservations[k])
    decreases |reservations| - start
  {
    if start == |reservations| then None
    else if reservations[start].demand == demand && Open(reservations[start]) then Some(start)
    else FindOpen(reservations, demand, start + 1)
  }

  /** What accepting a purchase order does for one of its lines. */
  function AllocateLine(s: Stock, demand: nat, now: Time): Answer {
    var found := FindOpen(s.reservations, demand, 0);
    if found.None? then Err(ReservationUnavailable)
    else
      var r := s.reservations[found.value];
      match Move(s, r.item, Reserved, Allocated, r.quantity)
      case None => Err(ReservedUnavailable)
      case Some(moved) => Ok(moved.(reservations := moved.reservations[found.value := r.(allocatedAt := Some(now))]))
  }

  function AllocateAll(s: Stock, demands: seq<nat>, now: Time): Answer {
    if |demands| == 0 then Ok(s)
    else
      match AllocateAll(s, demands[..|demands| - 1], now)
      case Err(e) => Err(e)
      case Ok(s') => AllocateLine(s', demands[|demands| - 1], now)
  }

  predicate Expired(r: Reservation, now: Time) { Open(r) && r.expiresAt <= now }

  /** One transaction of the expiry sweeper; a reservation claimed by someone else is skipped. */
  function Release(s: Stock, id: nat, now: Time): Answer {
    if id >= |s.reservations| || !Expired(s.reservations[id], now) then Ok(s)
    else
      var r := s.reservations[id];
      match Move(s, r.item, Reserved, OnHand, r.quantity)
      case None => Err(ReservedUnavailable)
      case Some(moved) => Ok(moved.(reservations := moved.reservations[id := r.(releasedAt := Some(now))]))
  }

  /** What receiving an accepted quantity against an advance shipping notice does to stock. */
  function Receive(s: Stock, facility: nat, sku: string, product: nat, quantity: Quantity): Stock {
    var (upserted, item) := UpsertItem(s, facility, sku, product);
    Add(upserted, item, OnHand, quantity)
  }

  // ----- invariant -------------------------------------------------------------------

  function DeltaOf(item: nat, state: StockState): LedgerEntry -> int {
    (e: LedgerEntry) => if e.item == item && e.state == state then e.delta else 0
  }

  function LedgerTotal(s: Stock, item: nat, state: StockState): int { SumBy(s.ledger, DeltaOf(item, state)) }

  function OpenOf(item: nat): Reservation -> int {
    (r: Reservation) => if r.item == item && Open(r) then r.quantity else 0
  }

  function AllocatedOf(item: nat): Reservation -> int {
    (r: Reservation) => if r.item == item && r.allocatedAt.Some? then r.quantity else 0
  }

  ghost predicate NonNegative(s: Stock) { forall key :: key in s.balances ==> s.balances[key] >= 0 }

  ghost predicate LedgerAgrees(s: Stock) {
    forall item: nat, state :: Balance(s, item, state) == LedgerTotal(s, item, state)
  }

  ghost predicate ReservationsAgree(s: Stock) {
    && (forall item: nat :: Balance(s, item, Reserved) == SumBy(s.reservations, OpenOf(item)))
    && (forall item: nat :: Balance(s, item, Allocated) == SumBy(s.reservations, AllocatedOf(item)))
    && (forall k :: 0 <= k < |s.reservations| ==>
         s.reservations[k].quantity > 0 && !(s.reservations[k].releasedAt.Some? && s.reservations[k].allocatedAt.Some?))
  }

  ghost predicate StockInv(s: Stock) { NonNegative(s) && LedgerAgrees(s) && ReservationsAgree(s) }

  lemma SameBooks(s: Stock, s': Stock)
    requires LedgerAgrees(s) && s'.balances == s.balances && s'.ledger == s.ledger
    ensures LedgerAgrees(s')
    ensures forall item: nat, state :: Balance(s', item, state) == Balance(s, item, state)
  {
    forall item: nat, state ensures Balance(s', item, state) == LedgerTotal(s', item, state) {
      assert Balance(s, item, state) == LedgerTotal(s, item, state);
    }
  }

  lemma AddKeepsLedger(s: Stock, item: nat, state: StockState, delta: int)
    requires LedgerAgrees(s)
    ensures LedgerAgrees(Add(s, item, state, delta))
  {
    var s' := Add(s, item, state, delta);
    forall i: nat, st ensures Balance(s', i, st) == LedgerTotal(s', i, st) {
      assert Balance(s, i, st) == LedgerTotal(s, i, st);
      SumByAppend(s.ledger, LedgerEntry(item, state, delta), DeltaOf(i, st));
    }
  }

  lemma MoveKeepsLedger(s: Stock, item: nat, from: StockState, to: StockState, quantity: int)
    requires LedgerAgrees(s) && NonNegative(s) && from != to && quantity >= 0
    requires Move(s, item, from, to, quantity).Some?
    ensures var s' := Move(s, item, from, to, quantity).value;
      && LedgerAgrees(s') && NonNegative(s')
      && forall i: nat, st :: Balance(s', i, st)
           == Balance(s, i, st) + if i != item then 0 else if st == from then -quantity else if st == to then quantity else 0
  {
    AddKeepsLedger(s, item, from, -quantity);
    AddKeepsLedger(Add(s, item, from, -quantity), item, to, quantity);
  }

  /** An open reservation is always covered by the reserved balance of its item. */
  lemma OpenIsCovered(s: Stock, id: nat)
    requires StockInv(s) && id < |s.reservations| && Open(s.reservations[id])
    ensures Holds(s, s.reservations[id].item, Reserved, s.reservations[id].quantity)
  {
    var item := s.reservations[id].item;
    SumByMember(s.reservations, OpenOf(item), id);
    assert Balance(s, item, Reserved) == SumBy(s.reservations, OpenOf(item));
  }

  lemma ReserveKeeps(s: Stock, line: DemandLine, now: Time)
    requires StockInv(s) && ReserveLine(s, line, now).Ok?
    ensures StockInv(ReserveLine(s, line, now).value)
  {
    var s' := ReserveLine(s, line, now).value;
    var item := FindItem(s.items, line.product, 0).value;
    MoveKeepsLedger(s, item, OnHand, Reserved, line.quantity);
    SameBooks(Move(s, item, OnHand, Reserved, line.quantity).value, s');
    forall i: nat
      ensures Balance(s', i, Reserved) == SumBy(s'.reservations, OpenOf(i))
      ensures Balance(s', i, Allocated) == SumBy(s'.reservations, AllocatedOf(i))
    {
      assert Balance(s, i, Reserved) == SumBy(s.reservations, OpenOf(i));
      assert Balance(s, i, Allocated) == SumBy(s.reservations, AllocatedOf(i));
      SumByAppend(s.reservations, s'.reservations[|s.reservations|], OpenOf(i));
      SumByAppend(s.reservations, s'.reservations[|s.reservations|], AllocatedOf(i));
    }
  }

  /** Closing an open reservation and moving its quantity out of RESERVED belong together. */
  lemma CloseKeeps(s: Stock, id: nat, to: StockState, now: Time)
    requires StockInv(s) && id < |s.reservations| && Open(s.reservations[id])
    requires to == OnHand || to == Allocated
    ensures var r := s.reservations[id];
      var closed := if to == OnHand then r.(releasedAt := Some(now)) else r.(allocatedAt := Some(now));
      var moved := Move(s, r.item, Reserved, to, r.quantity);
      && moved.Some?
      && StockInv(moved.value.(reservations := moved.value.reservations[id := closed]))
  {
    OpenIsCovered(s, id);
    var r := s.reservations[id];
    var closed := if to == OnHand then r.(releasedAt := Some(now)) else r.(allocatedAt := Some(now));
    MoveKeepsLedger(s, r.item, Reserved, to, r.quantity);
    var moved := Move(s, r.item, Reserved, to, r.quantity).value;
    var s' := moved.(reservations := moved.reservations[id := closed]);
    SameBooks(moved, s');
    forall i: nat
      ensures Balance(s', i, Reserved) == SumBy(s'.reservations, OpenOf(i))
      ensures Balance(s', i, Allocated) == SumBy(s'.reservations, AllocatedOf(i))
    {
      assert Balance(s, i, Reserved) == SumBy(s.reservations, OpenOf(i));
      assert Balance(s, i, Allocated) == SumBy(s.reservations, AllocatedOf(i));
      SumByUpdate(s.reservations, id, closed, OpenOf(i));
      SumByUpdate(s.reservations, id, closed, AllocatedOf(i));
    }
  }

  lemma OnHandKeeps(s: Stock, s': Stock)
    requires StockInv(s) && s'.reservations == s.reservations
    requires LedgerAgrees(s') && NonNegative(s')
    requires forall i: nat :: Balance(s', i, Reserved) == Balance(s, i, Reserved)
    requires forall i: nat :: Balance(s', i, Allocated) == Balance(s, i, Allocated)
    ensures StockInv(s')
  {
    forall i: nat
      ensures Balance(s', i, Reserved) == SumBy(s'.reservations, OpenOf(i))
      ensures Balance(s', i, Allocated) == SumBy(s'.reservations, AllocatedOf(i))
    {
      assert Balance(s, i, Reserved) == SumBy(s.reservations, OpenOf(i));
      assert Balance(s, i, Allocated) == SumBy(s.reservations, AllocatedOf(i));
    }
  }

  lemma FeedKeeps(s: Stock, key: FeedKey, facility: nat, sku: string, product: nat, quantity: int)
    requires StockInv(s) && Feed(s, key, facility, sku, product, quantity).Ok?
    ensures StockInv(Feed(s, key, facility, sku, product, quantity).value)
  {
    var s' := Feed(s, key, facility, sku, product, quantity).value;
    if key !in s.feeds {
      var (upserted, item) := UpsertItem(s, facility, sku, product);
      var delta := quantity - Balance(s, item, OnHand);
      SameBooks(s, upserted);
      AddKeepsLedger(upserted, item, OnHand, delta);
      if delta != 0 {
        SameBooks(Add(upserted, item, OnHand, delta), s');
      } else {
        assert forall i: nat, st :: Balance(s', i, st) == Balance(upserted, i, st);
        assert LedgerAgrees(s') by {
          forall i: nat, st ensures Balance(s', i, st) == LedgerTotal(s', i, st) {
            assert Balance(upserted, i, st) == LedgerTotal(upserted, i, st);
          }
        }
      }
      OnHandKeeps(s, s');
    }
  }

  lemma ReceiveKeeps(s: Stock, facility: nat, sku: string, product: nat, quantity: Quantity)
    requires StockInv(s)
    ensures StockInv(Receive(s, facility, sku, product, quantity))
  {
    var (upserted, item) := UpsertItem(s, facility, sku, product);
    var s' := Receive(s, facility, sku, product, quantity);
    SameBooks(s, upserted);
    AddKeepsLedger(upserted, item, OnHand, quantity);
    assert Balance(s, item, OnHand) >= 0;
    OnHandKeeps(s, s');
  }

  // ----- runs ------------------------------------------------------------------------

  datatype Step =
    | FeedStep(key: FeedKey, facility: nat, sku: string, product: nat, quantity: int)
    | CheckoutStep(lines: seq<DemandLine>, now: Time)
    | AcceptStep(demands: seq<nat>, now: Time)
    | ExpireStep(reservation: nat, now: Time)
    | ReceiveStep(facility: nat, sku: string, product: nat, accepted: Quantity)

  function Attempt(s: Stock, step: Step): Answer {
    match step
    case FeedStep(key, facility, sku, product, quantity) => Feed(s, key, facility, sku, product, quantity)
    case CheckoutStep(lines, now) => ReserveAll(s, lines, now)
    case AcceptStep(demands, now) => AllocateAll(s, demands, now)
    case ExpireStep(id, now) => Release(s, id, now)
    case ReceiveStep(facility, sku, product, accepted) => Ok(Receive(s, facility, sku, product, accepted))
  }

  /** A transaction that throws leaves the stock as it was. */
  function Next(s: Stock, step: Step): Stock {
    match Attempt(s, step)
    case Ok(s') => s'
    case Err(_) => s
  }

  function Run(s: Stock, steps: seq<Step>): Stock
    decreases |steps|
  {
    if |steps| == 0 then s else Run(Next(s, steps[0]), steps[1..])
  }

  /** The unique key of the item table. */
  predicate UniqueItems(items: seq<Item>) {
    forall i, j :: 0 <= i < j < |items| ==> items[i].facility != items[j].facility || items[i].sku != items[j].sku
  }

  /** Tables that hold no stock yet; there may be items. */
  predicate Empty(s: Stock) {
    && s.balances == map[] && s.ledger == [] && s.reservations == [] && s.feeds == map[]
    && UniqueItems(s.items)
  }

  lemma {:induction false} ReserveAllKeeps(s: Stock, lines: seq<DemandLine>, now: Time)
    requires StockInv(s) && ReserveAll(s, lines, now).Ok?
    ensures StockInv(ReserveAll(s, lines, now).value)
  {
    if |lines| > 0 {
      var n := |lines| - 1;
      ReserveAllKeeps(s, lines[..n], now);
      ReserveKeeps(ReserveAll(s, lines[..n], now).value, lines[n], now);
    }
  }

  lemma {:induction false} AllocateAllKeeps(s: Stock, demands: seq<nat>, now: Time)
    requires StockInv(s) && AllocateAll(s, demands, now).Ok?
    ensures StockInv(AllocateAll(s, demands, now).value)
  {
    if |demands| > 0 {
      var n := |demands| - 1;
      AllocateAllKeeps(s, demands[..n], now);
      var s' := AllocateAll(s, demands[..n], now).value;
      CloseKeeps(s', FindOpen(s'.reservations, demands[n], 0).value, Allocated, now);
    }
  }

  lemma NextKeeps(s: Stock, step: Step)
    requires StockInv(s)
    ensures StockInv(Next(s, step))
  {
    match step
    case FeedStep(key, facility, sku, product, quantity) =>
      if Feed(s, key, facility, sku, product, quantity).Ok? { FeedKeeps(s, key, facility, sku, product, quantity); }
    case CheckoutStep(lines, now) => if ReserveAll(s, lines, now).Ok? { ReserveAllKeeps(s, lines, now); }
    case AcceptStep(demands, now) => if AllocateAll(s, demands, now).Ok? { AllocateAllKeeps(s, demands, now); }
    case ExpireStep(id, now) =>
      if id < |s.reservations| && Expired(s.reservations[id], now) { CloseKeeps(s, id, OnHand, now); }
    case ReceiveStep(facility, sku, product, accepted) => ReceiveKeeps(s, facility, sku, product, accepted);
  }

  lemma EmptyInv(s: Stock)
    requires Empty(s)
    ensures StockInv(s)
  {
  }

  lemma {:induction false} InvKept(s: Stock, steps: seq<Step>)
    requires StockInv(s)
    ensures StockInv(Run(s, steps))
    decreases |steps|
  {
    if |steps| > 0 {
      NextKeeps(s, steps[0]);
      InvKept(Next(s, steps[0]), steps[1..]);
    }
  }
}
