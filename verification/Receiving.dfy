/**
 Receiving against an advance shipping notice: one receipt per line, replays recognised by the
 canonical payload, and a notice that completes exactly when nothing is left to inspect or put away.
 */
module Receiving {
  import opened Inventory
  import opened Results
  import opened Sums

  datatype Inspection = Uninspected | Passed | Failed

  datatype AsnLine = AsnLine(sku: string, product: nat, expected: nat, item: Option<nat>, received: nat,
                             accepted: nat, rejected: nat, inspection: Inspection, bin: Option<nat>)

  datatype AsnStatus = Announced | InProgress | Completed

  datatype Asn = Asn(facility: nat, status: AsnStatus, lines: seq<AsnLine>)

  datatype Received = Received(line: nat, accepted: nat, rejected: nat, passed: bool)

  /** What is remembered of a receipt: the notice and the payload that was hashed. */
  datatype Receipt = Receipt(asn: nat, payload: seq<Received>)

  datatype Dock = Dock(bins: seq<nat>, asns: seq<Asn>, stock: Stock, receipts: map<string, Receipt>)

  datatype DockError =
    | LineRepeated
    | NoSuchNotice
    | KeyUsed
    | NotReceiving
    | InvalidReceipt
    | InvalidNotice
    | OtherBin
    | NotReady
    | NotPuttable

  // ----- canonical payload -----------------------------------------------------------

  function Insert(r: Received, sorted: seq<Received>): seq<Received> {
    if |sorted| == 0 then [r]
    else if r.line <= sorted[0].line then [r] + sorted
    else [sorted[0]] + Insert(r, sorted[1..])
  }

  /** The payload's lines in order of line id, as they are hashed. */
  function Canonical(lines: seq<Received>): seq<Received> {
    if |lines| == 0 then [] else Insert(lines[0], Canonical(lines[1..]))
  }

  predicate LinesOnce(lines: seq<Received>) {
    forall i, j :: 0 <= i < j < |lines| ==> lines[i].line != lines[j].line
  }

  ghost predicate Ascending(lines: seq<Received>) {
    forall i, j :: 0 <= i < j < |lines| ==> lines[i].line < lines[j].line
  }

  ghost predicate SameLines(a: seq<Received>, b: seq<Received>) { forall r :: r in a <==> r in b }

  lemma {:induction false} InsertSorts(r: Received, sorted: seq<Received>)
    requires Ascending(sorted) && forall k :: 0 <= k < |sorted| ==> sorted[k].line != r.line
    ensures Ascending(Insert(r, sorted))
    ensures forall q :: q in Insert(r, sorted) <==> q == r || q in sorted
  {
    if |sorted| > 0 {
      assert sorted == [sorted[0]] + sorted[1..];
      if r.line > sorted[0].line {
        InsertSorts(r, sorted[1..]);
        var rest := Insert(r, sorted[1..]);
        forall k | 0 <= k < |rest| ensures sorted[0].line < rest[k].line {
          assert rest[k] in rest;
        }
      }
    }
  }

  lemma {:induction false} CanonicalSorts(lines: seq<Received>)
    requires LinesOnce(lines)
    ensures Ascending(Canonical(lines)) && SameLines(Canonical(lines), lines)
  {
    if |lines| > 0 {
      CanonicalSorts(lines[1..]);
      assert lines == [lines[0]] + lines[1..];
      var rest := Canonical(lines[1..]);
      forall k | 0 <= k < |rest| ensures rest[k].line != lines[0].line {
        assert rest[k] in lines[1..];
      }
      InsertSorts(lines[0], rest);
    }
  }

  lemma NoneFromNone(a: seq<Received>, b: seq<Received>)
    requires SameLines(a, b)
    ensures |b| > 0 ==> |a| > 0
  {
    assert |b| > 0 ==> b[0] in b;
  }

  lemma FirstIsLeast(a: seq<Received>, r: Received)
    requires Ascending(a) && r in a
    ensures a[0] == r || a[0].line < r.line
  {
  }

  /** Lines with distinct ids can be put in order in one way only. */
  lemma {:induction false} OneOrder(a: seq<Received>, b: seq<Received>)
    requires Ascending(a) && Ascending(b) && SameLines(a, b)
    ensures a == b
  {
    NoneFromNone(a, b);
    NoneFromNone(b, a);
    if |a| > 0 {
      assert a[0] in b;
      FirstIsLeast(b, a[0]);
      assert b[0] in a;
      FirstIsLeast(a, b[0]);
      assert a == [a[0]] + a[1..] && b == [b[0]] + b[1..];
      assert a[0] !in a[1..] && b[0] !in b[1..];
      forall r ensures r in a[1..] <==> r in b[1..] {
        assert r in a <==> r == a[0] || r in a[1..];
        assert r in b <==> r == b[0] || r in b[1..];
        assert r in a <==> r in b;
      }
      OneOrder(a[1..], b[1..]);
    }
  }

  /** Two payloads are hashed alike exactly when they hold the same lines, in whatever order. */
  lemma CanonicalExact(a: seq<Received>, b: seq<Received>)
    requires LinesOnce(a) && LinesOnce(b)
    ensures Canonical(a) == Canonical(b) <==> SameLines(a, b)
  {
    CanonicalSorts(a);
    CanonicalSorts(b);
    if SameLines(a, b) {
      OneOrder(Canonical(a), Canonical(b));
    }
  }

  // ----- transactions ----------------------------------------------------------------

  predicate ValidReceipt(lines: seq<AsnLine>, r: Received) {
    && r.line < |lines|
    && var line := lines[r.line];
      && 1 <= r.accepted + r.rejected <= line.expected
      && line.received == 0 && line.inspection == Uninspected
      && (r.accepted > 0 <==> r.passed)
  }

  datatype Bay = Bay(lines: seq<AsnLine>, stock: Stock)

  /** Stock and line of one received line. */
  function ReceiveOne(facility: nat, bay: Bay, r: Received): Bay
    requires r.line < |bay.lines|
  {
    var line := bay.lines[r.line];
    var counted := line.(received := r.accepted + r.rejected, accepted := r.accepted, rejected := r.rejected,
                         inspection := if r.passed then Passed else Failed);
    if r.accepted > 0 then
      Bay(bay.lines[r.line := counted.(item := Some(UpsertItem(bay.stock, facility, line.sku, line.product).1))],
          Receive(bay.stock, facility, line.sku, line.product, r.accepted))
    else Bay(bay.lines[r.line := counted], bay.stock)
  }

  function ReceiveMany(facility: nat, bay: Bay, input: seq<Received>): (after: Bay)
    requires forall k :: 0 <= k < |input| ==> input[k].line < |bay.lines|
    ensures |after.lines| == |bay.lines|
  {
    if |input| == 0 then bay
    else ReceiveOne(facility, ReceiveMany(facility, bay, input[..|input| - 1]), input[|input| - 1])
  }

  datatype Expected = Expected(sku: string, product: nat, quantity: nat)

  function AnnouncedLine(line: Expected): AsnLine {
    AsnLine(line.sku, line.product, line.quantity, None, 0, 0, 0, Uninspected, None)
  }

  function AnnouncedLines(lines: seq<Expected>): seq<AsnLine> {
    seq(|lines|, k requires 0 <= k < |lines| => AnnouncedLine(lines[k]))
  }

  /** A notice as it is announced; its lines and their quantities are validated to be at least one. */
  function Announce(d: Dock, facility: nat, lines: seq<Expected>): Result<Dock, DockError> {
    if |lines| == 0 || exists k :: 0 <= k < |lines| && lines[k].quantity == 0 then Err(InvalidNotice)
    else
      Ok(d.(asns := d.asns + [Asn(facility, Announced, AnnouncedLines(lines))]))
  }

  predicate Blocks(line: AsnLine) { line.inspection == Uninspected || (line.accepted > 0 && line.bin.None?) }

  predicate Blocked(lines: seq<AsnLine>) { exists k :: 0 <= k < |lines| && Blocks(lines[k]) }

  function ReceiveAsn(d: Dock, asnId: nat, input: seq<Received>, key: string): Result<Dock, DockError> {
    if !LinesOnce(input) then Err(LineRepeated)
    else if asnId >= |d.asns| then Err(NoSuchNotice)
    else if key in d.receipts then
      if d.receipts[key] == Receipt(asnId, Canonical(input)) then Ok(d) else Err(KeyUsed)
    else
      var asn := d.asns[asnId];
      if asn.status.Completed? then Err(NotReceiving)
      else if !(forall k :: 0 <= k < |input| ==> ValidReceipt(asn.lines, input[k])) then Err(InvalidReceipt)
      else
        var bay := ReceiveMany(asn.facility, Bay(asn.lines, d.stock), input);
        var status := if Blocked(bay.lines) then InProgress else Completed;
        Ok(d.(asns := d.asns[asnId := asn.(status := status, lines := bay.lines)],
              stock := bay.stock,
              receipts := d.receipts[key := Receipt(asnId, Canonical(input))]))
  }

  function Putaway(d: Dock, asnId: nat, lineId: nat, bin: nat): Result<Dock, DockError> {
    if asnId >= |d.asns| || lineId >= |d.asns[asnId].lines| || bin >= |d.bins| || d.bins[bin] != d.asns[asnId].facility
    then Err(NoSuchNotice)
    else
      var asn := d.asns[asnId];
      var line := asn.lines[lineId];
      if line.bin.Some? && line.bin.value != bin then Err(OtherBin)
      else if line.bin.None? && !asn.status.InProgress? then Err(NotReady)
      else if line.item.None? || line.accepted < 1 || !line.inspection.Passed? then Err(NotPuttable)
      else
        var lines := if line.bin.None? then asn.lines[lineId := line.(bin := Some(bin))] else asn.lines;
        var status := if !Blocked(lines) && asn.status.InProgress? then Completed else asn.status;
        Ok(d.(asns := d.asns[asnId := asn.(status := status, lines := lines)]))
  }

  // ----- runs ------------------------------------------------------------------------

  datatype DockStep =
    | AnnounceStep(facility: nat, lines: seq<Expected>)
    | ReceiveStep(asn: nat, input: seq<Received>, key: string)
    | PutawayStep(asn: nat, line: nat, bin: nat)

  function Attempt(d: Dock, step: DockStep): Result<Dock, DockError> {
    match step
    case AnnounceStep(facility, lines) => Announce(d, facility, lines)
    case ReceiveStep(asn, input, key) => ReceiveAsn(d, asn, input, key)
    case PutawayStep(asn, line, bin) => Putaway(d, asn, line, bin)
  }

  function Proceed(d: Dock, step: DockStep): Dock { if Attempt(d, step).Ok? then Attempt(d, step).value else d }

  function RunDock(d: Dock, steps: seq<DockStep>): Dock
    decreases |steps|
  {
    if |steps| == 0 then d else RunDock(Proceed(d, steps[0]), steps[1..])
  }

  // ----- what every run keeps --------------------------------------------------------

  ghost predicate LineInv(line: AsnLine) {
    && line.received == line.accepted + line.rejected <= line.expected
    && (line.inspection.Uninspected? <==> line.received == 0)
    && (line.accepted > 0 <==> line.inspection.Passed?)
    && (line.item.Some? <==> line.accepted > 0)
    && (line.bin.Some? ==> line.accepted > 0)
  }

  /** The status says how far receiving has come, no more and no less. */
  ghost predicate AsnInv(asn: Asn) {
    && |asn.lines| > 0
    && (forall k :: 0 <= k < |asn.lines| ==> LineInv(asn.lines[k]))
    && (asn.status.Announced? ==> forall k :: 0 <= k < |asn.lines| ==> asn.lines[k].inspection.Uninspected?)
    && (asn.status.Completed? <==> !Blocked(asn.lines))
  }

  ghost predicate DockInv(d: Dock) {
    StockInv(d.stock) && forall a :: 0 <= a < |d.asns| ==> AsnInv(d.asns[a])
  }

  function AcceptedFor(item: nat): AsnLine -> int {
    (line: AsnLine) => if line.item == Some(item) then line.accepted as int else 0
  }

  function AcceptedIn(item: nat): Asn -> int { (asn: Asn) => SumBy(asn.lines, AcceptedFor(item)) }

  /** Units of an item that the notices say were accepted. */
  function AcceptedUnits(d: Dock, item: nat): int { SumBy(d.asns, AcceptedIn(item)) }

  /** What holds of a bay after some lines were received: `k` is any line, `item` any item. */
  ghost predicate ReceivedSoFar(before: Bay, after: Bay, input: seq<Received>, k: nat, item: nat) {
    && |after.lines| == |before.lines| && k < |before.lines| && StockInv(after.stock)
    && LineInv(after.lines[k]) && after.lines[k].bin == before.lines[k].bin
    && ((forall i :: 0 <= i < |input| ==> input[i].line != k) ==> after.lines[k] == before.lines[k])
    && Balance(after.stock, item, OnHand) - SumBy(after.lines, AcceptedFor(item))
         == Balance(before.stock, item, OnHand) - SumBy(before.lines, AcceptedFor(item))
  }

  lemma OneMoreReceived(facility: nat, before: Bay, mid: Bay, input: seq<Received>, k: nat, item: nat)
    requires |input| > 0 && ReceivedSoFar(before, mid, input[..|input| - 1], k, item)
    requires ValidReceipt(mid.lines, input[|input| - 1]) && LineInv(mid.lines[input[|input| - 1].line])
    ensures ReceivedSoFar(before, ReceiveOne(facility, mid, input[|input| - 1]), input, k, item)
  {
    var r := input[|input| - 1];
    ReceiveOneKeeps(facility, mid, r, item);
    if forall i :: 0 <= i < |input| ==> input[i].line != k {
      assert forall i :: 0 <= i < |input| - 1 ==> input[..|input| - 1][i] == input[i];
    }
  }

  lemma {:induction false} ReceiveManyExact(facility: nat, bay: Bay, input: seq<Received>, k: nat, item: nat)
    requires LinesOnce(input) && StockInv(bay.stock) && k < |bay.lines|
    requires forall i :: 0 <= i < |bay.lines| ==> LineInv(bay.lines[i])
    requires forall i :: 0 <= i < |input| ==> input[i].line < |bay.lines| && ValidReceipt(bay.lines, input[i])
    ensures ReceivedSoFar(bay, ReceiveMany(facility, bay, input), input, k, item)
  {
    if |input| > 0 {
      var n := |input| - 1;
      ReceiveManyExact(facility, bay, input[..n], k, item);
      ReceiveManyExact(facility, bay, input[..n], input[n].line, item);
      var earlier := ReceiveMany(facility, bay, input[..n]);
      assert earlier.lines[input[n].line] == bay.lines[input[n].line];
      OneMoreReceived(facility, bay, earlier, input, k, item);
    }
  }

  lemma ReceiveOneKeeps(facility: nat, bay: Bay, r: Received, item: nat)
    requires StockInv(bay.stock) && ValidReceipt(bay.lines, r) && LineInv(bay.lines[r.line])
    ensures var after := ReceiveOne(facility, bay, r);
      && |after.lines| == |bay.lines| && StockInv(after.stock) && LineInv(after.lines[r.line])
      && after.lines == bay.lines[r.line := after.lines[r.line]] && after.lines[r.line].bin == bay.lines[r.line].bin
      && !after.lines[r.line].inspection.Uninspected?
      && Balance(after.stock, item, OnHand) - SumBy(after.lines, AcceptedFor(item))
           == Balance(bay.stock, item, OnHand) - SumBy(bay.lines, AcceptedFor(item))
  {
    var after := ReceiveOne(facility, bay, r);
    SumByUpdate(bay.lines, r.line, after.lines[r.line], AcceptedFor(item));
    if r.accepted > 0 {
      var line := bay.lines[r.line];
      ReceiveKeeps(bay.stock, facility, line.sku, line.product, r.accepted);
    }
  }

  lemma ReceiveAsnKeeps(d: Dock, asnId: nat, input: seq<Received>, key: string, item: nat)
    requires DockInv(d) && ReceiveAsn(d, asnId, input, key).Ok?
    ensures var d' := ReceiveAsn(d, asnId, input, key).value;
      DockInv(d') && Balance(d'.stock, item, OnHand) - AcceptedUnits(d', item) == Balance(d.stock, item, OnHand) - AcceptedUnits(d, item)
  {
    if key !in d.receipts {
      var asn := d.asns[asnId];
      assert AsnInv(asn);
      var bay := ReceiveMany(asn.facility, Bay(asn.lines, d.stock), input);
      forall k | 0 <= k < |bay.lines| ensures LineInv(bay.lines[k]) {
        ReceiveManyExact(asn.facility, Bay(asn.lines, d.stock), input, k, item);
      }
      ReceiveManyExact(asn.facility, Bay(asn.lines, d.stock), input, 0, item);
      var d' := ReceiveAsn(d, asnId, input, key).value;
      SumByUpdate(d.asns, asnId, d'.asns[asnId], AcceptedIn(item));
    }
  }

  /** Setting a bin on a line that passed inspection, and completing the notice if nothing blocks it. */
  lemma BinnedNotice(asn: Asn, lineId: nat, bin: nat, item: nat)
    requires AsnInv(asn) && lineId < |asn.lines| && asn.lines[lineId].accepted > 0 && asn.status.InProgress?
    ensures var lines := asn.lines[lineId := asn.lines[lineId].(bin := Some(bin))];
      && AsnInv(asn.(status := if Blocked(lines) then asn.status else Completed, lines := lines))
      && SumBy(lines, AcceptedFor(item)) == SumBy(asn.lines, AcceptedFor(item))
  {
    SumByUpdate(asn.lines, lineId, asn.lines[lineId].(bin := Some(bin)), AcceptedFor(item));
  }

  lemma ReplaceNotice(d: Dock, asnId: nat, asn: Asn, item: nat)
    requires DockInv(d) && asnId < |d.asns| && AsnInv(asn)
    requires SumBy(asn.lines, AcceptedFor(item)) == SumBy(d.asns[asnId].lines, AcceptedFor(item))
    ensures DockInv(d.(asns := d.asns[asnId := asn]))
    ensures AcceptedUnits(d.(asns := d.asns[asnId := asn]), item) == AcceptedUnits(d, item)
  {
    SumByUpdate(d.asns, asnId, asn, AcceptedIn(item));
  }

  lemma PutawayKeeps(d: Dock, asnId: nat, lineId: nat, bin: nat, item: nat)
    requires DockInv(d) && Putaway(d, asnId, lineId, bin).Ok?
    ensures var d' := Putaway(d, asnId, lineId, bin).value;
      DockInv(d') && d'.stock == d.stock && AcceptedUnits(d', item) == AcceptedUnits(d, item)
  {
    var asn := d.asns[asnId];
    assert AsnInv(asn);
    if asn.lines[lineId].bin.None? { BinnedNotice(asn, lineId, bin, item); }
    ReplaceNotice(d, asnId, Putaway(d, asnId, lineId, bin).value.asns[asnId], item);
  }

  lemma AnnounceKeeps(d: Dock, facility: nat, lines: seq<Expected>, item: nat)
    requires DockInv(d) && Announce(d, facility, lines).Ok?
    ensures var d' := Announce(d, facility, lines).value;
      DockInv(d') && d'.stock == d.stock && AcceptedUnits(d', item) == AcceptedUnits(d, item)
  {
    var asn := Announce(d, facility, lines).value.asns[|d.asns|];
    assert Blocks(asn.lines[0]);
    SumByZero(asn.lines, AcceptedFor(item));
    SumByAppend(d.asns, asn, AcceptedIn(item));
  }

  // ----- main results ----------------------------------------------------------------

  lemma {:induction false} DockKept(d: Dock, steps: seq<DockStep>, item: nat)
    requires DockInv(d)
    ensures var d' := RunDock(d, steps);
      && DockInv(d')
      && Balance(d'.stock, item, OnHand) - Balance(d.stock, item, OnHand) == AcceptedUnits(d', item) - AcceptedUnits(d, item)
    decreases |steps|
  {
    if |steps| > 0 {
      if Attempt(d, steps[0]).Ok? {
        match steps[0]
        case AnnounceStep(facility, lines) => AnnounceKeeps(d, facility, lines, item);
        case ReceiveStep(asn, input, key) => ReceiveAsnKeeps(d, asn, input, key, item);
        case PutawayStep(asn, line, bin) => PutawayKeeps(d, asn, line, bin, item);
      }
      DockKept(Proceed(d, steps[0]), steps[1..], item);
    }
  }

  /**
   Over any run of announcements, receipts, replays and putaways, from a dock without notices, the
   units that came on hand are the units that the notices record as accepted, and each line and
   notice stays consistent.
   */
  lemma ReceiptsAccountForUnits(start: Dock, steps: seq<DockStep>, item: nat)
    requires start.asns == [] && StockInv(start.stock)
    ensures var d := RunDock(start, steps);
      && DockInv(d)
      && Balance(d.stock, item, OnHand) - Balance(start.stock, item, OnHand) == AcceptedUnits(d, item)
  {
    DockKept(start, steps, item);
  }

  lemma {:induction false} ReceiptsStay(d: Dock, steps: seq<DockStep>, key: string)
    requires key in d.receipts
    ensures key in RunDock(d, steps).receipts && RunDock(d, steps).receipts[key] == d.receipts[key]
    ensures |RunDock(d, steps).asns| >= |d.asns|
    decreases |steps|
  {
    if |steps| > 0 {
      ReceiptsStay(Proceed(d, steps[0]), steps[1..], key);
    }
  }

  /**
   Whatever happened since, sending a receipt again under its key changes nothing exactly when it
   is for the same notice and holds the same lines; anything else under that key is refused.
   */
  lemma ReplayExact(d: Dock, asn: nat, input: seq<Received>, key: string, steps: seq<DockStep>,
                    again: nat, sent: seq<Received>)
    requires key !in d.receipts && ReceiveAsn(d, asn, input, key).Ok?
    requires LinesOnce(sent) && again < |d.asns|
    ensures var later := RunDock(ReceiveAsn(d, asn, input, key).value, steps);
      ReceiveAsn(later, again, sent, key)
        == if again == asn && SameLines(sent, input) then Ok(later) else Err(KeyUsed)
  {
    ReceiptsStay(ReceiveAsn(d, asn, input, key).value, steps, key);
    CanonicalExact(sent, input);
  }
}
