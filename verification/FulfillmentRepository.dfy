/** Receiving and putaway over the notice tables and the stock tables. */
module FulfillmentRepository {
  import opened Inventory
  import opened InventoryTables
  import opened Receiving
  import opened Results

  ghost predicate Concluded(before: Dock, outcome: Result<Dock, DockError>, after: Dock, error: Option<DockError>) {
    match outcome
    case Ok(d) => after == d && error == None
    case Err(e) => after == before && error == Some(e)
  }

  class Repository {
    const stock: StockTables
    const bins: seq<nat>
    var asns: seq<Asn>
    var receipts: map<string, Receipt>

    function View(): Dock
      reads this, stock
    {
      Dock(bins, asns, stock.View(), receipts)
    }

    constructor (stock: StockTables, bins: seq<nat>)
      ensures this.stock == stock && View() == Dock(bins, [], stock.View(), map[])
    {
      this.stock, this.bins, asns, receipts := stock, bins, [], map[];
    }

    /** Announces a notice, line by line. */
    method CreateAsn(facility: nat, lines: seq<Expected>) returns (error: Option<DockError>)
      modifies this`asns
      ensures Concluded(old(View()), Announce(old(View()), facility, lines), View(), error)
    {
      if |lines| == 0 {
        return Some(InvalidNotice);
      }
      var rows: seq<AsnLine> := [];
      var k := 0;
      while k < |lines|
        invariant 0 <= k == |rows| <= |lines|
        invariant forall i :: 0 <= i < k ==> lines[i].quantity > 0
        invariant forall i :: 0 <= i < k ==> rows[i] == AnnouncedLine(lines[i])
      {
        if lines[k].quantity == 0 {
          return Some(InvalidNotice);
        }
        rows := rows + [AsnLine(lines[k].sku, lines[k].product, lines[k].quantity, None, 0, 0, 0, Uninspected, None)];
        k := k + 1;
      }
      assert rows == AnnouncedLines(lines);
      asns := asns + [Asn(facility, Announced, rows)];
      error := None;
    }

    /** Checks every line before anything is written. */
    static method Validate(lines: seq<AsnLine>, input: seq<Received>) returns (valid: bool)
      ensures valid <==> forall k :: 0 <= k < |input| ==> ValidReceipt(lines, input[k])
    {
      var i := 0;
      while i < |input|
        invariant 0 <= i <= |input|
        invariant forall k :: 0 <= k < i ==> ValidReceipt(lines, input[k])
      {
        if input[i].line >= |lines| {
          return false;
        }
        var line := lines[input[i].line];
        var receivedQuantity := input[i].accepted + input[i].rejected;
        if receivedQuantity < 1 || receivedQuantity > line.expected || line.received != 0
          || !line.inspection.Uninspected? || (input[i].accepted > 0) != input[i].passed
        {
          return false;
        }
        i := i + 1;
      }
      valid := true;
    }

    /** Stock, ledger and notice line of one received line. */
    method ReceiveLine(asnId: nat, received: Received)
      requires asnId < |asns| && received.line < |asns[asnId].lines|
      modifies stock, this`asns
      ensures var asn := old(asns)[asnId];
        var bay := ReceiveOne(asn.facility, Bay(asn.lines, old(stock.View())), received);
        stock.View() == bay.stock && asns == old(asns)[asnId := asn.(lines := bay.lines)]
    {
      var asn := asns[asnId];
      var line := asn.lines[received.line];
      var item := line.item;
      if received.accepted > 0 {
        var id := stock.Upsert(asn.facility, line.sku, line.product);
        item := Some(id);
        var current := if (id, OnHand) in stock.balances then stock.balances[(id, OnHand)] else 0;
        stock.balances := stock.balances[(id, OnHand) := current + received.accepted];
        stock.ledger := stock.ledger + [LedgerEntry(id, OnHand, received.accepted)];
      }
      asns := asns[asnId := asn.(lines := asn.lines[received.line := line.(
        item := item,
        received := received.accepted + received.rejected,
        accepted := received.accepted,
        rejected := received.rejected,
        inspection := if received.passed then Passed else Failed)])];
    }

    method CountBlockers(lines: seq<AsnLine>) returns (count: nat)
      ensures count == 0 <==> !Blocked(lines)
    {
      count := 0;
      var i := 0;
      while i < |lines|
        invariant 0 <= i <= |lines|
        invariant count == 0 <==> forall k :: 0 <= k < i ==> !Blocks(lines[k])
      {
        if lines[i].inspection == Uninspected || (lines[i].accepted > 0 && lines[i].bin.None?) {
          assert Blocks(lines[i]);
          count := count + 1;
        }
        i := i + 1;
      }
    }

    method ReceiveLines(asnId: nat, input: seq<Received>)
      requires asnId < |asns| && forall k :: 0 <= k < |input| ==> input[k].line < |asns[asnId].lines|
      modifies stock, this`asns
      ensures var asn := old(asns)[asnId];
        var bay := ReceiveMany(asn.facility, Bay(asn.lines, old(stock.View())), input);
        stock.View() == bay.stock && asns == old(asns)[asnId := asn.(lines := bay.lines)]
    {
      ghost var asn := asns[asnId];
      ghost var start := Bay(asn.lines, stock.View());
      var i := 0;
      while i < |input|
        invariant 0 <= i <= |input|
        invariant stock.View() == ReceiveMany(asn.facility, start, input[..i]).stock
        invariant asns == old(asns)[asnId := asn.(lines := ReceiveMany(asn.facility, start, input[..i]).lines)]
      {
        assert input[..i + 1][..i] == input[..i];
        ReceiveLine(asnId, input[i]);
        i := i + 1;
      }
      assert input[..i] == input;
    }

    method ReceiveNotice(asnId: nat, input: seq<Received>, key: string) returns (error: Option<DockError>)
      modifies this, stock
      ensures Concluded(old(View()), ReceiveAsn(old(View()), asnId, input, key), View(), error)
    {
      if !LinesOnce(input) {
        return Some(LineRepeated);
      }
      var payload := Canonical(input);
      if asnId >= |asns| {
        return Some(NoSuchNotice);
      }
      if key in receipts {
        return if receipts[key] == Receipt(asnId, payload) then None else Some(KeyUsed);
      }
      var asn := asns[asnId];
      if asn.status.Completed? {
        return Some(NotReceiving);
      }
      var valid := Validate(asn.lines, input);
      if !valid {
        return Some(InvalidReceipt);
      }
      receipts := receipts[key := Receipt(asnId, payload)];
      ReceiveLines(asnId, input);
      var blockers := CountBlockers(asns[asnId].lines);
      asns := asns[asnId := asns[asnId].(status := if blockers == 0 then Completed else InProgress)];
      error := None;
    }

    method PutawayLine(asnId: nat, lineId: nat, bin: nat) returns (error: Option<DockError>)
      modifies this`asns
      ensures Concluded(old(View()), Putaway(old(View()), asnId, lineId, bin), View(), error)
    {
      if asnId >= |asns| || lineId >= |asns[asnId].lines| || bin >= |bins| || bins[bin] != asns[asnId].facility {
        return Some(NoSuchNotice);
      }
      var asn := asns[asnId];
      var line := asn.lines[lineId];
      if line.bin.Some? && line.bin.value != bin {
        return Some(OtherBin);
      }
      if line.bin.None? && !asn.status.InProgress? {
        return Some(NotReady);
      }
      if line.item.None? || line.accepted < 1 || !line.inspection.Passed? {
        return Some(NotPuttable);
      }
      if line.bin.None? {
        asns := asns[asnId := asn.(lines := asn.lines[lineId := line.(bin := Some(bin))])];
      }
      var remaining := CountBlockers(asns[asnId].lines);
      if remaining == 0 && asn.status.InProgress? {
        asns := asns[asnId := asns[asnId].(status := Completed)];
      }
      error := None;
    }
  }
}
