/**
 What receiving leaves behind, line by line: the counts that were reported, the item of the
 notice's facility and the line's SKU, and the bin. Lines that were not reported stay as they are.
 */
module ReceivingEffects {
  import opened Basics
  import opened Inventory
  import opened InventoryItems
  import opened Receiving
  import opened Results

  /** Items keep their number and key. */
  ghost predicate KeysStay(s: Stock, s': Stock) {
    forall item: nat, facility, sku :: Names(s, item, facility, sku) ==> Names(s', item, facility, sku)
  }

  /** The line shows what was reported of it, and nothing else about it has changed. */
  ghost predicate Shows(before: AsnLine, after: AsnLine, r: Received) {
    && after == before.(received := after.received, accepted := after.accepted, rejected := after.rejected,
                        inspection := after.inspection, item := after.item)
    && after.received == r.accepted + r.rejected && after.accepted == r.accepted && after.rejected == r.rejected
    && (after.inspection.Passed? <==> r.passed) && (after.inspection.Failed? <==> !r.passed)
  }

  /** The item of a line, where it has one, is that of the notice's facility and the line's SKU. */
  ghost predicate Itemised(s: Stock, facility: nat, line: AsnLine) {
    line.item.Some? ==> Names(s, line.item.value, facility, line.sku)
  }

  lemma ReceivedOne(facility: nat, bay: Bay, r: Received)
    requires Shelved(bay.stock) && ValidReceipt(bay.lines, r)
    ensures var after := ReceiveOne(facility, bay, r);
      && OnlyRow(bay.lines, after.lines, r.line) && Shows(bay.lines[r.line], after.lines[r.line], r)
      && (r.accepted > 0 ==> after.lines[r.line].item.Some?)
      && (r.accepted == 0 ==> after.lines[r.line].item == bay.lines[r.line].item)
      && (Itemised(bay.stock, facility, bay.lines[r.line]) ==> Itemised(after.stock, facility, after.lines[r.line]))
      && Shelved(after.stock) && KeysStay(bay.stock, after.stock)
  {
    UpsertFiles(bay.stock, facility, bay.lines[r.line].sku, bay.lines[r.line].product);
  }

  /** After some lines were received, line `k` shows its report if there was one. */
  ghost predicate Reported(before: Bay, after: Bay, input: seq<Received>, k: nat, facility: nat) {
    && |after.lines| == |before.lines| && k < |before.lines|
    && (forall i :: 0 <= i < |input| && input[i].line == k ==> Shows(before.lines[k], after.lines[k], input[i]))
    && ((forall i :: 0 <= i < |input| ==> input[i].line != k) ==> after.lines[k] == before.lines[k])
    && (Itemised(before.stock, facility, before.lines[k]) ==> Itemised(after.stock, facility, after.lines[k]))
    && Shelved(after.stock) && KeysStay(before.stock, after.stock)
  }

  lemma OneMoreReported(facility: nat, before: Bay, mid: Bay, input: seq<Received>, k: nat)
    requires |input| > 0 && LinesOnce(input)
    requires forall i :: 0 <= i < |input| ==> input[i].line < |before.lines| && ValidReceipt(before.lines, input[i])
    requires Reported(before, mid, input[..|input| - 1], k, facility)
    requires mid.lines[input[|input| - 1].line] == before.lines[input[|input| - 1].line]
    ensures Reported(before, ReceiveOne(facility, mid, input[|input| - 1]), input, k, facility)
  {
    var n := |input| - 1;
    ReceivedOne(facility, mid, input[n]);
    assert forall i :: 0 <= i < n ==> input[..n][i] == input[i];
  }

  lemma {:induction false} ReceivedMany(facility: nat, bay: Bay, input: seq<Received>, k: nat)
    requires Shelved(bay.stock) && LinesOnce(input) && k < |bay.lines|
    requires forall i :: 0 <= i < |input| ==> input[i].line < |bay.lines| && ValidReceipt(bay.lines, input[i])
    ensures Reported(bay, ReceiveMany(facility, bay, input), input, k, facility)
  {
    if |input| > 0 {
      var n := |input| - 1;
      assert forall i :: 0 <= i < n ==> input[..n][i] == input[i];
      ReceivedMany(facility, bay, input[..n], k);
      ReceivedMany(facility, bay, input[..n], input[n].line);
      OneMoreReported(facility, bay, ReceiveMany(facility, bay, input[..n]), input, k);
    }
  }

  /** A receipt goes through exactly for an open notice whose reported lines all await inspection. */
  lemma ReceiptGoesThrough(d: Dock, asnId: nat, input: seq<Received>, key: string)
    requires LinesOnce(input) && asnId < |d.asns| && key !in d.receipts
    ensures ReceiveAsn(d, asnId, input, key).Ok? <==>
      && !d.asns[asnId].status.Completed?
      && forall i :: 0 <= i < |input| ==>
           && input[i].line < |d.asns[asnId].lines|
           && var line := d.asns[asnId].lines[input[i].line];
              && line.received == 0 && line.inspection.Uninspected?
              && 0 < input[i].accepted + input[i].rejected <= line.expected
              && (input[i].passed <==> input[i].accepted > 0)
  {
  }

  /** What a receipt changes: the reported lines of its notice, and the stock of what was accepted. */
  lemma ReceiptEffect(d: Dock, asnId: nat, input: seq<Received>, key: string, k: nat)
    requires Shelved(d.stock) && asnId < |d.asns| && k < |d.asns[asnId].lines|
    requires key !in d.receipts && ReceiveAsn(d, asnId, input, key).Ok?
    ensures var d' := ReceiveAsn(d, asnId, input, key).value;
      var asn := d.asns[asnId];
      && OnlyRow(d.asns, d'.asns, asnId) && d'.asns[asnId].facility == asn.facility
      && Reported(Bay(asn.lines, d.stock), Bay(d'.asns[asnId].lines, d'.stock), input, k, asn.facility)
      && d'.bins == d.bins && d'.receipts == d.receipts[key := Receipt(asnId, Canonical(input))]
  {
    ReceivedMany(d.asns[asnId].facility, Bay(d.asns[asnId].lines, d.stock), input, k);
  }

  /** A line is put away exactly when it passed inspection and its notice is being worked on, in one bin for good. */
  lemma PutawayGoesThrough(d: Dock, asnId: nat, lineId: nat, bin: nat)
    requires DockInv(d) && asnId < |d.asns| && lineId < |d.asns[asnId].lines|
    requires bin < |d.bins| && d.bins[bin] == d.asns[asnId].facility
    ensures var asn := d.asns[asnId];
      Putaway(d, asnId, lineId, bin).Ok? <==>
        asn.lines[lineId].accepted > 0 && (asn.lines[lineId].bin == Some(bin)
          || (asn.lines[lineId].bin == None && asn.status.InProgress?))
  {
    assert AsnInv(d.asns[asnId]) && LineInv(d.asns[asnId].lines[lineId]);
  }

  /** It sets the bin of that line and nothing else, but for the notice's status. */
  lemma PutawayEffect(d: Dock, asnId: nat, lineId: nat, bin: nat)
    requires DockInv(d) && Putaway(d, asnId, lineId, bin).Ok?
    ensures var d' := Putaway(d, asnId, lineId, bin).value;
      && OnlyRow(d.asns, d'.asns, asnId) && d'.asns[asnId].facility == d.asns[asnId].facility
      && OnlyRow(d.asns[asnId].lines, d'.asns[asnId].lines, lineId)
      && d'.asns[asnId].lines[lineId] == d.asns[asnId].lines[lineId].(bin := Some(bin))
      && (d'.asns[asnId].status.Completed? <==>
           forall k :: 0 <= k < |d'.asns[asnId].lines| ==>
             var line := d'.asns[asnId].lines[k];
             !line.inspection.Uninspected? && (line.accepted > 0 ==> line.bin.Some?))
      && d' == d.(asns := d'.asns)
  {
    var d' := Putaway(d, asnId, lineId, bin).value;
    PutawayKeeps(d, asnId, lineId, bin, 0);
    assert AsnInv(d'.asns[asnId]) && AsnInv(d.asns[asnId]);
    var lines := d'.asns[asnId].lines;
    if k :| 0 <= k < |lines| && (lines[k].inspection.Uninspected? || (lines[k].accepted > 0 && lines[k].bin.None?)) {
      assert Blocks(lines[k]);
    }
  }

  /** A notice is announced with a line per expectation, none of them inspected yet. */
  lemma AnnounceEffect(d: Dock, facility: nat, lines: seq<Expected>)
    ensures Announce(d, facility, lines).Ok? <==> |lines| > 0 && forall k :: 0 <= k < |lines| ==> lines[k].quantity > 0
    ensures Announce(d, facility, lines).Ok? ==>
      && var d' := Announce(d, facility, lines).value;
      && |d'.asns| == |d.asns| + 1 && d'.asns[..|d.asns|] == d.asns && d' == d.(asns := d'.asns)
      && var asn := d'.asns[|d.asns|];
      && asn.facility == facility && asn.status.Announced? && |asn.lines| == |lines|
      && forall k :: 0 <= k < |lines| ==>
           asn.lines[k] == AsnLine(lines[k].sku, lines[k].product, lines[k].quantity, None, 0, 0, 0, Uninspected, None)
  {
  }

  // ----- over runs -------------------------------------------------------------------

  ghost predicate ItemsInv(d: Dock) {
    && Shelved(d.stock)
    && forall a, k :: 0 <= a < |d.asns| && 0 <= k < |d.asns[a].lines| ==>
         Itemised(d.stock, d.asns[a].facility, d.asns[a].lines[k])
  }

  lemma ReceiptKeepsItems(d: Dock, asnId: nat, input: seq<Received>, key: string)
    requires ItemsInv(d) && key !in d.receipts && ReceiveAsn(d, asnId, input, key).Ok?
    ensures ItemsInv(ReceiveAsn(d, asnId, input, key).value)
  {
    var asn := d.asns[asnId];
    var before := Bay(asn.lines, d.stock);
    var bay := ReceiveMany(asn.facility, before, input);
    forall k | 0 <= k < |asn.lines| ensures Reported(before, bay, input, k, asn.facility) {
      ReceivedMany(asn.facility, before, input, k);
    }
    if |input| > 0 {
      assert Reported(before, bay, input, input[0].line, asn.facility);
    }
    assert KeysStay(d.stock, bay.stock) && Shelved(bay.stock);
    var d' := ReceiveAsn(d, asnId, input, key).value;
    forall a, k | 0 <= a < |d'.asns| && 0 <= k < |d'.asns[a].lines|
      ensures Itemised(d'.stock, d'.asns[a].facility, d'.asns[a].lines[k])
    {
      assert Itemised(d.stock, d.asns[a].facility, d.asns[a].lines[k]);
      if a == asnId { assert Reported(before, bay, input, k, asn.facility); }
    }
  }

  lemma ProceedKeepsItems(d: Dock, step: DockStep)
    requires ItemsInv(d)
    ensures ItemsInv(Proceed(d, step))
  {
    match step
    case AnnounceStep(facility, lines) =>
    case ReceiveStep(asn, input, key) =>
      if Receiving.Attempt(d, step).Ok? && key !in d.receipts { ReceiptKeepsItems(d, asn, input, key); }
    case PutawayStep(asn, line, bin) =>
  }

  lemma {:induction false} DockItemsKept(d: Dock, steps: seq<DockStep>)
    requires ItemsInv(d)
    ensures ItemsInv(RunDock(d, steps))
    decreases |steps|
  {
    if |steps| > 0 {
      ProceedKeepsItems(d, steps[0]);
      DockItemsKept(Proceed(d, steps[0]), steps[1..]);
    }
  }

  /** Over any run of the dock, an accepted line points at the one item of its notice's facility and its SKU. */
  lemma LinesPointAtTheirItem(start: Dock, steps: seq<DockStep>, a: nat, k: nat, item: nat)
    requires start.asns == [] && StockInv(start.stock) && Shelved(start.stock)
    requires var d := RunDock(start, steps);
      a < |d.asns| && k < |d.asns[a].lines| && d.asns[a].lines[k].accepted > 0
    ensures var d := RunDock(start, steps);
      d.asns[a].lines[k].item == Some(item) <==> Names(d.stock, item, d.asns[a].facility, d.asns[a].lines[k].sku)
  {
    DockItemsKept(start, steps);
    DockKept(start, steps, 0);
    var d := RunDock(start, steps);
    assert AsnInv(d.asns[a]) && LineInv(d.asns[a].lines[k]);
    assert Itemised(d.stock, d.asns[a].facility, d.asns[a].lines[k]);
  }
}
