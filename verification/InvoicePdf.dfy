/**
 The invoice PDF: objects, the byte offsets that the cross-reference table gives for them, and the
 rows of text written as literal strings (sections 7.3.4.2, 7.3.8 and 7.5.4 of ISO 32000-1).
 */
module InvoicePdf {
  type Byte = n: int | 0 <= n < 256

  // ----- UTF-8 -----------------------------------------------------------------------

  function Utf8Char(c: char): (bytes: seq<Byte>)
    ensures 1 <= |bytes| <= 4 && (c < '\U{80}' ==> |bytes| == 1)
  {
    var n := c as int;
    if n < 0x80 then [n]
    else if n < 0x800 then [0xC0 + n / 0x40, 0x80 + n % 0x40]
    else if n < 0x10000 then [0xE0 + n / 0x1000, 0x80 + n / 0x40 % 0x40, 0x80 + n % 0x40]
    else [0xF0 + n / 0x40000, 0x80 + n / 0x1000 % 0x40, 0x80 + n / 0x40 % 0x40, 0x80 + n % 0x40]
  }

  function Utf8(s: string): seq<Byte> {
    if |s| == 0 then [] else Utf8(s[..|s| - 1]) + Utf8Char(s[|s| - 1])
  }

  function ByteLength(s: string): nat { |Utf8(s)| }

  lemma {:induction false} Utf8Concat(a: string, b: string)
    ensures Utf8(a + b) == Utf8(a) + Utf8(b)
  {
    if |b| == 0 {
      assert a + b == a;
    } else {
      var n := |b| - 1;
      assert (a + b)[..|a + b| - 1] == a + b[..n];
      Utf8Concat(a, b[..n]);
    }
  }

  predicate Ascii(s: string) { forall i :: 0 <= i < |s| ==> s[i] < '\U{80}' }

  lemma {:induction false} AsciiLength(s: string)
    requires Ascii(s)
    ensures ByteLength(s) == |s|
  {
    if |s| > 0 {
      AsciiLength(s[..|s| - 1]);
    }
  }

  /** The text stands in the bytes at that position. */
  ghost predicate At(bytes: seq<Byte>, position: nat, text: string) {
    position + ByteLength(text) <= |bytes| && bytes[position..position + ByteLength(text)] == Utf8(text)
  }

  lemma AtAfter(before: string, text: string, after: string)
    ensures At(Utf8(before + text + after), ByteLength(before), text)
  {
    Utf8Concat(before + text, after);
    Utf8Concat(before, text);
  }

  lemma AtSplit(whole: string, before: string, text: string, after: string, position: nat)
    requires whole == before + text + after && position == ByteLength(before)
    ensures At(Utf8(whole), position, text)
  {
    AtAfter(before, text, after);
  }

  // ----- decimal numbers -------------------------------------------------------------

  function Decimal(n: nat): (s: string)
    ensures |s| > 0 && Ascii(s)
  {
    var last := (n % 10 + '0' as int) as char;
    if n < 10 then [last] else Decimal(n / 10) + [last]
  }

  predicate Digits(s: string) { forall i :: 0 <= i < |s| ==> '0' <= s[i] <= '9' }

  function Number(s: string): nat
    requires Digits(s)
  {
    if |s| == 0 then 0 else Number(s[..|s| - 1]) * 10 + (s[|s| - 1] as int - '0' as int)
  }

  lemma {:induction false} DecimalReads(n: nat)
    ensures Digits(Decimal(n)) && Number(Decimal(n)) == n
  {
    var s := Decimal(n);
    if n < 10 {
      assert s[..|s| - 1] == "";
    } else {
      DecimalReads(n / 10);
      assert s[..|s| - 1] == Decimal(n / 10);
    }
  }

  function Power10(k: nat): nat { if k == 0 then 1 else 10 * Power10(k - 1) }

  lemma {:induction false} DecimalWidth(n: nat, k: nat)
    requires k > 0
    ensures |Decimal(n)| <= k <==> n < Power10(k)
    decreases k
  {
    if k == 1 {
      assert Power10(1) == 10;
    } else if n >= 10 {
      DecimalWidth(n / 10, k - 1);
      assert n < 10 * Power10(k - 1) <==> n / 10 < Power10(k - 1);
    } else {
      Power10Positive(k - 1);
    }
  }

  lemma {:induction false} Power10Positive(k: nat)
    ensures Power10(k) >= 1
  {
    if k > 0 {
      Power10Positive(k - 1);
    }
  }

  function Zeros(n: nat): string { if n == 0 then "" else "0" + Zeros(n - 1) }

  function PadStart(s: string, width: nat): string { if |s| >= width then s else Zeros(width - |s|) + s }

  lemma {:induction false} ZerosLength(n: nat)
    ensures |Zeros(n)| == n && Ascii(Zeros(n)) && Digits(Zeros(n)) && Number(Zeros(n)) == 0
  {
    if n > 0 {
      ZerosLength(n - 1);
      ZerosFromEnd(n);
      assert Zeros(n)[..n - 1] == Zeros(n - 1);
    }
  }

  lemma {:induction false} ZerosFromEnd(n: nat)
    requires n > 0
    ensures Zeros(n) == Zeros(n - 1) + "0"
  {
    if n > 1 {
      ZerosFromEnd(n - 1);
    }
  }

  lemma {:induction false} PaddingIsSilent(zeros: nat, s: string)
    requires Digits(s)
    ensures Digits(Zeros(zeros) + s) && Number(Zeros(zeros) + s) == Number(s)
    decreases |s|
  {
    ZerosLength(zeros);
    if |s| == 0 {
      assert Zeros(zeros) + s == Zeros(zeros);
    } else {
      var n := |s| - 1;
      PaddingIsSilent(zeros, s[..n]);
      var padded := Zeros(zeros) + s;
      assert padded[..|padded| - 1] == Zeros(zeros) + s[..n];
    }
  }

  // ----- the file --------------------------------------------------------------------

  const HEADER := "%PDF-1.4\n"

  function ObjectText(k: nat, content: string): string {
    Decimal(k + 1) + " 0 obj\n" + content + "\nendobj\n"
  }

  function Body(objects: seq<string>): string {
    if |objects| == 0 then HEADER
    else Body(objects[..|objects| - 1]) + ObjectText(|objects| - 1, objects[|objects| - 1])
  }

  /** Where each object starts. */
  function Offsets(objects: seq<string>): seq<nat> {
    seq(|objects|, k requires 0 <= k < |objects| => ByteLength(Body(objects[..k])))
  }

  function Entry(offset: nat): string { PadStart(Decimal(offset), 10) + " 00000 n \n" }

  function Entries(offsets: seq<nat>): string {
    if |offsets| == 0 then "" else Entries(offsets[..|offsets| - 1]) + Entry(offsets[|offsets| - 1])
  }

  function TableHead(count: nat): string { "xref\n0 " + Decimal(count + 1) + "\n" }

  const FREE_ENTRY := "0000000000 65535 f \n"

  function TrailerHead(count: nat): string {
    "trailer\n<< /Size " + Decimal(count + 1) + " /Root 1 0 R >>\nstartxref\n"
  }

  const END := "\n%%EOF"

  function Pdf(objects: seq<string>): string {
    var n, body := |objects|, Body(objects);
    body + (TableHead(n) + FREE_ENTRY + Entries(Offsets(objects))) + (TrailerHead(n) + Decimal(ByteLength(body)) + END)
  }

  // ----- offsets ---------------------------------------------------------------------

  /** The objects from the k-th on. */
  function ObjectsFrom(objects: seq<string>, k: nat): string
    requires k <= |objects|
    decreases |objects| - k
  {
    if k == |objects| then "" else ObjectText(k, objects[k]) + ObjectsFrom(objects, k + 1)
  }

  lemma {:induction false} BodySplits(objects: seq<string>, k: nat)
    requires k <= |objects|
    ensures Body(objects) == Body(objects[..k]) + ObjectsFrom(objects, k)
    decreases |objects| - k
  {
    if k == |objects| {
      assert objects[..k] == objects;
    } else {
      BodySplits(objects, k + 1);
      BodyNext(objects, k);
      Associate(Body(objects[..k]), ObjectText(k, objects[k]), ObjectsFrom(objects, k + 1));
    }
  }

  lemma BodyNext(objects: seq<string>, k: nat)
    requires k < |objects|
    ensures Body(objects[..k + 1]) == Body(objects[..k]) + ObjectText(k, objects[k])
  {
    assert objects[..k + 1][..k] == objects[..k];
  }

  lemma Associate(a: string, b: string, c: string)
    ensures a + b + c == a + (b + c)
  {
  }

  /** Every offset is the byte at which its object starts, for any number of objects of any content. */
  lemma OffsetsPointAtObjects(objects: seq<string>, k: nat)
    requires k < |objects|
    ensures At(Utf8(Pdf(objects)), Offsets(objects)[k], ObjectText(k, objects[k]))
  {
    BodySplits(objects, k);
    var n := |objects|;
    var table := TableHead(n) + FREE_ENTRY + Entries(Offsets(objects));
    var trailer := TrailerHead(n) + Decimal(ByteLength(Body(objects))) + END;
    var front, text := Body(objects[..k]), ObjectText(k, objects[k]);
    var rest := ObjectsFrom(objects, k + 1);
    Regroup(front, text, rest, table, trailer);
    AtAfter(front, text, rest + table + trailer);
  }

  lemma Regroup(a: string, b: string, c: string, d: string, e: string)
    ensures a + (b + c) + d + e == a + b + (c + d + e)
  {
  }

  ghost predicate EndsWith(s: string, end: string) { |end| <= |s| && s[|s| - |end|..] == end }

  /** The number after `startxref` is the byte at which the table starts; it is the last thing in the file. */
  lemma StartxrefPointsAtTable(objects: seq<string>)
    ensures var n, x := |objects|, ByteLength(Body(objects));
      && At(Utf8(Pdf(objects)), x, TableHead(n))
      && EndsWith(Pdf(objects), "startxref\n" + Decimal(x) + END)
      && Digits(Decimal(x)) && Number(Decimal(x)) == x
  {
    var n, body := |objects|, Body(objects);
    var x := ByteLength(body);
    var entries := FREE_ENTRY + Entries(Offsets(objects));
    var trailer := TrailerHead(n) + Decimal(x) + END;
    RegroupTable(body, TableHead(n), FREE_ENTRY, Entries(Offsets(objects)), trailer);
    AtAfter(body, TableHead(n), entries + trailer);
    DecimalReads(x);
    TrailerEnds(n, x);
    EndsLater(body + (TableHead(n) + FREE_ENTRY + Entries(Offsets(objects))), trailer, "startxref\n" + Decimal(x) + END);
  }

  lemma RegroupTable(a: string, b: string, c: string, d: string, e: string)
    ensures a + (b + c + d) + e == a + b + (c + d + e)
  {
  }

  lemma EndsLater(before: string, s: string, end: string)
    requires EndsWith(s, end)
    ensures EndsWith(before + s, end)
  {
  }

  lemma TrailerEnds(n: nat, x: nat)
    ensures EndsWith(TrailerHead(n) + Decimal(x) + END, "startxref\n" + Decimal(x) + END)
  {
    TailEnds("trailer\n<< /Size " + Decimal(n + 1), " /Root 1 0 R >>\n", "startxref\n", Decimal(x), END);
    assert TrailerHead(n) == "trailer\n<< /Size " + Decimal(n + 1) + (" /Root 1 0 R >>\n" + "startxref\n");
  }

  lemma TailEnds(a: string, b: string, c: string, d: string, e: string)
    ensures EndsWith(a + (b + c) + d + e, c + d + e)
  {
    assert a + (b + c) + d + e == (a + b) + (c + d + e);
  }

  // ----- entries ---------------------------------------------------------------------

  lemma TenDigits()
    ensures Power10(10) == 10_000_000_000
  {
    assert Power10(2) == 100 && Power10(4) == 10_000 && Power10(6) == 1_000_000 && Power10(8) == 100_000_000;
  }

  lemma PaddedOffset(offset: nat)
    ensures var padded := PadStart(Decimal(offset), 10);
      && Ascii(padded) && Digits(padded) && Number(padded) == offset
      && |padded| >= 10 && (|padded| == 10 <==> offset < 10_000_000_000)
  {
    var s := Decimal(offset);
    TenDigits();
    DecimalWidth(offset, 10);
    DecimalReads(offset);
    if |s| < 10 {
      ZerosLength(10 - |s|);
      PaddingIsSilent(10 - |s|, s);
    }
  }

  /** An entry takes the twenty bytes of the format exactly while its offset has at most ten digits. */
  lemma EntryExact(offset: nat)
    ensures ByteLength(Entry(offset)) == 20 <==> offset < 10_000_000_000
    ensures offset < 10_000_000_000 ==> Digits(Entry(offset)[..10]) && Number(Entry(offset)[..10]) == offset
  {
    PaddedOffset(offset);
    var padded := PadStart(Decimal(offset), 10);
    AsciiLength(Entry(offset));
    if offset < 10_000_000_000 { assert Entry(offset)[..10] == padded; }
  }

  function EntriesFrom(offsets: seq<nat>, k: nat): string
    requires k <= |offsets|
    decreases |offsets| - k
  {
    if k == |offsets| then "" else Entry(offsets[k]) + EntriesFrom(offsets, k + 1)
  }

  lemma {:induction false} EntriesSplit(offsets: seq<nat>, k: nat)
    requires k <= |offsets|
    ensures Entries(offsets) == Entries(offsets[..k]) + EntriesFrom(offsets, k)
    decreases |offsets| - k
  {
    if k == |offsets| {
      assert offsets[..k] == offsets;
    } else {
      EntriesSplit(offsets, k + 1);
      EntriesNext(offsets, k);
      Associate(Entries(offsets[..k]), Entry(offsets[k]), EntriesFrom(offsets, k + 1));
    }
  }

  lemma EntriesNext(offsets: seq<nat>, k: nat)
    requires k < |offsets|
    ensures Entries(offsets[..k + 1]) == Entries(offsets[..k]) + Entry(offsets[k])
  {
    assert offsets[..k + 1][..k] == offsets[..k];
  }

  lemma {:induction false} EntriesLength(offsets: seq<nat>)
    requires forall k :: 0 <= k < |offsets| ==> offsets[k] < 10_000_000_000
    ensures ByteLength(Entries(offsets)) == 20 * |offsets|
  {
    if |offsets| > 0 {
      var n := |offsets| - 1;
      EntriesLength(offsets[..n]);
      EntryExact(offsets[n]);
      Utf8Concat(Entries(offsets[..n]), Entry(offsets[n]));
    }
  }

  /** What the file holds before and after the k-th entry. */
  function BeforeEntry(objects: seq<string>, k: nat): string
    requires k < |objects|
  {
    Body(objects) + TableHead(|objects|) + FREE_ENTRY + Entries(Offsets(objects)[..k])
  }

  function AfterEntry(objects: seq<string>, k: nat): string
    requires k < |objects|
  {
    EntriesFrom(Offsets(objects), k + 1) + (TrailerHead(|objects|) + Decimal(ByteLength(Body(objects))) + END)
  }

  lemma PdfAroundEntry(objects: seq<string>, k: nat)
    requires k < |objects|
    ensures Pdf(objects) == BeforeEntry(objects, k) + Entry(Offsets(objects)[k]) + AfterEntry(objects, k)
  {
    var offsets := Offsets(objects);
    EntriesSplit(offsets, k);
    RegroupEntries(
      Body(objects), TableHead(|objects|), FREE_ENTRY, Entries(offsets[..k]), Entry(offsets[k]),
      EntriesFrom(offsets, k + 1), TrailerHead(|objects|) + Decimal(ByteLength(Body(objects))) + END);
  }

  /** Where a reader looks an entry up: behind the table's head and twenty bytes for each one before it. */
  function EntryPosition(objects: seq<string>, k: nat): nat {
    ByteLength(Body(objects)) + ByteLength(TableHead(|objects|)) + 20 * (k + 1)
  }

  lemma BeforeEntryLength(objects: seq<string>, k: nat)
    requires k < |objects|
    requires forall i :: 0 <= i < k ==> Offsets(objects)[i] < 10_000_000_000
    ensures ByteLength(BeforeEntry(objects, k)) == EntryPosition(objects, k)
  {
    EntriesLength(Offsets(objects)[..k]);
    FreeLength();
    FourLengths(Body(objects), TableHead(|objects|), FREE_ENTRY, Entries(Offsets(objects)[..k]));
  }

  /** So the k-th object's entry stands where a reader looks it up. */
  lemma EntryInPlace(objects: seq<string>, k: nat)
    requires k < |objects|
    requires forall i :: 0 <= i < k ==> Offsets(objects)[i] < 10_000_000_000
    ensures At(Utf8(Pdf(objects)), EntryPosition(objects, k), Entry(Offsets(objects)[k]))
  {
    PdfAroundEntry(objects, k);
    BeforeEntryLength(objects, k);
    AtSplit(Pdf(objects), BeforeEntry(objects, k), Entry(Offsets(objects)[k]), AfterEntry(objects, k),
            EntryPosition(objects, k));
  }

  lemma FreeLength()
    ensures ByteLength(FREE_ENTRY) == 20
  {
    AsciiLength(FREE_ENTRY);
  }

  lemma FourLengths(a: string, b: string, c: string, d: string)
    ensures ByteLength(a + b + c + d) == ByteLength(a) + ByteLength(b) + ByteLength(c) + ByteLength(d)
  {
    Utf8Concat(a + b + c, d);
    Utf8Concat(a + b, c);
    Utf8Concat(a, b);
  }

  lemma RegroupEntries(a: string, b: string, c: string, d: string, e: string, f: string, g: string)
    ensures a + (b + c + (d + (e + f))) + g == a + b + c + d + e + (f + g)
  {
  }
}
