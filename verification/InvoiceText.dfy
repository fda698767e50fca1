/** The text of an invoice: amounts, rows as PDF literal strings, and the stream that shows them. */
module InvoiceText {
  import opened InvoicePdf
  import opened Results

  // ----- escaping --------------------------------------------------------------------

  function ReplaceAll(s: string, c: char, with: string): string {
    if |s| == 0 then "" else (if s[0] == c then with else [s[0]]) + ReplaceAll(s[1..], c, with)
  }

  /** Backslashes first, then the parentheses. */
  function Escape(row: string): string {
    ReplaceAll(ReplaceAll(ReplaceAll(row, '\\', "\\\\"), '(', "\\("), ')', "\\)")
  }

  function EscapeChar(c: char): string {
    if c == '\\' then "\\\\" else if c == '(' then "\\(" else if c == ')' then "\\)" else [c]
  }

  function EscapeEach(row: string): string { if |row| == 0 then "" else EscapeChar(row[0]) + EscapeEach(row[1..]) }

  lemma {:induction false} ReplaceConcat(a: string, b: string, c: char, with: string)
    ensures ReplaceAll(a + b, c, with) == ReplaceAll(a, c, with) + ReplaceAll(b, c, with)
  {
    if |a| == 0 {
      assert a + b == b;
    } else {
      assert (a + b)[1..] == a[1..] + b;
      ReplaceConcat(a[1..], b, c, with);
    }
  }

  lemma ReplaceOne(x: char, c: char, with: string)
    ensures ReplaceAll([x], c, with) == if x == c then with else [x]
  {
    assert [x][1..] == "";
  }

  lemma ReplaceTwo(x: char, y: char, c: char, with: string)
    requires x != c && y != c
    ensures ReplaceAll([x, y], c, with) == [x, y]
  {
    assert [x, y] == [x] + [y];
    ReplaceConcat([x], [y], c, with);
    ReplaceOne(x, c, with);
    ReplaceOne(y, c, with);
  }

  lemma EscapeOne(x: char)
    ensures Escape([x]) == EscapeChar(x)
  {
    ReplaceOne(x, '\\', "\\\\");
    ReplaceOne(x, '(', "\\(");
    ReplaceOne(x, ')', "\\)");
    ReplaceTwo('\\', '\\', '(', "\\(");
    ReplaceTwo('\\', '\\', ')', "\\)");
    ReplaceTwo('\\', '(', ')', "\\)");
  }

  /** The three passes do not disturb each other. */
  lemma {:induction false} EscapeIsEach(row: string)
    ensures Escape(row) == EscapeEach(row)
  {
    if |row| > 0 {
      var x, rest := [row[0]], row[1..];
      assert row == x + rest;
      var a, b := ReplaceAll(x, '\\', "\\\\"), ReplaceAll(rest, '\\', "\\\\");
      ReplaceConcat(x, rest, '\\', "\\\\");
      ReplaceConcat(a, b, '(', "\\(");
      ReplaceConcat(ReplaceAll(a, '(', "\\("), ReplaceAll(b, '(', "\\("), ')', "\\)");
      EscapeOne(row[0]);
      EscapeIsEach(rest);
    }
  }

  // ----- reading a literal string ----------------------------------------------------

  type Read = Option<(string, string)>

  function Then(c: char, rest: Read): Read {
    match rest
    case None => None
    case Some((s, after)) => Some(([c] + s, after))
  }

  predicate Octal(c: char) { '0' <= c <= '7' }

  /** Up to three octal digits from the second character on; high-order overflow is ignored. */
  function OctalLength(s: string): (n: nat)
    requires |s| >= 2 && Octal(s[1])
    ensures 1 <= n <= 3 && n < |s|
  {
    if |s| < 3 || !Octal(s[2]) then 1 else if |s| < 4 || !Octal(s[3]) then 2 else 3
  }

  function OctalValue(digits: string): nat {
    if |digits| == 0 then 0
    else OctalValue(digits[..|digits| - 1]) * 8 + if Octal(digits[|digits| - 1]) then digits[|digits| - 1] as int - '0' as int else 0
  }

  /** A conforming reader, from behind the opening parenthesis; `depth` counts parentheses still open inside. */
  function ReadLiteral(s: string, depth: nat): Read
    decreases |s|
  {
    if |s| == 0 then None
    else if s[0] == ')' then
      if depth == 0 then Some(("", s[1..])) else Then(')', ReadLiteral(s[1..], depth - 1))
    else if s[0] == '(' then Then('(', ReadLiteral(s[1..], depth + 1))
    else if s[0] == '\r' then
      Then('\n', ReadLiteral(if |s| > 1 && s[1] == '\n' then s[2..] else s[1..], depth))
    else if s[0] != '\\' then Then(s[0], ReadLiteral(s[1..], depth))
    else if |s| < 2 then None
    else if Octal(s[1]) then
      var n := OctalLength(s);
      Then((OctalValue(s[1..n + 1]) % 256) as char, ReadLiteral(s[n + 1..], depth))
    else
      match s[1]
      case 'n' => Then('\n', ReadLiteral(s[2..], depth))
      case 'r' => Then('\r', ReadLiteral(s[2..], depth))
      case 't' => Then('\t', ReadLiteral(s[2..], depth))
      case 'b' => Then('\U{8}', ReadLiteral(s[2..], depth))
      case 'f' => Then('\U{C}', ReadLiteral(s[2..], depth))
      case '(' => Then('(', ReadLiteral(s[2..], depth))
      case ')' => Then(')', ReadLiteral(s[2..], depth))
      case '\\' => Then('\\', ReadLiteral(s[2..], depth))
      case '\n' => ReadLiteral(s[2..], depth)
      case '\r' => ReadLiteral(if |s| > 2 && s[2] == '\n' then s[3..] else s[2..], depth)
      case _ => ReadLiteral(s[1..], depth)
  }

  /** Line ends as a reader sees them: a carriage return, alone or before a line feed, becomes a line feed. */
  function LineFeeds(s: string): string
    decreases |s|
  {
    if |s| == 0 then ""
    else if s[0] != '\r' then [s[0]] + LineFeeds(s[1..])
    else ['\n'] + LineFeeds(if |s| > 1 && s[1] == '\n' then s[2..] else s[1..])
  }

  lemma CharReads(c: char, rest: string)
    requires c != '\r'
    ensures ReadLiteral(EscapeChar(c) + rest, 0) == Then(c, ReadLiteral(rest, 0))
  {
    var s := EscapeChar(c) + rest;
    assert s[|EscapeChar(c)|..] == rest;
  }

  lemma {:induction false} RowReads(row: string, after: string)
    ensures ReadLiteral(EscapeEach(row) + ")" + after, 0) == Some((LineFeeds(row), after))
    decreases |row|
  {
    if |row| == 0 {
      assert "" + ")" + after == ")" + after && (")" + after)[1..] == after;
    } else if row[0] != '\r' {
      var rest := EscapeEach(row[1..]) + ")" + after;
      assert EscapeEach(row) + ")" + after == EscapeChar(row[0]) + rest;
      CharReads(row[0], rest);
      RowReads(row[1..], after);
    } else {
      ReturnReads(row, after);
      RowReads(if |row| > 1 && row[1] == '\n' then row[2..] else row[1..], after);
    }
  }

  lemma ReturnFeedReads(row: string, after: string)
    requires |row| > 1 && row[0] == '\r' && row[1] == '\n'
    ensures ReadLiteral(EscapeEach(row) + ")" + after, 0)
         == Then('\n', ReadLiteral(EscapeEach(row[2..]) + ")" + after, 0))
  {
    var rest := EscapeEach(row[2..]) + ")" + after;
    assert row[1..][1..] == row[2..];
    assert EscapeEach(row) == "\r" + ("\n" + EscapeEach(row[2..]));
    var s := EscapeEach(row) + ")" + after;
    assert s == "\r\n" + rest && s[2..] == rest;
  }

  lemma ReturnReads(row: string, after: string)
    requires |row| > 0 && row[0] == '\r'
    ensures var more := if |row| > 1 && row[1] == '\n' then row[2..] else row[1..];
      ReadLiteral(EscapeEach(row) + ")" + after, 0) == Then('\n', ReadLiteral(EscapeEach(more) + ")" + after, 0))
  {
    if |row| > 1 && row[1] == '\n' {
      ReturnFeedReads(row, after);
    } else {
      var s := EscapeEach(row) + ")" + after;
      var rest := EscapeEach(row[1..]) + ")" + after;
      assert s == "\r" + rest && s[1..] == rest;
      if |row| > 1 { assert EscapeEach(row[1..])[0] != '\n'; }
    }
  }

  lemma {:induction false} LineFeedsExact(s: string)
    ensures '\r' !in LineFeeds(s)
    ensures '\r' !in s ==> LineFeeds(s) == s
    decreases |s|
  {
    if |s| > 0 {
      LineFeedsExact(s[1..]);
      if |s| > 1 { LineFeedsExact(s[2..]); }
      assert s == [s[0]] + s[1..];
    }
  }

  /** A reader gets the row back exactly when the row has no carriage return. */
  lemma LiteralExact(row: string, after: string)
    ensures ReadLiteral(Escape(row) + ")" + after, 0) == Some((row, after)) <==> '\r' !in row
  {
    EscapeIsEach(row);
    RowReads(row, after);
    LineFeedsExact(row);
  }

  // ----- amounts ---------------------------------------------------------------------

  function Cents(n: nat): string
    requires n < 100
  {
    PadStart(Decimal(n), 2)
  }

  /** An amount that is not negative, with its point before the last two digits. */
  function FormatPlain(absolute: nat): string { Decimal(absolute / 100) + "." + Cents(absolute % 100) }

  function FormatMinor(amount: int): string {
    var absolute := if amount < 0 then -amount else amount;
    if amount < 0 then "-" + FormatPlain(absolute) else FormatPlain(absolute)
  }

  /** The amount that a printed amount says: its digits without the point, and the sign. */
  function ReadMinor(s: string): Option<int> {
    if |s| > 0 && s[0] == '-' then
      match ReadMinor'(s[1..])
      case None => None
      case Some(n) => Some(-(n as int))
    else
      match ReadMinor'(s)
      case None => None
      case Some(n) => Some(n)
  }

  function ReadMinor'(s: string): Option<nat> {
    if |s| < 4 || s[|s| - 3] != '.' || !Digits(s[..|s| - 3]) || !Digits(s[|s| - 2..]) then None
    else Some(Number(s[..|s| - 3]) * 100 + Number(s[|s| - 2..]))
  }

  lemma CentsRead(n: nat)
    requires n < 100
    ensures |Cents(n)| == 2 && Digits(Cents(n)) && Number(Cents(n)) == n
  {
    DecimalReads(n);
    assert Power10(1) == 10 && Power10(2) == 100;
    DecimalWidth(n, 2);
    if |Decimal(n)| == 1 {
      ZerosLength(1);
      PaddingIsSilent(1, Decimal(n));
    }
  }

  lemma PlainParts(whole: string, cents: string)
    requires |whole| > 0 && |cents| == 2
    ensures var plain := whole + "." + cents;
      && |plain| >= 4 && plain[|plain| - 3] == '.' && plain[0] == whole[0]
      && plain[..|plain| - 3] == whole && plain[|plain| - 2..] == cents
      && ("-" + plain)[1..] == plain
  {
  }

  /** A text whose last two characters and whose front before the point are digits. */
  lemma PointReads(p: string, whole: string, cents: string)
    requires |p| >= 4 && p[|p| - 3] == '.' && p[..|p| - 3] == whole && p[|p| - 2..] == cents
    requires |whole| > 0 && Digits(whole) && Digits(cents) && p[0] == whole[0]
    ensures ReadMinor(p) == Some(Number(whole) * 100 + Number(cents))
  {
  }

  lemma MinusReads(p: string, n: nat)
    requires |p| > 0 && p[0] != '-' && ReadMinor(p) == Some(n)
    ensures ReadMinor("-" + p) == Some(-(n as int))
  {
    assert ("-" + p)[1..] == p;
  }

  lemma PlainReads(whole: string, cents: string)
    requires |whole| > 0 && Digits(whole) && |cents| == 2 && Digits(cents)
    ensures ReadMinor(whole + "." + cents) == Some(Number(whole) * 100 + Number(cents))
    ensures ReadMinor("-" + (whole + "." + cents)) == Some(-(Number(whole) * 100 + Number(cents)))
  {
    var plain := whole + "." + cents;
    PlainParts(whole, cents);
    BothRead(plain, whole, cents);
  }

  lemma BothRead(plain: string, whole: string, cents: string)
    requires |plain| >= 4 && plain[|plain| - 3] == '.' && plain[..|plain| - 3] == whole && plain[|plain| - 2..] == cents
    requires |whole| > 0 && Digits(whole) && Digits(cents) && plain[0] == whole[0]
    ensures ReadMinor(plain) == Some(Number(whole) * 100 + Number(cents))
    ensures ReadMinor("-" + plain) == Some(-(Number(whole) * 100 + Number(cents)))
  {
    PointReads(plain, whole, cents);
    MinusReads(plain, Number(whole) * 100 + Number(cents));
  }

  lemma MinorParts(n: nat)
    ensures n / 100 * 100 + n % 100 == n
  {
  }

  lemma PlainAmountReads(absolute: nat)
    ensures ReadMinor(FormatPlain(absolute)) == Some(absolute) && ReadMinor("-" + FormatPlain(absolute)) == Some(-(absolute as int))
  {
    var whole, cents := Decimal(absolute / 100), Cents(absolute % 100);
    DecimalReads(absolute / 100);
    CentsRead(absolute % 100);
    MinorParts(absolute);
    assert FormatPlain(absolute) == whole + "." + cents;
    PlainReads(whole, cents);
  }

  /** Printed amounts read back, negative and below one major unit included. */
  lemma FormatReads(amount: int)
    ensures ReadMinor(FormatMinor(amount)) == Some(amount)
  {
    PlainAmountReads(if amount < 0 then -amount else amount);
  }

  // ----- the stream ------------------------------------------------------------------

  function Integer(n: int): string { if n < 0 then "-" + Decimal(-n) else Decimal(n) }

  function ShowRow(index: nat, row: string): string {
    "BT /F1 11 Tf 50 " + Integer(760 - index * 22) + " Td (" + Escape(row) + ") Tj ET"
  }

  /** Rows from the given index on, one to a line. */
  function Stream(rows: seq<string>, index: nat): string
    requires index <= |rows|
    decreases |rows| - index
  {
    if index == |rows| then ""
    else if index + 1 == |rows| then ShowRow(index, rows[index])
    else ShowRow(index, rows[index]) + "\n" + Stream(rows, index + 1)
  }

  function Content(stream: string): string {
    "<< /Length " + Decimal(ByteLength(stream)) + " >>\nstream\n" + stream + "\nendstream"
  }

  const CATALOG := "<< /Type /Catalog /Pages 2 0 R >>"
  const PAGES := "<< /Type /Pages /Kids [3 0 R] /Count 1 >>"
  const PAGE :=
    "<< /Type /Page /Parent 2 0 R /MediaBox [0 0 612 792] /Resources << /Font << /F1 5 0 R >> >> /Contents 4 0 R >>"
  const FONT := "<< /Type /Font /Subtype /Type1 /BaseFont /Helvetica >>"

  function Objects(rows: seq<string>): (objects: seq<string>)
    ensures |objects| == 5 && objects[3] == Content(Stream(rows, 0))
  {
    [CATALOG, PAGES, PAGE, Content(Stream(rows, 0)), FONT]
  }

  lemma Slice(bytes: seq<Byte>, p: nat, a: seq<Byte>, b: seq<Byte>, c: seq<Byte>)
    requires p + |a| + |b| + |c| <= |bytes| && bytes[p..p + |a| + |b| + |c|] == a + b + c
    ensures bytes[p + |a|..p + |a| + |b|] == b
  {
    var all := a + b + c;
    forall i | 0 <= i < |b| ensures bytes[p + |a|..p + |a| + |b|][i] == b[i] {
      assert bytes[p..p + |a| + |b| + |c|][|a| + i] == all[|a| + i];
    }
  }

  lemma ThreeParts(a: string, b: string, c: string)
    ensures Utf8(a + b + c) == Utf8(a) + Utf8(b) + Utf8(c)
  {
    Utf8Concat(a + b, c);
    Utf8Concat(a, b);
  }

  lemma AtParts(bytes: seq<Byte>, position: nat, all: string, b: seq<Byte>, t: seq<Byte>, a: seq<Byte>)
    requires At(bytes, position, all) && Utf8(all) == b + t + a
    ensures position + |b| + |t| <= |bytes| && bytes[position + |b|..position + |b| + |t|] == t
  {
    Slice(bytes, position, b, t, a);
  }

  lemma AtInside(bytes: seq<Byte>, position: nat, before: string, text: string, after: string)
    requires At(bytes, position, before + text + after)
    ensures At(bytes, position + ByteLength(before), text)
  {
    ThreeParts(before, text, after);
    AtParts(bytes, position, before + text + after, Utf8(before), Utf8(text), Utf8(after));
  }

  /** The stream object's text up to the stream's bytes, given its number and the length it declares. */
  function StreamHead(number: string, length: string): string {
    number + " 0 obj\n" + "<< /Length " + length + " >>\nstream\n"
  }

  /** The byte at which the content of a stream starts, by the cross-reference table. */
  function StreamStart(objects: seq<string>, k: nat, stream: string): nat
    requires k < |objects|
  {
    Offsets(objects)[k] + ByteLength(StreamHead(Decimal(k + 1), Decimal(ByteLength(stream))))
  }

  /**
   The length that a stream object declares is the number of bytes between its keywords: at the
   object's offset stands that length, then come exactly the stream's bytes, then a line feed and
   `endstream`. The invoice's stream is object 4.
   */
  lemma LengthExact(objects: seq<string>, k: nat, stream: string)
    requires k < |objects| && objects[k] == Content(stream)
    ensures Digits(Decimal(ByteLength(stream))) && Number(Decimal(ByteLength(stream))) == ByteLength(stream)
    ensures At(Utf8(Pdf(objects)), Offsets(objects)[k], StreamHead(Decimal(k + 1), Decimal(ByteLength(stream))))
    ensures At(Utf8(Pdf(objects)), StreamStart(objects, k, stream), stream)
    ensures At(Utf8(Pdf(objects)), StreamStart(objects, k, stream) + ByteLength(stream), "\nendstream")
  {
    DecimalReads(ByteLength(stream));
    StreamInPlace(objects, k, stream, Utf8(Pdf(objects)), Offsets(objects)[k],
                  StreamHead(Decimal(k + 1), Decimal(ByteLength(stream))), StreamStart(objects, k, stream));
  }

  lemma StreamInPlace(objects: seq<string>, k: nat, stream: string, bytes: seq<Byte>, offset: nat, head: string, start: nat)
    requires k < |objects| && objects[k] == Content(stream)
    requires bytes == Utf8(Pdf(objects)) && offset == Offsets(objects)[k]
    requires head == StreamHead(Decimal(k + 1), Decimal(ByteLength(stream))) && start == offset + ByteLength(head)
    ensures At(bytes, offset, head) && At(bytes, start, stream) && At(bytes, start + ByteLength(stream), "\nendstream")
  {
    StreamObjectAt(objects, k, stream);
    InStream(bytes, offset, head, stream, "\nendstream", "\nendobj\n", start);
  }

  lemma StreamObjectAt(objects: seq<string>, k: nat, stream: string)
    requires k < |objects| && objects[k] == Content(stream)
    ensures At(Utf8(Pdf(objects)), Offsets(objects)[k],
               StreamHead(Decimal(k + 1), Decimal(ByteLength(stream))) + stream + "\nendstream" + "\nendobj\n")
  {
    OffsetsPointAtObjects(objects, k);
    ContentParts(Decimal(k + 1), Decimal(ByteLength(stream)), stream);
  }

  lemma AssociateAll(a: string, b: string, c: string, d: string)
    ensures a + b + c + d == "" + a + (b + c + d)
    ensures a + b + c + d == a + b + (c + d)
  {
  }

  lemma LengthsAdd(a: string, b: string)
    ensures ByteLength(a + b) == ByteLength(a) + ByteLength(b)
  {
    Utf8Concat(a, b);
  }

  lemma EndAt(bytes: seq<Byte>, offset: nat, head: string, stream: string, end: string, after: string, start: nat)
    requires At(bytes, offset, head + stream + end + after) && start == offset + ByteLength(head) + ByteLength(stream)
    ensures At(bytes, start, end)
  {
    var before := head + stream;
    LengthsAdd(head, stream);
    AtInside(bytes, offset, before, end, after);
  }

  lemma StreamAt(bytes: seq<Byte>, offset: nat, head: string, stream: string, end: string, after: string, start: nat)
    requires At(bytes, offset, head + stream + end + after) && start == offset + ByteLength(head)
    ensures At(bytes, offset, head) && At(bytes, start, stream)
  {
    AssociateAll(head, stream, end, after);
    AtInside(bytes, offset, "", head, stream + end + after);
    AtInside(bytes, offset, head, stream, end + after);
  }

  lemma InStream(bytes: seq<Byte>, offset: nat, head: string, stream: string, end: string, after: string, start: nat)
    requires At(bytes, offset, head + stream + end + after) && start == offset + ByteLength(head)
    ensures At(bytes, offset, head) && At(bytes, start, stream) && At(bytes, start + ByteLength(stream), end)
  {
    StreamAt(bytes, offset, head, stream, end, after, start);
    EndAt(bytes, offset, head, stream, end, after, start + ByteLength(stream));
  }

  lemma ContentParts(number: string, length: string, stream: string)
    ensures number + " 0 obj\n" + ("<< /Length " + length + " >>\nstream\n" + stream + "\nendstream") + "\nendobj\n"
      == StreamHead(number, length) + stream + "\nendstream" + "\nendobj\n"
  {
    Nest(number + " 0 obj\n", "<< /Length ", length, " >>\nstream\n", stream, "\nendstream");
  }

  lemma Nest(a: string, b: string, c: string, d: string, e: string, f: string)
    ensures a + (b + c + d + e + f) == a + b + c + d + e + f
  {
  }

  // ----- the writer ------------------------------------------------------------------

  /** Objects are appended one by one, each at the byte length reached so far. */
  method WriteObjects(objects: seq<string>) returns (pdf: string, offsets: seq<nat>)
    ensures pdf == Body(objects) && offsets == [0] + Offsets(objects)
  {
    pdf, offsets := HEADER, [0];
    var k := 0;
    while k < |objects|
      invariant 0 <= k <= |objects|
      invariant pdf == Body(objects[..k]) && offsets == [0] + Offsets(objects)[..k]
    {
      assert objects[..k + 1][..k] == objects[..k];
      offsets := offsets + [ByteLength(pdf)];
      pdf := pdf + ObjectText(k, objects[k]);
      k := k + 1;
    }
    assert objects[..k] == objects && Offsets(objects)[..k] == Offsets(objects);
  }

  method WriteEntries(offsets: seq<nat>) returns (entries: string)
    ensures entries == Entries(offsets)
  {
    entries := "";
    var k := 0;
    while k < |offsets|
      invariant 0 <= k <= |offsets| && entries == Entries(offsets[..k])
    {
      EntriesNext(offsets, k);
      entries := entries + Entry(offsets[k]);
      k := k + 1;
    }
    assert offsets[..k] == offsets;
  }

  method WriteInvoice(rows: seq<string>) returns (pdf: string)
    ensures pdf == Pdf(Objects(rows))
  {
    var objects := Objects(rows);
    var offsets;
    pdf, offsets := WriteObjects(objects);
    var xref := ByteLength(pdf);
    assert offsets[1..] == Offsets(objects);
    var entries := WriteEntries(offsets[1..]);
    pdf := pdf + (TableHead(|objects|) + FREE_ENTRY + entries) + (TrailerHead(|objects|) + Decimal(xref) + END);
  }
}
