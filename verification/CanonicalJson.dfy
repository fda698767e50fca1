/**
 Canonical JSON: objects are printed with their entries sorted by key, so that two values that
 differ only in key order hash alike. `le` is the key comparison: `le(a, b)` when a does not sort
 after b.
 */
module CanonicalJson {
  /** A number is represented by the text it prints as; an object lists its entries in insertion order. */
  datatype Json =
    | Null
    | Bool(flag: bool)
    | Number(text: string)
    | Text(value: string)
    | Array(items: seq<Json>)
    | Object(fields: seq<Field>)

  datatype Field = Field(key: string, value: Json)

  type Order = (string, string) -> bool

  ghost predicate Preorder(le: Order) {
    && (forall a, b :: le(a, b) || le(b, a))
    && (forall a, b, c :: le(a, b) && le(b, c) ==> le(a, c))
  }

  /** No two different keys compare as equal. */
  ghost predicate Antisymmetric(le: Order) { forall a, b :: le(a, b) && le(b, a) ==> a == b }

  // ----- strings ---------------------------------------------------------------------

  const HEX := "0123456789abcdef"

  function EscapeChar(c: char): (e: string)
    ensures |e| > 0 && e[0] != '"'
  {
    if c == '"' then "\\\""
    else if c == '\\' then "\\\\"
    else if c == '\U{8}' then "\\b"
    else if c == '\U{C}' then "\\f"
    else if c == '\n' then "\\n"
    else if c == '\r' then "\\r"
    else if c == '\t' then "\\t"
    else if c < ' ' then "\\u00" + [HEX[c as int / 16], HEX[c as int % 16]]
    else [c]
  }

  function Escape(s: string): string { if |s| == 0 then "" else EscapeChar(s[0]) + Escape(s[1..]) }

  function PrintString(s: string): string { "\"" + Escape(s) + "\"" }

  // ----- printing --------------------------------------------------------------------

  function Insert(le: Order, f: Field, sorted: seq<Field>): (r: seq<Field>)
    ensures |r| == |sorted| + 1
    ensures forall e :: e in r <==> e == f || e in sorted
  {
    if |sorted| == 0 then [f]
    else if le(f.key, sorted[0].key) then [f] + sorted
    else
      assert sorted == [sorted[0]] + sorted[1..];
      [sorted[0]] + Insert(le, f, sorted[1..])
  }

  /** A stable sort by key. */
  function Sort(le: Order, fields: seq<Field>): (r: seq<Field>)
    ensures |r| == |fields|
    ensures forall e :: e in r <==> e in fields
  {
    if |fields| == 0 then []
    else
      assert fields == [fields[0]] + fields[1..];
      Insert(le, fields[0], Sort(le, fields[1..]))
  }

  function Join(parts: seq<string>): string {
    if |parts| == 0 then "" else if |parts| == 1 then parts[0] else parts[0] + "," + Join(parts[1..])
  }

  function Print(le: Order, v: Json): string
    decreases v
  {
    match v
    case Null => "null"
    case Bool(flag) => if flag then "true" else "false"
    case Number(text) => text
    case Text(value) => PrintString(value)
    case Array(items) => "[" + Join(seq(|items|, i requires 0 <= i < |items| => Print(le, items[i]))) + "]"
    case Object(fields) =>
      var sorted := Sort(le, fields);
      "{" + Join(seq(|sorted|, i requires 0 <= i < |sorted| =>
        assert sorted[i] in fields; PrintString(sorted[i].key) + ":" + Print(le, sorted[i].value))) + "}"
  }

  // ----- values ----------------------------------------------------------------------

  predicate NumberChar(c: char) { '0' <= c <= '9' || c in "+-.eE" }

  predicate NumberText(text: string) { |text| > 0 && forall i :: 0 <= i < |text| ==> NumberChar(text[i]) }

  ghost predicate DistinctKeys(fields: seq<Field>) {
    forall i, j :: 0 <= i < j < |fields| ==> fields[i].key != fields[j].key
  }

  ghost predicate WellFormed(v: Json)
    decreases v
  {
    match v
    case Number(text) => NumberText(text)
    case Array(items) => forall i :: 0 <= i < |items| ==> WellFormed(items[i])
    case Object(fields) => DistinctKeys(fields) && forall i :: 0 <= i < |fields| ==> WellFormed(fields[i].value)
    case _ => true
  }

  ghost predicate HasKey(fields: seq<Field>, key: string) { exists i :: 0 <= i < |fields| && fields[i].key == key }

  /** Equal up to key order, at every depth. */
  ghost predicate Same(a: Json, b: Json)
    decreases a
  {
    match (a, b)
    case (Array(xs), Array(ys)) => |xs| == |ys| && forall i :: 0 <= i < |xs| ==> Same(xs[i], ys[i])
    case (Object(xs), Object(ys)) =>
      && (forall key :: HasKey(xs, key) <==> HasKey(ys, key))
      && (forall i, j :: 0 <= i < |xs| && 0 <= j < |ys| && xs[i].key == ys[j].key ==> Same(xs[i].value, ys[j].value))
    case _ => a == b
  }

  // ----- normal form -----------------------------------------------------------------

  function Normalize(le: Order, v: Json): Json
    decreases v
  {
    match v
    case Array(items) => Array(seq(|items|, i requires 0 <= i < |items| => Normalize(le, items[i])))
    case Object(fields) =>
      var sorted := Sort(le, fields);
      Object(seq(|sorted|, i requires 0 <= i < |sorted| =>
        assert sorted[i] in fields; Field(sorted[i].key, Normalize(le, sorted[i].value))))
    case _ => v
  }

  /** Printing in the order given. */
  function Render(v: Json): string
    decreases v
  {
    match v
    case Null => "null"
    case Bool(flag) => if flag then "true" else "false"
    case Number(text) => text
    case Text(value) => PrintString(value)
    case Array(items) => "[" + RenderItems(items) + "]"
    case Object(fields) => "{" + RenderFields(fields) + "}"
  }

  function RenderItems(items: seq<Json>): string
    decreases items
  {
    if |items| == 0 then ""
    else if |items| == 1 then Render(items[0])
    else Render(items[0]) + "," + RenderItems(items[1..])
  }

  function RenderField(f: Field): string
    decreases f
  {
    PrintString(f.key) + ":" + Render(f.value)
  }

  function RenderFields(fields: seq<Field>): string
    decreases fields
  {
    if |fields| == 0 then ""
    else if |fields| == 1 then RenderField(fields[0])
    else RenderField(fields[0]) + "," + RenderFields(fields[1..])
  }

  lemma {:induction false} JoinItems(parts: seq<string>, items: seq<Json>)
    requires |parts| == |items| && forall i :: 0 <= i < |items| ==> parts[i] == Render(items[i])
    ensures Join(parts) == RenderItems(items)
    decreases |items|
  {
    if |items| > 1 {
      JoinItems(parts[1..], items[1..]);
    }
  }

  lemma {:induction false} JoinFields(parts: seq<string>, fields: seq<Field>)
    requires |parts| == |fields| && forall i :: 0 <= i < |fields| ==> parts[i] == RenderField(fields[i])
    ensures Join(parts) == RenderFields(fields)
    decreases |fields|
  {
    if |fields| > 1 {
      JoinFields(parts[1..], fields[1..]);
    }
  }

  /** The printer prints the normal form. */
  lemma {:induction false} PrintIsRender(le: Order, v: Json)
    ensures Print(le, v) == Render(Normalize(le, v))
    decreases v
  {
    match v
    case Array(items) =>
      var parts := seq(|items|, i requires 0 <= i < |items| => Print(le, items[i]));
      var normal := Normalize(le, v).items;
      forall i | 0 <= i < |items| ensures parts[i] == Render(normal[i]) { PrintIsRender(le, items[i]); }
      JoinItems(parts, normal);
    case Object(fields) =>
      var sorted := Sort(le, fields);
      var parts := seq(|sorted|, i requires 0 <= i < |sorted| =>
        assert sorted[i] in fields; PrintString(sorted[i].key) + ":" + Print(le, sorted[i].value));
      var normal := Normalize(le, v).fields;
      forall i | 0 <= i < |sorted| ensures parts[i] == RenderField(normal[i]) {
        assert sorted[i] in fields;
        PrintIsRender(le, sorted[i].value);
      }
      JoinFields(parts, normal);
    case _ =>
  }
}
