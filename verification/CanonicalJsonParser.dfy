/** A parser that reads back what the canonical printer prints, and what follows from having one. */
module CanonicalJsonParser {
  import opened CanonicalJson
  import opened Results

  type Parsed<T> = Option<(T, string)>

  // ----- strings ---------------------------------------------------------------------

  predicate HexChar(c: char) { '0' <= c <= '9' || 'a' <= c <= 'f' }

  function HexValue(c: char): nat
    requires HexChar(c)
  {
    if c <= '9' then c as int - '0' as int else c as int - 'a' as int + 10
  }

  /** One character of a string's content, escaped or not. */
  function ParseChar(s: string): (r: Parsed<char>)
    requires |s| > 0
    ensures r.Some? ==> |r.value.1| < |s|
  {
    if s[0] != '\\' then Some((s[0], s[1..]))
    else if |s| < 2 then None
    else
      match s[1]
      case '"' => Some(('"', s[2..]))
      case '\\' => Some(('\\', s[2..]))
      case 'b' => Some(('\U{8}', s[2..]))
      case 'f' => Some(('\U{C}', s[2..]))
      case 'n' => Some(('\n', s[2..]))
      case 'r' => Some(('\r', s[2..]))
      case 't' => Some(('\t', s[2..]))
      case 'u' =>
        if |s| < 6 || s[2] != '0' || s[3] != '0' || !HexChar(s[4]) || !HexChar(s[5]) then None
        else Some(((HexValue(s[4]) * 16 + HexValue(s[5])) as char, s[6..]))
      case _ => None
  }

  /** A string's content up to its closing quote. */
  function ParseString(s: string): (r: Parsed<string>)
    ensures r.Some? ==> |r.value.1| < |s|
    decreases |s|
  {
    if |s| == 0 then None
    else if s[0] == '"' then Some(("", s[1..]))
    else
      match ParseChar(s)
      case None => None
      case Some((c, rest)) =>
        match ParseString(rest)
        case None => None
        case Some((more, after)) => Some(([c] + more, after))
  }

  /** The six characters of a control character without a short escape. */
  lemma ControlRead(c: char, t: string)
    requires c < ' ' && |EscapeChar(c)| == 6
    ensures ParseChar(EscapeChar(c) + t) == Some((c, t))
  {
    var s := EscapeChar(c) + t;
    var n := c as int;
    assert s[6..] == t;
    assert n == n / 16 * 16 + n % 16 && n / 16 < 2;
    HexRead(n / 16);
    HexRead(n % 16);
    assert s[4] == HEX[n / 16] && s[5] == HEX[n % 16];
  }

  lemma CharRead(c: char, t: string)
    ensures ParseChar(EscapeChar(c) + t) == Some((c, t))
  {
    var s := EscapeChar(c) + t;
    assert s[|EscapeChar(c)|..] == t;
    if c < ' ' && |EscapeChar(c)| == 6 {
      ControlRead(c, t);
    }
  }

  lemma HexRead(n: nat)
    requires n < 16
    ensures HexChar(HEX[n]) && HexValue(HEX[n]) == n
  {
  }

  lemma {:induction false} StringRead(s: string, t: string)
    ensures ParseString(Escape(s) + "\"" + t) == Some((s, t))
  {
    if |s| == 0 {
      assert Escape(s) + "\"" + t == "\"" + t;
    } else {
      var rest := Escape(s[1..]) + "\"" + t;
      assert Escape(s) + "\"" + t == EscapeChar(s[0]) + rest;
      CharRead(s[0], rest);
      StringRead(s[1..], t);
      assert s == [s[0]] + s[1..];
    }
  }

  // ----- values ----------------------------------------------------------------------

  predicate StartsWith(s: string, prefix: string) { |prefix| <= |s| && s[..|prefix|] == prefix }

  function NumberSpan(s: string): (n: nat)
    ensures n <= |s| && NumberChars(s, n)
  {
    if |s| == 0 || !NumberChar(s[0]) then 0 else 1 + NumberSpan(s[1..])
  }

  predicate NumberChars(s: string, n: nat) { n <= |s| && forall i :: 0 <= i < n ==> NumberChar(s[i]) }

  function ParseValue(s: string): (r: Parsed<Json>)
    ensures r.Some? ==> |r.value.1| < |s|
    decreases |s|, 0
  {
    if |s| == 0 then None
    else if StartsWith(s, "null") then Some((Null, s[4..]))
    else if StartsWith(s, "true") then Some((Bool(true), s[4..]))
    else if StartsWith(s, "false") then Some((Bool(false), s[5..]))
    else if s[0] == '"' then
      match ParseString(s[1..])
      case None => None
      case Some((value, rest)) => Some((Text(value), rest))
    else if s[0] == '[' then
      if |s| > 1 && s[1] == ']' then Some((Array([]), s[2..]))
      else
        match ParseItems(s[1..])
        case None => None
        case Some((items, rest)) => Some((Array(items), rest))
    else if s[0] == '{' then
      if |s| > 1 && s[1] == '}' then Some((Object([]), s[2..]))
      else
        match ParseFields(s[1..])
        case None => None
        case Some((fields, rest)) => Some((Object(fields), rest))
    else
      var n := NumberSpan(s);
      if n == 0 then None else Some((Number(s[..n]), s[n..]))
  }

  /** Items and the bracket that closes them. */
  function ParseItems(s: string): (r: Parsed<seq<Json>>)
    ensures r.Some? ==> |r.value.1| < |s|
    decreases |s|, 1
  {
    match ParseValue(s)
    case None => None
    case Some((v, rest)) =>
      if |rest| > 0 && rest[0] == ']' then Some(([v], rest[1..]))
      else if |rest| > 0 && rest[0] == ',' then
        match ParseItems(rest[1..])
        case None => None
        case Some((items, after)) => Some(([v] + items, after))
      else None
  }

  function ParseField(s: string): (r: Parsed<Field>)
    ensures r.Some? ==> |r.value.1| < |s|
    decreases |s|, 0
  {
    if |s| == 0 || s[0] != '"' then None
    else
      match ParseString(s[1..])
      case None => None
      case Some((key, rest)) =>
        if |rest| == 0 || rest[0] != ':' then None
        else
          match ParseValue(rest[1..])
          case None => None
          case Some((v, after)) => Some((Field(key, v), after))
  }

  /** Fields and the brace that closes them. */
  function ParseFields(s: string): (r: Parsed<seq<Field>>)
    ensures r.Some? ==> |r.value.1| < |s|
    decreases |s|, 1
  {
    match ParseField(s)
    case None => None
    case Some((f, rest)) =>
      if |rest| > 0 && rest[0] == '}' then Some(([f], rest[1..]))
      else if |rest| > 0 && rest[0] == ',' then
        match ParseFields(rest[1..])
        case None => None
        case Some((fields, after)) => Some(([f] + fields, after))
      else None
  }

  // ----- the parser undoes the printer -----------------------------------------------

  /** What may follow a value. */
  predicate Delimited(t: string) { |t| == 0 || !NumberChar(t[0]) }

  lemma {:induction false} SpanRead(text: string, t: string)
    requires NumberChars(text, |text|) && Delimited(t)
    ensures NumberSpan(text + t) == |text|
  {
    if |text| == 0 {
      assert text + t == t;
    } else {
      assert (text + t)[1..] == text[1..] + t;
      SpanRead(text[1..], t);
    }
  }

  /** The first character tells values apart. */
  lemma {:induction false} FirstChar(v: Json)
    requires WellFormed(v)
    ensures |Render(v)| > 0
    ensures Render(v)[0] == (
      match v
      case Null => 'n'
      case Bool(flag) => if flag then 't' else 'f'
      case Number(text) => text[0]
      case Text(_) => '"'
      case Array(_) => '['
      case Object(_) => '{')
    ensures Render(v)[0] != ']' && Render(v)[0] != '}'
  {
  }

  lemma NumberRead(text: string, t: string)
    requires NumberText(text) && Delimited(t)
    ensures ParseValue(text + t) == Some((Number(text), t))
  {
    SpanRead(text, t);
    var s := text + t;
    assert s[..|text|] == text && s[|text|..] == t;
    assert NumberChar(s[0]);
    StartsAlike(s, "null");
    StartsAlike(s, "true");
    StartsAlike(s, "false");
  }

  lemma StartsAlike(s: string, prefix: string)
    requires |prefix| > 0
    ensures StartsWith(s, prefix) ==> s[0] == prefix[0]
  {
    assert StartsWith(s, prefix) ==> s[0] == s[..|prefix|][0];
  }

  lemma LastItem(v: Json, t: string)
    requires ParseValue(Render(v) + ("]" + t)) == Some((v, "]" + t))
    ensures ParseItems(Render(v) + ("]" + t)) == Some(([v], t))
  {
    assert ("]" + t)[1..] == t;
  }

  lemma OneMoreItem(v: Json, items: seq<Json>, rest: string, t: string)
    requires ParseValue(Render(v) + ("," + rest)) == Some((v, "," + rest))
    requires ParseItems(rest) == Some((items, t))
    ensures ParseItems(Render(v) + ("," + rest)) == Some(([v] + items, t))
  {
    assert ("," + rest)[1..] == rest;
  }

  lemma {:induction false} ItemsRead(items: seq<Json>, t: string)
    requires |items| > 0 && forall i :: 0 <= i < |items| ==> WellFormed(items[i])
    ensures ParseItems(RenderItems(items) + "]" + t) == Some((items, t))
    decreases items, 1
  {
    var s := RenderItems(items) + "]" + t;
    if |items| == 1 {
      assert s == Render(items[0]) + ("]" + t);
      ValueRead(items[0], "]" + t);
      LastItem(items[0], t);
      assert items == [items[0]];
    } else {
      var rest := RenderItems(items[1..]) + "]" + t;
      assert s == Render(items[0]) + ("," + rest);
      ValueRead(items[0], "," + rest);
      ItemsRead(items[1..], t);
      OneMoreItem(items[0], items[1..], rest, t);
      assert items == [items[0]] + items[1..];
    }
  }

  lemma {:induction false} FieldRead(f: Field, t: string)
    requires WellFormed(f.value) && Delimited(t)
    ensures ParseField(RenderField(f) + t) == Some((f, t))
    decreases f, 1
  {
    var rest := Render(f.value) + t;
    FieldSplit(Escape(f.key), Render(f.value), t);
    StringRead(f.key, ":" + rest);
    ValueRead(f.value, t);
    FieldParts("\"" + (Escape(f.key) + "\"" + (":" + rest)), f, rest, t);
  }

  lemma FieldSplit(key: string, value: string, t: string)
    ensures "\"" + key + "\"" + ":" + value + t == "\"" + (key + "\"" + (":" + (value + t)))
  {
  }

  lemma FieldParts(s: string, f: Field, rest: string, t: string)
    requires |s| > 0 && s[0] == '"' && ParseString(s[1..]) == Some((f.key, ":" + rest))
    requires ParseValue(rest) == Some((f.value, t))
    ensures ParseField(s) == Some((f, t))
  {
    assert (":" + rest)[1..] == rest;
  }

  lemma {:induction false} FieldsRead(fields: seq<Field>, t: string)
    requires |fields| > 0 && forall i :: 0 <= i < |fields| ==> WellFormed(fields[i].value)
    ensures ParseFields(RenderFields(fields) + "}" + t) == Some((fields, t))
    decreases fields, 2
  {
    FieldsSplit(fields, t);
    if |fields| == 1 {
      FieldRead(fields[0], "}" + t);
      LastField(fields[0], t);
    } else {
      var rest := RenderFields(fields[1..]) + "}" + t;
      FieldRead(fields[0], "," + rest);
      FieldsRead(fields[1..], t);
      OneMoreField(fields[0], fields[1..], rest, t);
    }
  }

  lemma FieldsSplit(fields: seq<Field>, t: string)
    requires |fields| > 0
    ensures fields == [fields[0]] + fields[1..]
    ensures |fields| == 1 ==>
      fields == [fields[0]] && RenderFields(fields) + "}" + t == RenderField(fields[0]) + ("}" + t)
    ensures |fields| > 1 ==>
      RenderFields(fields) + "}" + t == RenderField(fields[0]) + ("," + (RenderFields(fields[1..]) + "}" + t))
  {
    Regroup(RenderField(fields[0]), RenderFields(fields[1..]), t);
  }

  lemma Regroup(a: string, b: string, t: string)
    ensures a + "," + b + "}" + t == a + ("," + (b + "}" + t))
    ensures a + "}" + t == a + ("}" + t)
  {
  }

  lemma LastField(f: Field, t: string)
    requires ParseField(RenderField(f) + ("}" + t)) == Some((f, "}" + t))
    ensures ParseFields(RenderField(f) + ("}" + t)) == Some(([f], t))
  {
    assert ("}" + t)[1..] == t;
  }

  lemma OneMoreField(f: Field, fields: seq<Field>, rest: string, t: string)
    requires ParseField(RenderField(f) + ("," + rest)) == Some((f, "," + rest))
    requires ParseFields(rest) == Some((fields, t))
    ensures ParseFields(RenderField(f) + ("," + rest)) == Some(([f] + fields, t))
  {
    assert ("," + rest)[1..] == rest;
  }

  lemma {:induction false} ArrayRead(items: seq<Json>, t: string)
    requires forall i :: 0 <= i < |items| ==> WellFormed(items[i])
    ensures ParseValue(Render(Array(items)) + t) == Some((Array(items), t))
    decreases items, 2
  {
    var s := Render(Array(items)) + t;
    if |items| == 0 {
      assert s == "[]" + t && s[2..] == t;
      NotLiteral(s);
    } else {
      var rest := RenderItems(items) + "]" + t;
      assert s == "[" + rest && s[1..] == rest;
      NotLiteral(s);
      FirstChar(items[0]);
      ItemsRead(items, t);
    }
  }

  lemma ObjectParts(s: string, fields: seq<Field>, t: string)
    requires |s| > 1 && s[0] == '{' && s[1] != '}' && ParseFields(s[1..]) == Some((fields, t))
    ensures ParseValue(s) == Some((Object(fields), t))
  {
    NotLiteral(s);
  }

  lemma {:induction false} ObjectRead(fields: seq<Field>, t: string)
    requires forall i :: 0 <= i < |fields| ==> WellFormed(fields[i].value)
    ensures ParseValue(Render(Object(fields)) + t) == Some((Object(fields), t))
    decreases fields, 3
  {
    var s := Render(Object(fields)) + t;
    if |fields| == 0 {
      assert s == "{}" + t && s[2..] == t;
      NotLiteral(s);
    } else {
      var rest := RenderFields(fields) + "}" + t;
      assert s == "{" + rest && s[1..] == rest;
      assert rest[0] == RenderField(fields[0])[0];
      FieldsRead(fields, t);
      ObjectParts(s, fields, t);
    }
  }

  lemma TextRead(value: string, t: string)
    ensures ParseValue(PrintString(value) + t) == Some((Text(value), t))
  {
    var rest := Escape(value) + "\"" + t;
    assert PrintString(value) + t == "\"" + rest && ("\"" + rest)[1..] == rest;
    NotLiteral("\"" + rest);
    StringRead(value, t);
  }

  lemma NotLiteral(s: string)
    requires |s| > 0 && s[0] != 'n' && s[0] != 't' && s[0] != 'f'
    ensures !StartsWith(s, "null") && !StartsWith(s, "true") && !StartsWith(s, "false")
  {
    StartsAlike(s, "null");
    StartsAlike(s, "true");
    StartsAlike(s, "false");
  }

  lemma LiteralRead(v: Json, t: string)
    requires v.Null? || v.Bool?
    ensures ParseValue(Render(v) + t) == Some((v, t))
  {
    var s := Render(v) + t;
    assert s[..|Render(v)|] == Render(v) && s[|Render(v)|..] == t;
    StartsAlike(s, "null");
    StartsAlike(s, "true");
  }

  /** Whatever follows, the parser reads the printed value and stops right behind it. */
  lemma {:induction false} ValueRead(v: Json, t: string)
    requires WellFormed(v) && Delimited(t)
    ensures ParseValue(Render(v) + t) == Some((v, t))
    decreases v, 0
  {
    match v
    case Number(text) => NumberRead(text, t);
    case Text(value) => TextRead(value, t);
    case Array(items) => ArrayRead(items, t);
    case Object(fields) => ObjectRead(fields, t);
    case _ => LiteralRead(v, t);
  }

  /** Parsing a canonical print gives the normal form back. */
  lemma PrintRead(le: Order, v: Json)
    requires WellFormed(v)
    ensures ParseValue(Print(le, v)) == Some((Normalize(le, v), ""))
  {
    PrintIsRender(le, v);
    NormalIsWellFormed(le, v);
    var normal := Normalize(le, v);
    assert Render(normal) + "" == Render(normal);
    ValueRead(normal, "");
  }

  lemma {:induction false} InsertKeepsDistinct(le: Order, f: Field, sorted: seq<Field>)
    requires DistinctKeys(sorted) && forall i :: 0 <= i < |sorted| ==> sorted[i].key != f.key
    ensures DistinctKeys(Insert(le, f, sorted))
  {
    if |sorted| > 0 && !le(f.key, sorted[0].key) {
      InsertKeepsDistinct(le, f, sorted[1..]);
      var rest := Insert(le, f, sorted[1..]);
      forall k | 0 <= k < |rest| ensures rest[k].key != sorted[0].key { assert rest[k] in rest; }
    }
  }

  lemma {:induction false} SortKeepsDistinct(le: Order, fields: seq<Field>)
    requires DistinctKeys(fields)
    ensures DistinctKeys(Sort(le, fields))
  {
    if |fields| > 0 {
      SortKeepsDistinct(le, fields[1..]);
      var rest := Sort(le, fields[1..]);
      forall k | 0 <= k < |rest| ensures rest[k].key != fields[0].key { assert rest[k] in rest; }
      InsertKeepsDistinct(le, fields[0], rest);
    }
  }

  lemma {:induction false} NormalIsWellFormed(le: Order, v: Json)
    requires WellFormed(v)
    ensures WellFormed(Normalize(le, v))
    decreases v
  {
    match v
    case Array(items) =>
      forall i | 0 <= i < |items| ensures WellFormed(Normalize(le, items[i])) { NormalIsWellFormed(le, items[i]); }
    case Object(fields) =>
      var sorted := Sort(le, fields);
      SortKeepsDistinct(le, fields);
      forall i | 0 <= i < |sorted| ensures WellFormed(Normalize(le, v).fields[i].value) {
        assert sorted[i] in fields;
        NormalIsWellFormed(le, sorted[i].value);
      }
    case _ =>
  }
}
