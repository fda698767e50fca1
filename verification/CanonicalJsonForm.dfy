/** Canonical JSON is a canonical form, exactly when the key comparison never ties different keys. */
module CanonicalJsonForm {
  import opened CanonicalJson
  import opened CanonicalJsonParser
  import opened Results

  ghost predicate Ordered(le: Order, fields: seq<Field>) {
    forall i, j :: 0 <= i < j < |fields| ==> le(fields[i].key, fields[j].key)
  }

  lemma {:induction false} InsertOrders(le: Order, f: Field, sorted: seq<Field>)
    requires Preorder(le) && Ordered(le, sorted)
    ensures Ordered(le, Insert(le, f, sorted))
  {
    if |sorted| > 0 {
      if le(f.key, sorted[0].key) {
        forall k | 0 <= k < |sorted| ensures le(f.key, sorted[k].key) {
          assert le(sorted[0].key, sorted[k].key);
        }
      } else {
        InsertOrders(le, f, sorted[1..]);
        var rest := Insert(le, f, sorted[1..]);
        forall k | 0 <= k < |rest| ensures le(sorted[0].key, rest[k].key) {
          assert rest[k] in rest;
          if rest[k] != f {
            var i :| 0 <= i < |sorted[1..]| && sorted[1..][i] == rest[k];
            assert sorted[i + 1] == rest[k];
          }
        }
      }
    }
  }

  lemma {:induction false} SortOrders(le: Order, fields: seq<Field>)
    requires Preorder(le)
    ensures Ordered(le, Sort(le, fields))
  {
    if |fields| > 0 {
      SortOrders(le, fields[1..]);
      InsertOrders(le, fields[0], Sort(le, fields[1..]));
    }
  }

  lemma SortKeepsKeys(le: Order, fields: seq<Field>, key: string)
    ensures HasKey(Sort(le, fields), key) <==> HasKey(fields, key)
  {
    var sorted := Sort(le, fields);
    if HasKey(fields, key) {
      var i :| 0 <= i < |fields| && fields[i].key == key;
      assert fields[i] in sorted;
      var j :| 0 <= j < |sorted| && sorted[j] == fields[i];
      assert sorted[j].key == key;
    }
    if HasKey(sorted, key) {
      var i :| 0 <= i < |sorted| && sorted[i].key == key;
      assert sorted[i] in fields;
      var j :| 0 <= j < |fields| && fields[j] == sorted[i];
      assert fields[j].key == key;
    }
  }

  // ----- equal prints mean equal values ----------------------------------------------

  ghost predicate SameKeysInOrder(xs: seq<Field>, ys: seq<Field>) {
    |xs| == |ys| && forall i :: 0 <= i < |xs| ==> xs[i].key == ys[i].key
  }

  /** Fields with one key, found in two objects whose sorted fields have the same keys in order, are at one place. */
  lemma SamePlace(le: Order, xs: seq<Field>, ys: seq<Field>, i: nat, j: nat) returns (p: nat)
    requires DistinctKeys(ys) && i < |xs| && j < |ys| && xs[i].key == ys[j].key
    requires SameKeysInOrder(Sort(le, xs), Sort(le, ys))
    ensures p < |xs| && Sort(le, xs)[p] == xs[i] && p < |ys| && Sort(le, ys)[p] == ys[j]
  {
    assert xs[i] in Sort(le, xs);
    p :| 0 <= p < |xs| && Sort(le, xs)[p] == xs[i];
    assert Sort(le, ys)[p] in ys;
    var k :| 0 <= k < |ys| && ys[k] == Sort(le, ys)[p];
    assert ys[k].key == ys[j].key;
    if k < j {} else if j < k {}
  }

  lemma KeysFromOrder(le: Order, xs: seq<Field>, ys: seq<Field>, key: string)
    requires SameKeysInOrder(Sort(le, xs), Sort(le, ys))
    ensures HasKey(xs, key) <==> HasKey(ys, key)
  {
    SortKeepsKeys(le, xs, key);
    SortKeepsKeys(le, ys, key);
    var sx, sy := Sort(le, xs), Sort(le, ys);
    if HasKey(sx, key) {
      var i :| 0 <= i < |sx| && sx[i].key == key;
      assert sy[i].key == key;
    }
    if HasKey(sy, key) {
      var i :| 0 <= i < |sy| && sy[i].key == key;
      assert sx[i].key == key;
    }
  }

  lemma ObjectsInOrder(le: Order, xs: seq<Field>, ys: seq<Field>)
    requires Normalize(le, Object(xs)) == Normalize(le, Object(ys))
    ensures SameKeysInOrder(Sort(le, xs), Sort(le, ys))
    ensures forall p :: 0 <= p < |xs| ==> Normalize(le, Sort(le, xs)[p].value) == Normalize(le, Sort(le, ys)[p].value)
  {
    var nx, ny := Normalize(le, Object(xs)).fields, Normalize(le, Object(ys)).fields;
    assert |nx| == |xs| && |ny| == |ys|;
    forall p | 0 <= p < |xs|
      ensures Sort(le, xs)[p].key == Sort(le, ys)[p].key
      ensures Normalize(le, Sort(le, xs)[p].value) == Normalize(le, Sort(le, ys)[p].value)
    {
      assert nx[p] == ny[p];
    }
  }

  lemma {:induction false} NormalEqualMeansSame(le: Order, a: Json, b: Json)
    requires WellFormed(a) && WellFormed(b) && Normalize(le, a) == Normalize(le, b)
    ensures Same(a, b)
    decreases a
  {
    match (a, b)
    case (Array(xs), Array(ys)) =>
      var na, nb := Normalize(le, a).items, Normalize(le, b).items;
      assert |na| == |xs| && |nb| == |ys|;
      forall i | 0 <= i < |xs| ensures Same(xs[i], ys[i]) {
        assert na[i] == nb[i];
        NormalEqualMeansSame(le, xs[i], ys[i]);
      }
    case (Object(xs), Object(ys)) =>
      ObjectsInOrder(le, xs, ys);
      forall key ensures HasKey(xs, key) <==> HasKey(ys, key) { KeysFromOrder(le, xs, ys, key); }
      forall i, j | 0 <= i < |xs| && 0 <= j < |ys| && xs[i].key == ys[j].key ensures Same(xs[i].value, ys[j].value) {
        var p := SamePlace(le, xs, ys, i, j);
        NormalEqualMeansSame(le, xs[i].value, ys[j].value);
      }
    case _ =>
  }

  // ----- equal values mean equal prints ----------------------------------------------

  ghost predicate Strict(le: Order, fields: seq<Field>) {
    forall i, j :: 0 <= i < j < |fields| ==> le(fields[i].key, fields[j].key) && fields[i].key != fields[j].key
  }

  lemma FirstIsLeast(le: Order, xs: seq<Field>, i: nat)
    requires Strict(le, xs) && i < |xs|
    ensures le(xs[0].key, xs[i].key) || xs[0].key == xs[i].key
  {
  }

  lemma FirstKeys(le: Order, xs: seq<Field>, ys: seq<Field>)
    requires Antisymmetric(le) && Strict(le, xs) && Strict(le, ys) && |xs| > 0 && |ys| > 0
    requires HasKey(ys, xs[0].key) && HasKey(xs, ys[0].key)
    ensures xs[0].key == ys[0].key
  {
    var j :| 0 <= j < |ys| && ys[j].key == xs[0].key;
    var i :| 0 <= i < |xs| && xs[i].key == ys[0].key;
    FirstIsLeast(le, xs, i);
    FirstIsLeast(le, ys, j);
  }

  lemma TailKeys(le: Order, xs: seq<Field>, key: string)
    requires Strict(le, xs) && |xs| > 0
    ensures HasKey(xs[1..], key) <==> HasKey(xs, key) && key != xs[0].key
  {
    if HasKey(xs, key) && key != xs[0].key {
      var i :| 0 <= i < |xs| && xs[i].key == key;
      assert xs[1..][i - 1].key == key;
    }
    if HasKey(xs[1..], key) {
      var i :| 0 <= i < |xs[1..]| && xs[1..][i].key == key;
      assert xs[i + 1].key == key;
    }
  }

  /** A set of keys can be put in strict order in one way only. */
  lemma {:induction false} OneKeyOrder(le: Order, xs: seq<Field>, ys: seq<Field>)
    requires Antisymmetric(le) && Strict(le, xs) && Strict(le, ys)
    requires forall key :: HasKey(xs, key) <==> HasKey(ys, key)
    ensures SameKeysInOrder(xs, ys)
    decreases |xs|
  {
    if |xs| == 0 {
      if |ys| > 0 {
        var key := ys[0].key;
        assert HasKey(ys, key);
      }
    } else {
      assert HasKey(xs, xs[0].key);
      assert |ys| > 0;
      assert HasKey(ys, ys[0].key);
      FirstKeys(le, xs, ys);
      forall key ensures HasKey(xs[1..], key) <==> HasKey(ys[1..], key) {
        TailKeys(le, xs, key);
        TailKeys(le, ys, key);
      }
      OneKeyOrder(le, xs[1..], ys[1..]);
      forall i | 0 <= i < |xs| ensures |xs| == |ys| && xs[i].key == ys[i].key {
        if i > 0 { assert xs[1..][i - 1].key == ys[1..][i - 1].key; }
      }
    }
  }

  lemma SortStrict(le: Order, fields: seq<Field>)
    requires Preorder(le) && DistinctKeys(fields)
    ensures Strict(le, Sort(le, fields))
  {
    SortOrders(le, fields);
    SortKeepsDistinct(le, fields);
  }

  lemma SameObjectsInOrder(le: Order, xs: seq<Field>, ys: seq<Field>)
    requires Preorder(le) && Antisymmetric(le) && DistinctKeys(xs) && DistinctKeys(ys)
    requires forall key :: HasKey(xs, key) <==> HasKey(ys, key)
    ensures SameKeysInOrder(Sort(le, xs), Sort(le, ys))
  {
    SortStrict(le, xs);
    SortStrict(le, ys);
    forall key ensures HasKey(Sort(le, xs), key) <==> HasKey(Sort(le, ys), key) {
      SortKeepsKeys(le, xs, key);
      SortKeepsKeys(le, ys, key);
    }
    OneKeyOrder(le, Sort(le, xs), Sort(le, ys));
  }

  lemma {:induction false} SameMeansNormalEqual(le: Order, a: Json, b: Json)
    requires Preorder(le) && Antisymmetric(le) && WellFormed(a) && WellFormed(b) && Same(a, b)
    ensures Normalize(le, a) == Normalize(le, b)
    decreases a
  {
    match (a, b)
    case (Array(xs), Array(ys)) =>
      forall i | 0 <= i < |xs| ensures Normalize(le, xs[i]) == Normalize(le, ys[i]) { SameMeansNormalEqual(le, xs[i], ys[i]); }
    case (Object(xs), Object(ys)) =>
      SameObjectsInOrder(le, xs, ys);
      var sx, sy := Sort(le, xs), Sort(le, ys);
      forall p | 0 <= p < |sx| ensures Normalize(le, sx[p].value) == Normalize(le, sy[p].value) {
        assert sx[p] in xs && sy[p] in ys;
        var i :| 0 <= i < |xs| && xs[i] == sx[p];
        var j :| 0 <= j < |ys| && ys[j] == sy[p];
        assert xs[i].key == ys[j].key;
        SameMeansNormalEqual(le, sx[p].value, sy[p].value);
      }
      assert Normalize(le, a).fields == Normalize(le, b).fields;
    case _ =>
  }

  // ----- main results ----------------------------------------------------------------

  /** Values that print alike are equal up to key order, whatever the comparison does. */
  lemma PrintTellsApart(le: Order, a: Json, b: Json)
    requires WellFormed(a) && WellFormed(b) && Print(le, a) == Print(le, b)
    ensures Same(a, b)
  {
    PrintRead(le, a);
    PrintRead(le, b);
    NormalEqualMeansSame(le, a, b);
  }

  ghost predicate Agrees(le: Order, a: Json, b: Json) { Print(le, a) == Print(le, b) <==> Same(a, b) }

  ghost predicate Canonical(le: Order) {
    forall a, b :: WellFormed(a) && WellFormed(b) ==> Agrees(le, a, b)
  }

  function Pair(first: string, second: string): Json { Object([Field(first, Null), Field(second, Null)]) }

  lemma PairSorts(le: Order, first: string, second: string)
    requires le(first, second)
    ensures Normalize(le, Pair(first, second)) == Pair(first, second)
  {
    var fields := Pair(first, second).fields;
    assert fields[1..] == [fields[1]] && fields[1..][1..] == [];
    assert Sort(le, fields[1..]) == [fields[1]];
    assert Sort(le, fields) == fields;
  }

  /** Two keys that tie leave two objects, equal up to key order, that print differently. */
  lemma TiePrintsTwice(le: Order, first: string, second: string)
    requires le(first, second) && le(second, first) && first != second
    ensures WellFormed(Pair(first, second)) && WellFormed(Pair(second, first))
    ensures !Agrees(le, Pair(first, second), Pair(second, first))
  {
    PairSorts(le, first, second);
    PairSorts(le, second, first);
    PrintRead(le, Pair(first, second));
    PrintRead(le, Pair(second, first));
    assert Pair(first, second).fields[0].key != Pair(second, first).fields[0].key;
    PairsAreSame(first, second);
  }

  lemma PairsAreSame(first: string, second: string)
    requires first != second
    ensures Same(Pair(first, second), Pair(second, first))
  {
    var a, b := Pair(first, second).fields, Pair(second, first).fields;
    forall key ensures HasKey(a, key) <==> HasKey(b, key) {
      assert HasKey(a, key) <==> a[0].key == key || a[1].key == key;
      assert HasKey(b, key) <==> b[0].key == key || b[1].key == key;
    }
  }

  /**
   Printing is a canonical form, two values printing alike if and only if they are equal up to key
   order at every depth, exactly when the comparison tells all different keys apart.
   */
  lemma CanonicalExact(le: Order)
    requires Preorder(le)
    ensures Canonical(le) <==> Antisymmetric(le)
  {
    if Antisymmetric(le) {
      forall a, b | WellFormed(a) && WellFormed(b) ensures Agrees(le, a, b) {
        if Same(a, b) {
          SameMeansNormalEqual(le, a, b);
          PrintIsRender(le, a);
          PrintIsRender(le, b);
        }
        if Print(le, a) == Print(le, b) { PrintTellsApart(le, a, b); }
      }
    } else {
      var first, second :| le(first, second) && le(second, first) && first != second;
      TiePrintsTwice(le, first, second);
    }
  }
}
