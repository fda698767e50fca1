/** Sums over the rows of a table, taken in order of insertion. */
module Sums {

  function SumBy<T>(rows: seq<T>, f: T -> int): int {
    if |rows| == 0 then 0
    else SumBy(rows[..|rows| - 1], f) + f(rows[|rows| - 1])
  }

  lemma SumByAppend<T>(rows: seq<T>, row: T, f: T -> int)
    ensures SumBy(rows + [row], f) == SumBy(rows, f) + f(row)
  {
    assert (rows + [row])[..|rows|] == rows;
  }

  lemma {:induction false} SumByUpdate<T>(rows: seq<T>, i: nat, row: T, f: T -> int)
    requires i < |rows|
    ensures SumBy(rows[i := row], f) == SumBy(rows, f) - f(rows[i]) + f(row)
  {
    var last := |rows| - 1;
    if i == last {
      assert rows[i := row][..last] == rows[..last];
    } else {
      assert rows[i := row][..last] == rows[..last][i := row];
      SumByUpdate(rows[..last], i, row, f);
    }
  }

  /** Two tables whose rows weigh the same, position by position, have the same sum. */
  lemma {:induction false} SumByPointwise<S, T>(a: seq<S>, f: S -> int, b: seq<T>, g: T -> int)
    requires |a| == |b|
    requires forall i :: 0 <= i < |a| ==> f(a[i]) == g(b[i])
    ensures SumBy(a, f) == SumBy(b, g)
  {
    if |a| > 0 {
      SumByPointwise(a[..|a| - 1], f, b[..|b| - 1], g);
    }
  }

  lemma {:induction false} SumByNonNegative<T>(rows: seq<T>, f: T -> int)
    requires forall i :: 0 <= i < |rows| ==> 0 <= f(rows[i])
    ensures 0 <= SumBy(rows, f)
  {
    if |rows| > 0 {
      SumByNonNegative(rows[..|rows| - 1], f);
    }
  }

  lemma {:induction false} SumByMember<T>(rows: seq<T>, f: T -> int, i: nat)
    requires i < |rows|
    requires forall k :: 0 <= k < |rows| ==> 0 <= f(rows[k])
    ensures f(rows[i]) <= SumBy(rows, f)
  {
    var last := |rows| - 1;
    if i == last {
      SumByNonNegative(rows[..last], f);
    } else {
      SumByMember(rows[..last], f, i);
    }
  }

  lemma {:induction false} SumByZero<T>(rows: seq<T>, f: T -> int)
    requires forall i :: 0 <= i < |rows| ==> f(rows[i]) == 0
    ensures SumBy(rows, f) == 0
  {
    if |rows| > 0 {
      SumByZero(rows[..|rows| - 1], f);
    }
  }

  lemma {:induction false} SumByConcat<T>(a: seq<T>, b: seq<T>, f: T -> int)
    ensures SumBy(a + b, f) == SumBy(a, f) + SumBy(b, f)
  {
    if |b| == 0 {
      assert a + b == a;
    } else {
      var last := |b| - 1;
      assert (a + b)[..|a + b| - 1] == a + b[..last];
      SumByConcat(a, b[..last], f);
    }
  }

  lemma {:induction false} SumByAdd<T>(rows: seq<T>, f: T -> int, g: T -> int, h: T -> int)
    requires forall i :: 0 <= i < |rows| ==> h(rows[i]) == f(rows[i]) + g(rows[i])
    ensures SumBy(rows, h) == SumBy(rows, f) + SumBy(rows, g)
  {
    if |rows| > 0 {
      SumByAdd(rows[..|rows| - 1], f, g, h);
    }
  }

  lemma SumByCons<T>(row: T, rows: seq<T>, f: T -> int)
    ensures SumBy([row] + rows, f) == f(row) + SumBy(rows, f)
  {
    SumByConcat([row], rows, f);
    SumByAppend([], row, f);
    assert [] + [row] == [row];
  }

  /** Sum of a weight over the row numbers below `n`. */
  function SumTo(n: nat, f: nat -> int): int {
    if n == 0 then 0 else SumTo(n - 1, f) + f(n - 1)
  }

  lemma {:induction false} SumToEqual(n: nat, f: nat -> int, g: nat -> int)
    requires forall i: nat :: i < n ==> f(i) == g(i)
    ensures SumTo(n, f) == SumTo(n, g)
  {
    if n > 0 {
      SumToEqual(n - 1, f, g);
    }
  }

  /** Changing the weight of row `k` by `delta` changes the sum by `delta`. */
  lemma {:induction false} SumToChange(n: nat, f: nat -> int, g: nat -> int, k: nat, delta: int)
    requires k < n
    requires g(k) == f(k) + delta
    requires forall i: nat :: i < n && i != k ==> f(i) == g(i)
    ensures SumTo(n, g) == SumTo(n, f) + delta
  {
    if k == n - 1 {
      SumToEqual(n - 1, f, g);
    } else {
      SumToChange(n - 1, f, g, k, delta);
    }
  }

  lemma {:induction false} SumToNonNegative(n: nat, f: nat -> int)
    requires forall i: nat :: i < n ==> 0 <= f(i)
    ensures 0 <= SumTo(n, f)
  {
    if n > 0 {
      SumToNonNegative(n - 1, f);
    }
  }

  lemma {:induction false} SumToMember(n: nat, f: nat -> int, k: nat)
    requires k < n
    requires forall i: nat :: i < n ==> 0 <= f(i)
    ensures f(k) <= SumTo(n, f)
  {
    if k == n - 1 {
      SumToNonNegative(n - 1, f);
    } else {
      SumToMember(n - 1, f, k);
    }
  }
}
