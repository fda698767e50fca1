/** Small notions that several modules share. */
module Basics {
  ghost predicate Distinct<T(!new)>(s: seq<T>) { forall i, j :: 0 <= i < j < |s| ==> s[i] != s[j] }

  /** A table in which no row but `i` has changed. */
  ghost predicate OnlyRow<T>(rows: seq<T>, rows': seq<T>, i: nat) {
    |rows'| == |rows| && i < |rows| && forall k :: 0 <= k < |rows| && k != i ==> rows'[k] == rows[k]
  }

  function Power2(n: nat): nat { if n == 0 then 1 else 2 * Power2(n - 1) }
}
