/**
 A query for the first rows in some order: which rows match and what they are sorted by is given
 row by row, `None` for a row that does not match.
 */
module Queries {
  import opened Basics
  import opened Results

  predicate Matches(keys: seq<Option<int>>, k: int) { 0 <= k < |keys| && keys[k].Some? }

  /** Different matching rows in order, at most `limit`, and none that was passed over belongs before them. */
  ghost predicate FirstInOrder(keys: seq<Option<int>>, batch: seq<nat>, limit: nat) {
    && |batch| <= limit
    && (forall i :: 0 <= i < |batch| ==> Matches(keys, batch[i]))
    && Distinct(batch)
    && (forall i, j :: 0 <= i < j < |batch| ==> keys[batch[i]].value <= keys[batch[j]].value)
    && (forall k: nat :: Matches(keys, k) && k !in batch ==>
         |batch| == limit && forall i :: 0 <= i < |batch| ==> keys[batch[i]].value <= keys[k].value)
  }

  /** Among the first `n` rows, a matching one with the least key that is not taken yet. */
  function Least(keys: seq<Option<int>>, taken: seq<nat>, n: nat): (least: Option<nat>)
    requires n <= |keys|
    ensures least.Some? ==>
      && Matches(keys, least.value) && least.value < n && least.value !in taken
      && forall k: nat :: k < n && Matches(keys, k) && k !in taken ==> keys[least.value].value <= keys[k].value
    ensures least.None? ==> forall k: nat :: k < n && Matches(keys, k) ==> k in taken
  {
    if n == 0 then None
    else
      var earlier := Least(keys, taken, n - 1);
      if keys[n - 1].None? || n - 1 in taken then earlier
      else if earlier.Some? && keys[earlier.value].value <= keys[n - 1].value then earlier
      else Some(n - 1)
  }

  function First(keys: seq<Option<int>>, limit: nat): (batch: seq<nat>)
    ensures FirstInOrder(keys, batch, limit)
  {
    if limit == 0 then []
    else
      var earlier := First(keys, limit - 1);
      if |earlier| < limit - 1 then earlier
      else
        match Least(keys, earlier, |keys|)
        case None => earlier
        case Some(k) => earlier + [k]
  }
}
