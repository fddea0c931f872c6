/** The few Django ORM query semantics the core relies on, over a table held as a sequence of rows. */
module Orm {
  import opened Common

  predicate StrictlyIncreasing(ix: seq<nat>)
  {
    forall i, j :: 0 <= i < j < |ix| ==> ix[i] < ix[j]
  }

  /** The primary keys (indices) of the rows satisfying `p`, in key order: `filter(...)`. */
  function IndicesWhere<T>(rows: seq<T>, p: T -> bool): (ix: seq<nat>)
    ensures forall k: nat :: k in ix <==> k < |rows| && p(rows[k])
    ensures StrictlyIncreasing(ix)
    ensures forall i :: 0 <= i < |ix| ==> ix[i] < |rows|
  {
    if |rows| == 0 then []
    else
      var front := IndicesWhere(rows[..|rows| - 1], p);
      assert forall k: nat :: k < |rows| - 1 ==> rows[..|rows| - 1][k] == rows[k];
      front + (if p(rows[|rows| - 1]) then [|rows| - 1] else [])
  }

  /** A filter no row satisfies is empty. */
  lemma {:induction false} NoneMatchIsEmpty<T>(rows: seq<T>, p: T -> bool)
    requires forall k :: 0 <= k < |rows| ==> !p(rows[k])
    ensures IndicesWhere(rows, p) == []
    decreases |rows|
  {
    if |rows| > 0 {
      NoneMatchIsEmpty(rows[..|rows| - 1], p);
    }
  }

  /** The first row at or after `from` that satisfies `p`. */
  function FirstFrom<T>(rows: seq<T>, p: T -> bool, from: nat): (r: Option<nat>)
    requires from <= |rows|
    ensures r.Some? ==> from <= r.value < |rows| && p(rows[r.value])
    ensures r.Some? ==> forall k :: from <= k < r.value ==> !p(rows[k])
    ensures r.None? ==> forall k :: from <= k < |rows| ==> !p(rows[k])
    decreases |rows| - from
  {
    if from == |rows| then None
    else if p(rows[from]) then Some(from)
    else FirstFrom(rows, p, from + 1)
  }

  datatype GetResult = Found(index: nat) | DoesNotExist | MultipleObjectsReturned

  /** `get(...)`: the one matching row, or the exception Django raises. */
  function Get<T>(rows: seq<T>, p: T -> bool): (r: GetResult)
    ensures r.Found? ==> r.index < |rows| && p(rows[r.index])
    ensures r.Found? ==> forall k :: 0 <= k < |rows| && k != r.index ==> !p(rows[k])
    ensures r.DoesNotExist? <==> forall k :: 0 <= k < |rows| ==> !p(rows[k])
    ensures r.MultipleObjectsReturned? <==> exists i, j :: 0 <= i < j < |rows| && p(rows[i]) && p(rows[j])
  {
    match FirstFrom(rows, p, 0)
    case None => DoesNotExist
    case Some(i) =>
      match FirstFrom(rows, p, i + 1)
      case None => Found(i)
      case Some(j) => MultipleObjectsReturned
  }

  /** The row `get` returns is the one that matches. */
  lemma GetFound<T>(rows: seq<T>, p: T -> bool, i: nat)
    requires i < |rows| && p(rows[i])
    requires forall k :: 0 <= k < |rows| && k != i ==> !p(rows[k])
    ensures Get(rows, p) == Found(i)
  {
  }
}
