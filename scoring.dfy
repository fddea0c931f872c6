/**
 * The arithmetic the analysis tasks rely on: Python's `max` over
 * `(score, row)` tuples, `statistics.mean`, SQL `AVG`, and the resource score.
 */
module Scoring {
  import opened Common

  predicate IsStrictMax(s: seq<real>, k: nat)
  {
    k < |s| && forall j :: 0 <= j < |s| && j != k ==> s[j] < s[k]
  }

  /**
   * CPython's `max` scanning `[(s[0], b0), (s[1], b1), ...]`: an item replaces
   * the running maximum when its score is greater; an item whose score equals
   * the running maximum makes the tuple comparison fall through to the rows,
   * which cannot be ordered (`TypeError`, `None` here).
   */
  function RunningMax(s: seq<real>, i: nat, k: nat): (r: Option<nat>)
    requires k < i <= |s|
    ensures r.Some? ==> r.value < |s|
    decreases |s| - i
  {
    if i == |s| then Some(k)
    else if s[i] == s[k] then None
    else RunningMax(s, i + 1, if s[i] > s[k] then i else k)
  }

  function MaxWithTie(s: seq<real>): (r: Option<nat>)
    requires |s| > 0
    ensures r.Some? ==> r.value < |s|
  {
    RunningMax(s, 1, 0)
  }

  lemma {:induction false} RunningMaxIsStrictMax(s: seq<real>, i: nat, k: nat)
    requires k < i <= |s|
    requires forall j :: 0 <= j < i && j != k ==> s[j] < s[k]
    ensures RunningMax(s, i, k).Some? ==> IsStrictMax(s, RunningMax(s, i, k).value)
    ensures (forall a, b :: 0 <= a < b < |s| ==> s[a] != s[b]) ==> RunningMax(s, i, k).Some?
    decreases |s| - i
  {
    if i < |s| && s[i] != s[k] {
      var k' := if s[i] > s[k] then i else k;
      RunningMaxIsStrictMax(s, i + 1, k');
    }
  }

  /**
   * When `max` returns, it returns the index of the unique greatest score;
   * when all scores differ, it returns.
   */
  lemma MaxWithTieSpec(s: seq<real>)
    requires |s| > 0
    ensures MaxWithTie(s).Some? ==> IsStrictMax(s, MaxWithTie(s).value)
    ensures (forall a, b :: 0 <= a < b < |s| ==> s[a] != s[b]) ==> MaxWithTie(s).Some?
  {
    RunningMaxIsStrictMax(s, 1, 0);
  }

  /** A tie on the top score always raises. */
  lemma {:induction false} TopTieRaises(s: seq<real>, a: nat, b: nat)
    requires a < |s| && b < |s| && a != b && s[a] == s[b]
    requires forall j :: 0 <= j < |s| ==> s[j] <= s[a]
    ensures MaxWithTie(s).None?
  {
    MaxWithTieSpec(s);
  }

  /** `max(s)` of a non-empty list of floats. */
  function MaxOf(s: seq<real>): (m: real)
    requires |s| > 0
    ensures forall j :: 0 <= j < |s| ==> s[j] <= m
    ensures exists j :: 0 <= j < |s| && s[j] == m
  {
    if |s| == 1 then s[0]
    else
      var rest := MaxOf(s[1..]);
      assert forall j :: 1 <= j < |s| ==> s[j] == s[1..][j - 1];
      if s[0] >= rest then s[0] else rest
  }

  /**
   * No score equals the greatest of the scores before it: the scan never
   * finds an item tying with its running maximum.
   */
  predicate NoRunningTie(s: seq<real>)
  {
    forall i :: 1 <= i < |s| ==> s[i] != MaxOf(s[..i])
  }

  /** The running maximum after one more item: the item if it is greater, else the maximum so far. */
  lemma MaxOfExtend(s: seq<real>, i: nat, k: nat)
    requires k < i < |s| && s[k] == MaxOf(s[..i]) && s[i] != s[k]
    ensures MaxOf(s[..i + 1]) == if s[i] > s[k] then s[i] else s[k]
  {
    var m := MaxOf(s[..i + 1]);
    var j :| 0 <= j < i + 1 && s[..i + 1][j] == m;
    assert s[..i + 1][i] == s[i] && s[..i + 1][k] == s[k];
    if j < i {
      assert s[..i][j] == s[j];
    }
  }

  /** No score from position `i` on ties with the maximum of the scores before it. */
  predicate NoRunningTieFrom(s: seq<real>, i: nat)
  {
    forall j :: i <= j < |s| && 1 <= j ==> s[j] != MaxOf(s[..j])
  }

  lemma NoRunningTieFromStep(s: seq<real>, i: nat)
    requires 1 <= i < |s|
    ensures NoRunningTieFrom(s, i) <==> s[i] != MaxOf(s[..i]) && NoRunningTieFrom(s, i + 1)
  {
  }

  lemma {:induction false} RunningMaxExact(s: seq<real>, i: nat, k: nat)
    requires k < i <= |s| && s[k] == MaxOf(s[..i])
    ensures RunningMax(s, i, k).Some? <==> NoRunningTieFrom(s, i)
    decreases |s| - i
  {
    if i < |s| {
      NoRunningTieFromStep(s, i);
      if s[i] != s[k] {
        MaxOfExtend(s, i, k);
        RunningMaxExact(s, i + 1, if s[i] > s[k] then i else k);
      }
    }
  }

  /**
   * `max` over the tuples returns exactly when no score ties with the
   * maximum of the scores before it: a tie below the top score raises too.
   */
  lemma MaxWithTieExact(s: seq<real>)
    requires |s| > 0
    ensures MaxWithTie(s).Some? <==> NoRunningTie(s)
  {
    assert s[..1][0] == s[0];
    RunningMaxExact(s, 1, 0);
    assert NoRunningTieFrom(s, 1) <==> NoRunningTie(s);
  }

  /** `[0.5, 0.5, 0.9]` has a strictly greatest score, yet `max` raises on the tie before it. */
  lemma LowerTieRaises()
    ensures IsStrictMax([0.5, 0.5, 0.9], 2) && MaxWithTie([0.5, 0.5, 0.9]).None?
  {
    assert RunningMax([0.5, 0.5, 0.9], 1, 0).None?;
  }

  /** Where the tuple `max` returns, its score is the plain `max` of the scores. */
  lemma MaxWithTieAgreesWithMaxOf(s: seq<real>)
    requires |s| > 0 && MaxWithTie(s).Some?
    ensures s[MaxWithTie(s).value] == MaxOf(s)
  {
    MaxWithTieSpec(s);
  }

  function Sum(s: seq<real>): real
  {
    if |s| == 0 then 0.0 else Sum(s[..|s| - 1]) + s[|s| - 1]
  }

  /** Every value present: the list `statistics.mean` can average without a `TypeError`. */
  predicate AllPresent(s: seq<Option<real>>)
  {
    forall i :: 0 <= i < |s| ==> s[i].Some?
  }

  function Values(s: seq<Option<real>>): (v: seq<real>)
    requires AllPresent(s)
    ensures |v| == |s| && forall i :: 0 <= i < |s| ==> v[i] == s[i].value
  {
    seq(|s|, i requires 0 <= i < |s| => s[i].value)
  }

  /**
   * `statistics.mean` of scores that may be `None`: an empty list is a
   * `StatisticsError` and a `None` a `TypeError`, both `None` here.
   */
  function Mean(s: seq<Option<real>>): (m: Option<real>)
    ensures m.Some? <==> |s| > 0 && AllPresent(s)
    ensures m.Some? ==> m.value * (|s| as real) == Sum(Values(s))
  {
    if |s| > 0 && AllPresent(s) then Some(Sum(Values(s)) / (|s| as real)) else None
  }

  /** The values of the scores that are present, in order: SQL `AVG` skips NULLs. */
  function Present(s: seq<Option<real>>): (v: seq<real>)
    ensures |v| <= |s|
  {
    if |s| == 0 then []
    else Present(s[..|s| - 1]) + (if s[|s| - 1].Some? then [s[|s| - 1].value] else [])
  }

  /** SQL `AVG`: the mean of the non-NULL values, NULL when there are none. */
  function SqlAvg(s: seq<Option<real>>): (m: Option<real>)
    ensures m.Some? <==> |Present(s)| > 0
  {
    var v := Present(s);
    if |v| == 0 then None else Some(Sum(v) / (|v| as real))
  }

  lemma {:induction false} PresentOfAllPresent(s: seq<Option<real>>)
    requires AllPresent(s)
    ensures Present(s) == Values(s)
    decreases |s|
  {
    if |s| > 0 {
      PresentOfAllPresent(s[..|s| - 1]);
      assert Values(s[..|s| - 1]) + [s[|s| - 1].value] == Values(s);
    }
  }

  /** Where `statistics.mean` succeeds, SQL `AVG` gives the same value. */
  lemma MeanAgreesWithSqlAvg(s: seq<Option<real>>)
    requires Mean(s).Some?
    ensures SqlAvg(s) == Mean(s)
  {
    PresentOfAllPresent(s);
  }

  lemma {:induction false} SumBounds(s: seq<real>, lo: real, hi: real)
    requires forall i :: 0 <= i < |s| ==> lo <= s[i] <= hi
    ensures lo * (|s| as real) <= Sum(s) <= hi * (|s| as real)
    decreases |s|
  {
    if |s| > 0 {
      SumBounds(s[..|s| - 1], lo, hi);
    }
  }

  /** A mean lies between the least and the greatest of the values averaged. */
  lemma MeanBounds(s: seq<Option<real>>, lo: real, hi: real)
    requires Mean(s).Some?
    requires forall i :: 0 <= i < |s| ==> s[i].Some? && lo <= s[i].value <= hi
    ensures lo <= Mean(s).value <= hi
  {
    SumBounds(Values(s), lo, hi);
    var n := |s| as real;
    var m := Mean(s).value;
    assert m * n == Sum(Values(s));
    assert (m - lo) * n >= 0.0 && (hi - m) * n >= 0.0;
  }

  /**
   * `min(1.0, my_ok / (base_ok or 1))`: the share of the baseline's successful
   * resource loads that this result also loaded, capped at 1.
   */
  function ResourceScore(myOk: nat, baseOk: nat): (r: real)
    ensures 0.0 <= r <= 1.0
    ensures baseOk > 0 && myOk <= baseOk ==> r * (baseOk as real) == myOk as real
    ensures myOk >= baseOk && myOk > 0 ==> r == 1.0
    ensures baseOk == 0 ==> r == (if myOk == 0 then 0.0 else 1.0)
    ensures myOk == 0 ==> r == 0.0
  {
    var denominator := if baseOk == 0 then 1 else baseOk;
    Min(1.0, (myOk as real) / (denominator as real))
  }

  /** Loading more resources never lowers the resource score. */
  lemma ResourceScoreMonotone(a: nat, b: nat, baseOk: nat)
    requires a <= b
    ensures ResourceScore(a, baseOk) <= ResourceScore(b, baseOk)
  {
    var denominator := if baseOk == 0 then 1 else baseOk;
    assert (a as real) / (denominator as real) <= (b as real) / (denominator as real);
  }

  /** The overall score: image similarity scaled by the resource score. */
  function OverallScore(image: real, resource: real): real
    requires 0.0 <= resource <= 1.0
  {
    image * resource
  }

  /**
   * The overall score lies between 0 and the image score, and equals the
   * image score at full resource score.
   */
  lemma OverallScoreBounds(image: real, resource: real)
    requires 0.0 <= resource <= 1.0
    ensures image >= 0.0 ==> 0.0 <= OverallScore(image, resource) <= image
    ensures image <= 0.0 ==> image <= OverallScore(image, resource) <= 0.0
    ensures resource == 1.0 ==> OverallScore(image, resource) == image
  {
    ScaleBounds(image, resource);
  }

  lemma ScaleBounds(x: real, f: real)
    requires 0.0 <= f <= 1.0
    ensures x >= 0.0 ==> 0.0 <= x * f <= x
    ensures x <= 0.0 ==> x <= x * f <= 0.0
  {
    if x >= 0.0 {
      MulNonNegative(x, f);
      MulNonNegative(x, 1.0 - f);
    } else {
      MulNonNegative(-x, f);
      MulNonNegative(-x, 1.0 - f);
    }
  }

  lemma MulNonNegative(a: real, b: real)
    requires a >= 0.0 && b >= 0.0
    ensures a * b >= 0.0
  {
  }
}
