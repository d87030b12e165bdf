/** Reduction of the per-step scores of one beam according to the scorer's
    aggregation mode. */
module Aggregation {
  import opened Failures

  /** A single aggregate, or the per-step scores themselves for mode "full". */
  datatype Score = Scalar(value: real) | Full(values: seq<real>)

  /** The modes the scorer recognises. */
  const Modes: set<string> := {"min", "max", "mean", "prod", "last", "full"}

  predicate InUnit(s: seq<real>)
  {
    forall i :: 0 <= i < |s| ==> 0.0 <= s[i] <= 1.0
  }

  /** Python's `min(s)`: scans left to right, keeping a strictly smaller item. */
  function Min(s: seq<real>): (m: real)
    requires |s| > 0
    ensures m in s
    ensures forall i :: 0 <= i < |s| ==> m <= s[i]
    decreases |s|
  {
    if |s| == 1 then s[0]
    else
      var best := Min(s[..|s| - 1]);
      if s[|s| - 1] < best then s[|s| - 1] else best
  }

  /** Python's `max(s)`: scans left to right, keeping a strictly larger item. */
  function Max(s: seq<real>): (m: real)
    requires |s| > 0
    ensures m in s
    ensures forall i :: 0 <= i < |s| ==> s[i] <= m
    decreases |s|
  {
    if |s| == 1 then s[0]
    else
      var best := Max(s[..|s| - 1]);
      if s[|s| - 1] > best then s[|s| - 1] else best
  }

  /** The exact sum of the scores, as statistics.mean computes it. */
  function Sum(s: seq<real>): real
    decreases |s|
  {
    if |s| == 0 then 0.0 else Sum(s[..|s| - 1]) + s[|s| - 1]
  }

  /** `statistics.mean(s)`. */
  function Mean(s: seq<real>): real
    requires |s| > 0
  {
    Sum(s) / (|s| as real)
  }

  /** `math.prod(s)`: the product from the left, starting at 1. */
  function Prod(s: seq<real>): real
    decreases |s|
  {
    if |s| == 0 then 1.0 else Prod(s[..|s| - 1]) * s[|s| - 1]
  }

  /** The if/elif chain over the mode: an unknown mode always raises
      NotImplementedError, prod and full always succeed, and the other modes
      succeed exactly when there is at least one score. */
  function Aggregate(mode: string, s: seq<real>): (r: Result<Score>)
    ensures r == Err(NotImplementedError) <==> mode !in Modes
    ensures mode in {"min", "max", "mean", "last"} ==> (r.Ok? <==> |s| > 0)
    ensures mode == "prod" || mode == "full" ==> r.Ok?
    ensures r.Ok? ==> (r.value.Full? <==> mode == "full")
    ensures mode == "full" ==> r == Ok(Full(s))
    ensures mode == "prod" && s == [] ==> r == Ok(Scalar(1.0))
  {
    if mode == "min" then
      if |s| == 0 then Err(ValueError) else Ok(Scalar(Min(s)))
    else if mode == "max" then
      if |s| == 0 then Err(ValueError) else Ok(Scalar(Max(s)))
    else if mode == "mean" then
      if |s| == 0 then Err(StatisticsError) else Ok(Scalar(Mean(s)))
    else if mode == "prod" then
      Ok(Scalar(Prod(s)))
    else if mode == "last" then
      if |s| == 0 then Err(IndexError) else Ok(Scalar(s[|s| - 1]))
    else if mode == "full" then
      Ok(Full(s))
    else
      Err(NotImplementedError)
  }

  /** On an empty score list min and max raise ValueError, mean raises
      StatisticsError and last raises IndexError. */
  lemma AggregateEmpty(mode: string)
    ensures Aggregate(mode, []) ==
      if mode in {"min", "max"} then Err(ValueError)
      else if mode == "mean" then Err(StatisticsError)
      else if mode == "last" then Err(IndexError)
      else if mode == "prod" then Ok(Scalar(1.0))
      else if mode == "full" then Ok(Full([]))
      else Err(NotImplementedError)
  {
  }

  /** The sum lies between n times any lower and n times any upper bound. */
  lemma {:induction false} SumBetween(s: seq<real>, lo: real, hi: real)
    requires forall i :: 0 <= i < |s| ==> lo <= s[i] <= hi
    ensures (|s| as real) * lo <= Sum(s) <= (|s| as real) * hi
    decreases |s|
  {
    if |s| > 0 {
      var n := |s| - 1;
      SumBetween(s[..n], lo, hi);
      assert (|s| as real) * lo == (n as real) * lo + lo;
      assert (|s| as real) * hi == (n as real) * hi + hi;
    }
  }

  lemma DivideBounds(a: real, n: real, lo: real, hi: real)
    requires n > 0.0 && n * lo <= a <= n * hi
    ensures lo <= a / n <= hi
  {
  }

  /** The mean lies between any lower and any upper bound of the scores. */
  lemma MeanBetween(s: seq<real>, lo: real, hi: real)
    requires |s| > 0
    requires forall i :: 0 <= i < |s| ==> lo <= s[i] <= hi
    ensures lo <= Mean(s) <= hi
  {
    SumBetween(s, lo, hi);
    DivideBounds(Sum(s), |s| as real, lo, hi);
  }

  /** The mean lies between the minimum and the maximum. */
  lemma MeanBetweenMinAndMax(s: seq<real>)
    requires |s| > 0
    ensures Min(s) <= Mean(s) <= Max(s)
  {
    MeanBetween(s, Min(s), Max(s));
  }

  lemma UnitProduct(p: real, x: real)
    requires 0.0 <= p <= 1.0 && 0.0 <= x <= 1.0
    ensures 0.0 <= p * x <= p && p * x <= x
  {
    assert p * x <= p * 1.0;
    assert p * x <= 1.0 * x;
  }

  /** A product of scores in [0, 1] is in [0, 1] and at most each factor. */
  lemma {:induction false} ProdBelowEach(s: seq<real>)
    requires InUnit(s)
    ensures 0.0 <= Prod(s) <= 1.0
    ensures forall i :: 0 <= i < |s| ==> Prod(s) <= s[i]
    decreases |s|
  {
    if |s| > 0 {
      var n := |s| - 1;
      var p, x := Prod(s[..n]), s[n];
      ProdBelowEach(s[..n]);
      UnitProduct(p, x);
      forall i | 0 <= i < n
        ensures p * x <= s[i]
      {
        assert s[..n][i] == s[i];
      }
    }
  }

  /** With every score in [0, 1] the product is at most the minimum. */
  lemma ProdBelowMin(s: seq<real>)
    requires |s| > 0 && InUnit(s)
    ensures Prod(s) <= Min(s)
  {
    ProdBelowEach(s);
  }

  /** On a non-empty score list min, max and last return one of the scores
      (last the final one, min a lower and max an upper bound of all), mean
      lies between them, and prod is at most the minimum when every score is
      in [0, 1]. */
  lemma AggregateNonEmpty(s: seq<real>)
    requires |s| > 0
    ensures var lo, hi := Aggregate("min", s), Aggregate("max", s);
            && lo.Ok? && lo.value.Scalar? && lo.value.value in s
            && hi.Ok? && hi.value.Scalar? && hi.value.value in s
            && (forall i :: 0 <= i < |s| ==> lo.value.value <= s[i] <= hi.value.value)
            && Aggregate("last", s) == Ok(Scalar(s[|s| - 1]))
            && Aggregate("mean", s).Ok?
            && lo.value.value <= Aggregate("mean", s).value.value <= hi.value.value
            && Aggregate("full", s) == Ok(Full(s))
            && (InUnit(s) ==> Aggregate("prod", s).value.value <= lo.value.value)
  {
    MeanBetweenMinAndMax(s);
    if InUnit(s) {
      ProdBelowMin(s);
    }
  }
}
