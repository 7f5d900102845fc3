/**
 The depth classifier of the earthquake map (getColor). Depths are modelled
 as mathematical reals.
 */
module Classifier {

  import opened Colors

  /** The band boundaries getColor tests, ascending. */
  const Boundaries: seq<real> := [10.0, 30.0, 50.0, 70.0, 90.0]

  /** Number of boundaries lying strictly below a depth: an independent description of its band. */
  function CountBelow(bs: seq<real>, depth: real): (n: nat)
    ensures n <= |bs|
  {
    if |bs| == 0 then 0
    else (if bs[0] < depth then 1 else 0) + CountBelow(bs[1..], depth)
  }

  predicate Ascending(bs: seq<real>) {
    forall i, j :: 0 <= i < j < |bs| ==> bs[i] < bs[j]
  }

  /**
   In an ascending list of boundaries, exactly k lie strictly below a depth
   when the depth lies above the k-th boundary (if any) and at most the next.
   */
  lemma {:induction false} CountBelowAscending(bs: seq<real>, depth: real, k: nat)
    requires Ascending(bs) && k <= |bs|
    requires k == 0 || bs[k - 1] < depth
    requires k == |bs| || depth <= bs[k]
    ensures CountBelow(bs, depth) == k
    decreases |bs|
  {
    if |bs| > 0 {
      assert Ascending(bs[1..]);
      if bs[0] < depth {
        assert k > 0;
        CountBelowAscending(bs[1..], depth, k - 1);
      } else {
        assert k == 0;
        CountBelowAscending(bs[1..], depth, 0);
      }
    }
  }

  /**
   Depth classifier: a first-match-wins ladder of strict `>` tests from the
   deepest band down, with an unconditional default. The color's position
   on the scale is the number of boundaries the depth lies strictly above.
   */
  function GetColor(depth: real): (c: Color)
    ensures Rank(c) == CountBelow(Boundaries, depth)
  {
    var c :=
      if depth > 90.0 then Red
      else if depth > 70.0 then Orangered
      else if depth > 50.0 then Darkorange
      else if depth > 30.0 then Orange
      else if depth > 10.0 then Yellow
      else Springgreen;
    CountBelowAscending(Boundaries, depth, Rank(c));
    c
  }

  /** Depth d lies in the band of color c: above the boundary below c's rank (if any) and at most the one at it (if any). */
  predicate InBand(c: Color, depth: real) {
    (Rank(c) == 0 || Boundaries[Rank(c) - 1] < depth) &&
    (Rank(c) == 5 || depth <= Boundaries[Rank(c)])
  }

  /** The bands partition the reals and getColor picks exactly the band the depth lies in. */
  lemma GetColorIsBand(depth: real, c: Color)
    ensures GetColor(depth) == c <==> InBand(c, depth)
  {
  }

  /** Every boundary belongs to the band below it, because every test is strict. */
  lemma BoundaryInLowerBand(k: nat)
    requires k < |Boundaries|
    ensures Rank(GetColor(Boundaries[k])) == k
  {
  }

  /** The concrete boundary cases. */
  lemma BoundaryColors()
    ensures GetColor(90.0) == Orangered
    ensures GetColor(70.0) == Darkorange
    ensures GetColor(50.0) == Orange
    ensures GetColor(30.0) == Yellow
    ensures GetColor(10.0) == Springgreen
  {
  }

  /** A deeper earthquake never gets a color lower on the scale. */
  lemma GetColorMonotone(d1: real, d2: real)
    requires d1 <= d2
    ensures Rank(GetColor(d1)) <= Rank(GetColor(d2))
  {
  }
}
