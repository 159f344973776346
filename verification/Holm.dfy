/** Holm's step-down correction: the loop over the sorted p values, an order-free form of what it
    computes, and its equality with closed testing. */
module Holm {
  import opened Wrappers
  import opened Ranking

  datatype AnalysisError = Domain | EmptySample

  datatype Correction = Correction(adjusted: seq<real>, rejected: seq<bool>)

  function MinR(a: real, b: real): real
  {
    if b < a then b else a
  }

  function MaxR(a: real, b: real): real
  {
    if a < b then b else a
  }

  function Scaled(n: nat, x: real): real
  {
    n as real * x
  }

  /** How many p values are at least p_j, times p_j. */
  function Weight(p: seq<real>, j: nat): real
    requires j < |p|
  {
    Scaled(|AtOrAbove(p, p[j])|, p[j])
  }

  /** The largest weight among the first n values that do not exceed t. */
  function MaxWeight(p: seq<real>, t: real, n: nat): real
    requires n <= |p|
  {
    if n == 0 then 0.0
    else
      var rest := MaxWeight(p, t, n - 1);
      if p[n - 1] <= t then MaxR(rest, Weight(p, n - 1)) else rest
  }

  /** The adjusted value, without reference to any order. */
  function Adjusted(p: seq<real>, i: nat): real
    requires i < |p|
  {
    MinR(1.0, MaxWeight(p, p[i], |p|))
  }

  lemma {:induction false} MaxWeightIsMax(p: seq<real>, t: real, n: nat, bound: real)
    requires n <= |p| && 0.0 <= bound
    ensures MaxWeight(p, t, n) <= bound <==> forall j: nat | j < n && p[j] <= t :: Weight(p, j) <= bound
  {
    if n > 0 {
      hide Weight;
      MaxWeightIsMax(p, t, n - 1, bound);
    }
  }

  predicate Probabilities(p: seq<real>)
  {
    forall i | 0 <= i < |p| :: 0.0 <= p[i] <= 1.0
  }

  /** What the loop weighs at a place: the values from there on, times the value there. */
  function PlaceWeight(p: seq<real>, order: seq<nat>, r: nat): real
    requires r < |order| == |p| && Indices(order, |p|)
  {
    Scaled(|p| - r, p[order[r]])
  }

  /** The running maximum after a place of the order. */
  function Running(p: seq<real>, order: seq<nat>, places: nat): real
    requires places <= |order| == |p| && Indices(order, |p|)
  {
    if places == 0 then 0.0
    else MaxR(Running(p, order, places - 1), PlaceWeight(p, order, places - 1))
  }

  lemma {:induction false} RunningIsMax(p: seq<real>, order: seq<nat>, places: nat, bound: real)
    requires places <= |order| == |p| && 0.0 <= bound && Indices(order, |p|)
    ensures Running(p, order, places) <= bound
       <==> forall r: nat | r < places :: PlaceWeight(p, order, r) <= bound
  {
    if places > 0 {
      hide PlaceWeight, Indices;
      RunningIsMax(p, order, places - 1, bound);
    }
  }

  lemma ScaledMono(m: nat, n: nat, x: real)
    requires m <= n && 0.0 <= x
    ensures Scaled(m, x) <= Scaled(n, x)
  {
    assert (n as real - m as real) * x >= 0.0;
  }

  lemma ScaledAscends(n: nat, x: real, y: real)
    requires x <= y
    ensures Scaled(n, x) <= Scaled(n, y)
  {
    assert n as real * (y - x) >= 0.0;
  }

  /** A place never weighs more than the order-free weight of the value there. */
  lemma PlaceBelowWeight(p: seq<real>, order: seq<nat>, r: nat)
    requires IsOrder(p, |p|, order) && Probabilities(p) && r < |p|
    ensures PlaceWeight(p, order, r) <= Weight(p, order[r])
  {
    var v := p[order[r]];
    forall q | r <= q < |order|
      ensures v <= p[order[q]]
    {
      assert q == r || Before(p, order[r], order[q]);
    }
    var place := FindStart(p, order, v, r);
    hide Scaled;
    StartCounts(p, order, v, place);
    ScaledMono(|p| - r, |p| - place, v);
  }

  /** Every value not above the one at place r is weighed at or before r. */
  lemma WeightBelowPlace(p: seq<real>, order: seq<nat>, r: nat, j: nat) returns (place: nat)
    requires IsOrder(p, |p|, order) && r < |p| && j < |p| && p[j] <= p[order[r]]
    ensures place <= r && Weight(p, j) == PlaceWeight(p, order, place)
  {
    forall q | r <= q < |order|
      ensures p[j] <= p[order[q]]
    {
      assert q == r || Before(p, order[r], order[q]);
    }
    hide Scaled;
    place := FindStart(p, order, p[j], r);
    StartCounts(p, order, p[j], place);
    assert j in order;
    var k :| 0 <= k < |order| && order[k] == j;
    assert place <= k;
    assert place == k || Before(p, order[place], order[k]);
  }

  /** What the loop has accumulated at a place is the order-free maximum for the value there. */
  lemma RunningIsMaxWeight(p: seq<real>, order: seq<nat>, r: nat)
    requires IsOrder(p, |p|, order) && Probabilities(p) && r < |p|
    ensures Running(p, order, r + 1) == MaxWeight(p, p[order[r]], |p|)
  {
    var t := p[order[r]];
    var most, running := MaxWeight(p, t, |p|), Running(p, order, r + 1);
    hide Weight, PlaceWeight, IsOrder;
    NonNegative(p, order, r + 1, t, |p|);
    RunningIsMax(p, order, r + 1, running);
    MaxWeightIsMax(p, t, |p|, most);
    forall q: nat | q < r + 1
      ensures PlaceWeight(p, order, q) <= most
    {
      OrderAscends(p, order, q, r);
      PlaceBelowWeight(p, order, q);
    }
    RunningIsMax(p, order, r + 1, most);
    forall j: nat | j < |p| && p[j] <= t
      ensures Weight(p, j) <= running
    {
      var place := WeightBelowPlace(p, order, r, j);
    }
    MaxWeightIsMax(p, t, |p|, running);
  }

  lemma OrderAscends(p: seq<real>, order: seq<nat>, q: nat, r: nat)
    requires IsOrder(p, |p|, order) && q <= r < |p|
    ensures order[q] < |p| && order[r] < |p| && p[order[q]] <= p[order[r]]
  {
    assert q == r || Before(p, order[q], order[r]);
  }

  lemma {:induction false} NonNegative(p: seq<real>, order: seq<nat>, places: nat, t: real, n: nat)
    requires places <= |order| == |p| && n <= |p| && Indices(order, |p|)
    ensures 0.0 <= Running(p, order, places) && 0.0 <= MaxWeight(p, t, n)
  {
    hide PlaceWeight, Weight;
    if places > 0 {
      NonNegative(p, order, places - 1, t, n);
    } else if n > 0 {
      NonNegative(p, order, places, t, n - 1);
    }
  }

  method HolmBonferroni(p: seq<real>, alpha: real) returns (r: Result<Correction, AnalysisError>)
    ensures r.Ok? <==> 0.0 < alpha < 1.0 && p != [] && Probabilities(p)
    ensures r.Err? ==> (r.error == EmptySample <==> 0.0 < alpha < 1.0 && p == [])
    ensures r.Ok? ==> |r.value.adjusted| == |r.value.rejected| == |p|
    ensures r.Ok? ==> forall i | 0 <= i < |p| ::
              r.value.adjusted[i] == Adjusted(p, i) && r.value.rejected[i] == (Adjusted(p, i) <= alpha)
    ensures r.Ok? ==> forall i | 0 <= i < |p| ::
              p[i] <= r.value.adjusted[i] <= 1.0 && (r.value.rejected[i] <==> ClosedTestRejects(p, i, alpha))
  {
    hide MaxWeight, Adjusted, ClosedTestRejects, Probabilities;
    if !(0.0 < alpha < 1.0) {
      return Err(Domain);
    }
    var m := |p|;
    if m == 0 {
      return Err(EmptySample);
    }
    for index := 0 to m
      invariant forall i | 0 <= i < index :: 0.0 <= p[i] <= 1.0
    {
      if p[index] < 0.0 || p[index] > 1.0 {
        NotProbabilities(p, index);
        return Err(Domain);
      }
    }
    AreProbabilities(p);
    var adjusted := AdjustedValues(p);
    var rejected := seq(m, i requires 0 <= i < m => adjusted[i] <= alpha);
    forall i: nat | i < m
      ensures p[i] <= Adjusted(p, i) <= 1.0 && (Adjusted(p, i) <= alpha <==> ClosedTestRejects(p, i, alpha))
    {
      AdjustedBounds(p, i);
      HolmIsClosedTesting(p, i, alpha);
    }
    return Ok(Correction(adjusted, rejected));
  }

  lemma NotProbabilities(p: seq<real>, i: nat)
    requires i < |p| && !(0.0 <= p[i] <= 1.0)
    ensures !Probabilities(p)
  {
  }

  lemma AreProbabilities(p: seq<real>)
    requires forall i | 0 <= i < |p| :: 0.0 <= p[i] <= 1.0
    ensures Probabilities(p)
  {
  }

  /** Adjusting never lowers a value, and never takes it above 1. */
  lemma AdjustedBounds(p: seq<real>, i: nat)
    requires Probabilities(p) && i < |p|
    ensures p[i] <= Adjusted(p, i) <= 1.0
  {
    MaxWeightNonNegative(p, p[i], |p|);
    MaxWeightIsMax(p, p[i], |p|, MaxWeight(p, p[i], |p|));
    OwnWeight(p, i);
    hide MaxWeight, Weight;
  }

  lemma {:induction false} MaxWeightNonNegative(p: seq<real>, t: real, n: nat)
    requires n <= |p|
    ensures 0.0 <= MaxWeight(p, t, n)
  {
    hide Weight;
    if n > 0 {
      MaxWeightNonNegative(p, t, n - 1);
    }
  }

  lemma OwnWeight(p: seq<real>, i: nat)
    requires Probabilities(p) && i < |p|
    ensures p[i] <= Weight(p, i)
  {
    assert i in AtOrAbove(p, p[i]);
    ScaledMono(1, |AtOrAbove(p, p[i])|, p[i]);
    assert Scaled(1, p[i]) == p[i];
  }

  method AdjustedValues(p: seq<real>) returns (result: seq<real>)
    requires Probabilities(p)
    ensures |result| == |p| && forall i | 0 <= i < |p| :: result[i] == Adjusted(p, i)
  {
    hide MaxWeight, Order, IsOrder, Running, Adjusted;
    var m := |p|;
    var order := Order(p, m);
    OrderIsOrder(p, m);
    var adjusted := new real[m];
    var running := 0.0;
    RunningStarts(p, order);
    for rank := 0 to m
      invariant running == Running(p, order, rank)
      invariant forall q | 0 <= q < rank :: adjusted[order[q]] == Adjusted(p, order[q])
    {
      OrderDistinct(p, order, rank);
      var scaled := (m - rank) as real * p[order[rank]];
      assert scaled == PlaceWeight(p, order, rank);
      running := MaxR(running, scaled);
      AdjustedAtPlace(p, order, rank);
      adjusted[order[rank]] := MinR(1.0, running);
    }
    forall i | 0 <= i < m
      ensures adjusted[i] == Adjusted(p, i)
    {
      assert i in order;
      var q :| 0 <= q < m && order[q] == i;
    }
    return adjusted[..];
  }

  lemma RunningStarts(p: seq<real>, order: seq<nat>)
    requires |order| == |p| && Indices(order, |p|)
    ensures Running(p, order, 0) == 0.0
  {
  }

  lemma AdjustedAtPlace(p: seq<real>, order: seq<nat>, r: nat)
    requires IsOrder(p, |p|, order) && Probabilities(p) && r < |p|
    ensures Running(p, order, r + 1) == MaxR(Running(p, order, r), PlaceWeight(p, order, r))
    ensures Adjusted(p, order[r]) == MinR(1.0, Running(p, order, r + 1))
  {
    RunningIsMaxWeight(p, order, r);
  }

  lemma OrderDistinct(p: seq<real>, order: seq<nat>, rank: nat)
    requires IsOrder(p, |p|, order) && rank < |p|
    ensures order[rank] < |p| && forall q | 0 <= q < rank :: order[q] != order[rank]
  {
    forall q | 0 <= q < rank
      ensures order[q] != order[rank]
    {
      assert Before(p, order[q], order[rank]);
    }
  }

  // ---------------------------------------------------------------- closed testing

  /** Bonferroni's test of the intersection of the hypotheses in s. */
  predicate IntersectionRejected(p: seq<real>, s: set<nat>, alpha: real)
    requires forall k <- s :: k < |p|
  {
    exists j <- s :: Scaled(|s|, p[j]) <= alpha
  }

  ghost predicate ClosedTestRejects(p: seq<real>, i: nat, alpha: real)
  {
    forall s: set<nat> | i in s && (forall k <- s :: k < |p|) :: IntersectionRejected(p, s, alpha)
  }

  lemma {:induction false} Smallest(p: seq<real>, s: set<nat>) returns (j: nat)
    requires s != {} && forall k <- s :: k < |p|
    ensures j in s && forall k <- s :: p[j] <= p[k]
    decreases |s|
  {
    var x :| x in s;
    if s == {x} {
      return x;
    }
    var y := Smallest(p, s - {x});
    j := if p[x] <= p[y] then x else y;
  }

  lemma SubsetSize(s: set<nat>, t: set<nat>)
    requires s <= t
    ensures |s| <= |t|
  {
    assert t == s + (t - s);
  }

  /** No more hypotheses of the intersection than values not below its smallest. */
  lemma IntersectionWeight(p: seq<real>, s: set<nat>, j: nat)
    requires Probabilities(p) && j in s && (forall k <- s :: k < |p|) && forall k <- s :: p[j] <= p[k]
    ensures Scaled(|s|, p[j]) <= Weight(p, j)
  {
    hide Scaled;
    SubsetSize(s, AtOrAbove(p, p[j]));
    ScaledMono(|s|, |AtOrAbove(p, p[j])|, p[j]);
  }

  lemma WeightsBoundIntersections(p: seq<real>, i: nat, alpha: real, s: set<nat>)
    requires i < |p| && Probabilities(p) && i in s && forall k <- s :: k < |p|
    requires forall j: nat | j < |p| && p[j] <= p[i] :: Weight(p, j) <= alpha
    ensures IntersectionRejected(p, s, alpha)
  {
    hide Weight, Probabilities, Scaled;
    var j := Smallest(p, s);
    IntersectionWeight(p, s, j);
    assert Weight(p, j) <= alpha;
  }

  lemma IntersectionsBoundWeights(p: seq<real>, i: nat, alpha: real, j: nat)
    requires i < |p| && j < |p| && p[j] <= p[i] && ClosedTestRejects(p, i, alpha)
    ensures Weight(p, j) <= alpha
  {
    var s := AtOrAbove(p, p[j]);
    assert IntersectionRejected(p, s, alpha);
    hide ClosedTestRejects, Scaled;
    var l :| l in s && Scaled(|s|, p[l]) <= alpha;
    ScaledAscends(|s|, p[j], p[l]);
  }

  /** Holm's procedure is closed testing: a hypothesis is rejected exactly when Bonferroni rejects
      every intersection of hypotheses it belongs to. */
  lemma HolmIsClosedTesting(p: seq<real>, i: nat, alpha: real)
    requires i < |p| && Probabilities(p) && 0.0 < alpha < 1.0
    ensures Adjusted(p, i) <= alpha <==> ClosedTestRejects(p, i, alpha)
  {
    MaxWeightIsMax(p, p[i], |p|, alpha);
    hide MaxWeight, Weight;
    if Adjusted(p, i) <= alpha {
      forall s: set<nat> | i in s && (forall k <- s :: k < |p|)
        ensures IntersectionRejected(p, s, alpha)
      {
        WeightsBoundIntersections(p, i, alpha, s);
      }
    }
    if ClosedTestRejects(p, i, alpha) {
      forall j: nat | j < |p| && p[j] <= p[i]
        ensures Weight(p, j) <= alpha
      {
        IntersectionsBoundWeights(p, i, alpha, j);
      }
    }
  }
}
