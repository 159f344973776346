/** The stable ascending order of a sample: indices sorted by value and then by position, and how
    many values lie below, at or above a given one. */
module Ranking {

  predicate Before(values: seq<real>, i: nat, j: nat)
    requires i < |values| && j < |values|
  {
    values[i] < values[j] || (values[i] == values[j] && i < j)
  }

  predicate Indices(order: seq<nat>, n: nat)
  {
    forall r | 0 <= r < |order| :: order[r] < n
  }

  predicate Ascending(values: seq<real>, order: seq<nat>)
  {
    Indices(order, |values|) && forall r, t | 0 <= r < t < |order| :: Before(values, order[r], order[t])
  }

  /** order lists the first n indices, each once, ascending. */
  predicate IsOrder(values: seq<real>, n: nat, order: seq<nat>)
    requires n <= |values|
  {
    && |order| == n
    && Indices(order, n)
    && (forall i: nat | i < n :: i in order)
    && Ascending(values, order)
  }

  function Insert(values: seq<real>, order: seq<nat>, i: nat): (out: seq<nat>)
    requires i < |values| && Indices(order, |values|)
    ensures |out| == |order| + 1 && Indices(out, |values|)
    ensures forall j: nat :: j in out <==> j in order || j == i
  {
    if order == [] then [i]
    else
      var last := order[|order| - 1];
      if values[last] <= values[i] then order + [i]
      else Insert(values, order[..|order| - 1], i) + [last]
  }

  lemma AppendKeepsAscending(values: seq<real>, order: seq<nat>, last: nat)
    requires Ascending(values, order) && last < |values|
    requires order == [] || Before(values, order[|order| - 1], last)
    ensures Ascending(values, order + [last])
  {
    forall r | 0 <= r < |order|
      ensures Before(values, order[r], last)
    {
      assert r == |order| - 1 || Before(values, order[r], order[|order| - 1]);
    }
  }

  lemma {:induction false} InsertKeepsOrder(values: seq<real>, order: seq<nat>, i: nat)
    requires i < |values| && Indices(order, i) && Ascending(values, order)
    ensures Ascending(values, Insert(values, order, i))
    ensures order != [] ==>
              Insert(values, order, i)[|order|] == i || Insert(values, order, i)[|order|] == order[|order| - 1]
  {
    if order == [] {
    } else {
      var n := |order| - 1;
      var last := order[n];
      if values[last] <= values[i] {
        AppendKeepsAscending(values, order, i);
      } else {
        InsertKeepsOrder(values, order[..n], i);
        var front := Insert(values, order[..n], i);
        if n > 0 {
          assert Before(values, order[n - 1], order[n]);
        }
        AppendKeepsAscending(values, front, last);
      }
    }
  }

  /** The sort of the source: a comparison sort under a total order has one possible result. */
  function Order(values: seq<real>, n: nat): (order: seq<nat>)
    requires n <= |values|
    ensures |order| == n && Indices(order, n) && forall j: nat :: j in order <==> j < n
  {
    if n == 0 then []
    else
      var order := Insert(values, Order(values, n - 1), n - 1);
      assert forall r | 0 <= r < |order| :: order[r] in order;
      order
  }

  lemma {:induction false} OrderIsOrder(values: seq<real>, n: nat)
    requires n <= |values|
    ensures IsOrder(values, n, Order(values, n))
  {
    if n > 0 {
      OrderIsOrder(values, n - 1);
      InsertKeepsOrder(values, Order(values, n - 1), n - 1);
    }
  }

  // ---------------------------------------------------------------- counting

  function Below(values: seq<real>, v: real): set<nat>
  {
    set i: nat | i < |values| && values[i] < v
  }

  function AtOrAbove(values: seq<real>, v: real): set<nat>
  {
    set i: nat | i < |values| && v <= values[i]
  }

  function EqualTo(values: seq<real>, v: real): set<nat>
  {
    set i: nat | i < |values| && values[i] == v
  }

  function Elements(s: seq<nat>): set<nat>
  {
    set i | i in s
  }

  lemma {:induction false} DistinctCount(s: seq<nat>)
    requires forall r, t | 0 <= r < t < |s| :: s[r] != s[t]
    ensures |Elements(s)| == |s|
  {
    if s != [] {
      var n := |s| - 1;
      DistinctCount(s[..n]);
      assert Elements(s) == Elements(s[..n]) + {s[n]};
      assert s[n] !in s[..n];
    }
  }

  /** A stretch of the order has as many indices as places. */
  lemma StretchCount(values: seq<real>, order: seq<nat>, from: nat, to: nat)
    requires IsOrder(values, |values|, order) && from <= to <= |order|
    ensures |Elements(order[from..to])| == to - from
  {
    var s := order[from..to];
    forall r, t | 0 <= r < t < |s|
      ensures s[r] != s[t]
    {
      assert Before(values, order[from + r], order[from + t]);
    }
    DistinctCount(s);
  }

  /** The place at which values equal to v begin in the order. */
  predicate StartsAt(values: seq<real>, order: seq<nat>, v: real, place: nat)
    requires IsOrder(values, |values|, order)
  {
    && place <= |order|
    && (forall r | 0 <= r < place :: values[order[r]] < v)
    && (forall r | place <= r < |order| :: v <= values[order[r]])
  }

  lemma StartCounts(values: seq<real>, order: seq<nat>, v: real, place: nat)
    requires IsOrder(values, |values|, order) && StartsAt(values, order, v, place)
    ensures |Below(values, v)| == place && |AtOrAbove(values, v)| == |values| - place
  {
    assert Below(values, v) == Elements(order[..place]) by {
      forall i: nat
        ensures i in Below(values, v) <==> i in Elements(order[..place])
      {
        if i < |values| {
          assert i in order;
          var r :| 0 <= r < |order| && order[r] == i;
          if r < place {
            assert order[..place][r] == i;
          }
        }
      }
    }
    assert AtOrAbove(values, v) == Elements(order[place..]) by {
      forall i: nat
        ensures i in AtOrAbove(values, v) <==> i in Elements(order[place..])
      {
        if i < |values| {
          assert i in order;
          var r :| 0 <= r < |order| && order[r] == i;
          if place <= r {
            assert order[place..][r - place] == i;
          }
        }
      }
    }
    StretchCount(values, order, 0, place);
    StretchCount(values, order, place, |order|);
    assert order[0..place] == order[..place] && order[place..|order|] == order[place..];
  }

  lemma {:induction false} FindStart(values: seq<real>, order: seq<nat>, v: real, upTo: nat) returns (place: nat)
    requires IsOrder(values, |values|, order) && upTo <= |order|
    requires forall r | upTo <= r < |order| :: v <= values[order[r]]
    ensures place <= upTo && StartsAt(values, order, v, place)
  {
    if upTo == 0 || values[order[upTo - 1]] < v {
      place := upTo;
      forall r | 0 <= r < upTo
        ensures values[order[r]] < v
      {
        assert r == upTo - 1 || Before(values, order[r], order[upTo - 1]);
      }
    } else {
      place := FindStart(values, order, v, upTo - 1);
    }
  }
}
