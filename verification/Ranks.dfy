/** Mid-ranks, the Mann-Whitney count U, and the rank-biserial correlation. Ranks and U take halves,
    so the laws are stated on their doubles, which are whole numbers. */
module Ranks {
  import opened Wrappers
  import opened Ranking

  /** Twice the mid-rank: the mean of the places the value's ties occupy, counted from one. */
  function DoubleRank(values: seq<real>, v: real): nat
  {
    2 * |Below(values, v)| + |EqualTo(values, v)| + 1
  }

  /** Two for a win, one for a tie. */
  function Score(x: real, y: real): nat
  {
    if y < x then 2 else if y == x then 1 else 0
  }

  function RowScore(x: real, ys: seq<real>): nat
  {
    if ys == [] then 0 else RowScore(x, ys[..|ys| - 1]) + Score(x, ys[|ys| - 1])
  }

  /** Twice U: the scores of every pair. */
  function DoubleU(xs: seq<real>, ys: seq<real>): nat
  {
    if xs == [] then 0 else DoubleU(xs[..|xs| - 1], ys) + RowScore(xs[|xs| - 1], ys)
  }

  function RankSum(xs: seq<real>, pool: seq<real>): nat
  {
    if xs == [] then 0 else RankSum(xs[..|xs| - 1], pool) + DoubleRank(pool, xs[|xs| - 1])
  }

  // ---------------------------------------------------------------- laws

  lemma BelowGrows(pool: seq<real>, last: real, v: real)
    ensures |Below(pool + [last], v)| == |Below(pool, v)| + if last < v then 1 else 0
  {
    assert Below(pool + [last], v) == Below(pool, v) + if last < v then {|pool|} else {};
  }

  lemma EqualToGrows(pool: seq<real>, last: real, v: real)
    ensures |EqualTo(pool + [last], v)| == |EqualTo(pool, v)| + if last == v then 1 else 0
  {
    assert EqualTo(pool + [last], v) == EqualTo(pool, v) + if last == v then {|pool|} else {};
  }

  /** A value's doubled rank is its score against the whole pool, plus one. */
  lemma {:induction false} RankIsScore(pool: seq<real>, v: real)
    ensures DoubleRank(pool, v) == RowScore(v, pool) + 1
  {
    if pool == [] {
      assert Below(pool, v) == {} && EqualTo(pool, v) == {};
    } else {
      hide Below, EqualTo;
      var n := |pool| - 1;
      RankIsScore(pool[..n], v);
      BelowGrows(pool[..n], pool[n], v);
      EqualToGrows(pool[..n], pool[n], v);
      assert pool == pool[..n] + [pool[n]];
    }
  }

  lemma {:induction false} RowScoreSplits(x: real, ys: seq<real>, zs: seq<real>)
    ensures RowScore(x, ys + zs) == RowScore(x, ys) + RowScore(x, zs)
  {
    if zs == [] {
      assert ys + zs == ys;
    } else {
      var n := |zs| - 1;
      RowScoreSplits(x, ys, zs[..n]);
      assert (ys + zs)[..|ys + zs| - 1] == ys + zs[..n];
    }
  }

  lemma {:induction false} RankSumSplits(xs: seq<real>, a: seq<real>, b: seq<real>)
    ensures RankSum(xs, a + b) == DoubleU(xs, a) + DoubleU(xs, b) + |xs|
  {
    if xs != [] {
      var n := |xs| - 1;
      RankSumSplits(xs[..n], a, b);
      RankIsScore(a + b, xs[n]);
      RowScoreSplits(xs[n], a, b);
    }
  }

  /** Adding y to the second sample adds one column of scores. */
  lemma {:induction false} ColumnScores(xs: seq<real>, ys: seq<real>, y: real)
    ensures DoubleU(xs, ys + [y]) + RowScore(y, xs) == DoubleU(xs, ys) + 2 * |xs|
  {
    if xs != [] {
      var n := |xs| - 1;
      ColumnScores(xs[..n], ys, y);
      assert (ys + [y])[..|ys|] == ys;
    }
  }

  /** Each pair shares two points between its two orders. */
  lemma {:induction false} ScoresComplement(xs: seq<real>, ys: seq<real>)
    ensures DoubleU(xs, ys) + DoubleU(ys, xs) == 2 * (|xs| * |ys|)
  {
    if ys == [] {
      NoColumns(xs);
    } else {
      var n := |ys| - 1;
      hide *;
      ScoresComplement(xs, ys[..n]);
      ColumnScores(xs, ys[..n], ys[n]);
      DoubleUNext(ys[..n], ys[n], xs);
      assert ys == ys[..n] + [ys[n]];
      ColumnByColumn(|xs|, n);
    }
  }

  lemma ColumnByColumn(a: nat, n: nat)
    ensures a * (n + 1) == a * n + a
  {
  }

  lemma {:induction false} NoColumns(xs: seq<real>)
    ensures DoubleU(xs, []) == 0
  {
    if xs != [] {
      NoColumns(xs[..|xs| - 1]);
    }
  }

  /** U from ranks: the pooled mid-ranks of the first sample, less its own triangular number. */
  lemma UFromRanks(a: seq<real>, b: seq<real>)
    ensures RankSum(a, a + b) == DoubleU(a, b) + |a| * (|a| + 1)
  {
    RankSumSplits(a, a, b);
    ScoresComplement(a, a);
    assert |a| * (|a| + 1) == |a| * |a| + |a|;
  }

  /** The ranks of a sample sum to n(n+1)/2. */
  lemma RanksSum(values: seq<real>)
    ensures RankSum(values, values) == |values| * (|values| + 1)
  {
    UFromRanks(values, []);
    NoColumns(values);
    assert values + [] == values;
  }

  // ---------------------------------------------------------------- mid-ranks

  method MidRanks(values: seq<real>) returns (ranks: array<real>)
    ensures fresh(ranks) && ranks.Length == |values|
    ensures forall i | 0 <= i < |values| :: 2.0 * ranks[i] == DoubleRank(values, values[i]) as real
  {
    hide Order, IsOrder, DoubleRank;
    var n := |values|;
    var order := Order(values, n);
    OrderIsOrder(values, n);
    OrderPlaces(values, order);
    ranks := new real[n];
    var position := 0;
    while position < n
      invariant 0 <= position <= n
      invariant position < n ==> StartsAt(values, order, values[order[position]], position)
      invariant forall r | 0 <= r < position :: 2.0 * ranks[order[r]] == DoubleRank(values, values[order[r]]) as real
      decreases n - position
    {
      var v := values[order[position]];
      var end := position + 1;
      while end < n && values[order[end]] == v
        invariant position < end <= n
        invariant forall r | position <= r < end :: values[order[r]] == v
      {
        end := end + 1;
      }
      var rank := (position + end - 1) as real / 2.0 + 1.0;
      BlockRank(values, order, position, end);
      for index := position to end
        invariant forall r | 0 <= r < index :: 2.0 * ranks[order[r]] == DoubleRank(values, values[order[r]]) as real
      {
        ranks[order[index]] := rank;
      }
      position := end;
    }
    forall i | 0 <= i < n
      ensures 2.0 * ranks[i] == DoubleRank(values, values[i]) as real
    {
      assert i in order;
      var r :| 0 <= r < n && order[r] == i;
    }
  }

  lemma OrderPlaces(values: seq<real>, order: seq<nat>)
    requires IsOrder(values, |values|, order)
    ensures |order| == |values| && Indices(order, |values|)
    ensures forall i: nat | i < |values| :: i in order
    ensures forall r, t | 0 <= r < t < |order| :: order[r] != order[t]
    ensures values != [] ==> StartsAt(values, order, values[order[0]], 0)
  {
    forall r, t | 0 <= r < t < |order|
      ensures order[r] != order[t] && values[order[r]] <= values[order[t]]
    {
      assert Before(values, order[r], order[t]);
    }
  }

  /** A maximal run of equal values occupies the places position to end - 1. */
  lemma BlockRank(values: seq<real>, order: seq<nat>, position: nat, end: nat)
    requires IsOrder(values, |values|, order) && position < end <= |values|
    requires StartsAt(values, order, values[order[position]], position)
    requires forall r | position <= r < end :: values[order[r]] == values[order[position]]
    requires end < |values| ==> values[order[end]] != values[order[position]]
    ensures DoubleRank(values, values[order[position]]) == position + end + 1
    ensures end < |values| ==> StartsAt(values, order, values[order[end]], end)
  {
    var v := values[order[position]];
    StartCounts(values, order, v, position);
    if end < |values| {
      assert v <= values[order[end]];
      forall r | end <= r < |order|
        ensures values[order[end]] <= values[order[r]]
      {
        assert r == end || Before(values, order[end], order[r]);
      }
    }
    assert EqualTo(values, v) == Elements(order[position..end]) by {
      forall i: nat
        ensures i in EqualTo(values, v) <==> i in Elements(order[position..end])
      {
        if i < |values| {
          assert i in order;
          var r :| 0 <= r < |order| && order[r] == i;
          if position <= r < end {
            assert order[position..end][r - position] == i;
          }
        }
      }
    }
    StretchCount(values, order, position, end);
  }

  // ---------------------------------------------------------------- pairs by outcome

  /** The index pairs in which the first sample has the larger value. */
  function Wins(a: seq<real>, b: seq<real>): set<(nat, nat)>
  {
    set i: nat, j: nat | i < |a| && j < |b| && a[i] > b[j] :: (i, j)
  }

  function Ties(a: seq<real>, b: seq<real>): set<(nat, nat)>
  {
    set i: nat, j: nat | i < |a| && j < |b| && a[i] == b[j] :: (i, j)
  }

  function Losses(a: seq<real>, b: seq<real>): set<(nat, nat)>
  {
    set i: nat, j: nat | i < |a| && j < |b| && a[i] < b[j] :: (i, j)
  }

  datatype Comparison = Larger | Same | Smaller

  function Compare(x: real, y: real): Comparison
  {
    if x > y then Larger else if x == y then Same else Smaller
  }

  function PairsOf(a: seq<real>, b: seq<real>, o: Comparison): set<(nat, nat)>
  {
    set i: nat, j: nat | i < |a| && j < |b| && Compare(a[i], b[j]) == o :: (i, j)
  }

  function RowOf(x: real, b: seq<real>, o: Comparison): set<nat>
  {
    set j: nat | j < |b| && Compare(x, b[j]) == o
  }

  lemma RowGrows(x: real, b: seq<real>, y: real, o: Comparison)
    ensures |RowOf(x, b + [y], o)| == |RowOf(x, b, o)| + if Compare(x, y) == o then 1 else 0
  {
    hide Compare;
    assert RowOf(x, b + [y], o) == RowOf(x, b, o) + if Compare(x, y) == o then {|b|} else {};
  }

  /** The score of a row counts its wins twice and its ties once, and every value of the row is one of the
      three. */
  lemma {:induction false} RowScoreCounts(x: real, b: seq<real>)
    ensures RowScore(x, b) == 2 * |RowOf(x, b, Larger)| + |RowOf(x, b, Same)|
    ensures |b| == |RowOf(x, b, Larger)| + |RowOf(x, b, Same)| + |RowOf(x, b, Smaller)|
  {
    if b == [] {
      assert forall o :: RowOf(x, b, o) == {};
    } else {
      hide RowOf;
      var n := |b| - 1;
      RowScoreCounts(x, b[..n]);
      assert b == b[..n] + [b[n]];
      RowGrows(x, b[..n], b[n], Larger);
      RowGrows(x, b[..n], b[n], Same);
      RowGrows(x, b[..n], b[n], Smaller);
    }
  }

  function PairedWith(n: nat, s: set<nat>): set<(nat, nat)>
  {
    set j | j in s :: (n, j)
  }

  lemma {:induction false} PairedSize(n: nat, s: set<nat>)
    ensures |PairedWith(n, s)| == |s|
  {
    if s == {} {
      assert PairedWith(n, s) == {};
    } else {
      var k :| k in s;
      PairedSize(n, s - {k});
      assert PairedWith(n, s) == PairedWith(n, s - {k}) + {(n, k)};
    }
  }

  lemma PairsSplit(a: seq<real>, x: real, b: seq<real>, o: Comparison)
    ensures PairsOf(a + [x], b, o) == PairsOf(a, b, o) + PairedWith(|a|, RowOf(x, b, o))
    ensures PairsOf(a, b, o) !! PairedWith(|a|, RowOf(x, b, o))
  {
    hide Compare;
    forall i: nat, j: nat
      ensures (i, j) in PairsOf(a + [x], b, o)
         <==> (i, j) in PairsOf(a, b, o) || (i, j) in PairedWith(|a|, RowOf(x, b, o))
    {
    }
  }

  lemma SizeOfUnion<T>(s: set<T>, t: set<T>)
    requires s !! t
    ensures |s + t| == |s| + |t|
  {
  }

  lemma PairsGrow(a: seq<real>, x: real, b: seq<real>, o: Comparison)
    ensures |PairsOf(a + [x], b, o)| == |PairsOf(a, b, o)| + |RowOf(x, b, o)|
  {
    hide *;
    PairsSplit(a, x, b, o);
    PairedSize(|a|, RowOf(x, b, o));
    SizeOfUnion(PairsOf(a, b, o), PairedWith(|a|, RowOf(x, b, o)));
  }

  lemma NoPairs(b: seq<real>, o: Comparison)
    ensures PairsOf([], b, o) == {}
  {
  }

  lemma RowByRow(n: nat, b: nat)
    ensures (n + 1) * b == n * b + b
  {
  }

  lemma DoubleUNext(a: seq<real>, x: real, b: seq<real>)
    ensures DoubleU(a + [x], b) == DoubleU(a, b) + RowScore(x, b)
  {
    assert (a + [x])[..|a|] == a;
  }

  lemma {:induction false} ScoreCounts(a: seq<real>, b: seq<real>)
    ensures DoubleU(a, b) == 2 * |PairsOf(a, b, Larger)| + |PairsOf(a, b, Same)|
    ensures |a| * |b| == |PairsOf(a, b, Larger)| + |PairsOf(a, b, Same)| + |PairsOf(a, b, Smaller)|
  {
    hide *;
    if a == [] {
      NoPairs(b, Larger);
      NoPairs(b, Same);
      NoPairs(b, Smaller);
      NoScores(b);
    } else {
      var n := |a| - 1;
      ScoreCounts(a[..n], b);
      assert a == a[..n] + [a[n]];
      RowScoreCounts(a[n], b);
      PairsGrow(a[..n], a[n], b, Larger);
      PairsGrow(a[..n], a[n], b, Same);
      PairsGrow(a[..n], a[n], b, Smaller);
      DoubleUNext(a[..n], a[n], b);
      RowByRow(n, |b|);
    }
  }

  /** Twice U counts every win twice and every tie once, and each pair is a win, a tie or a loss. */
  lemma UCountsPairs(a: seq<real>, b: seq<real>)
    ensures DoubleU(a, b) == 2 * |Wins(a, b)| + |Ties(a, b)|
    ensures |a| * |b| == |Wins(a, b)| + |Ties(a, b)| + |Losses(a, b)|
  {
    hide *;
    PairsByOutcome(a, b);
    ScoreCounts(a, b);
  }

  lemma PairsByOutcome(a: seq<real>, b: seq<real>)
    ensures Wins(a, b) == PairsOf(a, b, Larger) && Ties(a, b) == PairsOf(a, b, Same)
    ensures Losses(a, b) == PairsOf(a, b, Smaller)
  {
  }

  // ---------------------------------------------------------------- rank-biserial correlation

  datatype RankBiserialResult = RankBiserialResult(r: real, u: real, nA: nat, nB: nat)

  /** U is the wins and half the ties, and r the excess of wins over losses as a share of all pairs; None
      where the source throws, for an empty sample. */
  method RankBiserial(a: seq<real>, b: seq<real>) returns (result: Option<RankBiserialResult>)
    ensures result.None? <==> a == [] || b == []
    ensures result.Some? ==>
      && result.value.nA == |a| && result.value.nB == |b|
      && 2.0 * result.value.u == DoubleU(a, b) as real
      && result.value.r == Correlation(a, b)
      && 2.0 * result.value.u == (2 * |Wins(a, b)| + |Ties(a, b)|) as real
      && result.value.r * (|a| * |b|) as real == (|Wins(a, b)| - |Losses(a, b)|) as real
  {
    hide Wins, Ties, Losses, Correlation;
    hide *;
    if |a| == 0 || |b| == 0 {
      return None;
    }
    var u := 0.0;
    NoScores(b);
    for i := 0 to |a|
      invariant 2.0 * u == DoubleU(a[..i], b) as real
    {
      DoubleUNext(a[..i], a[i], b);
      assert a[..i + 1] == a[..i] + [a[i]];
      for j := 0 to |b|
        invariant 2.0 * u == (DoubleU(a[..i], b) + RowScore(a[i], b[..j])) as real
      {
        RowScoreNext(a[i], b[..j], b[j]);
        assert b[..j + 1] == b[..j] + [b[j]];
        if a[i] > b[j] {
          u := u + 1.0;
        } else if a[i] == b[j] {
          u := u + 0.5;
        }
      }
      assert b[..|b|] == b;
    }
    assert a[..|a|] == a;
    var pairs := |a| * |b|;
    PairsPositive(|a|, |b|);
    BiserialIs(a, b, u, pairs);
    result := Some(RankBiserialResult(2.0 * u / pairs as real - 1.0, u, |a|, |b|));
  }

  lemma NoScores(b: seq<real>)
    ensures DoubleU([], b) == 0 && forall x :: RowScore(x, []) == 0
  {
  }

  lemma RowScoreNext(x: real, b: seq<real>, y: real)
    ensures RowScore(x, b + [y]) == RowScore(x, b) + if x > y then 2 else if x == y then 1 else 0
  {
    assert (b + [y])[..|b|] == b;
  }

  lemma BiserialIs(a: seq<real>, b: seq<real>, u: real, pairs: int)
    requires a != [] && b != [] && pairs == |a| * |b| && pairs > 0 && 2.0 * u == DoubleU(a, b) as real
    ensures 2.0 * u / pairs as real - 1.0 == Correlation(a, b)
    ensures 2.0 * u == (2 * |Wins(a, b)| + |Ties(a, b)|) as real
    ensures Correlation(a, b) * (|a| * |b|) as real == (|Wins(a, b)| - |Losses(a, b)|) as real
  {
    hide *;
    UCountsPairs(a, b);
    CorrelationIs(a, b, DoubleU(a, b), pairs);
    CorrelationIsExcess(a, b);
  }

  lemma PairsPositive(m: nat, n: nat)
    requires m > 0 && n > 0
    ensures m * n > 0
  {
  }

  function Correlation(a: seq<real>, b: seq<real>): real
    requires a != [] && b != []
  {
    PairsPositive(|a|, |b|);
    DoubleU(a, b) as real / (|a| * |b|) as real - 1.0
  }

  /** r times the number of pairs is the number of wins less the number of losses. */
  lemma CorrelationIsExcess(a: seq<real>, b: seq<real>)
    requires a != [] && b != []
    ensures Correlation(a, b) * (|a| * |b|) as real == (|Wins(a, b)| - |Losses(a, b)|) as real
  {
    hide *;
    PairsPositive(|a|, |b|);
    UCountsPairs(a, b);
    CorrelationIs(a, b, DoubleU(a, b), |a| * |b|);
    LessOne(DoubleU(a, b), |a| * |b|);
  }

  lemma CorrelationIs(a: seq<real>, b: seq<real>, n: int, d: int)
    requires a != [] && b != [] && n == DoubleU(a, b) && d == |a| * |b| && d > 0
    ensures Correlation(a, b) == n as real / d as real - 1.0
  {
    hide DoubleU;
  }

  lemma LessOne(n: int, d: int)
    requires d > 0
    ensures (n as real / d as real - 1.0) * d as real == (n - d) as real
  {
    Quotient(n, d);
    var q := n as real / d as real;
    assert (q - 1.0) * d as real == q * d as real - d as real;
  }

  /** r is 1 exactly when every value of the first sample exceeds every value of the second. */
  lemma PerfectCorrelation(a: seq<real>, b: seq<real>)
    requires a != [] && b != []
    ensures Correlation(a, b) == 1.0 <==> forall i, j | 0 <= i < |a| && 0 <= j < |b| :: a[i] > b[j]
  {
    hide *;
    PairsPositive(|a|, |b|);
    UCountsPairs(a, b);
    CorrelationIsExcess(a, b);
    ExcessOfAll(Correlation(a, b), |a| * |b|, |Wins(a, b)|, |Ties(a, b)|, |Losses(a, b)|);
    AllWins(a, b);
  }

  lemma ExcessOfAll(r: real, d: nat, wins: nat, ties: nat, losses: nat)
    requires d > 0 && d == wins + ties + losses && r * d as real == (wins - losses) as real
    ensures r == 1.0 <==> ties == 0 && losses == 0
  {
    OnlyOne(r, d as real, (wins - losses) as real);
    SameWhole(wins - losses, d);
    AllPairs(d, wins, ties, losses);
  }

  lemma AllPairs(d: nat, wins: nat, ties: nat, losses: nat)
    requires d == wins + ties + losses
    ensures wins - losses == d <==> ties == 0 && losses == 0
  {
  }

  lemma SameWhole(m: int, n: int)
    ensures m as real == n as real <==> m == n
  {
  }

  lemma AllWins(a: seq<real>, b: seq<real>)
    ensures |Ties(a, b)| == 0 && |Losses(a, b)| == 0
       <==> forall i, j | 0 <= i < |a| && 0 <= j < |b| :: a[i] > b[j]
  {
    if forall i, j | 0 <= i < |a| && 0 <= j < |b| :: a[i] > b[j] {
      assert Ties(a, b) == {} && Losses(a, b) == {};
    } else {
      var i, j :| 0 <= i < |a| && 0 <= j < |b| && !(a[i] > b[j]);
      assert (i, j) in Ties(a, b) + Losses(a, b);
    }
  }

  lemma OnlyOne(r: real, d: real, x: real)
    requires d > 0.0 && r * d == x
    ensures r == 1.0 <==> x == d
  {
    assert (r - 1.0) * d == x - d;
    ProductSign(r - 1.0, d);
  }

  lemma Quotient(n: int, d: int)
    requires d > 0
    ensures n as real / d as real * d as real == n as real
  {
  }

  lemma Distributes(x: real, y: real, e: real)
    ensures (x + y - 2.0) * e == x * e + y * e - 2.0 * e
  {
  }

  lemma ProductSign(x: real, e: real)
    requires e > 0.0
    ensures (x * e >= 0.0 ==> x >= 0.0) && (x * e == 0.0 ==> x == 0.0)
  {
    assert x < 0.0 ==> x * e < 0.0;
    assert x > 0.0 ==> x * e > 0.0;
  }

  lemma Fraction(n: int, m: int, d: int)
    requires d > 0 && n >= 0 && m >= 0 && n + m == 2 * d
    ensures 0.0 <= n as real / d as real <= 2.0
    ensures n as real / d as real + m as real / d as real == 2.0
  {
    Quotient(n, d);
    Quotient(m, d);
    Distributes(n as real / d as real, m as real / d as real, d as real);
    ProductSign(n as real / d as real, d as real);
    ProductSign(m as real / d as real, d as real);
    ProductSign(n as real / d as real + m as real / d as real - 2.0, d as real);
  }

  /** Swapping the samples negates the correlation, which lies in [-1, 1]. */
  lemma CorrelationIsAntisymmetric(a: seq<real>, b: seq<real>)
    requires a != [] && b != []
    ensures Correlation(a, b) == 0.0 - Correlation(b, a)
    ensures -1.0 <= Correlation(a, b) <= 1.0
  {
    PairsPositive(|a|, |b|);
    ScoresComplement(a, b);
    assert |a| * |b| == |b| * |a|;
    Fraction(DoubleU(a, b), DoubleU(b, a), |a| * |b|);
  }
}
