/** The within-stratum permutation null: contingency tables, an in-place Fisher-Yates shuffle driven
    by one stream of draws, and the margins every replicate keeps. */
module PermutationNull {
  import opened Wrappers

  datatype Observation = Observation(x: int, y: int, stratum: int)

  datatype Levels = Levels(xLevels: int, yLevels: int, strata: int)

  predicate ValidLevels(l: Levels)
  {
    l.xLevels >= 1 && l.yLevels >= 1 && l.strata >= 1
  }

  predicate InLevels(o: Observation, l: Levels)
  {
    0 <= o.x < l.xLevels && 0 <= o.y < l.yLevels && 0 <= o.stratum < l.strata
  }

  predicate ValidInput(obs: seq<Observation>, l: Levels)
  {
    ValidLevels(l) && forall i | 0 <= i < |obs| :: InLevels(obs[i], l)
  }

  // ---------------------------------------------------------------- counting

  function Xs(obs: seq<Observation>, stratum: int): seq<int>
  {
    if obs == [] then []
    else
      var last := obs[|obs| - 1];
      Xs(obs[..|obs| - 1], stratum) + if last.stratum == stratum then [last.x] else []
  }

  function Ys(obs: seq<Observation>, stratum: int): (ys: seq<int>)
    ensures |ys| == |Xs(obs, stratum)|
  {
    if obs == [] then []
    else
      var last := obs[|obs| - 1];
      Ys(obs[..|obs| - 1], stratum) + if last.stratum == stratum then [last.y] else []
  }

  function One(b: bool): nat
  {
    if b then 1 else 0
  }

  /** How many places hold x in the first column and y in the second. */
  function PairCount(xs: seq<int>, ys: seq<int>, x: int, y: int): nat
    requires |xs| == |ys|
  {
    if xs == [] then 0
    else
      var n := |xs| - 1;
      PairCount(xs[..n], ys[..n], x, y) + One(xs[n] == x && ys[n] == y)
  }

  function Count(values: seq<int>, v: int): nat
  {
    if values == [] then 0 else Count(values[..|values| - 1], v) + One(values[|values| - 1] == v)
  }

  /** Sum of one row of the table over the first k columns, and of one column over the first k rows. */
  function RowMargin(xs: seq<int>, ys: seq<int>, x: int, k: nat): nat
    requires |xs| == |ys|
  {
    if k == 0 then 0 else RowMargin(xs, ys, x, k - 1) + PairCount(xs, ys, x, k - 1)
  }

  function ColumnMargin(xs: seq<int>, ys: seq<int>, y: int, k: nat): nat
    requires |xs| == |ys|
  {
    if k == 0 then 0 else ColumnMargin(xs, ys, y, k - 1) + PairCount(xs, ys, k - 1, y)
  }

  lemma {:induction false} CountIsMultiplicity(values: seq<int>, v: int)
    ensures Count(values, v) == multiset(values)[v]
  {
    if values != [] {
      var n := |values| - 1;
      CountIsMultiplicity(values[..n], v);
      assert values == values[..n] + [values[n]];
    }
  }

  lemma {:induction false} RowMarginGrows(xs: seq<int>, ys: seq<int>, x: int, k: nat)
    requires |xs| == |ys| > 0
    ensures var n := |xs| - 1;
      RowMargin(xs, ys, x, k) == RowMargin(xs[..n], ys[..n], x, k) + One(xs[n] == x && 0 <= ys[n] < k)
  {
    if k > 0 {
      RowMarginGrows(xs, ys, x, k - 1);
    }
  }

  lemma {:induction false} ColumnMarginGrows(xs: seq<int>, ys: seq<int>, y: int, k: nat)
    requires |xs| == |ys| > 0
    ensures var n := |xs| - 1;
      ColumnMargin(xs, ys, y, k) == ColumnMargin(xs[..n], ys[..n], y, k) + One(ys[n] == y && 0 <= xs[n] < k)
  {
    if k > 0 {
      ColumnMarginGrows(xs, ys, y, k - 1);
    }
  }

  lemma {:induction false} EmptyMargins(v: int, k: nat)
    ensures RowMargin([], [], v, k) == 0 && ColumnMargin([], [], v, k) == 0
  {
    if k > 0 {
      EmptyMargins(v, k - 1);
    }
  }

  predicate AllBelow(values: seq<int>, k: nat)
  {
    forall i | 0 <= i < |values| :: 0 <= values[i] < k
  }

  /** A row margin forgets the second column. */
  lemma {:induction false} RowMarginIsCount(xs: seq<int>, ys: seq<int>, x: int, k: nat)
    requires |xs| == |ys| && AllBelow(ys, k)
    ensures RowMargin(xs, ys, x, k) == Count(xs, x)
  {
    if xs == [] {
      EmptyMargins(x, k);
    } else {
      RowMarginGrows(xs, ys, x, k);
      RowMarginIsCount(xs[..|xs| - 1], ys[..|xs| - 1], x, k);
    }
  }

  lemma {:induction false} ColumnMarginIsCount(xs: seq<int>, ys: seq<int>, y: int, k: nat)
    requires |xs| == |ys| && AllBelow(xs, k)
    ensures ColumnMargin(xs, ys, y, k) == Count(ys, y)
  {
    if xs == [] {
      EmptyMargins(y, k);
    } else {
      ColumnMarginGrows(xs, ys, y, k);
      ColumnMarginIsCount(xs[..|xs| - 1], ys[..|xs| - 1], y, k);
    }
  }

  /** The sum of all cells in the first k rows. */
  function TotalMargin(xs: seq<int>, ys: seq<int>, k: nat, yLevels: nat): nat
    requires |xs| == |ys|
  {
    if k == 0 then 0 else TotalMargin(xs, ys, k - 1, yLevels) + RowMargin(xs, ys, k - 1, yLevels)
  }

  lemma {:induction false} EmptyTotal(k: nat, yLevels: nat)
    ensures TotalMargin([], [], k, yLevels) == 0
  {
    if k > 0 {
      EmptyMargins(k - 1, yLevels);
      EmptyTotal(k - 1, yLevels);
    }
  }

  lemma {:induction false} TotalMarginGrows(xs: seq<int>, ys: seq<int>, k: nat, yLevels: nat)
    requires |xs| == |ys| > 0 && 0 <= ys[|xs| - 1] < yLevels
    ensures var n := |xs| - 1;
      TotalMargin(xs, ys, k, yLevels) == TotalMargin(xs[..n], ys[..n], k, yLevels) + One(0 <= xs[n] < k)
  {
    hide RowMargin;
    if k > 0 {
      TotalMarginGrows(xs, ys, k - 1, yLevels);
      RowMarginGrows(xs, ys, k - 1, yLevels);
    }
  }

  /** A table's total is the number of observations. */
  lemma {:induction false} TotalMarginIsSize(xs: seq<int>, ys: seq<int>, xLevels: nat, yLevels: nat)
    requires |xs| == |ys| && AllBelow(xs, xLevels) && AllBelow(ys, yLevels)
    ensures TotalMargin(xs, ys, xLevels, yLevels) == |xs|
  {
    hide TotalMargin;
    if xs == [] {
      EmptyTotal(xLevels, yLevels);
    } else {
      TotalMarginGrows(xs, ys, xLevels, yLevels);
      TotalMarginIsSize(xs[..|xs| - 1], ys[..|xs| - 1], xLevels, yLevels);
    }
  }

  // ---------------------------------------------------------------- shuffle

  function SwapLast(s: seq<int>, j: nat): seq<int>
    requires j < |s|
  {
    var n := |s| - 1;
    s[n := s[j]][j := if j == n then s[j] else s[n]]
  }

  /** What the shuffle makes of a sequence: draws(index) is reduced to the range 0..index. */
  function Shuffled(s: seq<int>, draws: nat -> nat): (t: seq<int>)
    ensures |t| == |s|
    decreases |s|
  {
    if |s| <= 1 then s
    else
      var n := |s| - 1;
      var swapped := SwapLast(s, draws(n) % (n + 1));
      Shuffled(swapped[..n], draws) + [swapped[n]]
  }

  lemma SwapKeepsMultiset(s: seq<int>, j: nat)
    requires j < |s|
    ensures multiset(SwapLast(s, j)) == multiset(s)
  {
  }

  /** A shuffle only rearranges, whatever the draws. */
  lemma {:induction false} ShuffleIsPermutation(s: seq<int>, draws: nat -> nat)
    ensures multiset(Shuffled(s, draws)) == multiset(s)
    decreases |s|
  {
    hide Shuffled, SwapLast;
    if |s| <= 1 {
      ShuffleShort(s, draws);
    } else {
      var n := |s| - 1;
      var j := draws(n) % |s|;
      var swapped := SwapLast(s, j);
      SwapKeepsMultiset(s, j);
      SwapLastEnds(s, j);
      ShuffleStep(s, j, draws);
      ShuffleIsPermutation(swapped[..n], draws);
      assert swapped == swapped[..n] + [swapped[n]];
    }
  }

  lemma {:induction false} ShuffleReadsBelow(s: seq<int>, d: nat -> nat, e: nat -> nat)
    requires forall i: nat | 0 < i < |s| :: d(i) == e(i)
    ensures Shuffled(s, d) == Shuffled(s, e)
    decreases |s|
  {
    if |s| > 1 {
      var n := |s| - 1;
      ShuffleReadsBelow(SwapLast(s, d(n) % (n + 1))[..n], d, e);
    }
  }

  lemma ShuffleStep(s: seq<int>, j: nat, draws: nat -> nat)
    requires |s| > 1 && j == draws(|s| - 1) % |s|
    ensures var n := |s| - 1;
      Shuffled(s, draws) == Shuffled(SwapLast(s, j)[..n], draws) + [SwapLast(s, j)[n]]
  {
  }

  lemma ShuffleShort(s: seq<int>, draws: nat -> nat)
    requires |s| <= 1
    ensures Shuffled(s, draws) == s
  {
  }

  lemma SwapLastEnds(s: seq<int>, j: nat)
    requires j < |s|
    ensures |SwapLast(s, j)| == |s| && SwapLast(s, j)[|s| - 1] == s[j]
  {
  }

  function Override(draws: nat -> nat, n: nat, j: nat): nat -> nat
  {
    i => if i == n then j else draws(i)
  }

  lemma SameMultisetSameLength(s: seq<int>, t: seq<int>)
    requires multiset(s) == multiset(t)
    ensures |s| == |t| && (|s| == 1 ==> s == t)
  {
    assert |s| == |multiset(s)| == |multiset(t)| == |t|;
    if |s| == 1 {
      assert s[0] in multiset(t);
    }
  }

  lemma DropSameLast(s: seq<int>, t: seq<int>)
    requires multiset(s) == multiset(t) && |s| == |t| > 0 && s[|s| - 1] == t[|t| - 1]
    ensures multiset(s[..|s| - 1]) == multiset(t[..|t| - 1])
  {
    LessLast(s);
    LessLast(t);
  }

  lemma LessLast(s: seq<int>)
    requires s != []
    ensures multiset(s[..|s| - 1]) == multiset(s) - multiset{s[|s| - 1]}
  {
    assert s == s[..|s| - 1] + [s[|s| - 1]];
  }

  lemma LastOccurs(s: seq<int>, t: seq<int>) returns (j: nat)
    requires multiset(s) == multiset(t) && t != []
    ensures j < |s| && s[j] == t[|t| - 1]
  {
    assert t[|t| - 1] in multiset(s);
    j :| j < |s| && s[j] == t[|t| - 1];
  }

  /** And every rearrangement is reached by some draws. */
  lemma {:induction false} EveryPermutationIsReached(s: seq<int>, t: seq<int>) returns (draws: nat -> nat)
    requires multiset(s) == multiset(t)
    ensures Shuffled(s, draws) == t
    decreases |s|
  {
    hide Shuffled, SwapLast;
    SameMultisetSameLength(s, t);
    if |s| <= 1 {
      draws := i => 0;
      ShuffleShort(s, draws);
      return;
    }
    var n := |s| - 1;
    var j := LastOccurs(s, t);
    var swapped := SwapLast(s, j);
    SwapKeepsMultiset(s, j);
    SwapLastEnds(s, j);
    DropSameLast(swapped, t);
    var rest := EveryPermutationIsReached(swapped[..n], t[..n]);
    draws := Override(rest, n, j);
    DrawsExtend(s, j, rest);
    assert t == t[..n] + [t[n]];
  }

  /** Draws for the rest of a shuffle, with the first swap put in front. */
  lemma DrawsExtend(s: seq<int>, j: nat, rest: nat -> nat)
    requires j < |s| && |s| > 1
    ensures |SwapLast(s, j)| == |s|
    ensures Shuffled(s, Override(rest, |s| - 1, j))
         == Shuffled(SwapLast(s, j)[..|s| - 1], rest) + [SwapLast(s, j)[|s| - 1]]
  {
    hide Shuffled, SwapLast;
    SwapLastEnds(s, j);
    var draws := Override(rest, |s| - 1, j);
    ShuffleReadsBelow(SwapLast(s, j)[..|s| - 1], draws, rest);
    ShuffleStep(s, j, draws);
  }

  /** One swap leaves the shuffle of what is left in front of what is done. */
  lemma SwapStep(before: seq<int>, after: seq<int>, index: nat, swap: nat, draws: nat -> nat)
    requires 0 < index < |before| && swap == draws(index) % (index + 1)
    requires after == before[index := before[swap]][swap := before[index]]
    ensures |after| == |before|
    ensures Shuffled(before[..index + 1], draws) + before[index + 1..]
         == Shuffled(after[..index], draws) + after[index..]
  {
    hide Shuffled;
    var front := before[..index + 1];
    assert after[..index + 1] == SwapLast(front, swap);
    ShuffleStep(front, swap, draws);
    assert SwapLast(front, swap)[..index] == after[..index];
    assert after[index..] == [after[index]] + before[index + 1..];
  }

  // ---------------------------------------------------------------- one stream of draws

  /** A generator whose k-th answer, before it is reduced to the range asked for, is stream(k). */
  class SeededPrng {
    const stream: nat -> nat
    var position: nat

    constructor (stream: nat -> nat)
      ensures this.stream == stream && position == 0
    {
      this.stream, position := stream, 0;
    }

    method NextInt(maxExclusive: nat) returns (value: nat)
      requires maxExclusive > 0
      modifies this`position
      ensures value == stream(old(position)) % maxExclusive && position == old(position) + 1
    {
      value := stream(position) % maxExclusive;
      position := position + 1;
    }
  }

  /** How many draws a shuffle of n values takes. */
  function DrawsOf(n: nat): nat
  {
    if n == 0 then 0 else n - 1
  }

  /** A shuffle of n values that starts at a position of the stream takes its draws from there on, the
      last index first. */
  function Reading(stream: nat -> nat, position: nat, n: nat): nat -> nat
  {
    (i: nat) => if i < n then stream(position + (n - 1 - i)) else 0
  }

  method ShuffleInPlace(values: array<int>, prng: SeededPrng)
    modifies values, prng`position
    ensures values[..] == Shuffled(old(values[..]), Reading(prng.stream, old(prng.position), values.Length))
    ensures prng.position == old(prng.position) + DrawsOf(values.Length)
  {
    hide Shuffled;
    var index := values.Length - 1;
    ghost var draws := Reading(prng.stream, prng.position, values.Length);
    ghost var result := Shuffled(values[..], draws);
    assert values[..] == values[..index + 1] && result == result + values[index + 1..];
    while index > 0
      invariant -1 <= index < values.Length
      invariant result == Shuffled(values[..index + 1], draws) + values[index + 1..]
      invariant index >= 0 ==> prng.position == old(prng.position) + (values.Length - 1 - index)
      invariant index < 0 ==> values.Length == 0 && prng.position == old(prng.position)
    {
      assert draws(index) == prng.stream(prng.position);
      var swap := prng.NextInt(index + 1);
      ghost var before := values[..];
      var held := values[index];
      values[index] := values[swap];
      values[swap] := held;
      SwapStep(before, values[..], index, swap, draws);
      index := index - 1;
    }
    ShuffleShort(values[..index + 1], draws);
    assert values[..index + 1] + values[index + 1..] == values[..];
  }

  /** Where the stream stands when the s-th column is shuffled in the r-th round over all columns. */
  function Position(columns: seq<seq<int>>, r: nat, s: nat): nat
    requires s <= |columns|
    decreases r, s
  {
    if s > 0 then Position(columns, r, s - 1) + DrawsOf(|columns[s - 1]|)
    else if r > 0 then Position(columns, r - 1, |columns|)
    else 0
  }

  /** The places at which earlier columns were shuffled. */
  predicate Earlier(columns: seq<seq<int>>, q: nat, t: nat, r: nat, s: nat)
  {
    t < |columns| && (q < r || (q == r && t < s))
  }

  /** The draws of an earlier shuffle all lie before. */
  lemma {:induction false} EarlierIsBefore(columns: seq<seq<int>>, q: nat, t: nat, r: nat, s: nat)
    requires s <= |columns| && Earlier(columns, q, t, r, s)
    ensures Position(columns, q, t) + DrawsOf(|columns[t]|) <= Position(columns, r, s)
    decreases r, s
  {
    hide DrawsOf;
    if s > 0 {
      if !(q == r && t == s - 1) {
        EarlierIsBefore(columns, q, t, r, s - 1);
      }
    } else {
      EarlierIsBefore(columns, q, t, r - 1, |columns|);
    }
  }

  function FromList(draws: seq<nat>): nat -> nat
  {
    (i: nat) => if i < |draws| then draws[i] else 0
  }

  ghost predicate Reaches(columns: seq<seq<int>>, targets: (nat, nat) -> seq<int>, draws: seq<nat>, q: nat, t: nat)
    requires t < |columns|
  {
    Shuffled(columns[t], Reading(FromList(draws), Position(columns, q, t), |columns[t]|)) == targets(q, t)
  }

  /** More draws at the end of the list change no earlier shuffle. */
  lemma ReachesStill(columns: seq<seq<int>>, targets: (nat, nat) -> seq<int>, draws: seq<nat>, more: seq<nat>,
                     q: nat, t: nat)
    requires t < |columns| && Position(columns, q, t) + DrawsOf(|columns[t]|) <= |draws|
    requires Reaches(columns, targets, draws, q, t)
    ensures Reaches(columns, targets, draws + more, q, t)
  {
    hide Shuffled, Position;
    var n, p := |columns[t]|, Position(columns, q, t);
    ShuffleReadsBelow(columns[t], Reading(FromList(draws), p, n), Reading(FromList(draws + more), p, n));
  }

  /** The draws of one shuffle, in the order in which it takes them. */
  function InOrder(draws: nat -> nat, n: nat): seq<nat>
  {
    seq(DrawsOf(n), k requires 0 <= k < DrawsOf(n) => draws(n - 1 - k))
  }

  lemma ReadsInOrder(column: seq<int>, draws: nat -> nat, before: seq<nat>)
    ensures Shuffled(column, Reading(FromList(before + InOrder(draws, |column|)), |before|, |column|))
         == Shuffled(column, draws)
  {
    hide Shuffled, InOrder, FromList;
    var n := |column|;
    forall i: nat | 0 < i < n
      ensures Reading(FromList(before + InOrder(draws, n)), |before|, n)(i) == draws(i)
    {
      ReadsOne(draws, before, n, i);
    }
    hide Reading;
    ShuffleReadsBelow(column, Reading(FromList(before + InOrder(draws, n)), |before|, n), draws);
  }

  lemma ReadsOne(draws: nat -> nat, before: seq<nat>, n: nat, i: nat)
    requires 0 < i < n
    ensures FromList(before + InOrder(draws, n))(|before| + (n - 1 - i)) == draws(i)
  {
    assert InOrder(draws, n)[n - 1 - i] == draws(i);
  }

  /** Draws that make every shuffle up to a place come out as wanted. */
  lemma {:induction false} DrawsFor(columns: seq<seq<int>>, targets: (nat, nat) -> seq<int>, r: nat, s: nat)
    returns (draws: seq<nat>)
    requires s <= |columns|
    requires forall q: nat, t: nat | t < |columns| :: multiset(columns[t]) == multiset(targets(q, t))
    ensures |draws| == Position(columns, r, s)
    ensures forall q: nat, t: nat | Earlier(columns, q, t, r, s) :: Reaches(columns, targets, draws, q, t)
    decreases r, s
  {
    hide Shuffled, Reaches, DrawsOf;
    if s > 0 {
      var before := DrawsFor(columns, targets, r, s - 1);
      draws := NextDraws(columns, targets, r, s, before);
    } else if r > 0 {
      draws := DrawsFor(columns, targets, r - 1, |columns|);
    } else {
      draws := [];
    }
  }

  lemma NextDraws(columns: seq<seq<int>>, targets: (nat, nat) -> seq<int>, r: nat, s: nat, before: seq<nat>)
    returns (draws: seq<nat>)
    requires 0 < s <= |columns| && |before| == Position(columns, r, s - 1)
    requires forall q: nat, t: nat | t < |columns| :: multiset(columns[t]) == multiset(targets(q, t))
    requires forall q: nat, t: nat | Earlier(columns, q, t, r, s - 1) :: Reaches(columns, targets, before, q, t)
    ensures |draws| == Position(columns, r, s)
    ensures forall q: nat, t: nat | Earlier(columns, q, t, r, s) :: Reaches(columns, targets, draws, q, t)
  {
    hide Shuffled, DrawsOf;
    var column := columns[s - 1];
    var here := EveryPermutationIsReached(column, targets(r, s - 1));
    var more := InOrder(here, |column|);
    draws := before + more;
    ReadsInOrder(column, here, before);
    assert Reaches(columns, targets, draws, r, s - 1);
    hide Reaches;
    forall q: nat, t: nat | Earlier(columns, q, t, r, s - 1)
      ensures Reaches(columns, targets, draws, q, t)
    {
      EarlierIsBefore(columns, q, t, r, s - 1);
      ReachesStill(columns, targets, before, more, q, t);
    }
  }

  /** No two shuffles share a draw: whatever rearrangement is wanted of every column in every round, one
      stream of draws produces them all together. */
  lemma EveryFamilyIsReached(columns: seq<seq<int>>, targets: (nat, nat) -> seq<int>, rounds: nat)
    returns (stream: nat -> nat)
    requires forall q: nat, t: nat | t < |columns| :: multiset(columns[t]) == multiset(targets(q, t))
    ensures forall q: nat, t: nat | q < rounds && t < |columns| ::
              Shuffled(columns[t], Reading(stream, Position(columns, q, t), |columns[t]|)) == targets(q, t)
  {
    hide Shuffled, Position, Reading;
    var draws := DrawsFor(columns, targets, rounds, 0);
    stream := FromList(draws);
    forall q: nat, t: nat | q < rounds && t < |columns|
      ensures Shuffled(columns[t], Reading(stream, Position(columns, q, t), |columns[t]|)) == targets(q, t)
    {
      assert Earlier(columns, q, t, rounds, 0);
      assert Reaches(columns, targets, draws, q, t);
    }
  }

  // ---------------------------------------------------------------- tables

  /** Counts the pairs of two aligned columns into a fresh table. */
  method Tally(xs: seq<int>, ys: seq<int>, l: Levels) returns (table: array2<nat>)
    requires ValidLevels(l) && |xs| == |ys| && AllBelow(xs, l.xLevels) && AllBelow(ys, l.yLevels)
    ensures fresh(table) && IsTable(table, xs, ys, l)
  {
    table := new nat[l.xLevels, l.yLevels]((i, j) => 0);
    for index := 0 to |xs|
      invariant IsTable(table, xs[..index], ys[..index], l)
    {
      assert xs[..index + 1][..index] == xs[..index] && ys[..index + 1][..index] == ys[..index];
      table[xs[index], ys[index]] := table[xs[index], ys[index]] + 1;
    }
    assert xs[..|xs|] == xs && ys[..|ys|] == ys;
  }

  ghost predicate IsTable(table: array2<nat>, xs: seq<int>, ys: seq<int>, l: Levels)
    requires |xs| == |ys|
    reads table
  {
    && table.Length0 == l.xLevels && table.Length1 == l.yLevels
    && forall x, y | 0 <= x < l.xLevels && 0 <= y < l.yLevels :: table[x, y] == PairCount(xs, ys, x, y)
  }

  /** The observed count of one cell. */
  function Cell(obs: seq<Observation>, s: int, x: int, y: int): nat
  {
    PairCount(Xs(obs, s), Ys(obs, s), x, y)
  }

  /** The places of one cell among the observations. */
  function PlacesOf(obs: seq<Observation>, s: int, x: int, y: int): set<nat>
  {
    set i: nat | i < |obs| && obs[i].stratum == s && obs[i].x == x && obs[i].y == y
  }

  lemma {:induction false} CellCounts(obs: seq<Observation>, s: int, x: int, y: int)
    ensures Cell(obs, s, x, y) == |PlacesOf(obs, s, x, y)|
  {
    hide Cell;
    if obs == [] {
      CellOfNone(s, x, y);
      assert PlacesOf(obs, s, x, y) == {};
    } else {
      var n := |obs| - 1;
      CellCounts(obs[..n], s, x, y);
      CellOfLast(obs, s, x, y);
      assert PlacesOf(obs, s, x, y)
          == PlacesOf(obs[..n], s, x, y) + if obs[n] == Observation(x, y, s) then {n} else {};
    }
  }

  /** The places that hold x in one column and y in the other. */
  function PlacesWith(xs: seq<int>, ys: seq<int>, x: int, y: int): set<nat>
    requires |xs| == |ys|
  {
    set i: nat | i < |xs| && xs[i] == x && ys[i] == y
  }

  lemma {:induction false} PairsCounted(xs: seq<int>, ys: seq<int>, x: int, y: int)
    requires |xs| == |ys|
    ensures PairCount(xs, ys, x, y) == |PlacesWith(xs, ys, x, y)|
  {
    if xs == [] {
      assert PlacesWith(xs, ys, x, y) == {};
    } else {
      var n := |xs| - 1;
      PairsCounted(xs[..n], ys[..n], x, y);
      assert PlacesWith(xs, ys, x, y)
          == PlacesWith(xs[..n], ys[..n], x, y) + if xs[n] == x && ys[n] == y then {n} else {};
    }
  }

  /** The observed tables, one per stratum; None where an index is outside its levels. */
  method StratifiedJointCounts(obs: seq<Observation>, l: Levels) returns (tables: Option<array3<nat>>)
    ensures tables.Some? <==> ValidInput(obs, l)
    ensures tables.Some? ==> fresh(tables.value) && AreObserved(tables.value, obs, l)
    ensures tables.Some? ==> forall s, x, y | 0 <= s < l.strata && 0 <= x < l.xLevels && 0 <= y < l.yLevels ::
              tables.value[s, x, y] == |PlacesOf(obs, s, x, y)|
  {
    hide Cell, PlacesOf;
    if l.xLevels < 1 || l.yLevels < 1 || l.strata < 1 {
      return None;
    }
    forall s, x, y
      ensures Cell([], s, x, y) == 0
    {
      CellOfNone(s, x, y);
    }
    assert obs[..0] == [];
    var t := new nat[l.strata, l.xLevels, l.yLevels]((i, j, k) => 0);
    for index := 0 to |obs|
      invariant forall i | 0 <= i < index :: InLevels(obs[i], l)
      invariant forall s, x, y | 0 <= s < l.strata && 0 <= x < l.xLevels && 0 <= y < l.yLevels ::
                  t[s, x, y] == Cell(obs[..index], s, x, y)
    {
      var o := obs[index];
      if !InLevels(o, l) {
        return None;
      }
      forall s, x, y
        ensures Cell(obs[..index + 1], s, x, y) == Cell(obs[..index], s, x, y) + One(o == Observation(x, y, s))
      {
        assert obs[..index + 1][..index] == obs[..index];
        CellOfLast(obs[..index + 1], s, x, y);
      }
      t[o.stratum, o.x, o.y] := t[o.stratum, o.x, o.y] + 1;
    }
    assert obs[..|obs|] == obs;
    forall s, x, y
      ensures Cell(obs, s, x, y) == |PlacesOf(obs, s, x, y)|
    {
      CellCounts(obs, s, x, y);
    }
    return Some(t);
  }

  lemma CellOfNone(s: int, x: int, y: int)
    ensures Cell([], s, x, y) == 0
  {
  }

  lemma CellOfLast(obs: seq<Observation>, s: int, x: int, y: int)
    requires obs != []
    ensures var n := |obs| - 1;
      Cell(obs, s, x, y) == Cell(obs[..n], s, x, y) + One(obs[n] == Observation(x, y, s))
  {
    var n := |obs| - 1;
    if obs[n].stratum == s {
      assert Xs(obs, s)[..|Xs(obs, s)| - 1] == Xs(obs[..n], s);
      assert Ys(obs, s)[..|Ys(obs, s)| - 1] == Ys(obs[..n], s);
    } else {
      assert Xs(obs, s) == Xs(obs[..n], s) && Ys(obs, s) == Ys(obs[..n], s);
    }
  }

  lemma {:induction false} ColumnsInLevels(obs: seq<Observation>, l: Levels, s: int)
    requires ValidInput(obs, l)
    ensures AllBelow(Xs(obs, s), l.xLevels) && AllBelow(Ys(obs, s), l.yLevels)
  {
    if obs != [] {
      ColumnsInLevels(obs[..|obs| - 1], l, s);
    }
  }

  // ---------------------------------------------------------------- replicates

  /** A shuffled second column has the row margins, column margins and size of the observed one. */
  lemma ReplicateKeepsMargins(xs: seq<int>, ys: seq<int>, draws: nat -> nat, xLevels: nat, yLevels: nat, v: int)
    requires |xs| == |ys| && AllBelow(xs, xLevels) && AllBelow(ys, yLevels)
    ensures AllBelow(Shuffled(ys, draws), yLevels)
    ensures RowMargin(xs, Shuffled(ys, draws), v, yLevels) == RowMargin(xs, ys, v, yLevels)
    ensures ColumnMargin(xs, Shuffled(ys, draws), v, xLevels) == ColumnMargin(xs, ys, v, xLevels)
    ensures TotalMargin(xs, Shuffled(ys, draws), xLevels, yLevels) == TotalMargin(xs, ys, xLevels, yLevels) == |xs|
  {
    hide Shuffled, Count, RowMargin, ColumnMargin, TotalMargin;
    var zs := Shuffled(ys, draws);
    ShuffleIsPermutation(ys, draws);
    forall i | 0 <= i < |zs|
      ensures 0 <= zs[i] < yLevels
    {
      assert zs[i] in multiset(zs);
      assert zs[i] in ys;
    }
    RowMarginIsCount(xs, zs, v, yLevels);
    RowMarginIsCount(xs, ys, v, yLevels);
    ColumnMarginIsCount(xs, zs, v, xLevels);
    ColumnMarginIsCount(xs, ys, v, xLevels);
    CountIsMultiplicity(zs, v);
    CountIsMultiplicity(ys, v);
    TotalMarginIsSize(xs, zs, xLevels, yLevels);
    TotalMarginIsSize(xs, ys, xLevels, yLevels);
  }

  // ---------------------------------------------------------------- sums of table cells

  function RowOf(table: array2<nat>, x: nat, k: nat): nat
    requires x < table.Length0 && k <= table.Length1
    reads table
  {
    if k == 0 then 0 else RowOf(table, x, k - 1) + table[x, k - 1]
  }

  function ColumnOf(table: array2<nat>, y: nat, k: nat): nat
    requires k <= table.Length0 && y < table.Length1
    reads table
  {
    if k == 0 then 0 else ColumnOf(table, y, k - 1) + table[k - 1, y]
  }

  function TotalOf(table: array2<nat>, k: nat): nat
    requires k <= table.Length0
    reads table
  {
    if k == 0 then 0 else TotalOf(table, k - 1) + RowOf(table, k - 1, table.Length1)
  }

  lemma {:induction false} RowOfIs(table: array2<nat>, xs: seq<int>, ys: seq<int>, l: Levels, x: nat, k: nat)
    requires |xs| == |ys| && IsTable(table, xs, ys, l) && x < table.Length0 && k <= table.Length1
    ensures RowOf(table, x, k) == RowMargin(xs, ys, x, k)
  {
    hide PairCount;
    if k > 0 {
      RowOfIs(table, xs, ys, l, x, k - 1);
    }
  }

  lemma {:induction false} ColumnOfIs(table: array2<nat>, xs: seq<int>, ys: seq<int>, l: Levels, y: nat, k: nat)
    requires |xs| == |ys| && IsTable(table, xs, ys, l) && k <= table.Length0 && y < table.Length1
    ensures ColumnOf(table, y, k) == ColumnMargin(xs, ys, y, k)
  {
    hide PairCount;
    if k > 0 {
      ColumnOfIs(table, xs, ys, l, y, k - 1);
    }
  }

  lemma {:induction false} TotalOfIs(table: array2<nat>, xs: seq<int>, ys: seq<int>, l: Levels, k: nat)
    requires |xs| == |ys| && IsTable(table, xs, ys, l) && k <= table.Length0
    ensures TotalOf(table, k) == TotalMargin(xs, ys, k, table.Length1)
  {
    hide PairCount, RowMargin, RowOf, IsTable;
    if k > 0 {
      TotalOfIs(table, xs, ys, l, k - 1);
      RowOfIs(table, xs, ys, l, k - 1, table.Length1);
    }
  }

  /** The cells add up, by row, by column and in all, as counts of these two columns do. */
  ghost predicate HasMargins(table: array2<nat>, xs: seq<int>, ys: seq<int>, l: Levels)
    requires ValidLevels(l) && |xs| == |ys|
    reads table
  {
    && table.Length0 == l.xLevels && table.Length1 == l.yLevels
    && (forall x: nat | x < l.xLevels :: RowOf(table, x, l.yLevels) == RowMargin(xs, ys, x, l.yLevels))
    && (forall y: nat | y < l.yLevels :: ColumnOf(table, y, l.xLevels) == ColumnMargin(xs, ys, y, l.xLevels))
    && TotalOf(table, l.xLevels) == |xs|
  }

  lemma TableHasMargins(table: array2<nat>, xs: seq<int>, ys: seq<int>, l: Levels)
    requires ValidLevels(l) && |xs| == |ys| && AllBelow(xs, l.xLevels) && AllBelow(ys, l.yLevels)
    requires IsTable(table, xs, ys, l)
    ensures HasMargins(table, xs, ys, l)
  {
    hide RowOf, ColumnOf, TotalOf, PairCount, RowMargin, ColumnMargin, TotalMargin, AllBelow;
    assert table.Length0 == l.xLevels && table.Length1 == l.yLevels;
    hide IsTable;
    forall x: nat | x < l.xLevels
      ensures RowOf(table, x, l.yLevels) == RowMargin(xs, ys, x, l.yLevels)
    {
      RowOfIs(table, xs, ys, l, x, l.yLevels);
    }
    forall y: nat | y < l.yLevels
      ensures ColumnOf(table, y, l.xLevels) == ColumnMargin(xs, ys, y, l.xLevels)
    {
      ColumnOfIs(table, xs, ys, l, y, l.xLevels);
    }
    TotalOfIs(table, xs, ys, l, l.xLevels);
    TotalMarginIsSize(xs, ys, l.xLevels, l.yLevels);
  }

  /** A table of shuffled pairs has the margins of the pairs as they were observed. */
  lemma ReplicateHasMargins(table: array2<nat>, xs: seq<int>, ys: seq<int>, draws: nat -> nat, l: Levels)
    requires ValidLevels(l) && |xs| == |ys| && AllBelow(xs, l.xLevels) && AllBelow(ys, l.yLevels)
    requires IsTable(table, xs, Shuffled(ys, draws), l)
    ensures HasMargins(table, xs, ys, l)
  {
    hide Shuffled, RowOf, ColumnOf, TotalOf, PairCount, RowMargin, ColumnMargin, TotalMargin, AllBelow, IsTable;
    forall v
      ensures AllBelow(Shuffled(ys, draws), l.yLevels)
      ensures RowMargin(xs, Shuffled(ys, draws), v, l.yLevels) == RowMargin(xs, ys, v, l.yLevels)
      ensures ColumnMargin(xs, Shuffled(ys, draws), v, l.xLevels) == ColumnMargin(xs, ys, v, l.xLevels)
    {
      ReplicateKeepsMargins(xs, ys, draws, l.xLevels, l.yLevels, v);
    }
    ReplicateKeepsMargins(xs, ys, draws, l.xLevels, l.yLevels, 0);
    TableHasMargins(table, xs, Shuffled(ys, draws), l);
  }

  /** One sheet of the observed tables. */
  ghost predicate IsSheet(sheet: array2<nat>, tables: array3<nat>, s: nat)
    requires s < tables.Length0
    reads sheet, tables
  {
    && sheet.Length0 == tables.Length1 && sheet.Length1 == tables.Length2
    && forall x: nat, y: nat | x < sheet.Length0 && y < sheet.Length1 :: sheet[x, y] == tables[s, x, y]
  }

  /** What StratifiedJointCounts returns. */
  ghost predicate AreObserved(tables: array3<nat>, obs: seq<Observation>, l: Levels)
    reads tables
  {
    && tables.Length0 == l.strata && tables.Length1 == l.xLevels && tables.Length2 == l.yLevels
    && forall s, x, y | 0 <= s < l.strata && 0 <= x < l.xLevels && 0 <= y < l.yLevels ::
         tables[s, x, y] == Cell(obs, s, x, y)
  }

  /** The cells of one table add up as those of another, by row, by column and in all. */
  ghost predicate SameSums(a: array2<nat>, b: array2<nat>)
    reads a, b
  {
    && a.Length0 == b.Length0 && a.Length1 == b.Length1
    && (forall x: nat | x < a.Length0 :: RowOf(a, x, a.Length1) == RowOf(b, x, b.Length1))
    && (forall y: nat | y < a.Length1 :: ColumnOf(a, y, a.Length0) == ColumnOf(b, y, b.Length0))
    && TotalOf(a, a.Length0) == TotalOf(b, b.Length0)
  }

  /** Every replicate of a stratum adds up, by row, by column and in all, as the observed table of that
      stratum does. */
  lemma ReplicatesMatchObserved(obs: seq<Observation>, l: Levels, tables: array3<nat>, s: nat, sheet: array2<nat>,
                                replicate: array2<nat>, draws: nat -> nat)
    requires ValidInput(obs, l) && AreObserved(tables, obs, l) && s < l.strata && IsSheet(sheet, tables, s)
    requires IsTable(replicate, Xs(obs, s), Shuffled(Ys(obs, s), draws), l)
    ensures SameSums(replicate, sheet) && TotalOf(replicate, l.xLevels) == |Xs(obs, s)|
  {
    ColumnsInLevels(obs, l, s);
    hide Shuffled, Xs, Ys, PairCount, AllBelow, RowOf, ColumnOf, TotalOf, RowMargin, ColumnMargin;
    assert IsTable(sheet, Xs(obs, s), Ys(obs, s), l);
    hide IsTable, AreObserved, IsSheet;
    TableHasMargins(sheet, Xs(obs, s), Ys(obs, s), l);
    ReplicateHasMargins(replicate, Xs(obs, s), Ys(obs, s), draws, l);
  }

  /** One replicate table of one stratum. */
  method ReplicateTable(xs: seq<int>, ys: seq<int>, l: Levels, prng: SeededPrng) returns (table: array2<nat>)
    requires ValidLevels(l) && |xs| == |ys| && AllBelow(xs, l.xLevels) && AllBelow(ys, l.yLevels)
    modifies prng`position
    ensures fresh(table) && IsTable(table, xs, Shuffled(ys, Reading(prng.stream, old(prng.position), |ys|)), l)
    ensures HasMargins(table, xs, ys, l) && prng.position == old(prng.position) + DrawsOf(|ys|)
  {
    hide Shuffled, IsTable, HasMargins;
    ghost var draws := Reading(prng.stream, prng.position, |ys|);
    var column := new int[|ys|](i requires 0 <= i < |ys| => ys[i]);
    assert column[..] == ys;
    ShuffleInPlace(column, prng);
    ReplicateKeepsMargins(xs, ys, draws, l.xLevels, l.yLevels, 0);
    table := Tally(xs, column[..], l);
    ReplicateHasMargins(table, xs, ys, draws, l);
  }

  /** The two columns of every stratum; None where the source throws. */
  method GroupByStratum(obs: seq<Observation>, l: Levels) returns (groups: Option<(seq<seq<int>>, seq<seq<int>>)>)
    ensures groups.Some? <==> ValidInput(obs, l)
    ensures groups.Some? ==>
      && |groups.value.0| == |groups.value.1| == l.strata
      && forall s | 0 <= s < l.strata :: groups.value.0[s] == Xs(obs, s) && groups.value.1[s] == Ys(obs, s)
  {
    if l.xLevels < 1 || l.yLevels < 1 || l.strata < 1 {
      return None;
    }
    var xByStratum := new seq<int>[l.strata](_ => []);
    var yByStratum := new seq<int>[l.strata](_ => []);
    for index := 0 to |obs|
      invariant forall i | 0 <= i < index :: InLevels(obs[i], l)
      invariant forall s | 0 <= s < l.strata ::
                  xByStratum[s] == Xs(obs[..index], s) && yByStratum[s] == Ys(obs[..index], s)
    {
      var o := obs[index];
      if !InLevels(o, l) {
        return None;
      }
      assert obs[..index + 1][..index] == obs[..index];
      xByStratum[o.stratum] := xByStratum[o.stratum] + [o.x];
      yByStratum[o.stratum] := yByStratum[o.stratum] + [o.y];
    }
    assert obs[..|obs|] == obs;
    return Some((xByStratum[..], yByStratum[..]));
  }

  /** The second columns of all strata, in the order in which they are shuffled. */
  function Columns(obs: seq<Observation>, l: Levels): (columns: seq<seq<int>>)
    requires ValidLevels(l)
    ensures |columns| == l.strata
  {
    seq(l.strata, s requires 0 <= s < l.strata => Ys(obs, s))
  }

  /** The table of one replicate and stratum: a shuffle of that stratum alone, with draws nothing else
      takes, and with the margins and the total of that stratum as observed. */
  ghost predicate IsReplicate(table: array2<nat>, obs: seq<Observation>, l: Levels, stream: nat -> nat, r: nat, s: nat)
    requires ValidLevels(l) && s < l.strata
    reads table
  {
    && IsTable(table, Xs(obs, s),
               Shuffled(Ys(obs, s), Reading(stream, Position(Columns(obs, l), r, s), |Ys(obs, s)|)), l)
    && HasMargins(table, Xs(obs, s), Ys(obs, s), l)
  }

  lemma ReplicateIs(table: array2<nat>, obs: seq<Observation>, l: Levels, stream: nat -> nat, r: nat, s: nat)
    requires ValidLevels(l) && s < l.strata && HasMargins(table, Xs(obs, s), Ys(obs, s), l)
    requires IsTable(table, Xs(obs, s),
                     Shuffled(Ys(obs, s), Reading(stream, Position(Columns(obs, l), r, s), |Ys(obs, s)|)), l)
    ensures IsReplicate(table, obs, l, stream, r, s)
  {
  }

  lemma PositionNext(obs: seq<Observation>, l: Levels, r: nat, s: nat)
    requires ValidLevels(l) && s < l.strata
    ensures Position(Columns(obs, l), r, s + 1) == Position(Columns(obs, l), r, s) + DrawsOf(|Ys(obs, s)|)
    ensures Position(Columns(obs, l), r + 1, 0) == Position(Columns(obs, l), r, l.strata)
  {
    hide Ys;
  }

  lemma PositionFirst(obs: seq<Observation>, l: Levels)
    requires ValidLevels(l)
    ensures Position(Columns(obs, l), 0, 0) == 0
  {
  }

  /** Every replicate has one table per stratum. */
  method ReplicateTables(obs: seq<Observation>, l: Levels, permutations: int, stream: nat -> nat)
    returns (replicates: Option<seq<seq<array2<nat>>>>)
    ensures replicates.Some? <==> permutations >= 1 && ValidInput(obs, l)
    ensures replicates.Some? ==> |replicates.value| == permutations
    ensures replicates.Some? ==> forall r | 0 <= r < permutations ::
      && |replicates.value[r]| == l.strata
      && forall s | 0 <= s < l.strata :: IsReplicate(replicates.value[r][s], obs, l, stream, r, s)
  {
    hide Shuffled, IsTable, HasMargins, Xs, Ys, IsReplicate, Position, Columns, DrawsOf;
    if permutations < 1 {
      return None;
    }
    var groups := GroupByStratum(obs, l);
    if groups.None? {
      return None;
    }
    var (xByStratum, yByStratum) := groups.value;
    var prng: SeededPrng := new SeededPrng(stream);
    var all: seq<seq<array2<nat>>> := [];
    PositionFirst(obs, l);
    for replicate := 0 to permutations
      modifies prng`position
      invariant |all| == replicate && prng.position == Position(Columns(obs, l), replicate, 0)
      invariant forall r | 0 <= r < replicate ::
        && |all[r]| == l.strata
        && forall s | 0 <= s < l.strata :: IsReplicate(all[r][s], obs, l, stream, r, s)
    {
      var tables: seq<array2<nat>> := [];
      for stratum := 0 to l.strata
        modifies prng`position
        invariant |tables| == stratum && prng.position == Position(Columns(obs, l), replicate, stratum)
        invariant forall s | 0 <= s < stratum :: IsReplicate(tables[s], obs, l, stream, replicate, s)
      {
        ColumnsInLevels(obs, l, stratum);
        PositionNext(obs, l, replicate, stratum);
        var table := ReplicateTable(xByStratum[stratum], yByStratum[stratum], l, prng);
        ReplicateIs(table, obs, l, stream, replicate, stratum);
        tables := tables + [table];
      }
      PositionNext(obs, l, replicate, 0);
      all := all + [tables];
    }
    return Some(all);
  }
}
