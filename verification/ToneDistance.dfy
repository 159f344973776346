/** Distance between tone marks: weighted edit distance in one flat table, divided by the longer
    length. Costs are scaled by 42, which makes them integers: a gap costs 42 and a substitution
    3 per pitch bin and 7 per duration bin. */
module ToneDistance {
  import opened Wrappers
  import opened EditDistance

  datatype Tone = Tone(pitchBin: int, durationBin: int)

  const SCALE: nat := 42

  function Abs(x: int): nat
  {
    if x < 0 then -x else x
  }

  function Retune(a: Tone, b: Tone): nat
  {
    3 * Abs(a.pitchBin - b.pitchBin) + 7 * Abs(a.durationBin - b.durationBin)
  }

  function ToneCost(a: seq<Tone>, b: seq<Tone>): nat
  {
    Edit(a, b, SCALE, Retune)
  }

  predicate InGrammar(t: Tone)
  {
    0 <= t.pitchBin <= 7 && 1 <= t.durationBin <= 4
  }

  predicate ValidMark(tones: seq<Tone>)
  {
    1 <= |tones| <= 8 && forall t <- tones :: InGrammar(t)
  }

  method ValidateTone(tones: seq<Tone>) returns (ok: bool)
    ensures ok == ValidMark(tones)
  {
    if |tones| < 1 || |tones| > 8 {
      return false;
    }
    for k := 0 to |tones|
      invariant forall i | 0 <= i < k :: InGrammar(tones[i])
    {
      if tones[k].pitchBin < 0 || tones[k].pitchBin > 7 || tones[k].durationBin < 1 || tones[k].durationBin > 4 {
        assert tones[k] in tones;
        return false;
      }
    }
    return true;
  }

  /** Row i, column j of the flat table. */
  function Cell(i: nat, j: nat, width: nat): nat
  {
    i * width + j
  }

  lemma {:induction false} RowsApart(i: nat, k: nat, width: nat)
    requires i < k
    ensures i * width + width <= k * width
    decreases k
  {
    assert k * width == (k - 1) * width + width;
    if i < k - 1 {
      RowsApart(i, k - 1, width);
    }
  }

  lemma CellInside(i: nat, j: nat, height: nat, width: nat)
    requires i < height && j < width
    ensures Cell(i, j, width) < height * width
  {
    RowsApart(i, height, width);
  }

  lemma CellsDistinct(i: nat, j: nat, k: nat, l: nat, width: nat)
    requires j < width && l < width && Cell(i, j, width) == Cell(k, l, width)
    ensures i == k && j == l
  {
    if i < k {
      RowsApart(i, k, width);
    } else if k < i {
      RowsApart(k, i, width);
    }
  }

  lemma TableStep(left: seq<Tone>, right: seq<Tone>, i: nat, j: nat)
    requires 0 < i <= |left| && 0 < j <= |right|
    ensures ToneCost(left[..i], right[..j])
         == Min(Min(ToneCost(left[..i - 1], right[..j]) + SCALE, ToneCost(left[..i], right[..j - 1]) + SCALE),
                ToneCost(left[..i - 1], right[..j - 1]) + Retune(left[i - 1], right[j - 1]))
  {
    assert left[..i][..i - 1] == left[..i - 1];
    assert right[..j][..j - 1] == right[..j - 1];
  }

  lemma Borders(a: seq<Tone>)
    ensures ToneCost(a, []) == |a| * SCALE && ToneCost([], a) == |a| * SCALE
  {
  }

  /** The cells that hold their final cost once column of row is about to be computed. */
  predicate Settled(i: nat, j: nat, row: nat, column: nat)
  {
    i == 0 || j == 0 || i < row || (i == row && j < column)
  }

  ghost predicate Right(costs: seq<nat>, left: seq<Tone>, right: seq<Tone>, i: nat, j: nat)
    requires i <= |left| && j <= |right|
  {
    && Cell(i, j, |right| + 1) < |costs|
    && costs[Cell(i, j, |right| + 1)] == ToneCost(left[..i], right[..j])
  }

  ghost predicate Filled(costs: seq<nat>, left: seq<Tone>, right: seq<Tone>, row: nat, column: nat)
  {
    && |costs| == (|left| + 1) * (|right| + 1)
    && forall i: nat, j: nat | i <= |left| && j <= |right| && Settled(i, j, row, column) ::
         Right(costs, left, right, i, j)
  }

  /** Writing a right cost settles its cell and disturbs no other. */
  lemma WriteCell(costs: seq<nat>, left: seq<Tone>, right: seq<Tone>, row: nat, column: nat, cost: nat)
    requires row <= |left| && column <= |right| && |costs| == (|left| + 1) * (|right| + 1)
    requires cost == ToneCost(left[..row], right[..column])
    ensures row * (|right| + 1) + column < |costs|
    ensures var after := costs[row * (|right| + 1) + column := cost];
      && Right(after, left, right, row, column)
      && forall i: nat, j: nat | i <= |left| && j <= |right| && Right(costs, left, right, i, j) ::
           Right(after, left, right, i, j)
  {
    hide ToneCost;
    CellInside(row, column, |left| + 1, |right| + 1);
    var cell := row * (|right| + 1) + column;
    assert cell == Cell(row, column, |right| + 1);
    hide Cell;
    forall i: nat, j: nat | i <= |left| && j <= |right| && Right(costs, left, right, i, j)
      ensures Right(costs[cell := cost], left, right, i, j)
    {
      if Cell(i, j, |right| + 1) == cell {
        CellsDistinct(i, j, row, column, |right| + 1);
      }
    }
  }

  lemma ReadCell(costs: seq<nat>, left: seq<Tone>, right: seq<Tone>, row: nat, column: nat, i: nat, j: nat)
    requires Filled(costs, left, right, row, column) && i <= |left| && j <= |right| && Settled(i, j, row, column)
    ensures i * (|right| + 1) + j < |costs|
    ensures costs[i * (|right| + 1) + j] == ToneCost(left[..i], right[..j])
  {
    hide ToneCost;
    assert Right(costs, left, right, i, j);
  }

  method FillBorders(costs: array<nat>, left: seq<Tone>, right: seq<Tone>)
    requires costs.Length == (|left| + 1) * (|right| + 1)
    modifies costs
    ensures Filled(costs[..], left, right, 1, 1)
  {
    hide ToneCost, Right;
    var width := |right| + 1;
    for i := 0 to |left| + 1
      invariant forall k: nat | k < i :: Right(costs[..], left, right, k, 0)
    {
      Borders(left[..i]);
      assert right[..0] == [];
      var border: nat := i * SCALE;
      WriteCell(costs[..], left, right, i, 0, border);
      ghost var was := costs[..];
      costs[i * width] := border;
      assert costs[..] == was[i * width + 0 := border];
    }
    for j := 0 to |right| + 1
      invariant forall k: nat | k <= |left| :: Right(costs[..], left, right, k, 0)
      invariant forall l: nat | l < j :: Right(costs[..], left, right, 0, l)
    {
      Borders(right[..j]);
      assert left[..0] == [];
      var border: nat := j * SCALE;
      WriteCell(costs[..], left, right, 0, j, border);
      ghost var was := costs[..];
      costs[j] := border;
      assert costs[..] == was[0 * width + j := border];
    }
  }

  method FillCell(costs: array<nat>, left: seq<Tone>, right: seq<Tone>, i: nat, j: nat)
    requires 1 <= i <= |left| && 1 <= j <= |right| && Filled(costs[..], left, right, i, j)
    modifies costs
    ensures Filled(costs[..], left, right, i, j + 1)
  {
    hide ToneCost, Right;
    var width := |right| + 1;
    var a, b := left[i - 1], right[j - 1];
    var substitution := 3 * Abs(a.pitchBin - b.pitchBin) + 7 * Abs(a.durationBin - b.durationBin);
    ReadCell(costs[..], left, right, i, j, i - 1, j);
    ReadCell(costs[..], left, right, i, j, i, j - 1);
    ReadCell(costs[..], left, right, i, j, i - 1, j - 1);
    var least := Min(Min(costs[(i - 1) * width + j] + SCALE, costs[i * width + j - 1] + SCALE),
                     costs[(i - 1) * width + j - 1] + substitution);
    TableStep(left, right, i, j);
    WriteCell(costs[..], left, right, i, j, least);
    ghost var was := costs[..];
    costs[i * width + j] := least;
    assert costs[..] == was[i * width + j := least];
  }

  method ToneEditCost(left: seq<Tone>, right: seq<Tone>) returns (cost: nat)
    ensures cost == ToneCost(left, right)
  {
    hide ToneCost, Right;
    var width := |right| + 1;
    var costs := new nat[(|left| + 1) * width];
    FillBorders(costs, left, right);
    for i := 1 to |left| + 1
      invariant Filled(costs[..], left, right, i, 1)
    {
      for j := 1 to |right| + 1
        invariant Filled(costs[..], left, right, i, j)
      {
        FillCell(costs, left, right, i, j);
        hide Filled;
      }
    }
    ReadCell(costs[..], left, right, |left| + 1, 1, |left|, |right|);
    assert left[..|left|] == left && right[..|right|] == right;
    cost := costs[|left| * width + |right|];
  }

  // ---------------------------------------------------------------- laws

  /** The cost is a metric on tone sequences of any length. */
  lemma ToneCostIsMetric(a: seq<Tone>, b: seq<Tone>, c: seq<Tone>)
    ensures ToneCost(a, b) == 0 <==> a == b
    ensures ToneCost(a, b) == ToneCost(b, a)
    ensures ToneCost(a, c) <= ToneCost(a, b) + ToneCost(b, c)
  {
    hide Edit;
    EditZero(a, b, SCALE, Retune);
    EditSymmetric(a, b, SCALE, Retune);
    EditTriangle(a, b, c, SCALE, Retune);
  }

  /** For single tones: half the pitch difference as a share of its range of 7, and half the duration
      difference as a share of its range of 3; and a whole unit for every tone that has no counterpart. */
  lemma SingleTones(s: Tone, t: Tone, a: seq<Tone>)
    requires InGrammar(s) && InGrammar(t)
    ensures ToneCost([s], [t]) as real / SCALE as real
         == (Abs(s.pitchBin - t.pitchBin) as real / 7.0 + Abs(s.durationBin - t.durationBin) as real / 3.0) / 2.0
    ensures ToneCost(a, []) as real / SCALE as real == |a| as real
    ensures ToneCost([], a) as real / SCALE as real == |a| as real
  {
    Borders(a);
    Borders([s]);
    Borders([t]);
    TableStep([s], [t], 1, 1);
    assert [s][..0] == [] && [t][..0] == [] && [s][..1] == [s] && [t][..1] == [t];
    hide ToneCost;
    assert Retune(s, t) <= SCALE;
  }

  /** Inside the registered grammar no pair of tones costs more than a gap, so the cost is at
      most one gap per tone of the longer mark. */
  lemma {:induction false} ToneCostBound(a: seq<Tone>, b: seq<Tone>)
    requires (forall t <- a :: InGrammar(t)) && (forall t <- b :: InGrammar(t))
    ensures ToneCost(a, b) <= SCALE * Max(|a|, |b|)
    decreases |a| + |b|
  {
    if a != [] && b != [] {
      var m, n := |a| - 1, |b| - 1;
      assert a[m] in a && b[n] in b;
      ToneCostBound(a[..m], b[..n]);
      EditSubstitute(a, b, SCALE, Retune);
    } else {
      Borders(a);
      Borders(b);
    }
  }

  /** Rejected when either mark is outside the grammar. */
  method ToneDistance(left: seq<Tone>, right: seq<Tone>) returns (distance: Option<real>)
    ensures distance.Some? <==> ValidMark(left) && ValidMark(right)
    ensures distance.Some? ==>
              distance.value * (SCALE * Max(|left|, |right|)) as real == ToneCost(left, right) as real
    ensures distance.Some? ==> 0.0 <= distance.value <= 1.0 && (distance.value == 0.0 <==> left == right)
  {
    hide ToneCost, Max;
    var leftOk := ValidateTone(left);
    var rightOk := ValidateTone(right);
    if !leftOk || !rightOk {
      return None;
    }
    var cost := ToneEditCost(left, right);
    var longest := SCALE * Max(|left|, |right|);
    ToneCostBound(left, right);
    ToneCostIsMetric(left, right, right);
    LongerIsPositive(left, right);
    Quotient(cost, longest);
    return Some(cost as real / longest as real);
  }

  lemma LongerIsPositive(a: seq<Tone>, b: seq<Tone>)
    requires a != []
    ensures Max(|a|, |b|) > 0
  {
  }

  lemma Quotient(n: nat, d: nat)
    requires 0 < d && n <= d
    ensures var q := n as real / d as real; q * d as real == n as real && 0.0 <= q <= 1.0 && (q == 0.0 <==> n == 0)
  {
  }
}
