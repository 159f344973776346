/** Levenshtein distance over message forms, kept in two rolling rows. */
module MessageDistance {
  import opened EditDistance

  function Differs(x: string, y: string): nat
  {
    if x == y then 0 else 1
  }

  function Levenshtein(a: seq<string>, b: seq<string>): nat
  {
    Edit(a, b, 1, Differs)
  }

  lemma RowStep(left: seq<string>, right: seq<string>, row: nat, column: nat)
    requires 0 < row <= |left| && 0 < column <= |right|
    ensures Levenshtein(left[..row], right[..column])
         == Min(Min(Levenshtein(left[..row - 1], right[..column - 1]) + Differs(left[row - 1], right[column - 1]),
                    Levenshtein(left[..row - 1], right[..column]) + 1),
                Levenshtein(left[..row], right[..column - 1]) + 1)
  {
    assert left[..row][..row - 1] == left[..row - 1];
    assert right[..column][..column - 1] == right[..column - 1];
  }

  method MessageEditDistance(left: seq<string>, right: seq<string>) returns (distance: nat)
    ensures distance == Levenshtein(left, right)
  {
    hide Levenshtein;
    var rows, columns := |left|, |right|;
    var previous := new nat[columns + 1](j => j);
    forall j | 0 <= j <= columns
      ensures previous[j] == Levenshtein(left[..0], right[..j])
    {
      FirstRow(right[..j]);
    }
    for row := 1 to rows + 1
      invariant previous.Length == columns + 1
      invariant forall j | 0 <= j <= columns :: previous[j] == Levenshtein(left[..row - 1], right[..j])
    {
      var current := new nat[columns + 1];
      current[0] := row;
      FirstColumn(left[..row]);
      assert right[..0] == [];
      for column := 1 to columns + 1
        invariant forall j | 0 <= j < column :: current[j] == Levenshtein(left[..row], right[..j])
        invariant forall j | 0 <= j <= columns :: previous[j] == Levenshtein(left[..row - 1], right[..j])
      {
        var substitution := previous[column - 1] + if left[row - 1] == right[column - 1] then 0 else 1;
        var deletion := previous[column] + 1;
        var insertion := current[column - 1] + 1;
        RowStep(left, right, row, column);
        current[column] := Min(Min(substitution, deletion), insertion);
      }
      previous := current;
    }
    assert left[..rows] == left && right[..columns] == right;
    return previous[columns];
  }

  lemma FirstRow(b: seq<string>)
    ensures Levenshtein([], b) == |b|
  {
  }

  lemma FirstColumn(a: seq<string>)
    ensures Levenshtein(a, []) == |a|
  {
  }

  /** Levenshtein distance is a metric on message forms. */
  lemma LevenshteinIsMetric(a: seq<string>, b: seq<string>, c: seq<string>)
    ensures Levenshtein(a, b) == 0 <==> a == b
    ensures Levenshtein(a, b) == Levenshtein(b, a)
    ensures Levenshtein(a, c) <= Levenshtein(a, b) + Levenshtein(b, c)
  {
    hide Edit;
    EditZero(a, b, 1, Differs);
    EditSymmetric(a, b, 1, Differs);
    EditTriangle(a, b, c, 1, Differs);
  }

  /** It is the least number of edits: no script with fewer insertions, deletions and real
      substitutions turns one sequence into the other, and one with exactly that many does. */
  /** One message form differs from another by 1, and every message put in or left out costs 1. */
  lemma SingleMessages(x: string, y: string, a: seq<string>)
    ensures Levenshtein([x], [y]) == if x == y then 0 else 1
    ensures Levenshtein(a, []) == |a| && Levenshtein([], a) == |a|
  {
    FirstRow(a);
    FirstColumn(a);
    FirstRow([y]);
    FirstColumn([x]);
    RowStep([x], [y], 1, 1);
    assert [x][..0] == [] && [y][..0] == [] && [x][..1] == [x] && [y][..1] == [y];
  }

  lemma LevenshteinIsLeastScript(a: seq<string>, b: seq<string>)
    ensures forall script: seq<Step<string>> :: Source(script) == a && Target(script) == b ==>
              Levenshtein(a, b) <= ScriptCost(script, 1, Differs)
    ensures exists script: seq<Step<string>> :: Source(script) == a && Target(script) == b
              && Levenshtein(a, b) == ScriptCost(script, 1, Differs)
  {
    forall script: seq<Step<string>> | Source(script) == a && Target(script) == b
      ensures Levenshtein(a, b) <= ScriptCost(script, 1, Differs)
    {
      EveryScriptCostsAtLeast(script, 1, Differs);
    }
    var script := SomeScriptCosts(a, b, 1, Differs);
  }
}
