/** Weighted edit distance: the least cost of turning one sequence into another with insertions,
    deletions and substitutions, for a fixed gap cost and a substitution cost function. */
module EditDistance {

  type Cost<!T> = (T, T) -> nat

  function Min(a: nat, b: nat): nat
  {
    if a < b then a else b
  }

  function Max(a: nat, b: nat): nat
  {
    if a < b then b else a
  }

  /** The recurrence the tables of both programs fill in. */
  function Edit<T>(a: seq<T>, b: seq<T>, gap: nat, sub: Cost<T>): nat
    decreases |a| + |b|
  {
    if a == [] then |b| * gap
    else if b == [] then |a| * gap
    else
      var m, n := |a| - 1, |b| - 1;
      Min(Min(Edit(a[..m], b, gap, sub) + gap, Edit(a, b[..n], gap, sub) + gap),
          Edit(a[..m], b[..n], gap, sub) + sub(a[m], b[n]))
  }

  // ---------------------------------------------------------------- edit scripts

  datatype Step<T> = Delete(x: T) | Insert(y: T) | Substitute(x: T, y: T)

  function Source<T>(script: seq<Step<T>>): seq<T>
  {
    if script == [] then []
    else
      var step := script[|script| - 1];
      Source(script[..|script| - 1]) + if step.Insert? then [] else [step.x]
  }

  function Target<T>(script: seq<Step<T>>): seq<T>
  {
    if script == [] then []
    else
      var step := script[|script| - 1];
      Target(script[..|script| - 1]) + if step.Delete? then [] else [step.y]
  }

  function ScriptCost<T>(script: seq<Step<T>>, gap: nat, sub: Cost<T>): nat
  {
    if script == [] then 0
    else
      var step := script[|script| - 1];
      ScriptCost(script[..|script| - 1], gap, sub) + if step.Substitute? then sub(step.x, step.y) else gap
  }

  // ---------------------------------------------------------------- steps of the recurrence

  lemma EditOfEmpty<T>(a: seq<T>, gap: nat, sub: Cost<T>)
    ensures Edit(a, [], gap, sub) == |a| * gap && Edit([], a, gap, sub) == |a| * gap
  {
  }

  lemma EditDelete<T>(a: seq<T>, b: seq<T>, gap: nat, sub: Cost<T>)
    requires a != []
    ensures Edit(a, b, gap, sub) <= Edit(a[..|a| - 1], b, gap, sub) + gap
  {
  }

  lemma EditInsert<T>(a: seq<T>, b: seq<T>, gap: nat, sub: Cost<T>)
    requires b != []
    ensures Edit(a, b, gap, sub) <= Edit(a, b[..|b| - 1], gap, sub) + gap
  {
  }

  lemma EditSubstitute<T>(a: seq<T>, b: seq<T>, gap: nat, sub: Cost<T>)
    requires a != [] && b != []
    ensures Edit(a, b, gap, sub) <= Edit(a[..|a| - 1], b[..|b| - 1], gap, sub) + sub(a[|a| - 1], b[|b| - 1])
  {
  }

  lemma GapMul(n: nat, gap: nat)
    requires n > 0
    ensures n * gap == (n - 1) * gap + gap
  {
  }

  /** The cheapest edit ends with a deletion, an insertion or a substitution. */
  lemma EditLast<T>(a: seq<T>, b: seq<T>, gap: nat, sub: Cost<T>)
    requires a != [] || b != []
    ensures
      || (a != [] && Edit(a, b, gap, sub) == Edit(a[..|a| - 1], b, gap, sub) + gap)
      || (b != [] && Edit(a, b, gap, sub) == Edit(a, b[..|b| - 1], gap, sub) + gap)
      || (a != [] && b != [] && Edit(a, b, gap, sub)
            == Edit(a[..|a| - 1], b[..|b| - 1], gap, sub) + sub(a[|a| - 1], b[|b| - 1]))
  {
    if a == [] {
      GapMul(|b|, gap);
    } else if b == [] {
      GapMul(|a|, gap);
    }
  }

  lemma Extend<T>(rest: seq<Step<T>>, step: Step<T>, gap: nat, sub: Cost<T>)
    ensures Source(rest + [step]) == Source(rest) + if step.Insert? then [] else [step.x]
    ensures Target(rest + [step]) == Target(rest) + if step.Delete? then [] else [step.y]
    ensures ScriptCost(rest + [step], gap, sub)
         == ScriptCost(rest, gap, sub) + if step.Substitute? then sub(step.x, step.y) else gap
  {
    assert (rest + [step])[..|rest|] == rest;
  }

  /** No script is cheaper than the recurrence. */
  lemma {:induction false} EveryScriptCostsAtLeast<T>(script: seq<Step<T>>, gap: nat, sub: Cost<T>)
    ensures Edit(Source(script), Target(script), gap, sub) <= ScriptCost(script, gap, sub)
    decreases |script|
  {
    if script != [] {
      hide Edit;
      var rest, step := script[..|script| - 1], script[|script| - 1];
      EveryScriptCostsAtLeast(rest, gap, sub);
      var a, b := Source(rest), Target(rest);
      match step
      case Delete(x) =>
        EditDelete(a + [x], b, gap, sub);
        assert (a + [x])[..|a|] == a && b + [] == b;
      case Insert(y) =>
        EditInsert(a, b + [y], gap, sub);
        assert (b + [y])[..|b|] == b && a + [] == a;
      case Substitute(x, y) =>
        EditSubstitute(a + [x], b + [y], gap, sub);
        assert (a + [x])[..|a|] == a && (b + [y])[..|b|] == b;
    }
  }

  /** Some script costs exactly what the recurrence says. */
  lemma {:induction false} SomeScriptCosts<T>(a: seq<T>, b: seq<T>, gap: nat, sub: Cost<T>)
    returns (script: seq<Step<T>>)
    ensures Source(script) == a && Target(script) == b && ScriptCost(script, gap, sub) == Edit(a, b, gap, sub)
    decreases |a| + |b|
  {
    if a == [] && b == [] {
      return [];
    }
    hide Edit, Source, Target, ScriptCost;
    EditLast(a, b, gap, sub);
    var m, n := |a| - 1, |b| - 1;
    if a != [] { assert a == a[..m] + [a[m]] && a + [] == a; }
    if b != [] { assert b == b[..n] + [b[n]] && b + [] == b; }
    if a != [] && Edit(a, b, gap, sub) == Edit(a[..m], b, gap, sub) + gap {
      var rest := SomeScriptCosts(a[..m], b, gap, sub);
      Extend(rest, Delete(a[m]), gap, sub);
      return rest + [Delete(a[m])];
    } else if b != [] && Edit(a, b, gap, sub) == Edit(a, b[..n], gap, sub) + gap {
      var rest := SomeScriptCosts(a, b[..n], gap, sub);
      Extend(rest, Insert(b[n]), gap, sub);
      return rest + [Insert(b[n])];
    } else {
      var rest := SomeScriptCosts(a[..m], b[..n], gap, sub);
      Extend(rest, Substitute(a[m], b[n]), gap, sub);
      return rest + [Substitute(a[m], b[n])];
    }
  }

  // ---------------------------------------------------------------- metric laws

  ghost predicate IsMetric<T(!new)>(sub: Cost<T>)
  {
    && (forall x: T, y: T :: sub(x, y) == 0 <==> x == y)
    && (forall x: T, y: T :: sub(x, y) == sub(y, x))
    && (forall x: T, y: T, z: T :: sub(x, z) <= sub(x, y) + sub(y, z))
  }

  lemma ZeroSubstitution<T(!new)>(sub: Cost<T>, x: T, y: T)
    requires IsMetric(sub)
    ensures sub(x, y) == 0 <==> x == y
  {
  }

  lemma LastApart<T>(a: seq<T>, b: seq<T>)
    requires a != [] && b != []
    ensures a == b <==> a[..|a| - 1] == b[..|b| - 1] && a[|a| - 1] == b[|b| - 1]
  {
    assert a == a[..|a| - 1] + [a[|a| - 1]] && b == b[..|b| - 1] + [b[|b| - 1]];
  }

  lemma {:induction false} EditZero<T(!new)>(a: seq<T>, b: seq<T>, gap: nat, sub: Cost<T>)
    requires IsMetric(sub) && gap > 0
    ensures Edit(a, b, gap, sub) == 0 <==> a == b
    decreases |a| + |b|
  {
    hide IsMetric, Edit;
    if a != [] && b != [] {
      var m, n := |a| - 1, |b| - 1;
      EditZero(a[..m], b[..n], gap, sub);
      ZeroSubstitution(sub, a[m], b[n]);
      LastApart(a, b);
      EditLast(a, b, gap, sub);
      EditSubstitute(a, b, gap, sub);
    } else {
      EditOfEmpty(a, gap, sub);
      EditOfEmpty(b, gap, sub);
      if a != [] { GapMul(|a|, gap); }
      if b != [] { GapMul(|b|, gap); }
    }
  }

  lemma {:induction false} EditSymmetric<T(!new)>(a: seq<T>, b: seq<T>, gap: nat, sub: Cost<T>)
    requires IsMetric(sub)
    ensures Edit(a, b, gap, sub) == Edit(b, a, gap, sub)
    decreases |a| + |b|
  {
    if a != [] && b != [] {
      var m, n := |a| - 1, |b| - 1;
      EditSymmetric(a[..m], b, gap, sub);
      EditSymmetric(a, b[..n], gap, sub);
      EditSymmetric(a[..m], b[..n], gap, sub);
    }
  }

  lemma {:induction false} EditAtMostBoth<T>(a: seq<T>, c: seq<T>, gap: nat, sub: Cost<T>)
    ensures Edit(a, c, gap, sub) <= |a| * gap + |c| * gap
    decreases |a|
  {
    if a != [] {
      EditDelete(a, c, gap, sub);
      EditAtMostBoth(a[..|a| - 1], c, gap, sub);
      GapMul(|a|, gap);
    }
  }

  /** The triangle inequality, by cases on the last step of each of the two optimal edits. */
  lemma {:induction false} EditTriangle<T(!new)>(a: seq<T>, b: seq<T>, c: seq<T>, gap: nat, sub: Cost<T>)
    requires IsMetric(sub)
    ensures Edit(a, c, gap, sub) <= Edit(a, b, gap, sub) + Edit(b, c, gap, sub)
    decreases |a| + |b| + |c|
  {
    hide Edit;
    if b == [] {
      EditAtMostBoth(a, c, gap, sub);
      EditOfEmpty(a, gap, sub);
      EditOfEmpty(c, gap, sub);
    } else {
      EditLast(a, b, gap, sub);
      EditLast(b, c, gap, sub);
      if a != [] {
        EditDelete(a, c, gap, sub);
        EditTriangle(a[..|a| - 1], b, c, gap, sub);
      }
      if c != [] {
        EditInsert(a, c, gap, sub);
        EditTriangle(a, b, c[..|c| - 1], gap, sub);
      }
      TriangleThroughLast(a, b, c, gap, sub);
    }
  }

  /** The cases in which both edits touch the last element of b. */
  lemma {:induction false} TriangleThroughLast<T(!new)>(a: seq<T>, b: seq<T>, c: seq<T>, gap: nat, sub: Cost<T>)
    requires IsMetric(sub) && b != []
    ensures var b' := b[..|b| - 1];
      && Edit(a, c, gap, sub) <= Edit(a, b', gap, sub) + Edit(b', c, gap, sub)
      && (c != [] ==>
            Edit(a, c, gap, sub) <= Edit(a, b', gap, sub) + Edit(b', c[..|c| - 1], gap, sub) + gap)
      && (a != [] ==>
            Edit(a, c, gap, sub) <= Edit(a[..|a| - 1], b', gap, sub) + Edit(b', c, gap, sub) + gap)
      && (a != [] && c != [] ==>
            Edit(a, c, gap, sub) <= Edit(a[..|a| - 1], b', gap, sub) + sub(a[|a| - 1], b[|b| - 1])
                                  + Edit(b', c[..|c| - 1], gap, sub) + sub(b[|b| - 1], c[|c| - 1]))
    decreases |a| + |b| + |c|, 0
  {
    hide Edit;
    var b' := b[..|b| - 1];
    EditTriangle(a, b', c, gap, sub);
    if c != [] {
      EditInsert(a, c, gap, sub);
      EditTriangle(a, b', c[..|c| - 1], gap, sub);
    }
    if a != [] {
      EditDelete(a, c, gap, sub);
      EditTriangle(a[..|a| - 1], b', c, gap, sub);
    }
    if a != [] && c != [] {
      EditSubstitute(a, c, gap, sub);
      EditTriangle(a[..|a| - 1], b', c[..|c| - 1], gap, sub);
    }
  }
}
