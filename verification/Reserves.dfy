/** Reserve seeds: the probability that at most r of n runs are invalid, and the least reserve that
    makes it large enough. The source sums logarithms; the model multiplies real numbers. */
module Reserves {
  import opened Wrappers

  datatype ReserveError = Domain | ExceedsDesignSpace

  function Choose(n: nat, k: int): nat
  {
    if k < 0 || k > n then 0
    else if k == 0 || k == n then 1
    else Choose(n - 1, k - 1) + Choose(n - 1, k)
  }

  function Power(x: real, k: nat): real
  {
    if k == 0 then 1.0 else x * Power(x, k - 1)
  }

  /** The mean of a and b with weight q on b. */
  function Mix(q: real, a: real, b: real): real
  {
    var p := 1.0 - q;
    p * a + q * b
  }

  /** P(Bin(n, q) <= r), by conditioning on the last run. */
  function Cdf(n: nat, r: int, q: real): real
    decreases n
  {
    if r < 0 then 0.0
    else if n == 0 then 1.0
    else Mix(q, Cdf(n - 1, r, q), Cdf(n - 1, r - 1, q))
  }

  predicate Probability(q: real)
  {
    0.0 <= q <= 1.0
  }

  // ---------------------------------------------------------------- real arithmetic

  lemma Mul(a: real, x: real, y: real)
    requires 0.0 <= a && x <= y
    ensures a * x <= a * y
  {
  }

  lemma WeightedMono(p: real, q: real, a: real, b: real, c: real, d: real)
    requires 0.0 <= p && 0.0 <= q && a <= c && b <= d
    ensures p * a + q * b <= p * c + q * d
  {
    Mul(p, a, c);
    Mul(q, b, d);
  }

  /** A weighted mean moves up with either of its values. */
  lemma MixMono(q: real, a: real, b: real, c: real, d: real)
    requires Probability(q) && a <= c && b <= d
    ensures Mix(q, a, b) <= Mix(q, c, d)
  {
    WeightedMono(1.0 - q, q, a, b, c, d);
  }

  lemma MixSame(q: real, a: real)
    ensures Mix(q, a, a) == a
  {
  }

  /** A weighted mean lies between its values. */
  lemma MixBetween(q: real, a: real, b: real)
    requires Probability(q) && b <= a
    ensures b <= Mix(q, a, b) <= a
  {
    hide Mix;
    MixMono(q, b, b, a, b);
    MixMono(q, a, b, a, a);
    MixSame(q, a);
    MixSame(q, b);
  }

  lemma MixAsDrop(q: real, a: real, b: real)
    ensures Mix(q, a, b) == a - (a - b) * q
  {
  }

  /** More weight on the smaller value lowers the mean. */
  lemma MixShift(q: real, q': real, a: real, b: real)
    requires q <= q' && b <= a
    ensures Mix(q', a, b) <= Mix(q, a, b)
  {
    MixAsDrop(q, a, b);
    MixAsDrop(q', a, b);
    hide Mix;
    Mul(a - b, q, q');
  }

  // ---------------------------------------------------------------- monotonicity

  lemma {:induction false} CdfRange(n: nat, r: int, q: real)
    requires Probability(q)
    ensures 0.0 <= Cdf(n, r, q) <= 1.0
    decreases n
  {
    hide Mix;
    if 0 <= r && 0 < n {
      CdfRange(n - 1, r, q);
      CdfRange(n - 1, r - 1, q);
      MixSame(q, 0.0);
      MixSame(q, 1.0);
      MixMono(q, 0.0, 0.0, Cdf(n - 1, r, q), Cdf(n - 1, r - 1, q));
      MixMono(q, Cdf(n - 1, r, q), Cdf(n - 1, r - 1, q), 1.0, 1.0);
    }
  }

  lemma {:induction false} CdfRisesInR(n: nat, r: int, q: real)
    requires Probability(q)
    ensures Cdf(n, r - 1, q) <= Cdf(n, r, q)
    decreases n
  {
    hide Mix;
    CdfRange(n, r, q);
    if 0 < r && 0 < n {
      CdfRisesInR(n - 1, r, q);
      CdfRisesInR(n - 1, r - 1, q);
      MixMono(q, Cdf(n - 1, r - 1, q), Cdf(n - 1, r - 2, q), Cdf(n - 1, r, q), Cdf(n - 1, r - 1, q));
    }
  }

  lemma {:induction false} CdfFallsInQ(n: nat, r: int, q: real, q': real)
    requires Probability(q) && Probability(q') && q <= q'
    ensures Cdf(n, r, q') <= Cdf(n, r, q)
    decreases n
  {
    hide Mix;
    if 0 <= r && 0 < n {
      CdfFallsInQ(n - 1, r, q, q');
      CdfFallsInQ(n - 1, r - 1, q, q');
      CdfRisesInR(n - 1, r, q);
      MixMono(q', Cdf(n - 1, r, q'), Cdf(n - 1, r - 1, q'), Cdf(n - 1, r, q), Cdf(n - 1, r - 1, q));
      MixShift(q, q', Cdf(n - 1, r, q), Cdf(n - 1, r - 1, q));
    }
  }

  function Adequacy(primary: nat, reserve: nat, q: real): real
  {
    Cdf(primary + reserve, reserve, q)
  }

  /** One more reserve never lowers the adequacy. */
  lemma AdequacyRises(primary: nat, reserve: nat, q: real)
    requires Probability(q)
    ensures Adequacy(primary, reserve, q) <= Adequacy(primary, reserve + 1, q)
  {
    hide Mix;
    CdfRisesInR(primary + reserve, reserve + 1, q);
    MixBetween(q, Cdf(primary + reserve, reserve + 1, q), Cdf(primary + reserve, reserve, q));
  }

  lemma {:induction false} AdequacyRisesBy(primary: nat, reserve: nat, more: nat, q: real)
    requires Probability(q) && reserve <= more
    ensures Adequacy(primary, reserve, q) <= Adequacy(primary, more, q)
    decreases more
  {
    hide Mix;
    if reserve < more {
      AdequacyRisesBy(primary, reserve, more - 1, q);
      AdequacyRises(primary, more - 1, q);
    }
  }

  // ---------------------------------------------------------------- the sum the source computes

  lemma Absorb(a: nat, b: nat, c: nat, n: nat, k: nat)
    requires k < n && b * k == a * (n - k) && c * (k + 1) == b * (n - 1 - k)
    ensures (b + c) * (k + 1) == (a + b) * (n - k)
  {
    calc {
      (b + c) * (k + 1);
      b * (k + 1) + c * (k + 1);
      b * (k + 1) + b * (n - 1 - k);
      b * n;
      b * k + b * (n - k);
      a * (n - k) + b * (n - k);
      (a + b) * (n - k);
    }
  }

  /** The multiplicative step from one binomial coefficient to the next. */
  lemma {:induction false} ChooseStep(n: nat, k: nat)
    requires k < n
    ensures Choose(n, k + 1) * (k + 1) == Choose(n, k) * (n - k)
  {
    hide Choose;
    if k + 1 == n {
      ChooseLast(n);
      ChooseTop(n);
    } else if k == 0 {
      ChooseNone(n);
      ChooseFirst(n);
    } else {
      ChooseStep(n - 1, k);
      ChooseStep(n - 1, k - 1);
      Absorb(Choose(n - 1, k - 1), Choose(n - 1, k), Choose(n - 1, k + 1), n, k);
      ChoosePascal(n, k);
      ChoosePascal(n, k + 1);
    }
  }

  lemma ChoosePascal(n: nat, k: nat)
    requires 0 < k < n
    ensures Choose(n, k) == Choose(n - 1, k - 1) + Choose(n - 1, k)
  {
  }

  lemma {:induction false} ChooseFirst(n: nat)
    requires n > 0
    ensures Choose(n, 1) == n
  {
    if n > 1 {
      ChooseFirst(n - 1);
    }
  }

  lemma ChooseTop(n: nat)
    ensures Choose(n, n) == 1
  {
  }

  lemma {:induction false} ChooseLast(n: nat)
    requires n > 0
    ensures Choose(n, n - 1) == n
  {
    if n > 1 {
      ChooseLast(n - 1);
    }
  }

  function Term(n: nat, k: int, q: real): real
  {
    if k < 0 || k > n then 0.0 else Choose(n, k) as real * Power(q, k) * Power(1.0 - q, n - k)
  }

  function Sum(n: nat, r: int, q: real): real
    decreases r + 1
  {
    if r < 0 then 0.0 else Sum(n, r - 1, q) + Term(n, r, q)
  }

  /** Pascal's rule, with the powers attached. */
  lemma TermPascal(n: nat, k: nat, q: real)
    ensures Term(n + 1, k, q) == Mix(q, Term(n, k, q), Term(n, k - 1, q))
  {
    hide Mix, Term;
    if k == 0 {
      TermPascalFirst(n, q);
    } else if k <= n {
      TermPascalInside(n, k, q);
    } else if k == n + 1 {
      TermPascalLast(n, q);
    } else {
      TermOutside(n, k - 1, q);
      TermOutside(n, k, q);
      TermOutside(n + 1, k, q);
      MixSame(q, 0.0);
    }
  }

  lemma TermOutside(n: nat, k: int, q: real)
    requires k < 0 || k > n
    ensures Term(n, k, q) == 0.0
  {
  }

  lemma TermPascalFirst(n: nat, q: real)
    ensures Term(n + 1, 0, q) == Mix(q, Term(n, 0, q), Term(n, -1, q))
  {
    hide Choose, Power;
    ChooseNone(n);
    ChooseNone(n + 1);
    PowerStep(1.0 - q, n);
  }

  lemma TermPascalLast(n: nat, q: real)
    ensures Term(n + 1, n + 1, q) == Mix(q, Term(n, n + 1, q), Term(n, n, q))
  {
    hide Choose, Power;
    ChooseTop(n);
    ChooseTop(n + 1);
    PowerStep(q, n);
  }

  lemma TermPascalInside(n: nat, k: nat, q: real)
    requires 0 < k <= n
    ensures Term(n + 1, k, q) == Mix(q, Term(n, k, q), Term(n, k - 1, q))
  {
    hide Choose, Power, Mix;
    ChoosePascal(n + 1, k);
    PowerStep(q, k - 1);
    PowerStep(1.0 - q, n - k);
    var a, b, x, y := Choose(n, k - 1) as real, Choose(n, k) as real, Power(q, k - 1), Power(1.0 - q, n - k);
    var c, s, t := Choose(n + 1, k) as real, Power(q, k), Power(1.0 - q, n + 1 - k);
    Distribute(a, b, q, x, y, c, s, t, Term(n + 1, k, q), Term(n, k, q), Term(n, k - 1, q));
  }

  lemma PowerStep(x: real, k: nat)
    ensures Power(x, k + 1) == x * Power(x, k)
  {
  }

  lemma Distribute(a: real, b: real, q: real, x: real, y: real, c: real, s: real, t: real, whole: real,
                   upper: real, lower: real)
    requires c == a + b && s == q * x && t == (1.0 - q) * y
    requires whole == c * s * t && upper == b * s * y && lower == a * x * t
    ensures whole == Mix(q, upper, lower)
  {
    Shuffle(a, b, q, 1.0 - q, x, y, s, t);
  }

  lemma Shuffle(a: real, b: real, q: real, p: real, x: real, y: real, s: real, t: real)
    requires s == q * x && t == p * y
    ensures (a + b) * s * t == p * (b * s * y) + q * (a * x * t)
  {
    assert (a + b) * s * t == a * s * t + b * s * t;
    assert b * s * t == p * (b * s * y);
    assert a * s * t == q * (a * x * t);
  }

  lemma MixSum(q: real, a: real, b: real, c: real, d: real)
    ensures Mix(q, a + c, b + d) == Mix(q, a, b) + Mix(q, c, d)
  {
  }

  lemma {:induction false} SumPascal(n: nat, r: int, q: real)
    ensures Sum(n + 1, r, q) == Mix(q, Sum(n, r, q), Sum(n, r - 1, q))
    decreases r + 1
  {
    hide Mix, Term;
    if r < 0 {
      MixSame(q, 0.0);
    } else {
      SumPascal(n, r - 1, q);
      TermPascal(n, r, q);
      TermNegative(n, q);
      MixSum(q, Sum(n, r - 1, q), Sum(n, r - 2, q), Term(n, r, q), Term(n, r - 1, q));
    }
  }

  lemma TermNegative(n: nat, q: real)
    ensures Term(n, -1, q) == 0.0
  {
  }

  lemma {:induction false} SumOfNone(r: int, q: real)
    ensures Sum(0, r, q) == if r < 0 then 0.0 else 1.0
    decreases r + 1
  {
    if r > 0 {
      SumOfNone(r - 1, q);
    } else if r == 0 {
      assert Sum(0, -1, q) == 0.0;
    }
  }

  /** The sum of coefficient terms is the distribution function. */
  lemma {:induction false} SumIsCdf(n: nat, r: int, q: real)
    ensures Sum(n, r, q) == Cdf(n, r, q)
    decreases n
  {
    hide Mix;
    if n == 0 {
      SumOfNone(r, q);
    } else if r >= 0 {
      hide Term;
      SumIsCdf(n - 1, r, q);
      SumIsCdf(n - 1, r - 1, q);
      SumPascal(n - 1, r, q);
    }
  }

  lemma {:induction false} CdfAtZero(n: nat, r: nat)
    ensures Cdf(n, r, 0.0) == 1.0
    decreases n
  {
    if n > 0 {
      CdfAtZero(n - 1, r);
    }
  }

  lemma {:induction false} CdfAtOne(n: nat, r: int)
    requires r < n
    ensures Cdf(n, r, 1.0) == 0.0
    decreases n
  {
    if r >= 0 {
      CdfAtOne(n - 1, r - 1);
    }
  }

  method BinomialInvalidAtMostProbability(reserves: int, attempts: int, q: real) returns (p: Result<real, ReserveError>)
    ensures p == if 0 <= reserves < attempts && Probability(q) then Ok(Cdf(attempts, reserves, q)) else Err(Domain)
  {
    if reserves < 0 || attempts < 1 || reserves >= attempts || q < 0.0 || q > 1.0 {
      return Err(Domain);
    }
    if q == 0.0 {
      CdfAtZero(attempts, reserves);
      return Ok(1.0);
    }
    if q == 1.0 {
      CdfAtOne(attempts, reserves);
      return Ok(0.0);
    }
    hide Cdf;
    var total := TermSum(reserves, attempts, q);
    SumIsCdf(attempts, reserves, q);
    return Ok(total);
  }

  /** The loop: each coefficient is got from the one before by one multiplication and one division. */
  method TermSum(reserves: nat, attempts: nat, q: real) returns (total: real)
    requires reserves < attempts
    ensures total == Sum(attempts, reserves, q)
  {
    hide Choose, Term;
    total := 0.0;
    var combination := 1.0;
    ChooseNone(attempts);
    for invalid := 0 to reserves + 1
      invariant combination == Choose(attempts, invalid) as real
      invariant total == Sum(attempts, invalid - 1, q)
    {
      var term := combination * Power(q, invalid) * Power(1.0 - q, attempts - invalid);
      TermIs(attempts, invalid, q);
      total := total + term;
      ChooseStep(attempts, invalid);
      NextCoefficient(Choose(attempts, invalid), Choose(attempts, invalid + 1), attempts - invalid, invalid + 1);
      combination := combination * (attempts - invalid) as real / (invalid + 1) as real;
    }
  }

  lemma TermIs(n: nat, k: nat, q: real)
    requires k <= n
    ensures Term(n, k, q) == Choose(n, k) as real * Power(q, k) * Power(1.0 - q, n - k)
  {
  }

  lemma ChooseNone(n: nat)
    ensures Choose(n, 0) == 1
  {
  }

  lemma NextCoefficient(c: nat, d: nat, up: nat, down: nat)
    requires down > 0 && d * down == c * up
    ensures c as real * up as real / down as real == d as real
  {
    assert c as real * up as real == (c * up) as real;
    assert d as real * down as real == (d * down) as real;
  }

  // ---------------------------------------------------------------- the search

  const MAX_RESERVES: nat := 10_000

  predicate SearchDomain(primary: int, q: real, minimum: real)
  {
    primary >= 1 && 0.0 <= q < 1.0 && 0.0 < minimum < 1.0
  }

  /** The reserve returned is a threshold: it and every larger reserve are adequate, no smaller one
      is, and the search gives up only when nothing up to its limit is adequate. */
  method MinimumConfirmatoryReserveSeeds(primary: int, q: real, minimum: real)
    returns (r: Result<(nat, real), ReserveError>)
    ensures r == Err(Domain) <==> !SearchDomain(primary, q, minimum)
    ensures r.Ok? ==> r.value.0 <= MAX_RESERVES && r.value.1 == Adequacy(primary, r.value.0, q)
    ensures r.Ok? ==> forall reserve: nat :: Adequacy(primary, reserve, q) >= minimum <==> r.value.0 <= reserve
    ensures r == Err(ExceedsDesignSpace) ==> forall reserve: nat | reserve <= MAX_RESERVES ::
              Adequacy(primary, reserve, q) < minimum
  {
    if primary < 1 || q < 0.0 || q >= 1.0 || !(minimum > 0.0 && minimum < 1.0) {
      return Err(Domain);
    }
    for reserve := 0 to MAX_RESERVES + 1
      invariant forall k: nat | k < reserve :: Adequacy(primary, k, q) < minimum
    {
      var p := BinomialInvalidAtMostProbability(reserve, primary + reserve, q);
      if p.value >= minimum {
        forall more: nat | reserve <= more
          ensures Adequacy(primary, more, q) >= minimum
        {
          AdequacyRisesBy(primary, reserve, more, q);
        }
        return Ok((reserve, p.value));
      }
    }
    return Err(ExceedsDesignSpace);
  }

  /** A reserve adequate for a higher invalidity rate is adequate for a lower one, so the least
      adequate reserve never falls as the rate rises. */
  lemma ReserveIsMonotoneInRate(primary: nat, q: real, q': real, minimum: real, least: nat, least': nat)
    requires Probability(q) && Probability(q') && q <= q'
    requires forall reserve: nat :: Adequacy(primary, reserve, q) >= minimum <==> least <= reserve
    requires forall reserve: nat :: Adequacy(primary, reserve, q') >= minimum <==> least' <= reserve
    ensures least <= least'
  {
    CdfFallsInQ(primary + least', least', q, q');
    assert Adequacy(primary, least', q') >= minimum;
    assert Adequacy(primary, least', q) >= minimum;
  }
}
