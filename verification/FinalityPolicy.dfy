/** The confirmation depth a finality policy names. */
module FinalityPolicy {
  import opened Wrappers

  const MAX_SAFE_INTEGER: nat := 9007199254740991

  const SAFE_TAG_DEPTH: nat := 192

  const SUFFIX := "-confirmations"

  predicate IsDigit(ch: char)
  {
    '0' <= ch <= '9'
  }

  predicate AllDigits(s: string)
  {
    forall i | 0 <= i < |s| :: IsDigit(s[i])
  }

  function Value(s: string): nat
    requires AllDigits(s)
  {
    if s == [] then 0 else 10 * Value(s[..|s| - 1]) + (s[|s| - 1] as int - '0' as int)
  }

  function Digit(d: nat): (ch: char)
    requires d < 10
    ensures IsDigit(ch) && ch as int - '0' as int == d
  {
    ('0' as int + d) as char
  }

  function Decimal(n: nat): string
  {
    if n < 10 then [Digit(n)] else Decimal(n / 10) + [Digit(n % 10)]
  }

  /** The digits in front of the suffix, when the policy has that form. */
  function Numbered(policy: string): Option<string>
  {
    var n := |policy| - |SUFFIX|;
    if n > 0 && policy[n..] == SUFFIX && AllDigits(policy[..n]) then Some(policy[..n]) else None
  }

  function RequiredConfirmations(policy: string): (depth: Option<nat>)
    ensures depth.Some? ==> 1 <= depth.value <= MAX_SAFE_INTEGER
    ensures policy == "1-confirmation" ==> depth == Some(1)
    ensures policy == "safe-tag" ==> depth == Some(192)
  {
    if policy == "1-confirmation" then Some(1)
    else if policy == "safe-tag" then Some(SAFE_TAG_DEPTH)
    else
      var digits := Numbered(policy);
      if digits.Some? && 0 < Value(digits.value) <= MAX_SAFE_INTEGER then Some(Value(digits.value)) else None
  }

  lemma {:induction false} DecimalRoundTrip(n: nat)
    ensures Decimal(n) != [] && AllDigits(Decimal(n)) && Value(Decimal(n)) == n
  {
    if n >= 10 {
      DecimalRoundTrip(n / 10);
      assert Decimal(n)[..|Decimal(n)| - 1] == Decimal(n / 10);
    }
  }

  function Zeros(k: nat): string
  {
    seq(k, i => '0')
  }

  /** Digits are the decimal form of their value behind leading zeros. */
  lemma {:induction false} DigitsNormalForm(s: string) returns (zeros: nat)
    requires AllDigits(s) && Value(s) > 0
    ensures s == Zeros(zeros) + Decimal(Value(s))
  {
    var n := |s| - 1;
    var rest := s[..n];
    assert s == rest + [s[n]];
    if Value(rest) > 0 {
      zeros := DigitsNormalForm(rest);
      assert Value(s) / 10 == Value(rest) && Digit(Value(s) % 10) == s[n];
    } else {
      OnlyZeros(rest);
      zeros := n;
      assert Decimal(Value(s)) == [s[n]];
    }
  }

  lemma {:induction false} OnlyZeros(s: string)
    requires AllDigits(s) && Value(s) == 0
    ensures s == Zeros(|s|)
  {
    if s != [] {
      OnlyZeros(s[..|s| - 1]);
      assert s == s[..|s| - 1] + ['0'];
    }
  }

  lemma NumberedForm(digits: string)
    requires digits != [] && AllDigits(digits)
    ensures Numbered(digits + SUFFIX) == Some(digits)
    ensures digits + SUFFIX != "safe-tag" && digits + SUFFIX != "1-confirmation"
  {
    var policy := digits + SUFFIX;
    assert policy[|digits|..] == SUFFIX && policy[..|digits|] == digits;
    assert policy[0] == digits[0];
    assert policy[|policy| - 1] == 's';
  }

  /** A written depth is read back, as long as it is positive and a safe integer. */
  lemma DepthRoundTrip(n: nat)
    ensures RequiredConfirmations(Decimal(n) + SUFFIX) == if 1 <= n <= MAX_SAFE_INTEGER then Some(n) else None
  {
    DecimalRoundTrip(n);
    NumberedForm(Decimal(n));
  }

  /** Besides the two names, a policy names a depth exactly when it is that safe positive depth in
      decimal, with any number of leading zeros, before the suffix. */
  lemma AcceptedPolicies(policy: string, n: nat)
    requires policy != "1-confirmation" && policy != "safe-tag"
    ensures RequiredConfirmations(policy) == Some(n)
       <==> 1 <= n <= MAX_SAFE_INTEGER && exists k: nat :: policy == Zeros(k) + Decimal(n) + SUFFIX
  {
    if RequiredConfirmations(policy) == Some(n) {
      var digits := Numbered(policy).value;
      var k := DigitsNormalForm(digits);
      assert policy == digits + SUFFIX;
      assert policy == Zeros(k) + Decimal(n) + SUFFIX;
    }
    if k: nat :| 1 <= n <= MAX_SAFE_INTEGER && policy == Zeros(k) + Decimal(n) + SUFFIX {
      DecimalRoundTrip(n);
      PaddedValue(k, Decimal(n));
      NumberedForm(Zeros(k) + Decimal(n));
    }
  }

  lemma {:induction false} PaddedValue(k: nat, s: string)
    requires AllDigits(s)
    ensures AllDigits(Zeros(k) + s) && Value(Zeros(k) + s) == Value(s)
    decreases |s|
  {
    var padded := Zeros(k) + s;
    if s == [] {
      assert padded == Zeros(k);
      ZerosAreZero(k);
    } else {
      PaddedValue(k, s[..|s| - 1]);
      assert padded[..|padded| - 1] == Zeros(k) + s[..|s| - 1];
    }
  }

  lemma {:induction false} ZerosAreZero(k: nat)
    ensures AllDigits(Zeros(k)) && Value(Zeros(k)) == 0
  {
    if k > 0 {
      ZerosAreZero(k - 1);
      assert Zeros(k)[..k - 1] == Zeros(k - 1);
    }
  }
}
