/**
  The exact one-sided McNemar test of the v2 evaluator (qualification_campaign_v2.py).

  The test statistic is an integer fraction: the number of ways in which at least p of
  the n discordant pairs can favour the proxy, over all 2^n ways.
*/
module Binomial {
  // ----- Binomial coefficients and their upper tail -----

  function Choose(n: nat, k: nat): nat {
    if k == 0 then 1 else if n == 0 then 0 else Choose(n - 1, k - 1) + Choose(n - 1, k)
  }

  function Factorial(n: nat): nat {
    if n == 0 then 1 else n * Factorial(n - 1)
  }

  function Power2(n: nat): (r: nat)
    ensures r > 0
  {
    if n == 0 then 1 else 2 * Power2(n - 1)
  }

  /** The sum of Choose(n, k) over p <= k <= n. */
  function Tail(n: nat, p: nat): nat
    decreases n + 1 - p
  {
    if p > n then 0 else Choose(n, p) + Tail(n, p + 1)
  }

  lemma {:induction false} ChooseAbove(n: nat, k: nat)
    requires k > n
    ensures Choose(n, k) == 0
  {
    if n == 0 {
    } else {
      ChooseAbove(n - 1, k - 1);
      ChooseAbove(n - 1, k);
    }
  }

  lemma {:induction false} TopTail(n: nat)
    ensures Tail(n, n) == Choose(n, n) == 1
  {
    if n == 0 {
    } else {
      TopTail(n - 1);
      ChooseAbove(n - 1, n);
    }
  }

  /** Pascal's rule computes the quotient of factorials. */
  lemma {:induction false} ChooseIsFactorialQuotient(n: nat, k: nat)
    requires k <= n
    ensures Choose(n, k) * (Factorial(k) * Factorial(n - k)) == Factorial(n)
  {
    if k == 0 {
    } else if k == n {
      TopTail(n);
    } else {
      ChooseIsFactorialQuotient(n - 1, k - 1);
      ChooseIsFactorialQuotient(n - 1, k);
      var a, b := Choose(n - 1, k - 1), Choose(n - 1, k);
      var f, g := Factorial(k - 1), Factorial(n - k - 1);
      assert Factorial(k) == k * f && Factorial(n - k) == (n - k) * g;
      calc {
        Choose(n, k) * (Factorial(k) * Factorial(n - k));
        (a + b) * ((k * f) * ((n - k) * g));
        { Regroup(a, b, k, n - k, f, g); }
        k * (a * (f * ((n - k) * g))) + (n - k) * (b * ((k * f) * g));
        k * Factorial(n - 1) + (n - k) * Factorial(n - 1);
        { Distribute(k, n - k, Factorial(n - 1)); }
        n * Factorial(n - 1);
      }
    }
  }

  lemma Regroup(a: int, b: int, k: int, m: int, f: int, g: int)
    ensures (a + b) * ((k * f) * (m * g)) == k * (a * (f * (m * g))) + m * (b * ((k * f) * g))
  {
    assert a * ((k * f) * (m * g)) == k * (a * (f * (m * g)));
    assert b * ((k * f) * (m * g)) == m * (b * ((k * f) * g));
  }

  lemma Distribute(k: int, m: int, f: int)
    ensures k * f + m * f == (k + m) * f
  {
  }

  lemma {:induction false} TailPascal(n: nat, p: nat)
    ensures Tail(n + 1, p + 1) == Tail(n, p) + Tail(n, p + 1)
    decreases n + 1 - p
  {
    if p < n {
      TailPascal(n, p + 1);
    } else if p == n {
      ChooseAbove(n, n + 1);
    }
  }

  lemma {:induction false} TailIsMonotone(n: nat, p: nat, q: nat)
    requires p <= q
    ensures Tail(n, q) <= Tail(n, p)
    decreases q - p
  {
    if p == q {
    } else {
      TailIsMonotone(n, p + 1, q);
    }
  }

  lemma {:induction false} WholeTail(n: nat)
    ensures Tail(n, 0) == Power2(n)
  {
    if n == 0 {
    } else {
      WholeTail(n - 1);
      TailPascal(n - 1, 0);
    }
  }

  lemma {:induction false} ChoosePositive(n: nat, k: nat)
    requires k <= n
    ensures Choose(n, k) > 0
  {
    if k == 0 {
    } else {
      ChoosePositive(n - 1, k - 1);
    }
  }

  /** The tail is a probability: positive, at most one, and one only when no success is asked for. */
  lemma TailBounds(n: nat, p: nat)
    requires p <= n
    ensures 0 < Tail(n, p) <= Power2(n)
    ensures Tail(n, p) == Power2(n) <==> p == 0
  {
    ChoosePositive(n, p);
    WholeTail(n);
    if p > 0 {
      TailIsMonotone(n, 1, p);
    }
  }

  /** At least p heads among p + q - 1 flips, or at least q tails: one or the other, never both. */
  lemma {:induction false} TailSymmetry(n: nat, p: nat, q: nat)
    requires p + q == n + 1
    ensures Tail(n, p) + Tail(n, q) == Power2(n)
  {
    if p == 0 || q == 0 {
      WholeTail(n);
    } else {
      TailSymmetry(n - 1, p - 1, q);
      TailSymmetry(n - 1, p, q - 1);
      TailPascal(n - 1, p - 1);
      TailPascal(n - 1, q - 1);
    }
  }

  // ----- The tail counts outcomes of fair coin flips -----

  function Prefixed(flip: bool, outcomes: seq<seq<bool>>): seq<seq<bool>> {
    if outcomes == [] then [] else [[flip] + outcomes[0]] + Prefixed(flip, outcomes[1..])
  }

  function AllOutcomes(n: nat): seq<seq<bool>> {
    if n == 0 then [[]] else Prefixed(true, AllOutcomes(n - 1)) + Prefixed(false, AllOutcomes(n - 1))
  }

  function Heads(outcome: seq<bool>): nat {
    if outcome == [] then 0 else (if outcome[0] then 1 else 0) + Heads(outcome[1..])
  }

  function CountAtLeast(outcomes: seq<seq<bool>>, p: int): nat {
    if outcomes == [] then 0
    else (if Heads(outcomes[0]) >= p then 1 else 0) + CountAtLeast(outcomes[1..], p)
  }

  lemma {:induction false} CountPrefixed(flip: bool, outcomes: seq<seq<bool>>, p: int)
    ensures CountAtLeast(Prefixed(flip, outcomes), p) == CountAtLeast(outcomes, if flip then p - 1 else p)
    ensures |Prefixed(flip, outcomes)| == |outcomes|
  {
    if outcomes == [] {
    } else {
      var first := [flip] + outcomes[0];
      assert first[1..] == outcomes[0];
      assert Prefixed(flip, outcomes)[1..] == Prefixed(flip, outcomes[1..]);
      CountPrefixed(flip, outcomes[1..], p);
    }
  }

  lemma {:induction false} CountConcat(a: seq<seq<bool>>, b: seq<seq<bool>>, p: int)
    ensures CountAtLeast(a + b, p) == CountAtLeast(a, p) + CountAtLeast(b, p)
  {
    if a == [] {
      assert a + b == b;
    } else {
      assert (a + b)[1..] == a[1..] + b;
      CountConcat(a[1..], b, p);
    }
  }

  /** The fraction Tail(n, p) / 2^n is the chance of at least p heads in n fair flips. */
  lemma {:induction false} TailCountsOutcomes(n: nat, p: nat)
    ensures CountAtLeast(AllOutcomes(n), p) == Tail(n, p)
    ensures |AllOutcomes(n)| == Power2(n)
  {
    if n == 0 {
      assert AllOutcomes(0)[1..] == [];
    } else {
      TailCountsOutcomes(n - 1, p);
      CountSplits(n, p);
      if p > 0 {
        TailCountsOutcomes(n - 1, p - 1);
        TailPascal(n - 1, p - 1);
      } else {
        NegativeCount(AllOutcomes(n), p);
        WholeTail(n);
      }
    }
  }

  lemma CountSplits(n: nat, p: int)
    requires n > 0
    ensures var rest := AllOutcomes(n - 1);
      && CountAtLeast(AllOutcomes(n), p) == CountAtLeast(rest, p - 1) + CountAtLeast(rest, p)
      && |AllOutcomes(n)| == 2 * |rest|
  {
    var rest := AllOutcomes(n - 1);
    CountConcat(Prefixed(true, rest), Prefixed(false, rest), p);
    CountPrefixed(true, rest, p);
    CountPrefixed(false, rest, p);
  }

  lemma {:induction false} NegativeCount(outcomes: seq<seq<bool>>, p: int)
    requires p <= 0
    ensures CountAtLeast(outcomes, p) == |outcomes|
  {
    if outcomes == [] {
    } else {
      NegativeCount(outcomes[1..], p);
    }
  }

  // ----- The test -----

  datatype McNemar = McNemar(proxyOnly: nat, directOnly: nat, discordant: nat, numerator: nat, denominator: nat)

  const MCNEMAR_ALPHA_PPM := 25_000

  /** The fraction counts the outcomes at least as favourable, among all outcomes of the discordant pairs. */
  ghost predicate IsTestOf(test: McNemar, proxyOnly: nat, directOnly: nat) {
    && test.proxyOnly == proxyOnly && test.directOnly == directOnly && test.discordant == proxyOnly + directOnly
    && test.numerator == CountAtLeast(AllOutcomes(test.discordant), proxyOnly)
    && test.denominator == |AllOutcomes(test.discordant)|
  }

  method ExactOneSidedMcNemar(proxyOnly: nat, directOnly: nat) returns (test: McNemar)
    ensures IsTestOf(test, proxyOnly, directOnly)
    ensures SupportsBenefit(test, MCNEMAR_ALPHA_PPM) == Supports(proxyOnly, directOnly, MCNEMAR_ALPHA_PPM)
  {
    var discordant := proxyOnly + directOnly;
    var denominator := 1;
    for i := 0 to discordant
      invariant denominator == Power2(i)
    {
      denominator := denominator * 2;
    }
    var numerator := 0;
    var value := discordant + 1;
    while value > proxyOnly
      invariant proxyOnly <= value <= discordant + 1
      invariant numerator == Tail(discordant, value)
    {
      value := value - 1;
      numerator := numerator + Choose(discordant, value);
    }
    TailCountsOutcomes(discordant, proxyOnly);
    test := McNemar(proxyOnly, directOnly, discordant, numerator, denominator);
  }

  predicate SupportsBenefit(test: McNemar, alphaPpm: nat) {
    test.numerator * 1_000_000 < test.denominator * alphaPpm
  }

  predicate Supports(p: nat, d: nat, alphaPpm: nat) {
    Tail(p + d, p) * 1_000_000 < Power2(p + d) * alphaPpm
  }

  lemma ScaledFraction(t: int, w: int, t': int, w': int, alpha: int)
    requires t * 1_000_000 < w * alpha
    requires (t' <= 2 * t && w' == 2 * w) || (2 * t' <= t && w == 2 * w')
    ensures t' * 1_000_000 < w' * alpha
  {
    if w' == 2 * w {
      assert w' * alpha == 2 * (w * alpha);
    } else {
      assert w * alpha == 2 * (w' * alpha);
    }
  }

  lemma FractionAtLeast(t: int, w: int, part: nat, alpha: int)
    requires 0 <= w && part * t >= w && 0 < part && part * alpha <= 1_000_000
    ensures t * 1_000_000 >= w * alpha
  {
    assert part * (w * alpha) == w * (part * alpha) <= w * 1_000_000;
    assert (part * t) * 1_000_000 == part * (t * 1_000_000);
  }

  lemma AnotherProxySuccess(p: nat, d: nat, alphaPpm: nat)
    requires Supports(p, d, alphaPpm)
    ensures Supports(p + 1, d, alphaPpm)
  {
    TailPascal(p + d, p);
    TailIsMonotone(p + d, p, p + 1);
    ScaledFraction(Tail(p + d, p), Power2(p + d), Tail(p + d + 1, p + 1), Power2(p + d + 1), alphaPpm);
  }

  lemma OneDirectSuccessLess(p: nat, d: nat, alphaPpm: nat)
    requires d > 0 && alphaPpm <= 1_000_000 && Supports(p, d, alphaPpm)
    ensures Supports(p, d - 1, alphaPpm)
  {
    if p == 0 {
      WholeTail(d);
      FractionAtLeast(Tail(d, 0), Power2(d), 1, alphaPpm);
    } else {
      TailPascal(p + d - 1, p - 1);
      TailIsMonotone(p + d - 1, p - 1, p);
      ScaledFraction(Tail(p + d, p), Power2(p + d), Tail(p + d - 1, p), Power2(p + d - 1), alphaPpm);
    }
  }

  /** Support is never lost by more proxy-only successes or fewer direct-only ones. */
  lemma {:induction false} SupportIsMonotone(p: nat, d: nat, p': nat, d': nat, alphaPpm: nat)
    requires p <= p' && d' <= d && alphaPpm <= 1_000_000
    requires Supports(p, d, alphaPpm)
    ensures Supports(p', d', alphaPpm)
    decreases p' - p, d - d'
  {
    if p < p' {
      AnotherProxySuccess(p, d, alphaPpm);
      SupportIsMonotone(p + 1, d, p', d', alphaPpm);
    } else if d' < d {
      OneDirectSuccessLess(p, d, alphaPpm);
      SupportIsMonotone(p, d - 1, p', d', alphaPpm);
    }
  }

  /** At any level up to one half, support takes at least two more proxy-only than direct-only successes. */
  lemma SupportNeedsMajority(p: nat, d: nat, alphaPpm: nat)
    requires Supports(p, d, alphaPpm) && alphaPpm <= 500_000
    ensures p > d + 1
  {
    var n := p + d;
    TailSymmetry(n, p, d + 1);
    if p <= d + 1 {
      TailIsMonotone(n, p, d + 1);
      FractionAtLeast(Tail(n, p), Power2(n), 2, alphaPpm);
    }
  }

  /** With no direct-only success it takes six proxy-only ones, and six are enough. */
  lemma SixUnopposedSuccesses(p: nat)
    ensures Supports(p, 0, MCNEMAR_ALPHA_PPM) <==> p >= 6
  {
    assert Tail(6, 6) == 1 && Power2(6) == 64 by { TopTail(6); }
    assert Tail(5, 5) == 1 && Power2(5) == 32 by { TopTail(5); }
    if p >= 6 {
      SupportIsMonotone(6, 0, p, 0, MCNEMAR_ALPHA_PPM);
    } else if Supports(p, 0, MCNEMAR_ALPHA_PPM) {
      SupportIsMonotone(p, 0, 5, 0, MCNEMAR_ALPHA_PPM);
    }
  }
}
