/** How far a comparison is to be trusted: the share of the smaller side that was
    matched, or the penalty for what was not understood, whichever is less. The page
    matcher and the model matcher score alike. */
module Scoring {
  import opened Rounding

  const MIN_CONFIDENCE := 0.6

  function Minimum(x: nat, y: nat): nat { if x <= y then x else y }

  function Score(matched: nat, n: nat, m: nat, flaws: nat): real {
    var total := Minimum(n, m);
    if total == 0 then 1.0
    else
      var coverage := matched as real / total as real;
      var comprehension := 1.0 / (1.0 + flaws as real);
      Snap(if comprehension < coverage then comprehension else coverage, 0.0001)
  }

  lemma {:induction false} ShareBounds(k: nat, n: nat)
    requires k <= n && n > 0
    ensures 0.0 <= k as real / n as real <= 1.0
  {
    assert k as real / n as real * n as real == k as real;
  }

  lemma {:induction false} SnappedShare(v: real)
    requires 0.0 <= v <= 1.0
    ensures 0.0 <= Snap(v, 0.0001) <= 1.0
  {
    RoundMonotone(0.0, v / 0.0001);
    RoundMonotone(v / 0.0001, 10000.0);
    RoundsTo(10000.0, 10000);
  }

  // Rounding keeps the score a share.
  lemma {:induction false} ScoreIsAShare(matched: nat, n: nat, m: nat, flaws: nat)
    requires matched <= n && matched <= m
    ensures 0.0 <= Score(matched, n, m, flaws) <= 1.0
  {
    var total := Minimum(n, m);
    if total > 0 {
      ShareBounds(matched, total);
      ShareBounds(1, 1 + flaws);
      var c, u := matched as real / total as real, 1.0 / (1.0 + flaws as real);
      SnappedShare(if u < c then u else c);
    }
  }

  // A comparison is trusted exactly when nothing went unrecognised and at least
  // 59.995% of the smaller side was matched.
  lemma {:induction false} TrustworthyExactly(matched: nat, n: nat, m: nat, flaws: nat)
    requires n > 0 && m > 0
    ensures Score(matched, n, m, flaws) >= MIN_CONFIDENCE <==>
              flaws == 0 && matched as real / Minimum(n, m) as real >= 0.59995
  {
    var c, u := matched as real / Minimum(n, m) as real, 1.0 / (1.0 + flaws as real);
    var least := if u < c then u else c;
    if flaws > 0 {
      AtMostHalf(flaws);
      RoundMonotone(least / 0.0001, 5000.0);
      RoundsTo(5000.0, 5000);
    } else {
      RoundError(least / 0.0001);
      if least >= 0.59995 {
        RoundMonotone(5999.5, least / 0.0001);
      }
    }
  }

  lemma {:induction false} AtMostHalf(n: nat)
    requires n >= 1
    ensures 1.0 / (1.0 + n as real) <= 0.5
  {
    assert 1.0 / (1.0 + n as real) * (1.0 + n as real) == 1.0;
  }

  lemma {:induction false} WithinHalfAGrid(v: real)
    ensures -0.00005 <= Snap(v, 0.0001) - v <= 0.00005
  {
    RoundError(v / 0.0001);
  }

  // A share within half of the fourth decimal of part of the whole.
  predicate Near(x: real, part: real, whole: real) { -0.00005 * whole <= x * whole - part <= 0.00005 * whole }

  lemma {:induction false} Scaled(x: real, share: real, part: real, whole: real)
    requires whole > 0.0 && share * whole == part && -0.00005 <= x - share <= 0.00005
    ensures Near(x, part, whole)
  {
    assert x * whole - part == (x - share) * whole;
    Between(-0.00005, x - share, whole);
    Between(x - share, 0.00005, whole);
  }

  lemma {:induction false} Between(a: real, b: real, k: real)
    requires a <= b && k > 0.0
    ensures a * k <= b * k
  {
  }

  lemma {:induction false} Shares(k: nat, n: nat)
    requires n > 0
    ensures k as real / n as real * n as real == k as real
  {
  }

  lemma {:induction false} LesserShare(matched: nat, total: nat, parts: nat)
    requires total > 0 && parts > 0
    ensures matched * parts <= total <==> matched as real / total as real <= 1.0 / parts as real
  {
    var c, u := matched as real / total as real, 1.0 / parts as real;
    Shares(matched, total);
    Shares(1, parts);
    assert (u - c) * (total as real * parts as real) == total as real - matched as real * parts as real;
    assert total as real * parts as real > 0.0;
    assert matched as real * parts as real == (matched * parts) as real;
    Sign(u - c, total as real * parts as real);
  }

  lemma {:induction false} Sign(d: real, k: real)
    requires k > 0.0
    ensures d * k >= 0.0 <==> d >= 0.0
  {
  }

  lemma {:induction false} GreaterShare(matched: nat, total: nat, parts: nat)
    requires total > 0 && parts > 0
    ensures matched * parts >= total <==> matched as real / total as real >= 1.0 / parts as real
  {
    var c, u := matched as real / total as real, 1.0 / parts as real;
    Shares(matched, total);
    Shares(1, parts);
    assert (c - u) * (total as real * parts as real) == matched as real * parts as real - total as real;
    assert matched as real * parts as real == (matched * parts) as real;
    Sign(c - u, total as real * parts as real);
  }

  lemma {:induction false} ScoreOfShares(matched: nat, n: nat, m: nat, flaws: nat)
    requires n > 0 && m > 0
    ensures var c, u := matched as real / Minimum(n, m) as real, 1.0 / (1 + flaws) as real;
            Score(matched, n, m, flaws) == Snap(if u < c then u else c, 0.0001)
  {
    assert (1 + flaws) as real == 1.0 + flaws as real;
  }

  lemma {:induction false} ScoreOfCoverage(matched: nat, n: nat, m: nat, flaws: nat)
    requires n > 0 && m > 0 && matched * (1 + flaws) <= Minimum(n, m)
    ensures Near(Score(matched, n, m, flaws), matched as real, Minimum(n, m) as real)
  {
    var total := Minimum(n, m);
    var c := matched as real / total as real;
    ScoreOfShares(matched, n, m, flaws);
    LesserShare(matched, total, 1 + flaws);
    WithinHalfAGrid(c);
    Shares(matched, total);
    Scaled(Score(matched, n, m, flaws), c, matched as real, total as real);
  }

  lemma {:induction false} ScoreOfFlaws(matched: nat, n: nat, m: nat, flaws: nat)
    requires n > 0 && m > 0 && matched * (1 + flaws) >= Minimum(n, m)
    ensures Near(Score(matched, n, m, flaws), 1.0, (1 + flaws) as real)
  {
    var u := 1.0 / (1 + flaws) as real;
    ScoreOfShares(matched, n, m, flaws);
    GreaterShare(matched, Minimum(n, m), 1 + flaws);
    WithinHalfAGrid(u);
    Shares(1, 1 + flaws);
    Scaled(Score(matched, n, m, flaws), u, 1.0, (1 + flaws) as real);
  }

  // The score is, to half of the fourth decimal, the matched share of the smaller side
  // where that is the less, and otherwise one over one more than the flaws.
  lemma {:induction false} ScoreMeans(matched: nat, n: nat, m: nat, flaws: nat)
    requires n > 0 && m > 0
    ensures var total := if n <= m then n else m;
            && (matched * (1 + flaws) <= total ==> Near(Score(matched, n, m, flaws), matched as real, total as real))
            && (matched * (1 + flaws) >= total ==> Near(Score(matched, n, m, flaws), 1.0, (1 + flaws) as real))
  {
    if matched * (1 + flaws) <= Minimum(n, m) {
      ScoreOfCoverage(matched, n, m, flaws);
    }
    if matched * (1 + flaws) >= Minimum(n, m) {
      ScoreOfFlaws(matched, n, m, flaws);
    }
  }
}
