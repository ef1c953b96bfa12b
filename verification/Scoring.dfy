/** The score that ranks providers from their recorded history. Rates are real numbers; the
    rounding of floating-point arithmetic is not modelled. */
module Scoring {
  datatype Stats = Stats(samples: int, go: int, noGo: int, exhausted: int, totalIterations: int, totalDuration: real)

  predicate WellFormed(s: Stats) {
    0 <= s.go && 0 <= s.noGo && 0 <= s.exhausted <= s.samples && 0 <= s.totalIterations && 0.0 <= s.totalDuration
  }

  const WEIGHT_GO_RATE := 0.5
  const WEIGHT_ITERATIONS := 0.2
  const WEIGHT_DURATION := 0.1
  const WEIGHT_EXHAUSTION := 0.2
  const DURATION_HALF_LIFE := 60.0
  const NEUTRAL_GO_RATE := 0.5

  const TOTAL_WEIGHT := WEIGHT_GO_RATE + WEIGHT_ITERATIONS + WEIGHT_DURATION + WEIGHT_EXHAUSTION

  const NEUTRAL_SCORE :=
    (WEIGHT_GO_RATE * NEUTRAL_GO_RATE + WEIGHT_ITERATIONS + WEIGHT_DURATION + WEIGHT_EXHAUSTION) / TOTAL_WEIGHT

  /** The share `part / whole`, or `otherwise` of nothing. */
  function Share(part: real, whole: int, otherwise: real): real {
    if whole == 0 then otherwise else part / whole as real
  }

  function GoRate(s: Stats): real {
    Share(s.go as real, s.go + s.noGo, NEUTRAL_GO_RATE)
  }

  function ExhaustionRate(s: Stats): real {
    Share(s.exhausted as real, s.samples, 0.0)
  }

  function AverageIterations(s: Stats): real {
    Share(s.totalIterations as real, s.samples, 0.0)
  }

  function AverageDuration(s: Stats): real {
    Share(s.totalDuration, s.samples, 0.0)
  }

  /** 1 at 0, falling towards 0. */
  function Damped(x: real): real
    requires x >= 0.0
  {
    1.0 / (1.0 + x)
  }

  lemma QuotientBounds(part: real, whole: real)
    requires whole > 0.0
    ensures part >= 0.0 ==> part / whole >= 0.0
    ensures part <= whole ==> part / whole <= 1.0
  {
    assert part == part / whole * whole;
  }

  lemma AveragesAreNonNegative(s: Stats)
    requires WellFormed(s) && s.samples > 0
    ensures AverageIterations(s) >= 0.0 && AverageDuration(s) >= 0.0
  {
    QuotientBounds(s.totalIterations as real, s.samples as real);
    QuotientBounds(s.totalDuration, s.samples as real);
  }

  function Score(s: Stats): real
    requires WellFormed(s)
  {
    if s.samples <= 0 then NEUTRAL_SCORE else
      AveragesAreNonNegative(s);
      (WEIGHT_GO_RATE * GoRate(s)
       + WEIGHT_ITERATIONS * Damped(AverageIterations(s))
       + WEIGHT_DURATION * Damped(AverageDuration(s) / DURATION_HALF_LIFE)
       + WEIGHT_EXHAUSTION * (1.0 - ExhaustionRate(s))) / TOTAL_WEIGHT
  }

  lemma QuotientOrder(a: real, b: real, c: real, d: real)
    requires b > 0.0 && d > 0.0 && a * d <= c * b
    ensures a / b <= c / d
  {
    var x, y := a / b, c / d;
    assert a == x * b && c == y * d;
    assert (y - x) * (b * d) == c * b - a * d;
  }

  lemma DampedBounds(x: real)
    requires x >= 0.0
    ensures 0.0 < Damped(x) <= 1.0
  {
    QuotientBounds(1.0, 1.0 + x);
    assert 1.0 == Damped(x) * (1.0 + x);
  }

  lemma GoRateBounds(s: Stats)
    requires WellFormed(s)
    ensures 0.0 <= GoRate(s) <= 1.0
  {
    if s.go + s.noGo > 0 {
      QuotientBounds(s.go as real, (s.go + s.noGo) as real);
    }
  }

  /** Every score lies in [0, 1]. */
  lemma ScoreIsBounded(s: Stats)
    requires WellFormed(s)
    ensures 0.0 <= Score(s) <= 1.0
  {
    if s.samples > 0 {
      GoRateBounds(s);
      AveragesAreNonNegative(s);
      DampedBounds(AverageIterations(s));
      QuotientBounds(AverageDuration(s), DURATION_HALF_LIFE);
      DampedBounds(AverageDuration(s) / DURATION_HALF_LIFE);
      QuotientBounds(s.exhausted as real, s.samples as real);
    }
  }

  lemma DampedFalls(x: real, y: real)
    requires 0.0 <= x <= y
    ensures Damped(y) <= Damped(x)
  {
    QuotientOrder(1.0, 1.0 + y, 1.0, 1.0 + x);
  }

  lemma CrossProducts(p: real, q: real, r: real, t: real)
    requires 0.0 <= p <= r && 0.0 <= t <= q
    ensures p * (r + t) <= r * (p + q)
  {
    assert p * t <= r * q by {
      assert r * q - p * t == (r - p) * q + p * (q - t);
    }
  }

  lemma GoRateRises(a: Stats, b: Stats)
    requires WellFormed(a) && WellFormed(b) && a.go >= b.go && a.noGo <= b.noGo
    ensures GoRate(a) >= GoRate(b)
  {
    GoRateBounds(a);
    GoRateBounds(b);
    if a.go + a.noGo > 0 && b.go + b.noGo > 0 {
      var p, q, r, t := b.go as real, b.noGo as real, a.go as real, a.noGo as real;
      CrossProducts(p, q, r, t);
      QuotientOrder(p, p + q, r, r + t);
    }
  }

  lemma ShareRises(x: real, y: real, n: real)
    requires x <= y && n > 0.0
    ensures x / n <= y / n
  {
    assert x * n <= y * n by {
      assert y * n - x * n == (y - x) * n;
    }
    QuotientOrder(x, n, y, n);
  }

  /** On equally many samples, more GO, fewer NO GO, fewer iterations, less time and fewer
      exhaustions never lower the score, even where no verdict was given yet. */
  lemma ScoreRewards(a: Stats, b: Stats)
    requires WellFormed(a) && WellFormed(b) && a.samples == b.samples
    requires a.go >= b.go && a.noGo <= b.noGo && a.exhausted <= b.exhausted
    requires a.totalIterations <= b.totalIterations && a.totalDuration <= b.totalDuration
    ensures Score(a) >= Score(b)
  {
    if a.samples > 0 {
      var n := a.samples as real;
      GoRateRises(a, b);
      AveragesAreNonNegative(a);
      AveragesAreNonNegative(b);
      ShareRises(a.totalIterations as real, b.totalIterations as real, n);
      ShareRises(a.totalDuration, b.totalDuration, n);
      ShareRises(a.exhausted as real, b.exhausted as real, n);
      ShareRises(AverageDuration(a), AverageDuration(b), DURATION_HALF_LIFE);
      QuotientBounds(AverageDuration(a), DURATION_HALF_LIFE);
      DampedFalls(AverageIterations(a), AverageIterations(b));
      DampedFalls(AverageDuration(a) / DURATION_HALF_LIFE, AverageDuration(b) / DURATION_HALF_LIFE);
    }
  }

  /** Nothing but GO, at once, costs nothing; every verdict a NO GO costs half the score; without history
      the score is three quarters. */
  lemma ScoreOfVerdicts()
    ensures Score(Stats(1, 1, 0, 0, 0, 0.0)) == 1.0 && Score(Stats(1, 0, 1, 0, 0, 0.0)) == 0.5
    ensures Score(Stats(0, 0, 0, 0, 0, 0.0)) == 0.75 && Score(Stats(1, 0, 0, 0, 0, 0.0)) == 0.75
  {
  }

  /** One iteration for each invocation costs a tenth, and a minute for each a twentieth. */
  lemma ScoreOfEffort()
    ensures Score(Stats(1, 1, 0, 0, 1, 0.0)) == 0.9
    ensures Score(Stats(1, 1, 0, 0, 0, 60.0)) == 0.95
  {
  }

  /** Exhaustion each time costs a fifth. */
  lemma ScoreOfExhaustion()
    ensures Score(Stats(1, 1, 0, 1, 0, 0.0)) == 0.8
  {
  }
}
