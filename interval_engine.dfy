/**
 * The interval engine: from a quality rating and a card's history, the next
 * review interval in days, the new (clamped) ease factor and the reviewed
 * card. Ease factors are integer hundredths, so the source's steps of 0.15
 * and 0.2 and its bounds 1.3 and 2.5 are exact here.
 */
module IntervalEngine {
  import opened Wrappers
  import opened IntMath
  import opened StudyConstants
  import opened LearningTypes

  const MIN_EASE_FACTOR: int := 130
  const MAX_EASE_FACTOR: int := 250
  const EASE_BONUS: int := 15
  const EASE_PENALTY: int := 20
  const DEFAULT_EASE_FACTOR: int := 250

  /**
   * `Math.round(n / d)`: the integer nearest to n / d, halves rounded up.
   * Dafny's division by a positive divisor is floor division, so this is
   * `floor(n / d + 1/2)` for every sign of n.
   */
  function RoundHalfUp(n: int, d: int): (k: int)
    requires d > 0
    ensures 2 * d * k <= 2 * n + d < 2 * d * k + 2 * d
  {
    var q := (2 * n + d) / (2 * d);
    assert (2 * d) * q + (2 * n + d) % (2 * d) == 2 * n + d;
    q
  }

  /** The source's real-valued rounding, `Math.round(x) = floor(x + 0.5)`. */
  ghost function RealRound(x: real): int
  {
    (x + 0.5).Floor
  }

  /** The source's product `lastInterval * easeFactor * (1 + (weight - 3) * 0.1)` over the reals. */
  ghost function SourceProduct(lastInterval: int, ease: int, r: Rating): real
  {
    (lastInterval as real) * ((ease as real / 100.0) * (1.0 + ((Weight(r) - 3) as real) * 0.1))
  }

  /** The scaled interval in exact integer arithmetic: `round(L * e * (7 + w) / 1000)`. */
  function ScaledInterval(lastInterval: int, ease: int, r: Rating): int
  {
    RoundHalfUp(lastInterval * ease * (7 + Weight(r)), 1000)
  }

  lemma FloorOfQuotient(a: int, b: int)
    requires b > 0
    ensures (a as real / b as real).Floor == a / b
  {
    var q, m := a / b, a % b;
    assert a == b * q + m && 0 <= m < b;
    assert a as real / b as real == q as real + m as real / b as real;
    assert 0.0 <= m as real / b as real < 1.0;
  }

  /** The integer formula is exactly the source's floating-point formula read over the reals. */
  lemma ScaledIntervalIsSourceFormula(lastInterval: int, ease: int, r: Rating)
    ensures ScaledInterval(lastInterval, ease, r) == RealRound(SourceProduct(lastInterval, ease, r))
  {
    var n := lastInterval * ease * (7 + Weight(r));
    assert SourceProduct(lastInterval, ease, r) == n as real / 1000.0;
    assert SourceProduct(lastInterval, ease, r) + 0.5 == (2 * n + 1000) as real / 2000.0;
    FloorOfQuotient(2 * n + 1000, 2000);
  }

  /** The last interval, or the rating's base interval when the card has none. */
  function LastIntervalOr(card: StudyCard, r: Rating): int
  {
    card.lastInterval.GetOr(BaseInterval(r))
  }

  /** `calculateNextInterval`: the number of days until the card's next review. */
  function NextInterval(card: StudyCard, r: Rating): (days: int)
    ensures days >= 1
    ensures r == FAIL ==> days == 1
    ensures r != FAIL && card.repetitions == 0 ==> days == BaseInterval(r)
  {
    if r == FAIL then 1
    else
      var interval :=
        if card.repetitions == 0 then BaseInterval(r)
        else ScaledInterval(LastIntervalOr(card, r), card.easeFactor, r);
      Max(1, interval)
  }

  /**
   * For a card with history and a rating other than FAIL, the interval is
   * `max(1, Math.round(lastInterval * easeFactor * (1 + (weight - 3) * 0.1)))`,
   * computed over the reals, with a missing last interval read as the base interval.
   */
  lemma NextIntervalWithHistory(card: StudyCard, r: Rating)
    requires r != FAIL && card.repetitions != 0
    ensures NextInterval(card, r)
         == Max(1, RealRound(SourceProduct(card.lastInterval.GetOr(BaseInterval(r)), card.easeFactor, r)))
  {
    ScaledIntervalIsSourceFormula(LastIntervalOr(card, r), card.easeFactor, r);
  }

  /** Multiplying by a non-negative factor keeps the order. */
  lemma ScaleMonotone(s: int, a: int, b: int)
    requires s >= 0 && a <= b
    ensures s * a <= s * b
  {
    assert s * b - s * a == s * (b - a);
  }

  lemma RoundHalfUpMonotone(m: int, n: int, d: int)
    requires d > 0 && m <= n
    ensures RoundHalfUp(m, d) <= RoundHalfUp(n, d)
  {
    var a, b := RoundHalfUp(m, d), RoundHalfUp(n, d);
    if a > b {
      ScaleMonotone(2 * d, b + 1, a);
      assert false;
    }
  }

  lemma MulMonotone(a: int, b: int, c: int, d: int)
    requires 0 <= a <= b && 0 <= c <= d
    ensures a * c <= b * d
  {
    assert a * c <= a * d;
    assert a * d <= b * d;
  }

  /** The scaled interval grows with the last interval, the ease factor and the rating's weight. */
  lemma ScaledIntervalMonotone(l1: int, l2: int, e1: int, e2: int, a: Rating, b: Rating)
    requires 0 <= l1 <= l2 && 0 <= e1 <= e2 && Weight(a) <= Weight(b)
    ensures ScaledInterval(l1, e1, a) <= ScaledInterval(l2, e2, b)
  {
    MulMonotone(l1, l2, e1, e2);
    MulMonotone(l1 * e1, l2 * e2, 7 + Weight(a), 7 + Weight(b));
    RoundHalfUpMonotone(l1 * e1 * (7 + Weight(a)), l2 * e2 * (7 + Weight(b)), 1000);
  }

  /**
   * A better rating never schedules a card sooner, for any card whose last
   * interval and ease factor are not negative.
   */
  lemma NextIntervalMonotoneInRating(card: StudyCard, a: Rating, b: Rating)
    requires Weight(a) <= Weight(b)
    requires card.easeFactor >= 0
    requires card.lastInterval.Some? ==> card.lastInterval.value >= 0
    ensures NextInterval(card, a) <= NextInterval(card, b)
  {
    if a != FAIL && card.repetitions != 0 {
      BaseIntervalIncreasing(a, b);
      ScaledIntervalMonotone(LastIntervalOr(card, a), LastIntervalOr(card, b),
                             card.easeFactor, card.easeFactor, a, b);
    }
  }

  /**
   * Once the ease factor is within its bounds, any rating other than FAIL
   * gives a card with history an interval at least as long as its last one.
   */
  lemma NextIntervalGrowsOnSuccess(card: StudyCard, r: Rating)
    requires r != FAIL && card.repetitions != 0
    requires card.lastInterval.Some? && card.lastInterval.value >= 0
    requires card.easeFactor >= MIN_EASE_FACTOR
    ensures NextInterval(card, r) >= card.lastInterval.value
  {
    var l := card.lastInterval.value;
    MulMonotone(l, l, 130, card.easeFactor);
    MulMonotone(l * 130, l * card.easeFactor, 9, 7 + Weight(r));
    RoundHalfUpMonotone(1000 * l, l * card.easeFactor * (7 + Weight(r)), 1000);
    assert RoundHalfUp(1000 * l, 1000) == l;
  }

  /** `calculateNewEaseFactor`: the ease factor after a review, kept within [1.3, 2.5]. */
  function NewEaseFactor(ease: int, r: Rating): (e: int)
    ensures MIN_EASE_FACTOR <= e <= MAX_EASE_FACTOR
  {
    var stepped :=
      if Weight(r) >= 4 then ease + EASE_BONUS
      else if Weight(r) <= 2 then ease - EASE_PENALTY
      else ease;
    Min(MAX_EASE_FACTOR, Max(MIN_EASE_FACTOR, stepped))
  }

  /**
   * The ease factor moves by +0.15 on EASY and PERFECT, by -0.2 on FAIL and
   * HARD, not at all on GOOD, and stops at the nearer bound.
   */
  lemma NewEaseFactorSteps(ease: int, r: Rating)
    requires MIN_EASE_FACTOR <= ease <= MAX_EASE_FACTOR
    ensures (r == EASY || r == PERFECT) ==> NewEaseFactor(ease, r) == Min(MAX_EASE_FACTOR, ease + 15)
    ensures (r == FAIL || r == HARD) ==> NewEaseFactor(ease, r) == Max(MIN_EASE_FACTOR, ease - 20)
    ensures r == GOOD ==> NewEaseFactor(ease, r) == ease
  {
  }

  /** The new ease factor is monotone both in the old ease factor and in the rating. */
  lemma NewEaseFactorMonotone(e1: int, e2: int, a: Rating, b: Rating)
    requires e1 <= e2 && Weight(a) <= Weight(b)
    ensures NewEaseFactor(e1, a) <= NewEaseFactor(e2, b)
  {
  }

  /** The ease factor after k reviews, all rated r. */
  function EaseAfter(ease: int, r: Rating, k: nat): int
  {
    if k == 0 then ease else NewEaseFactor(EaseAfter(ease, r, k - 1), r)
  }

  /**
   * k consecutive PERFECT ratings raise an in-range ease factor by 0.15 each
   * until it reaches 2.5; k consecutive FAIL ratings lower it by 0.2 each
   * until it reaches 1.3.
   */
  lemma {:induction false} EaseAfterRepeatedRatings(ease: int, k: nat)
    requires MIN_EASE_FACTOR <= ease <= MAX_EASE_FACTOR
    ensures EaseAfter(ease, PERFECT, k) == Min(MAX_EASE_FACTOR, ease + 15 * k)
    ensures EaseAfter(ease, FAIL, k) == Max(MIN_EASE_FACTOR, ease - 20 * k)
  {
    if k > 0 {
      EaseAfterRepeatedRatings(ease, k - 1);
      NewEaseFactorSteps(EaseAfter(ease, PERFECT, k - 1), PERFECT);
      NewEaseFactorSteps(EaseAfter(ease, FAIL, k - 1), FAIL);
    }
  }

  /** `calculateNextReview`: the card after a review at time `now` (milliseconds). */
  function NextReview(card: StudyCard, r: Rating, now: int): (c: StudyCard)
    ensures c.card == card.card
    ensures c.status == (if r == FAIL then Learning else Reviewing)
    ensures c.repetitions == (if r == FAIL then 0 else card.repetitions + 1)
    ensures c.lastInterval == Some(NextInterval(card, r))
    ensures c.easeFactor == NewEaseFactor(card.easeFactor, r)
    ensures c.nextReviewDate == Some(now + NextInterval(card, r) * MS_PER_DAY)
  {
    var interval := NextInterval(card, r);
    card.(status := if r == FAIL then Learning else Reviewing,
          nextReviewDate := Some(now + interval * MS_PER_DAY),
          repetitions := if r == FAIL then 0 else card.repetitions + 1,
          easeFactor := NewEaseFactor(card.easeFactor, r),
          lastInterval := Some(interval))
  }

  /** `shouldReviewCard`: a card is due when it has no review date or that date has come. */
  function ShouldReview(card: StudyCard, now: int): (due: bool)
    ensures due <==> card.nextReviewDate.None? || now >= card.nextReviewDate.value
  {
    match card.nextReviewDate
    case None => true
    case Some(date) => now >= date
  }

  /**
   * The state every study card keeps: an ease factor within [1.3, 2.5], no
   * negative counters, a new card never reviewed, a card in learning just
   * failed (one day, no repetitions), a card in review at least one
   * repetition and one day.
   */
  predicate WellFormed(c: StudyCard)
  {
    && MIN_EASE_FACTOR <= c.easeFactor <= MAX_EASE_FACTOR
    && c.repetitions >= 0
    && c.lastInterval.Some? && c.lastInterval.value >= 0
    && (c.status == New ==> c.repetitions == 0 && c.nextReviewDate.None?)
    && (c.status == Learning ==> c.repetitions == 0 && c.lastInterval.value == 1 && c.nextReviewDate.Some?)
    && (c.status == Reviewing ==> c.repetitions >= 1 && c.lastInterval.value >= 1 && c.nextReviewDate.Some?)
  }

  /** A review keeps a card well formed, whatever the rating and the time. */
  lemma NextReviewPreservesWellFormed(card: StudyCard, r: Rating, now: int)
    requires WellFormed(card)
    ensures WellFormed(NextReview(card, r, now))
  {
  }

  /**
   * A card reviewed at `now` stops being due, and becomes due again exactly
   * when its new interval, in whole days, has passed.
   */
  lemma JustReviewedIsDueAfterInterval(card: StudyCard, r: Rating, now: int, t: int)
    ensures !ShouldReview(NextReview(card, r, now), now)
    ensures ShouldReview(NextReview(card, r, now), t) <==> t >= now + NextInterval(card, r) * MS_PER_DAY
  {
  }
}
