/**
 * The alternative scheduler that follows the SuperMemo SM-2 ease formula,
 * and the selection of due cards. Quality is an integer; 0-2 is a wrong
 * answer, 3-5 a right one. Ease factors are integer hundredths.
 */
module Sm2Scheduler {
  import opened Wrappers
  import opened IntMath
  import opened LearningTypes
  import opened IntervalEngine

  const SM2_MINIMUM_EASE_FACTOR: int := 130

  /** SM-2's ease change for a right answer, `0.1 - (5 - q) * (0.08 + (5 - q) * 0.02)`, in hundredths. */
  function EaseAdjustment(quality: int): int
  {
    10 - (5 - quality) * (8 + (5 - quality) * 2)
  }

  /** +0.10 for quality 5, nothing for 4, -0.14 for 3. */
  lemma EaseAdjustmentValues()
    ensures EaseAdjustment(5) == 10 && EaseAdjustment(4) == 0 && EaseAdjustment(3) == -14
  {
  }

  /** The ease factor after a review: never below 1.3, and with no upper bound. */
  function Sm2Ease(ease: int, quality: int): (e: int)
    ensures e >= SM2_MINIMUM_EASE_FACTOR
    ensures quality < 3 ==> e == Max(SM2_MINIMUM_EASE_FACTOR, ease - 20)
    ensures quality >= 3 ==> e == Max(SM2_MINIMUM_EASE_FACTOR, ease + EaseAdjustment(quality))
  {
    if quality >= 3 then Max(SM2_MINIMUM_EASE_FACTOR, ease + EaseAdjustment(quality))
    else Max(SM2_MINIMUM_EASE_FACTOR, ease - 20)
  }

  /**
   * The interval as the source computes it: none for a wrong answer, one
   * day after the first right answer, six after the second, and after that
   * the OLD repetition count times the new ease factor, rounded.
   */
  function Sm2IntervalAsWritten(card: StudyCard, quality: int): (days: int)
    ensures quality < 3 ==> days == 0
    ensures quality >= 3 && card.repetitions + 1 == 1 ==> days == 1
    ensures quality >= 3 && card.repetitions + 1 == 2 ==> days == 6
  {
    if quality < 3 then 0
    else if card.repetitions + 1 == 1 then 1
    else if card.repetitions + 1 == 2 then 6
    else RoundHalfUp(card.repetitions * Sm2Ease(card.easeFactor, quality), 100)
  }

  /**
   * From the third right answer on, the interval is the source's
   * `Math.round(repetitions * easeFactor)` over the reals: the repetition
   * count before this review times the new ease factor.
   */
  lemma AsWrittenIntervalWithHistory(card: StudyCard, quality: int)
    requires quality >= 3 && card.repetitions + 1 != 1 && card.repetitions + 1 != 2
    ensures Sm2IntervalAsWritten(card, quality)
         == RealRound(card.repetitions as real * (Sm2Ease(card.easeFactor, quality) as real / 100.0))
  {
    var n := card.repetitions * Sm2Ease(card.easeFactor, quality);
    assert card.repetitions as real * (Sm2Ease(card.easeFactor, quality) as real / 100.0) + 0.5
        == (2 * n + 100) as real / 200.0;
    FloorOfQuotient(2 * n + 100, 200);
  }

  /**
   * `calculateNextReview(card, quality)` as written: it sets the repetition
   * count, the ease factor, the review date and the status, and leaves
   * every other field, the last interval included, as it was.
   */
  function Sm2NextReviewAsWritten(card: StudyCard, quality: int, now: int): (c: StudyCard)
    ensures c.card == card.card && c.lastInterval == card.lastInterval
    ensures quality < 3 ==> c.repetitions == 0 && c.status == Learning && c.nextReviewDate == Some(now)
    ensures quality >= 3 ==> c.repetitions == card.repetitions + 1 && c.status == Reviewing
    ensures c.easeFactor == Sm2Ease(card.easeFactor, quality)
    ensures c.nextReviewDate == Some(now + Sm2IntervalAsWritten(card, quality) * MS_PER_DAY)
  {
    card.(repetitions := if quality >= 3 then card.repetitions + 1 else 0,
          easeFactor := Sm2Ease(card.easeFactor, quality),
          nextReviewDate := Some(now + Sm2IntervalAsWritten(card, quality) * MS_PER_DAY),
          status := if quality >= 3 then Reviewing else Learning)
  }

  /** Days from `now` to the card's review date. */
  function DaysUntilReview(c: StudyCard, now: int): int
  {
    (c.nextReviewDate.GetOr(now) - now) / MS_PER_DAY
  }

  /**
   * Three answers of quality 4 on a new card give intervals of 1, 6 and
   * then 5 days: the third interval is 2 * 2.5, not 6 * 2.5, so a card
   * answered correctly comes back sooner than the time before.
   */
  lemma AsWrittenThirdIntervalShrinks(c0: StudyCard, t1: int, t2: int, t3: int)
    requires c0.repetitions == 0 && c0.easeFactor == 250
    ensures var c1 := Sm2NextReviewAsWritten(c0, 4, t1);
            var c2 := Sm2NextReviewAsWritten(c1, 4, t2);
            var c3 := Sm2NextReviewAsWritten(c2, 4, t3);
            DaysUntilReview(c1, t1) == 1 && DaysUntilReview(c2, t2) == 6 && DaysUntilReview(c3, t3) == 5
  {
    var c1 := Sm2NextReviewAsWritten(c0, 4, t1);
    var c2 := Sm2NextReviewAsWritten(c1, 4, t2);
    assert c2.repetitions == 2 && c2.easeFactor == 250;
    assert Sm2IntervalAsWritten(c2, 4) == RoundHalfUp(500, 100) == 5;
  }

  /**
   * SM-2's interval: one day, then six, then the previous interval times the
   * new ease factor. The previous interval is the card's last interval; a
   * card without one is taken to have had SM-2's second interval, six days.
   */
  function Sm2Interval(card: StudyCard, quality: int): (days: int)
    ensures quality < 3 ==> days == 0
    ensures quality >= 3 && card.repetitions + 1 == 1 ==> days == 1
    ensures quality >= 3 && card.repetitions + 1 == 2 ==> days == 6
  {
    if quality < 3 then 0
    else if card.repetitions + 1 == 1 then 1
    else if card.repetitions + 1 == 2 then 6
    else RoundHalfUp(card.lastInterval.GetOr(6) * Sm2Ease(card.easeFactor, quality), 100)
  }

  /** The corrected review: as the source, and the interval is recorded as the last interval. */
  function Sm2NextReview(card: StudyCard, quality: int, now: int): (c: StudyCard)
    ensures c.card == card.card
    ensures quality < 3 ==> c.repetitions == 0 && c.status == Learning && c.nextReviewDate == Some(now)
    ensures quality >= 3 ==> c.repetitions == card.repetitions + 1 && c.status == Reviewing
    ensures c.easeFactor == Sm2Ease(card.easeFactor, quality)
    ensures c.lastInterval == Some(Sm2Interval(card, quality))
    ensures c.nextReviewDate == Some(now + Sm2Interval(card, quality) * MS_PER_DAY)
  {
    var interval := Sm2Interval(card, quality);
    card.(repetitions := if quality >= 3 then card.repetitions + 1 else 0,
          easeFactor := Sm2Ease(card.easeFactor, quality),
          nextReviewDate := Some(now + interval * MS_PER_DAY),
          status := if quality >= 3 then Reviewing else Learning,
          lastInterval := Some(interval))
  }

  /**
   * From the third right answer on, the corrected interval is never shorter
   * than the previous one, because the ease factor never drops below 1.3.
   */
  lemma CorrectedIntervalNeverShrinks(card: StudyCard, quality: int)
    requires quality >= 3 && card.repetitions >= 2
    requires card.lastInterval.Some? && card.lastInterval.value >= 0
    ensures Sm2Interval(card, quality) >= card.lastInterval.value
  {
    var l := card.lastInterval.value;
    var e := Sm2Ease(card.easeFactor, quality);
    MulMonotone(l, l, 100, e);
    RoundHalfUpMonotone(100 * l, l * e, 100);
    assert RoundHalfUp(100 * l, 100) == l;
  }

  /** The same three answers of quality 4 now give 1, 6 and 15 days. */
  lemma CorrectedThirdInterval(c0: StudyCard, t1: int, t2: int, t3: int)
    requires c0.repetitions == 0 && c0.easeFactor == 250
    ensures var c1 := Sm2NextReview(c0, 4, t1);
            var c2 := Sm2NextReview(c1, 4, t2);
            var c3 := Sm2NextReview(c2, 4, t3);
            DaysUntilReview(c1, t1) == 1 && DaysUntilReview(c2, t2) == 6 && DaysUntilReview(c3, t3) == 15
  {
    var c1 := Sm2NextReview(c0, 4, t1);
    var c2 := Sm2NextReview(c1, 4, t2);
    assert c2.repetitions == 2 && c2.easeFactor == 250 && c2.lastInterval == Some(6);
    assert Sm2Interval(c2, 4) == RoundHalfUp(1500, 100) == 15;
  }

  /** The filter of `getDueCards`: no review date, or a date not after `now`. */
  predicate IsDue(c: StudyCard, now: int)
  {
    c.nextReviewDate.None? || c.nextReviewDate.value <= now
  }

  /** Both schedulers agree on which cards are due. */
  lemma IsDueAgreesWithShouldReview(c: StudyCard, now: int)
    ensures IsDue(c, now) == ShouldReview(c, now)
  {
  }

  /** The due cards of `cards`, in their original order. */
  function FilterDue(cards: seq<StudyCard>, now: int): (r: seq<StudyCard>)
    ensures forall c :: multiset(r)[c] == (if IsDue(c, now) then multiset(cards)[c] else 0)
  {
    if cards == [] then []
    else
      var rest := FilterDue(cards[1..], now);
      assert cards == [cards[0]] + cards[1..];
      if IsDue(cards[0], now) then [cards[0]] + rest else rest
  }

  /** Learning cards sort before all others. */
  function ClassRank(c: StudyCard): int
  {
    if c.status == Learning then 0 else 1
  }

  /** The date used for ordering; an undated card counts as the epoch. */
  function SortDate(c: StudyCard): int
  {
    c.nextReviewDate.GetOr(0)
  }

  /** The comparator of `getDueCards`: `a` may come before `b`. */
  predicate Before(a: StudyCard, b: StudyCard)
  {
    ClassRank(a) < ClassRank(b) || (ClassRank(a) == ClassRank(b) && SortDate(a) <= SortDate(b))
  }

  predicate SortedDue(s: seq<StudyCard>)
  {
    forall i, j :: 0 <= i < j < |s| ==> Before(s[i], s[j])
  }

  /** A card that may precede every card of a sorted list may be put in front of it. */
  lemma PrependSorted(x: StudyCard, s: seq<StudyCard>)
    requires SortedDue(s)
    requires forall c :: c in s ==> Before(x, c)
    ensures SortedDue([x] + s)
  {
    var r := [x] + s;
    forall i, j | 0 <= i < j < |r|
      ensures Before(r[i], r[j])
    {
      assert r[j] == s[j - 1] && r[j] in s;
      if i > 0 {
        assert r[i] == s[i - 1];
      }
    }
  }

  lemma SortedDueTail(s: seq<StudyCard>)
    requires SortedDue(s) && s != []
    ensures SortedDue(s[1..])
  {
    assert forall i :: 0 <= i < |s| - 1 ==> s[1..][i] == s[i + 1];
  }

  /** The head of a sorted list may precede every card in it. */
  lemma HeadFirst(s: seq<StudyCard>)
    requires SortedDue(s) && s != []
    ensures forall c :: c in s ==> Before(s[0], c)
  {
    forall c | c in s
      ensures Before(s[0], c)
    {
      var k :| 0 <= k < |s| && s[k] == c;
      assert k == 0 || Before(s[0], s[k]);
    }
  }

  /** A card that may precede every card of `s` and `x` may precede every card of a list holding them. */
  lemma PrecedesAll(y: StudyCard, s: seq<StudyCard>, x: StudyCard, r: seq<StudyCard>)
    requires forall c :: c in s ==> Before(y, c)
    requires Before(y, x)
    requires multiset(r) == multiset(s) + multiset{x}
    ensures forall c :: c in r ==> Before(y, c)
  {
    forall c | c in r
      ensures Before(y, c)
    {
      assert c in multiset(r);
      assert c == x || c in multiset(s);
    }
  }

  /** Inserts `x` before the first element it may precede. */
  function InsertDue(x: StudyCard, s: seq<StudyCard>): (r: seq<StudyCard>)
    requires SortedDue(s)
    ensures SortedDue(r)
    ensures multiset(r) == multiset(s) + multiset{x}
  {
    if s == [] then [x]
    else if Before(x, s[0]) then
      HeadFirst(s);
      PrependSorted(x, s);
      [x] + s
    else
      HeadFirst(s);
      SortedDueTail(s);
      var rest := InsertDue(x, s[1..]);
      assert s == [s[0]] + s[1..];
      PrecedesAll(s[0], s[1..], x, rest);
      PrependSorted(s[0], rest);
      [s[0]] + rest
  }

  /** A stable insertion sort by the comparator. */
  function SortDue(s: seq<StudyCard>): (r: seq<StudyCard>)
    ensures SortedDue(r)
    ensures multiset(r) == multiset(s)
  {
    if s == [] then []
    else
      assert s == [s[0]] + s[1..];
      InsertDue(s[0], SortDue(s[1..]))
  }

  /** `[c]` when the sort key of `c` is (`rank`, `date`), else nothing. */
  function Hit(c: StudyCard, rank: int, date: int): seq<StudyCard>
  {
    if ClassRank(c) == rank && SortDate(c) == date then [c] else []
  }

  /** The cards of `s` whose sort key is (`rank`, `date`), in their order in `s`. */
  function WithKey(s: seq<StudyCard>, rank: int, date: int): seq<StudyCard>
  {
    if s == [] then [] else Hit(s[0], rank, date) + WithKey(s[1..], rank, date)
  }

  lemma WithKeyCons(c: StudyCard, s: seq<StudyCard>, rank: int, date: int)
    ensures WithKey([c] + s, rank, date) == Hit(c, rank, date) + WithKey(s, rank, date)
  {
    assert ([c] + s)[1..] == s;
  }

  /** Two picks of which one is empty can be swapped. */
  lemma SwapHits(a: seq<StudyCard>, b: seq<StudyCard>, w: seq<StudyCard>)
    requires a == [] || b == []
    ensures a + (b + w) == b + (a + w)
  {
    if a == [] {
      assert a + (b + w) == b + w && a + w == w;
    } else {
      assert b + w == w && b + (a + w) == a + w;
    }
  }

  /** Inserting keeps the cards of each key in order, `x` first among its equals. */
  lemma {:induction false} InsertDueStable(x: StudyCard, s: seq<StudyCard>, rank: int, date: int)
    requires SortedDue(s)
    ensures WithKey(InsertDue(x, s), rank, date) == WithKey([x] + s, rank, date)
  {
    if s != [] && !Before(x, s[0]) {
      var rest := InsertDue(x, s[1..]);
      var hx, h0, w := Hit(x, rank, date), Hit(s[0], rank, date), WithKey(s[1..], rank, date);
      SortedDueTail(s);
      InsertDueStable(x, s[1..], rank, date);
      WithKeyCons(s[0], rest, rank, date);
      WithKeyCons(x, s[1..], rank, date);
      WithKeyCons(x, s, rank, date);
      assert WithKey(s, rank, date) == h0 + w;
      SwapHits(hx, h0, w);
      calc {
        WithKey(InsertDue(x, s), rank, date);
        WithKey([s[0]] + rest, rank, date);
        h0 + WithKey(rest, rank, date);
        h0 + (hx + w);
        hx + (h0 + w);
        WithKey([x] + s, rank, date);
      }
    }
  }

  /** The insertion sort is stable: the cards of each key keep their order. */
  lemma {:induction false} SortDueStable(s: seq<StudyCard>, rank: int, date: int)
    ensures WithKey(SortDue(s), rank, date) == WithKey(s, rank, date)
  {
    if s != [] {
      SortDueStable(s[1..], rank, date);
      InsertDueStable(s[0], SortDue(s[1..]), rank, date);
      WithKeyCons(s[0], SortDue(s[1..]), rank, date);
    }
  }

  /** Filtering the due cards and picking one key can be done in either order. */
  lemma {:induction false} FilterDueWithKey(cards: seq<StudyCard>, now: int, rank: int, date: int)
    ensures WithKey(FilterDue(cards, now), rank, date) == FilterDue(WithKey(cards, rank, date), now)
  {
    if cards != [] {
      var c := cards[0];
      var rest := FilterDue(cards[1..], now);
      var keyed := WithKey(cards[1..], rank, date);
      FilterDueWithKey(cards[1..], now, rank, date);
      assert WithKey(rest, rank, date) == FilterDue(keyed, now);
      if ClassRank(c) == rank && SortDate(c) == date {
        assert WithKey(cards, rank, date) == [c] + keyed;
        assert ([c] + keyed)[1..] == keyed;
        if IsDue(c, now) {
          assert FilterDue(cards, now) == [c] + rest;
          assert ([c] + rest)[1..] == rest;
        } else {
          assert FilterDue(cards, now) == rest;
        }
      } else {
        assert WithKey(cards, rank, date) == keyed;
        if IsDue(c, now) {
          assert FilterDue(cards, now) == [c] + rest;
          assert ([c] + rest)[1..] == rest;
        } else {
          assert FilterDue(cards, now) == rest;
        }
      }
    }
  }

  /** Sorting the due cards keeps the cards of each key in the order of `cards`. */
  lemma GetDueCardsKeepKeyOrder(cards: seq<StudyCard>, now: int)
    ensures forall rank, date :: WithKey(SortDue(FilterDue(cards, now)), rank, date)
                                 == FilterDue(WithKey(cards, rank, date), now)
  {
    forall rank, date
      ensures WithKey(SortDue(FilterDue(cards, now)), rank, date) == FilterDue(WithKey(cards, rank, date), now)
    {
      SortDueStable(FilterDue(cards, now), rank, date);
      FilterDueWithKey(cards, now, rank, date);
    }
  }

  /**
   * `getDueCards`: the due cards, learning cards first, each class by
   * ascending date; cards with the same class and date keep the order they
   * had in `cards`, as the stable `Array.prototype.sort` keeps it.
   */
  function GetDueCards(cards: seq<StudyCard>, now: int): (r: seq<StudyCard>)
    ensures forall c :: multiset(r)[c] == (if IsDue(c, now) then multiset(cards)[c] else 0)
    ensures forall c :: c in r ==> c in cards && IsDue(c, now)
    ensures forall i, j :: 0 <= i < j < |r| && r[j].status == Learning ==> r[i].status == Learning
    ensures forall i, j :: 0 <= i < j < |r| && ClassRank(r[i]) == ClassRank(r[j]) ==> SortDate(r[i]) <= SortDate(r[j])
    ensures forall rank, date :: WithKey(r, rank, date) == FilterDue(WithKey(cards, rank, date), now)
  {
    var due := FilterDue(cards, now);
    var r := SortDue(due);
    assert forall c :: c in r ==> multiset(r)[c] > 0;
    assert forall i, j :: 0 <= i < j < |r| ==> Before(r[i], r[j]);
    GetDueCardsKeepKeyOrder(cards, now);
    r
  }
}
