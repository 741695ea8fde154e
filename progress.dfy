/**
 * What one review writes to the progress store: the XP table, the review
 * history record and the counter increments, and the write sequence that
 * either applies all of them or none. The store is abstract: a history of
 * review records and a progress row per (user id, deck id).
 */
module Progress {
  import opened Wrappers
  import opened StudyConstants
  import opened LearningTypes
  import opened IntervalEngine

  /** `calculateXPReward`: the experience points a rating earns. */
  function XpReward(r: Rating): (xp: int)
    ensures xp >= 0
    ensures xp == 0 <==> r == FAIL
  {
    match r
    case FAIL => 0
    case HARD => 5
    case GOOD => 8
    case EASY => 10
    case PERFECT => 15
  }

  /** A better rating earns strictly more XP. */
  lemma XpRewardIncreasing(a: Rating, b: Rating)
    ensures Weight(a) < Weight(b) <==> XpReward(a) < XpReward(b)
    ensures Weight(a) <= Weight(b) <==> XpReward(a) <= XpReward(b)
  {
  }

  /** A row of the review history table. */
  datatype ReviewRecord = ReviewRecord(
    userId: string,
    cardId: string,
    rating: Rating,
    interval: int,
    easeFactor: int,
    reviewDate: int)

  /** A row of the progress table; the two counters may be null. */
  datatype ProgressRow = ProgressRow(
    cardsStudied: Option<int>,
    correctAnswers: Option<int>,
    dailyXp: int,
    lastRewardDate: int)

  datatype Store = Store(history: seq<ReviewRecord>, progress: map<(string, string), ProgressRow>)

  /** What one review adds to the store. */
  datatype ProgressDelta = ProgressDelta(record: ReviewRecord, studied: int, correct: int, xp: int)

  /**
   * The delta `updateUserProgress` writes for a review: the history record
   * carries the interval and ease factor recomputed on the card it is given.
   */
  function BuildDelta(userId: string, cardId: string, r: Rating, card: StudyCard, now: int): (d: ProgressDelta)
    ensures d.studied == 1
    ensures d.correct == (if r == FAIL then 0 else 1)
    ensures d.xp == XpReward(r)
    ensures d.record.interval >= 1
    ensures MIN_EASE_FACTOR <= d.record.easeFactor <= MAX_EASE_FACTOR
    ensures d.record == ReviewRecord(userId, cardId, r, NextInterval(card, r), NewEaseFactor(card.easeFactor, r), now)
  {
    ProgressDelta(
      ReviewRecord(userId, cardId, r, NextInterval(card, r), NewEaseFactor(card.easeFactor, r), now),
      1, if r == FAIL then 0 else 1, XpReward(r))
  }

  /** The row of a key, or an empty one. */
  function RowOf(s: Store, key: (string, string)): ProgressRow
  {
    if key in s.progress then s.progress[key] else ProgressRow(None, None, 0, 0)
  }

  /** `COALESCE(column, 0)`. */
  function Coalesce(v: Option<int>): int
  {
    v.GetOr(0)
  }

  function Studied(s: Store, key: (string, string)): int { Coalesce(RowOf(s, key).cardsStudied) }
  function Correct(s: Store, key: (string, string)): int { Coalesce(RowOf(s, key).correctAnswers) }
  function DailyXp(s: Store, key: (string, string)): int { RowOf(s, key).dailyXp }

  /** The store after a delta for (userId, deckId) has been applied in full. */
  function ApplyDelta(s: Store, userId: string, deckId: string, d: ProgressDelta, now: int): (t: Store)
    ensures t.history == s.history + [d.record]
    ensures t.progress.Keys == s.progress.Keys + {(userId, deckId)}
    ensures Studied(t, (userId, deckId)) == Studied(s, (userId, deckId)) + d.studied
    ensures Correct(t, (userId, deckId)) == Correct(s, (userId, deckId)) + d.correct
    ensures DailyXp(t, (userId, deckId)) == DailyXp(s, (userId, deckId)) + d.xp
    ensures t.progress[(userId, deckId)].cardsStudied.Some? && t.progress[(userId, deckId)].correctAnswers.Some?
    ensures t.progress[(userId, deckId)].lastRewardDate == now
    ensures forall k :: k in s.progress && k != (userId, deckId) ==> t.progress[k] == s.progress[k]
  {
    var key := (userId, deckId);
    var row := ProgressRow(
      Some(Studied(s, key) + d.studied),
      Some(Correct(s, key) + d.correct),
      DailyXp(s, key) + d.xp,
      now);
    Store(s.history + [d.record], s.progress[key := row])
  }

  /** Every progress row counts no more correct answers than cards studied, and neither is negative. */
  predicate Consistent(s: Store)
  {
    forall k :: k in s.progress ==>
      0 <= Coalesce(s.progress[k].correctAnswers) <= Coalesce(s.progress[k].cardsStudied)
  }

  /** Applying the delta of any review keeps the store consistent. */
  lemma ApplyDeltaPreservesConsistent(s: Store, userId: string, deckId: string, cardId: string,
                                      r: Rating, card: StudyCard, now: int)
    requires Consistent(s)
    ensures Consistent(ApplyDelta(s, userId, deckId, BuildDelta(userId, cardId, r, card, now), now))
  {
    var t := ApplyDelta(s, userId, deckId, BuildDelta(userId, cardId, r, card, now), now);
    forall k | k in t.progress
      ensures 0 <= Coalesce(t.progress[k].correctAnswers) <= Coalesce(t.progress[k].cardsStudied)
    {
      if k != (userId, deckId) {
        assert t.progress[k] == s.progress[k];
      } else {
        assert Studied(t, k) == Coalesce(t.progress[k].cardsStudied);
      }
    }
  }

  /** The calls of the write sequence, in the order they are made. */
  datatype WriteStep = BeginTransaction | InsertReview | UpdateDailyXp | UpsertProgress | CommitTransaction

  function StepOrder(st: WriteStep): int
  {
    match st
    case BeginTransaction => 0
    case InsertReview => 1
    case UpdateDailyXp => 2
    case UpsertProgress => 3
    case CommitTransaction => 4
  }

  /**
   * `updateUserProgress`: the store writes of one review inside a
   * transaction. `failing` is the set of calls the store answers with an
   * error. The first failing call aborts the sequence, the transaction is
   * rolled back and the error is reported; otherwise the whole delta is
   * applied.
   */
  method UpdateUserProgress(s: Store, userId: string, deckId: string, cardId: string, r: Rating,
                            card: StudyCard, now: int, failing: set<WriteStep>)
    returns (t: Store, error: Option<WriteStep>)
    ensures error.None? <==> failing == {}
    ensures error.Some? ==> error.value in failing && t == s
    ensures error.Some? ==> forall st :: st in failing ==> StepOrder(error.value) <= StepOrder(st)
    ensures error.None? ==> t == ApplyDelta(s, userId, deckId, BuildDelta(userId, cardId, r, card, now), now)
  {
    var delta := BuildDelta(userId, cardId, r, card, now);
    if BeginTransaction in failing {
      return s, Some(BeginTransaction);
    }
    var tx := s;
    // 1. the review history record
    if InsertReview in failing {
      return s, Some(InsertReview);
    }
    tx := tx.(history := tx.history + [delta.record]);
    // 2-3. the XP reward, added by the store's daily XP function
    if UpdateDailyXp in failing {
      return s, Some(UpdateDailyXp);
    }
    var key := (userId, deckId);
    var updatedXp := DailyXp(tx, key) + delta.xp;
    tx := tx.(progress := tx.progress[key := RowOf(tx, key).(dailyXp := updatedXp)]);
    // 4. the counters
    if UpsertProgress in failing {
      return s, Some(UpsertProgress);
    }
    var row := ProgressRow(
      Some(Coalesce(RowOf(tx, key).cardsStudied) + delta.studied),
      Some(Coalesce(RowOf(tx, key).correctAnswers) + delta.correct),
      updatedXp,
      now);
    tx := tx.(progress := tx.progress[key := row]);
    if CommitTransaction in failing {
      return s, Some(CommitTransaction);
    }
    assert failing == {} by {
      forall st | st in failing ensures false {
        match st
        case BeginTransaction =>
        case InsertReview =>
        case UpdateDailyXp =>
        case UpsertProgress =>
        case CommitTransaction =>
      }
    }
    return tx, None;
  }
}
