/**
 * The study session: the state of one timed session over a deck and the
 * events that change it. The React effects and timers become explicit
 * events: `Start` (the card-loading effect), `Tick` (one second of the
 * countdown), `Flip`, `Rate` (a difficulty selection, with the signed-in
 * user and the store's answers as parameters) and `FinishTransition` (the
 * delayed switch to the next card).
 */
module StudySession {
  import opened Wrappers
  import opened StudyConstants
  import opened LearningTypes
  import opened IntervalEngine
  import opened CardRotation
  import opened Progress

  /** The number of ratings in `rs` other than FAIL. */
  function CountCorrect(rs: seq<Rating>): (n: nat)
    ensures n <= |rs|
  {
    if rs == [] then 0
    else CountCorrect(rs[..|rs| - 1]) + (if rs[|rs| - 1] != FAIL then 1 else 0)
  }

  /** A card as the session creates it: new, no repetitions, ease 2.5, last interval 0. */
  function Fresh(f: Flashcard): (c: StudyCard)
    ensures WellFormed(c) && c.card == f && c.status == New
  {
    StudyCard(f, New, None, 0, DEFAULT_EASE_FACTOR, Some(0))
  }

  /**
   * A fresh card rated GOOD gets one repetition, seven days, an unchanged
   * ease of 2.5 and the reviewing status; rated FAIL, no repetitions, one
   * day, an ease of 2.3 and the learning status.
   */
  lemma FreshCardScenarios(f: Flashcard, now: int)
    ensures var c := NextReview(Fresh(f), GOOD, now);
      c.repetitions == 1 && c.lastInterval == Some(7) && c.easeFactor == 250 && c.status == Reviewing
    ensures var c := NextReview(Fresh(f), FAIL, now);
      c.repetitions == 0 && c.lastInterval == Some(1) && c.easeFactor == 230 && c.status == Learning
  {
  }

  /** The cards a session starts from: each flashcard as a fresh study card, in order. */
  function InitialCards(cards: seq<Flashcard>): (r: seq<StudyCard>)
    ensures |r| == |cards|
    ensures forall i :: 0 <= i < |r| ==> r[i] == Fresh(cards[i])
  {
    seq(|cards|, i requires 0 <= i < |cards| => Fresh(cards[i]))
  }

  /**
   * The delta the session hands to the store, as the session builds it: the
   * card it passes is the one already reviewed, so the store recomputes the
   * interval and ease factor a second time.
   */
  function SessionDeltaAsWritten(userId: string, card: StudyCard, r: Rating, now: int): ProgressDelta
  {
    BuildDelta(userId, card.card.id, r, NextReview(card, r, now), now)
  }

  /**
   * A fresh card rated GOOD is scheduled in 7 days, but the history records
   * 18 (7 * 2.5 = 17.5, rounded up); rated FAIL its ease becomes 2.3 but the
   * history records 2.1.
   */
  lemma AsWrittenRecordDisagreesWithCard(f: Flashcard, userId: string, now: int)
    ensures NextReview(Fresh(f), GOOD, now).lastInterval == Some(7)
    ensures SessionDeltaAsWritten(userId, Fresh(f), GOOD, now).record.interval == 18
    ensures NextReview(Fresh(f), FAIL, now).easeFactor == 230
    ensures SessionDeltaAsWritten(userId, Fresh(f), FAIL, now).record.easeFactor == 210
  {
    var reviewed := NextReview(Fresh(f), GOOD, now);
    assert reviewed.repetitions == 1 && reviewed.easeFactor == 250 && reviewed.lastInterval == Some(7);
    assert ScaledInterval(7, 250, GOOD) == 18;
  }

  /** The delta the session hands to the store when the card passed is the one before the review. */
  function SessionDelta(userId: string, card: StudyCard, r: Rating, now: int): ProgressDelta
  {
    BuildDelta(userId, card.card.id, r, card, now)
  }

  /** The history record then carries exactly the schedule the card receives. */
  lemma SessionDeltaMatchesCard(userId: string, card: StudyCard, r: Rating, now: int)
    ensures Some(SessionDelta(userId, card, r, now).record.interval) == NextReview(card, r, now).lastInterval
    ensures SessionDelta(userId, card, r, now).record.easeFactor == NextReview(card, r, now).easeFactor
    ensures SessionDelta(userId, card, r, now).record.reviewDate == now
  {
  }

  lemma CountCorrectAppend(rs: seq<Rating>, r: Rating)
    ensures CountCorrect(rs + [r]) == CountCorrect(rs) + (if r != FAIL then 1 else 0)
  {
    assert (rs + [r])[..|rs|] == rs;
  }

  lemma ReplacePreservesWellFormed(cards: seq<StudyCard>, i: int, c: StudyCard)
    requires 0 <= i < |cards| && WellFormed(c)
    requires forall x :: x in cards ==> WellFormed(x)
    ensures forall x :: x in cards[i := c] ==> WellFormed(x)
  {
    forall x | x in cards[i := c]
      ensures WellFormed(x)
    {
      var k :| 0 <= k < |cards| && cards[i := c][k] == x;
      if k != i {
        assert cards[k] in cards;
      }
    }
  }

  /** Reviewing one card of well-formed cards and logging its rating keeps the session's invariant. */
  lemma ReviewKeepsInvariant(cards: seq<StudyCard>, i: int, rated: seq<Rating>, r: Rating, now: int)
    requires 0 <= i < |cards| && forall c :: c in cards ==> WellFormed(c)
    ensures forall c :: c in cards[i := NextReview(cards[i], r, now)] ==> WellFormed(c)
    ensures CountCorrect(rated + [r]) == CountCorrect(rated) + (if r != FAIL then 1 else 0)
  {
    assert cards[i] in cards;
    NextReviewPreservesWellFormed(cards[i], r, now);
    ReplacePreservesWellFormed(cards, i, NextReview(cards[i], r, now));
    CountCorrectAppend(rated, r);
  }

  /** What a difficulty selection did. */
  datatype RateOutcome =
    | Ignored                       // no card, a transition under way, or no time left
    | NotSignedIn                   // no user: nothing is recorded
    | PersistFailed(step: WriteStep) // the store refused a write: nothing is recorded
    | Recorded(nextIndex: int)      // the review is recorded; the next card is at nextIndex

  class Session {
    const deckId: string
    const duration: Duration
    var studyCards: seq<StudyCard>
    var currentIndex: int
    var isFlipped: bool
    var timeRemaining: int
    var cardsStudied: int
    var correctAnswers: int
    var isTransitioning: bool
    /** The index the pending delayed transition will switch to. */
    var pendingIndex: Option<int>
    /** The countdown has reported its summary and stopped. */
    var timerStopped: bool
    /** The progress store as this session's writes leave it. */
    var store: Store
    /** The ratings recorded so far, oldest first. */
    ghost var rated: seq<Rating>

    ghost predicate Valid()
      reads this
    {
      && 0 <= timeRemaining <= InitialSeconds(duration)
      && 0 <= currentIndex
      && cardsStudied == |rated|
      && correctAnswers == CountCorrect(rated)
      && (isTransitioning <==> pendingIndex.Some?)
      && (pendingIndex.Some? ==> pendingIndex.value >= 0)
      && (timerStopped ==> timeRemaining == 0)
      && (forall c :: c in studyCards ==> WellFormed(c))
    }

    /** The hook's initial state: no cards, index 0, the full countdown, zero counters. */
    constructor (deckId: string, duration: Duration, store: Store)
      ensures Valid()
      ensures this.deckId == deckId && this.duration == duration && this.store == store
      ensures studyCards == [] && currentIndex == 0 && !isFlipped && !isTransitioning
      ensures timeRemaining == InitialSeconds(duration)
      ensures cardsStudied == 0 && correctAnswers == 0 && rated == []
      ensures pendingIndex.None? && !timerStopped
    {
      this.deckId := deckId;
      this.duration := duration;
      this.store := store;
      studyCards := [];
      currentIndex := 0;
      isFlipped := false;
      timeRemaining := InitialSeconds(duration);
      cardsStudied, correctAnswers := 0, 0;
      isTransitioning := false;
      pendingIndex := None;
      timerStopped := false;
      rated := [];
    }

    /** The card on screen: none when the deck is empty or the index lies outside it. */
    function CurrentCard(): (c: Option<StudyCard>)
      reads this
      ensures c.Some? <==> 0 <= currentIndex < |studyCards|
      ensures c.Some? ==> c.value == studyCards[currentIndex]
    {
      if 0 <= currentIndex < |studyCards| then Some(studyCards[currentIndex]) else None
    }

    /**
     * The card-loading effect: a non-empty list of flashcards becomes the
     * deck, each card fresh, in shuffled order; an empty list changes nothing.
     */
    method Start(cards: seq<Flashcard>)
      requires Valid()
      modifies this
      ensures Valid()
      ensures |cards| == 0 ==> studyCards == old(studyCards)
      ensures |cards| > 0 ==> |studyCards| == |cards| && multiset(studyCards) == multiset(InitialCards(cards))
      ensures forall c :: |cards| > 0 && c in studyCards ==>
                (c.status == New && c.repetitions == 0 && c.easeFactor == 250 && c.lastInterval == Some(0))
      ensures currentIndex == old(currentIndex) && isFlipped == old(isFlipped)
      ensures timeRemaining == old(timeRemaining) && isTransitioning == old(isTransitioning)
      ensures cardsStudied == old(cardsStudied) && correctAnswers == old(correctAnswers) && rated == old(rated)
      ensures pendingIndex == old(pendingIndex) && timerStopped == old(timerStopped) && store == old(store)
    {
      if |cards| > 0 {
        var initial := InitialCards(cards);
        studyCards := ShuffleCards(Some(initial));
        forall c | c in studyCards
          ensures c in initial
        {
          assert c in multiset(studyCards);
        }
      }
    }

    /**
     * One second of the countdown. No timer runs while the deck is empty or
     * after the summary was reported. A tick that finds time left takes one
     * second off; a tick that finds none stops the timer and reports the
     * session summary, once.
     */
    method Tick(now: int) returns (summary: Option<LearningSession>)
      requires Valid()
      modifies this`timeRemaining, this`timerStopped
      ensures Valid()
      ensures old(studyCards) == [] || old(timerStopped) ==>
                timeRemaining == old(timeRemaining) && timerStopped == old(timerStopped) && summary.None?
      ensures old(studyCards) != [] && !old(timerStopped) && old(timeRemaining) > 0 ==>
                timeRemaining == old(timeRemaining) - 1 && !timerStopped && summary.None?
      ensures old(studyCards) != [] && !old(timerStopped) && old(timeRemaining) == 0 ==>
                timeRemaining == 0 && timerStopped &&
                summary == Some(LearningSession(deckId, now - Minutes(duration) * 60 * 1000,
                                                cardsStudied, correctAnswers, now))
    {
      summary := None;
      if studyCards == [] || timerStopped {
        return;
      }
      if timeRemaining <= 0 {
        timerStopped := true;
        timeRemaining := 0;
        summary := Some(LearningSession(deckId, now - Minutes(duration) * 60 * 1000,
                                        cardsStudied, correctAnswers, now));
      } else {
        timeRemaining := timeRemaining - 1;
      }
    }

    /** `handleFlip`: turns the card over, except during a transition. */
    method Flip()
      requires Valid()
      modifies this`isFlipped
      ensures Valid()
      ensures isFlipped == if old(isTransitioning) then old(isFlipped) else !old(isFlipped)
    {
      if !isTransitioning {
        isFlipped := !isFlipped;
      }
    }

    /**
     * `handleDifficultySelect`: records a rating for the card on screen.
     * It is ignored without a card, during a transition or once the time is
     * up; without a signed-in user, or when the store refuses a write,
     * nothing changes. Otherwise the card is replaced by its reviewed
     * version, the counters move, the store holds the delta built from the
     * reviewed card (as the source passes it), and a transition to the
     * rotated index begins.
     */
    method Rate(r: Rating, user: Option<string>, failing: set<WriteStep>, now: int)
      returns (outcome: RateOutcome)
      requires Valid()
      modifies this
      ensures Valid()
      ensures (old(CurrentCard()).None? || old(isTransitioning) || old(timeRemaining) <= 0)
              <==> outcome == Ignored
      ensures outcome == NotSignedIn <==> outcome != Ignored && user.None?
      ensures outcome.Recorded? <==> outcome != Ignored && user.Some? && failing == {}
      ensures !outcome.Recorded? ==>
                studyCards == old(studyCards) && currentIndex == old(currentIndex)
                && isFlipped == old(isFlipped) && isTransitioning == old(isTransitioning)
                && cardsStudied == old(cardsStudied) && correctAnswers == old(correctAnswers)
                && rated == old(rated) && store == old(store) && pendingIndex == old(pendingIndex)
      ensures outcome.Recorded? ==>
                && studyCards == old(studyCards)[old(currentIndex) := NextReview(old(studyCards)[old(currentIndex)], r, now)]
                && cardsStudied == old(cardsStudied) + 1
                && correctAnswers == old(correctAnswers) + (if r == FAIL then 0 else 1)
                && rated == old(rated) + [r]
                && store == ApplyDelta(old(store), user.value, deckId,
                                       SessionDeltaAsWritten(user.value, old(studyCards)[old(currentIndex)], r, now), now)
                && outcome.nextIndex == RotateCards(old(studyCards), old(currentIndex), r)
                && 0 <= outcome.nextIndex < |studyCards|
                && isTransitioning && !isFlipped && pendingIndex == Some(outcome.nextIndex)
                && currentIndex == old(currentIndex)
      ensures timeRemaining == old(timeRemaining) && timerStopped == old(timerStopped)
    {
      var current := CurrentCard();
      if current.None? || isTransitioning || timeRemaining <= 0 {
        return Ignored;
      }
      if user.None? {
        return NotSignedIn;
      }
      var card := current.value;
      var updated := NextReview(card, r, now);
      var newStore, error := UpdateUserProgress(store, user.value, deckId, card.card.id, r, updated, now, failing);
      if error.Some? {
        return PersistFailed(error.value);
      }
      assert card == old(studyCards)[old(currentIndex)];
      assert newStore == ApplyDelta(store, user.value, deckId, SessionDeltaAsWritten(user.value, card, r, now), now);
      outcome := RecordReview(r, newStore, now);
    }

    /**
     * The part of `handleDifficultySelect` after the store accepted the
     * review: the card on screen is replaced by its reviewed version, the
     * counters move and a transition to the rotated index begins.
     */
    method RecordReview(r: Rating, newStore: Store, now: int) returns (outcome: RateOutcome)
      requires Valid() && 0 <= currentIndex < |studyCards|
      modifies this`studyCards, this`cardsStudied, this`correctAnswers, this`rated, this`store,
               this`isTransitioning, this`isFlipped, this`pendingIndex
      ensures Valid()
      ensures studyCards == old(studyCards)[currentIndex := NextReview(old(studyCards)[currentIndex], r, now)]
      ensures cardsStudied == old(cardsStudied) + 1
      ensures correctAnswers == old(correctAnswers) + (if r == FAIL then 0 else 1)
      ensures rated == old(rated) + [r] && store == newStore
      ensures outcome.Recorded? && outcome.nextIndex == RotateCards(old(studyCards), currentIndex, r)
      ensures 0 <= outcome.nextIndex < |studyCards|
      ensures isTransitioning && !isFlipped && pendingIndex == Some(outcome.nextIndex)
    {
      var card := studyCards[currentIndex];
      var updatedCard := NextReview(card, r, now);
      ReviewKeepsInvariant(studyCards, currentIndex, rated, r, now);
      var nextIndex := RotateCards(studyCards, currentIndex, r);
      studyCards, store := studyCards[currentIndex := updatedCard], newStore;
      cardsStudied, correctAnswers, rated :=
        cardsStudied + 1, correctAnswers + (if r != FAIL then 1 else 0), rated + [r];
      // moveToNextCard
      isTransitioning, isFlipped, pendingIndex := true, false, Some(nextIndex);
      outcome := Recorded(nextIndex);
    }

    /** The delayed end of a transition: the rotated card comes up, face down. */
    method FinishTransition()
      requires Valid()
      modifies this`currentIndex, this`isTransitioning, this`pendingIndex
      ensures Valid()
      ensures old(pendingIndex).None? ==>
                currentIndex == old(currentIndex) && isTransitioning == old(isTransitioning) && pendingIndex.None?
      ensures old(pendingIndex).Some? ==>
                currentIndex == old(pendingIndex).value && !isTransitioning && pendingIndex.None?
    {
      if pendingIndex.Some? {
        currentIndex := pendingIndex.value;
        isTransitioning := false;
        pendingIndex := None;
      }
    }

    /**
     * The study screen offers the rating buttons only while the card shows
     * its back and no transition is under way; otherwise a click cannot
     * reach the session and nothing changes. Through the gate, a click is
     * `handleDifficultySelect` exactly as `Rate` states it.
     */
    method SelectDifficulty(r: Rating, user: Option<string>, failing: set<WriteStep>, now: int)
      returns (outcome: RateOutcome)
      requires Valid()
      modifies this
      ensures Valid()
      ensures !old(isFlipped) || old(isTransitioning) ==> outcome == Ignored
      ensures old(isFlipped) && !old(isTransitioning) ==>
                ((old(CurrentCard()).None? || old(timeRemaining) <= 0) <==> outcome == Ignored)
      ensures outcome == NotSignedIn <==> outcome != Ignored && user.None?
      ensures outcome.Recorded? <==> outcome != Ignored && user.Some? && failing == {}
      ensures !outcome.Recorded? ==>
                studyCards == old(studyCards) && currentIndex == old(currentIndex)
                && isFlipped == old(isFlipped) && isTransitioning == old(isTransitioning)
                && cardsStudied == old(cardsStudied) && correctAnswers == old(correctAnswers)
                && rated == old(rated) && store == old(store) && pendingIndex == old(pendingIndex)
      ensures outcome.Recorded? ==>
                && old(isFlipped) && !old(isTransitioning)
                && studyCards == old(studyCards)[old(currentIndex) := NextReview(old(studyCards)[old(currentIndex)], r, now)]
                && cardsStudied == old(cardsStudied) + 1
                && correctAnswers == old(correctAnswers) + (if r == FAIL then 0 else 1)
                && rated == old(rated) + [r]
                && store == ApplyDelta(old(store), user.value, deckId,
                                       SessionDeltaAsWritten(user.value, old(studyCards)[old(currentIndex)], r, now), now)
                && outcome.nextIndex == RotateCards(old(studyCards), old(currentIndex), r)
                && 0 <= outcome.nextIndex < |studyCards|
                && isTransitioning && !isFlipped && pendingIndex == Some(outcome.nextIndex)
                && currentIndex == old(currentIndex)
      ensures timeRemaining == old(timeRemaining) && timerStopped == old(timerStopped)
    {
      if !isFlipped || isTransitioning {
        return Ignored;
      }
      outcome := Rate(r, user, failing, now);
    }
  }

  /**
   * A five-card session of five minutes with no rating: the countdown runs
   * 300 ticks from 300 to 0 and the 301st tick reports the summary, with no
   * card studied.
   */
  method ExpiryScenario(deckId: string, cards: seq<Flashcard>, store: Store, now: int)
    returns (ticks: nat, summary: LearningSession)
    requires |cards| == 5
    ensures ticks == 301
    ensures summary.deckId == deckId && summary.cardsStudied == 0 && summary.correctAnswers == 0
    ensures summary.startTime == now - 300_000
  {
    var s := new Session(deckId, SHORT, store);
    s.Start(cards);
    var result: Option<LearningSession> := None;
    ticks := 0;
    while result.None?
      invariant s.Valid() && |s.studyCards| == 5 && s.deckId == deckId && s.duration == SHORT
      invariant s.cardsStudied == 0 && s.correctAnswers == 0
      invariant result.None? ==> !s.timerStopped && s.timeRemaining + ticks == 300
      invariant result.Some? ==> ticks == 301 && result.value == LearningSession(deckId, now - 300_000, 0, 0, now)
      decreases if result.None? then s.timeRemaining + 1 else 0
    {
      result := s.Tick(now);
      ticks := ticks + 1;
    }
    summary := result.value;
  }
}
