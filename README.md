# Adaptive review scheduler of compo_flashcard, in Dafny

This project models the review scheduler of the compo_flashcard learning app.
The app shows flashcards in timed study sessions. Each rating of a card
(FAIL, HARD, GOOD, EASY, PERFECT) reschedules that card, and the review is
written to a progress store.

The modules follow the source files:

| module | source file | what it holds |
|---|---|---|
| `StudyConstants` | src/constants/study.ts | rating weights, base intervals, session durations |
| `LearningTypes` | src/types/learning.ts, src/types/memory.ts | flashcard, study card, session summary |
| `IntervalEngine` | src/lib/spaced-repetition.ts | next interval, new ease factor, reviewed card, due test |
| `CardRotation` | src/utils/cardRotation.ts | Fisher–Yates shuffle (an in-place loop over an array), rotation to the next index |
| `Progress` | src/lib/supabase/progress.ts | XP table, review delta, all-or-nothing write to an abstract store |
| `StudySession` | src/hooks/useStudySession.ts | the session as a class with events `Start`, `Tick`, `Flip`, `Rate`, `FinishTransition` |
| `Sm2Scheduler` | src/utils/spaced-repetition.ts | the unused SM-2 variant and `getDueCards` |
| `DeckManager` | src/components/admin/DeckManager.tsx | reorder and renumber, lock toggle, largest order |
| `Categories` | src/hooks/useCategories.ts | distinct sorted categories |
| `StudyTimer` | src/components/learning/StudyTimer.tsx | the `m:ss` countdown text |
| `UserStats` | src/components/stats/UserStats.tsx | totals, accuracy, failure bar, deck titles |
| `ImageUploader` | src/components/admin/ImageUploader.tsx | size and type checks, which callback fires |
| `IntMath` | — | `Max` and `Min`, shared by the modules above |

Representation choices:
- Ease factors are integer hundredths: 2.5 is 250, 1.3 is 130, and the steps are +15 and −20.
- `Math.round(x)` is `floor(x + 1/2)`. For a quotient `n/d` this is `RoundHalfUp(n, d) = (2n + d) div 2d`.
- The interval `round(L · e · (1 + (w − 3)/10))` becomes `RoundHalfUp(L · e · (7 + w), 1000)`. `IntervalEngine.ScaledIntervalIsSourceFormula` proves this equals the source formula evaluated over exact reals.
- Dates are integer milliseconds, and "today + k days" is `now + k · 86 400 000`.
- The clock (`now`), the signed-in user and which store writes fail are parameters.
- Randomness in the shuffle is a nondeterministic choice of `j` in `[0, i]`.
- The React state of the session hook is the class `StudySession.Session`. Its timers become the `Tick` and `FinishTransition` events. The ratings recorded so far are a ghost field, `rated`. The class invariant `Valid()` keeps `cardsStudied == |rated|` and `correctAnswers == CountCorrect(rated)`, so `correctAnswers <= cardsStudied` always holds.
- `shuffleCards` copies its argument before swapping. The model takes a sequence value and shuffles an array copy, so the caller's list cannot change.

Behaviour of the code that the model keeps as written:
- Rating without a signed-in user, or when a store write fails, leaves the whole session unchanged: cards, counters, index and flags. The code returns or throws before any state update. It does not carry on in a local-only mode.
- The summary is reported by the tick that finds the countdown at 0. A session started at 300 seconds therefore reports on its 301st tick (`StudySession.ExpiryScenario`).
- Loading cards does not reset the index, the counters or the countdown. The effect only replaces the card list.
- Rating hands the store the card as already reviewed, so the history record is computed from a second review (first row of "## Findings"). `StudySession.Session.Rate` keeps this; `StudySession.SessionDelta` is the corrected delta, stated apart from the session.
- The session hook does not check that the card is flipped. Only the study screen's buttons are gated on it. `StudySession.Session.SelectDifficulty` models that gate separately from `Rate`.

## Model

| member | source | states |
|---|---|---|
| StudyConstants.Weight | src/constants/study.ts:1-7 | every rating weight lies in 1..5 |
| StudyConstants.WeightsDistinctAndOrdered | src/constants/study.ts:1-7 | weights are distinct and strictly increase FAIL < HARD < GOOD < EASY < PERFECT |
| StudyConstants.BaseInterval | src/constants/study.ts:16-22 | every base interval is at least one day |
| StudyConstants.BaseIntervalIncreasing | src/constants/study.ts:16-22 | base intervals strictly increase with the rating's weight, in both directions |
| StudyConstants.Minutes | src/constants/study.ts:9-13 | a session lasts 5, 10 or 15 minutes |
| StudyConstants.InitialSeconds | src/constants/study.ts:9-13 | the initial countdown is minutes · 60, so 300, 600 or 900 seconds |
| IntervalEngine.RoundHalfUp | src/lib/spaced-repetition.ts:36 | the result k satisfies k − 1/2 ≤ n/d < k + 1/2, which is `Math.round` of the quotient |
| IntervalEngine.ScaledIntervalIsSourceFormula | src/lib/spaced-repetition.ts:35-36 | the integer interval equals `round(L · (e/100) · (1 + (w − 3) · 0.1))` computed over exact reals |
| IntervalEngine.NextInterval | src/lib/spaced-repetition.ts:10-41 | at least 1; exactly 1 on FAIL whatever the history; the base interval of the rating on a card with no repetitions |
| IntervalEngine.NextIntervalWithHistory | src/lib/spaced-repetition.ts:21-40 | after some repetitions and a non-FAIL rating, the interval is max(1, round(last interval × ease × factor)), with a missing last interval replaced by the base interval |
| IntervalEngine.RoundHalfUpMonotone | src/lib/spaced-repetition.ts:36 | rounding a quotient is monotone in the numerator |
| IntervalEngine.ScaledIntervalMonotone | src/lib/spaced-repetition.ts:35-36 | the scaled interval grows with the last interval, the ease and the weight |
| IntervalEngine.NextIntervalMonotoneInRating | src/lib/spaced-repetition.ts:26-40 | a better rating never gives a shorter interval |
| IntervalEngine.NextIntervalGrowsOnSuccess | src/lib/spaced-repetition.ts:34-40 | a non-FAIL rating of a reviewed card never shortens its last interval while the ease is at least 1.3 |
| IntervalEngine.NewEaseFactor | src/lib/spaced-repetition.ts:43-58 | the new ease factor always lies in [1.3, 2.5], for any input |
| IntervalEngine.NewEaseFactorSteps | src/lib/spaced-repetition.ts:47-57 | +0.15 for EASY and PERFECT, −0.2 for FAIL and HARD, unchanged for GOOD, then clamped |
| IntervalEngine.NewEaseFactorMonotone | src/lib/spaced-repetition.ts:47-57 | the new ease grows with the old ease and with the rating |
| IntervalEngine.EaseAfterRepeatedRatings | src/lib/spaced-repetition.ts:50-57 | k PERFECT ratings give min(2.5, e + 0.15k); k FAIL ratings give max(1.3, e − 0.2k) |
| IntervalEngine.NextReview | src/lib/spaced-repetition.ts:60-78 | the flashcard is copied; status learning with 0 repetitions on FAIL, reviewing with one more otherwise; last interval, ease and next review date are the computed ones |
| IntervalEngine.ShouldReview | src/lib/spaced-repetition.ts:80-87 | due exactly when there is no next review date or now is at or after it |
| IntervalEngine.NextReviewPreservesWellFormed | src/lib/spaced-repetition.ts:60-78 | a reviewed card keeps its ease in range and its counters non-negative |
| IntervalEngine.JustReviewedIsDueAfterInterval | src/lib/spaced-repetition.ts:64-87 | a card just reviewed is not due now, and becomes due exactly when the interval in days has passed |
| StudySession.Fresh | src/hooks/useStudySession.ts:35-41 | a session's starting card is well formed, status new, and wraps the flashcard |
| StudySession.FreshCardScenarios | src/lib/spaced-repetition.ts:26-77 | a fresh card rated GOOD gets 1 repetition, interval 7, ease 2.5, reviewing; rated FAIL it gets 0 repetitions, interval 1, ease 2.3, learning |
| CardRotation.ShuffleCards | src/utils/cardRotation.ts:4-16 | a non-array gives []; otherwise the result has the same length and the same multiset of elements, for any choice of each swap partner |
| CardRotation.RotationDistance | src/utils/cardRotation.ts:34 | the skip distance is at least 1 and, for two or more cards, at most n − 1 |
| CardRotation.RotateCards | src/utils/cardRotation.ts:18-36 | 0 for an empty deck or an out-of-range index; a valid index otherwise, different from the current one when there are two or more cards |
| CardRotation.RotationDistanceMonotone | src/utils/cardRotation.ts:33-34 | a better rating skips at least as far |
| CardRotation.RotationExamples | src/utils/cardRotation.ts:33-35 | four cards at index 0 rated EASY go to 3; one card always gives 0 |
| CardRotation.RotateTimesFormula | src/utils/cardRotation.ts:33-35 | k rotations with the same rating land at (start + k · distance) mod n |
| CardRotation.FailRatingsVisitEveryCard | src/utils/cardRotation.ts:33-35 | repeated FAIL ratings reach every card of the deck within n steps |
| Progress.XpReward | src/lib/supabase/progress.ts:81-91 | the XP reward is never negative and is zero exactly for FAIL |
| Progress.XpRewardIncreasing | src/lib/supabase/progress.ts:82-88 | XP strictly increases with the rating's weight, in both directions |
| Progress.BuildDelta | src/lib/supabase/progress.ts:17-59 | one card studied; one correct answer unless FAIL; the rating's XP; a history record whose interval is at least 1 and whose ease lies in [1.3, 2.5], both recomputed on the card given |
| Progress.ApplyDelta | src/lib/supabase/progress.ts:26-62 | the history gains exactly the record; the (user, deck) row's counters, with null read as 0, and its XP grow by the delta; both counters become non-null and the last reward date becomes `now`; every other row is unchanged |
| Progress.ApplyDeltaPreservesConsistent | src/lib/supabase/progress.ts:58-59 | if every row has 0 ≤ correct ≤ studied, a review keeps it so |
| Progress.UpdateUserProgress | src/lib/supabase/progress.ts:6-79 | all or nothing: with no failing step the store is the delta applied; otherwise the store is unchanged and the error is the first failing step |
| StudySession.CountCorrect | src/hooks/useStudySession.ts:121-124 | the correct ratings never outnumber all ratings |
| StudySession.InitialCards | src/hooks/useStudySession.ts:35-41 | one fresh study card per flashcard, in order |
| StudySession.AsWrittenRecordDisagreesWithCard | src/hooks/useStudySession.ts:102-111 | as written, the history records interval 18 for a fresh card given 7 days, and ease 2.1 for a card given 2.3 |
| StudySession.SessionDeltaMatchesCard | src/hooks/useStudySession.ts:102-111 | passing the card before review, the recorded interval and ease are those the card receives |
| StudySession.CountCorrectAppend | src/hooks/useStudySession.ts:121-124 | one more rating adds 1 to the correct count exactly when it is not FAIL |
| StudySession.ReplacePreservesWellFormed | src/hooks/useStudySession.ts:114-118 | replacing one well-formed card keeps the whole deck well formed |
| StudySession.Session.constructor | src/hooks/useStudySession.ts:25-30 | no cards, index 0, face down, no transition, full countdown, zero counters |
| StudySession.Session.CurrentCard | src/hooks/useStudySession.ts:70-73 | a card exactly when the index lies inside the deck, and then the card at that index |
| StudySession.Session.Start | src/hooks/useStudySession.ts:32-44 | an empty list changes nothing; otherwise the deck is a permutation of the fresh cards, each new with 0 repetitions, ease 2.5 and last interval 0; nothing else changes |
| StudySession.Session.Tick | src/hooks/useStudySession.ts:46-68 | no timer without cards or after the summary; a positive countdown drops by 1; a tick finding 0 stops and reports deck, start time, counters and now, once |
| StudySession.Session.Flip | src/hooks/useStudySession.ts:75-79 | toggles the face unless a transition is under way |
| StudySession.Session.Rate | src/hooks/useStudySession.ts:91-134 | ignored without a card, during a transition or with no time left; with no user or a failing write nothing changes; otherwise only the current card is replaced by its review, the counters move, the store holds the delta built from the already reviewed card (`SessionDeltaAsWritten`, as the source passes `updatedCard`), and a transition to the rotated index starts |
| StudySession.Session.RecordReview | src/hooks/useStudySession.ts:113-128 | the state after an accepted review: one card replaced, counters moved, transition pending to a valid rotated index, face down |
| StudySession.Session.FinishTransition | src/hooks/useStudySession.ts:85-88 | the pending index becomes current and the transition ends |
| StudySession.Session.SelectDifficulty | src/components/learning/StudySession.tsx:103-110 | a click with the card not flipped or during a transition is ignored and changes nothing; through the gate the outcome, the new state and the store are exactly those of `Rate` (the as-written delta on success) |
| StudySession.ExpiryScenario | src/hooks/useStudySession.ts:47-65 | a five-card, five-minute session with no rating reports once, on the 301st tick, with no card studied and a start time five minutes back |
| Sm2Scheduler.EaseAdjustmentValues | src/utils/spaced-repetition.ts:21 | the ease adjustment is +0.10 for quality 5, 0 for 4 and −0.14 for 3 |
| Sm2Scheduler.Sm2Ease | src/utils/spaced-repetition.ts:13-22 | never below 1.3; −0.2 below quality 3; the quality adjustment otherwise; no upper bound |
| Sm2Scheduler.Sm2IntervalAsWritten | src/utils/spaced-repetition.ts:13-31 | 0 below quality 3; 1 after the first success and 6 after the second |
| Sm2Scheduler.AsWrittenIntervalWithHistory | src/utils/spaced-repetition.ts:29 | from the third success on, the interval is the old repetition count times the new ease factor, rounded half up over the reals |
| Sm2Scheduler.Sm2NextReviewAsWritten | src/utils/spaced-repetition.ts:7-43 | repetitions, ease, date and status as the variant sets them; the last interval and the flashcard are untouched |
| Sm2Scheduler.AsWrittenThirdIntervalShrinks | src/utils/spaced-repetition.ts:29 | three answers of quality 4 on a new card give intervals 1, 6, 5 |
| Sm2Scheduler.Sm2Interval | src/utils/spaced-repetition.ts:13-31 | the corrected interval: 0 below quality 3, then 1, then 6 |
| Sm2Scheduler.Sm2NextReview | src/utils/spaced-repetition.ts:7-43 | the corrected review also records the interval it used |
| Sm2Scheduler.CorrectedIntervalNeverShrinks | src/utils/spaced-repetition.ts:29 | after the second success, a correct answer never shortens the interval |
| Sm2Scheduler.CorrectedThirdInterval | src/utils/spaced-repetition.ts:29 | the same three answers give 1, 6, 15 |
| Sm2Scheduler.IsDueAgreesWithShouldReview | src/utils/spaced-repetition.ts:48-51 | the due filter agrees with the main engine's due test |
| Sm2Scheduler.FilterDue | src/utils/spaced-repetition.ts:47-51 | keeps every due card with its multiplicity and nothing else |
| Sm2Scheduler.InsertDue | src/utils/spaced-repetition.ts:52-61 | inserting into a sorted list keeps it sorted and adds exactly one element |
| Sm2Scheduler.SortDue | src/utils/spaced-repetition.ts:52-61 | the result is sorted and a permutation of the input |
| Sm2Scheduler.SortDueStable | src/utils/spaced-repetition.ts:52-61 | the sort is stable: the cards of each (class, date) key keep their relative order |
| Sm2Scheduler.FilterDueWithKey | src/utils/spaced-repetition.ts:48-51 | filtering the due cards commutes with selecting one (class, date) key, so each key's due cards keep their order |
| Sm2Scheduler.GetDueCards | src/utils/spaced-repetition.ts:45-62 | exactly the due cards, learning cards before all others, ascending due date within each class with no date read as epoch 0; cards with the same class and date keep their input order, as the stable sort keeps it |
| DeckManager.SpliceStart | src/components/admin/DeckManager.tsx:25-26 | the position `splice` uses for a start argument: kept inside the list, counted from the end when negative |
| DeckManager.MoveLaws | src/components/admin/DeckManager.tsx:24-26 | removing then inserting one deck gives a same-length permutation with the moved deck at the destination and the others in their order |
| DeckManager.Renumber | src/components/admin/DeckManager.tsx:29-32 | one update per deck, giving position + 1 as its order |
| DeckManager.RenumberedStore | src/components/admin/DeckManager.tsx:35-40 | with distinct ids, each listed deck in the store gets its position + 1; unlisted rows and the set of ids are unchanged |
| DeckManager.HandleReorder | src/components/admin/DeckManager.tsx:21-47 | nothing without decks; otherwise a permutation with the moved deck at the destination and the rest in order, updates 1..n by position, written to the store in order |
| DeckManager.MoveDeck | src/components/admin/DeckManager.tsx:24-26 | the two `splice` calls move one deck: same length and same decks, the source deck sits at the destination position, and removing it there leaves the list with the source deck removed, so the others keep their order |
| DeckManager.WriteOrders | src/components/admin/DeckManager.tsx:35-40 | the loop leaves the store with every update applied in order |
| DeckManager.FindDeck | src/components/admin/DeckManager.tsx:50 | the first deck with the id, or none exactly when no deck has it |
| DeckManager.ToggleLock | src/components/admin/DeckManager.tsx:49-64 | the found deck's row gets the negation of the listed lock flag; an unknown id or no list changes nothing; other rows are untouched |
| DeckManager.MaxOrderFrom | src/components/admin/DeckManager.tsx:116-117 | the fold is at least its start, bounds every order, and is the start or some deck's order |
| DeckManager.CurrentMaxOrder | src/components/admin/DeckManager.tsx:116-117 | 0 with no list or an empty one; otherwise an upper bound of every order that is some deck's order unless it is 0 |
| Categories.LexLeTotal | src/hooks/useCategories.ts:9 | the default string order is total |
| Categories.LexLeAntisymmetric | src/hooks/useCategories.ts:9 | the default string order is antisymmetric |
| Categories.LexLeTransitive | src/hooks/useCategories.ts:9 | the default string order is transitive |
| Categories.Distinct | src/hooks/useCategories.ts:9 | `new Set` keeps each value once and loses none |
| Categories.InsertString | src/hooks/useCategories.ts:9 | inserting keeps the list sorted and adds exactly one element |
| Categories.SortStrings | src/hooks/useCategories.ts:9 | `sort()` gives a sorted permutation |
| Categories.CategoriesOf | src/hooks/useCategories.ts:9 | one category per deck, and a value appears exactly when some deck has it |
| Categories.Categories | src/hooks/useCategories.ts:8-10 | empty without deck data; no duplicates; strictly ascending; a value is listed exactly when some deck has that category |
| Categories.PermutationKeepsDistinct | src/hooks/useCategories.ts:9 | sorting a list without duplicates keeps its members and adds no duplicate |
| Categories.DistinctCountsOnce | src/hooks/useCategories.ts:9 | a list without duplicates holds each value at most once |
| StudyTimer.DigitChar | src/components/learning/StudyTimer.tsx:16 | a digit character whose value is the digit |
| StudyTimer.NatToString | src/components/learning/StudyTimer.tsx:16 | `toString()` of a non-negative number: digits only, one digit exactly below 10, no leading zero |
| StudyTimer.PadStart2 | src/components/learning/StudyTimer.tsx:16 | pads with '0' on the left to length 2, keeping the original text at the end |
| StudyTimer.MinutesSecondsSplit | src/components/learning/StudyTimer.tsx:9-10 | for t ≥ 0: 0 ≤ seconds < 60 and minutes · 60 + seconds = t |
| StudyTimer.SecondsTwoDigits | src/components/learning/StudyTimer.tsx:10-16 | the seconds are always exactly two digits whose value is t mod 60 |
| StudyTimer.TwoDigits | src/components/learning/StudyTimer.tsx:16 | any value below 100, padded, is two digits reading back as the value |
| StudyTimer.ParseNatToString | src/components/learning/StudyTimer.tsx:16 | reading the digits of `toString()` gives the number back |
| StudyTimer.IndexOfColon | src/components/learning/StudyTimer.tsx:16 | finds the first colon, if any |
| StudyTimer.ParseTwoChars | src/components/learning/StudyTimer.tsx:16 | two characters read as tens and units |
| StudyTimer.ColonAfterDigits | src/components/learning/StudyTimer.tsx:16 | the colon after the minutes is the first one in the text |
| StudyTimer.FormatTime | src/components/learning/StudyTimer.tsx:9-16 | for t ≥ 0: the minutes in decimal without a leading zero, a colon, then two digits whose value is the seconds; a minus sign first for t < 0 |
| StudyTimer.FormatTimeRoundTrip | src/components/learning/StudyTimer.tsx:9-16 | the `m:ss` text of any t ≥ 0 reads back as t |
| StudyTimer.FormatTimeExamples | src/components/learning/StudyTimer.tsx:16 | 300 shows "5:00" and 65 shows "1:05" |
| UserStats.OrZero | src/components/stats/UserStats.tsx:53-54 | a null counter counts as 0 |
| UserStats.SumFromAppend | src/components/stats/UserStats.tsx:52-55 | a sum over one more record adds that record's counter |
| UserStats.TotalStatsAreSums | src/components/stats/UserStats.tsx:52-55 | the totals are the sums of each counter over all records, nulls as 0 |
| UserStats.TotalsOfSaneRecords | src/components/stats/UserStats.tsx:52-55 | records with 0 ≤ correct ≤ studied give totals with the same bound |
| UserStats.Accuracy | src/components/stats/UserStats.tsx:58-60 | 0 when nothing was studied; otherwise the percentage rounded half up |
| UserStats.AccuracyIsPercentage | src/components/stats/UserStats.tsx:58-60 | with 0 ≤ correct ≤ studied the accuracy lies in [0, 100] |
| UserStats.AccuracyExtremes | src/components/stats/UserStats.tsx:58-60 | all answers correct is 100; none correct is 0 |
| UserStats.FailureBarIsSumOfFailures | src/components/stats/UserStats.tsx:68 | the failure bar is the sum of each record's studied − correct, and not negative for sane records |
| UserStats.DeckNames | src/components/stats/UserStats.tsx:46-49 | an id has a name exactly when some deck has that id |
| UserStats.DeckNamesLastWins | src/components/stats/UserStats.tsx:46-49 | the name kept for an id is that of the last deck with it |
| UserStats.DeckNamesOrEmpty | src/components/stats/UserStats.tsx:46-49 | no deck data gives an empty map |
| UserStats.DisplayName | src/components/stats/UserStats.tsx:166 | the deck's name, or 'Deck inconnu' for an unknown id or an empty name; never empty |
| UserStats.View | src/components/stats/UserStats.tsx:37-166 | no statistics exactly when the records are absent or empty; otherwise totals, accuracy, failure bar and one title per record |
| UserStats.SaneViewBounds | src/components/stats/UserStats.tsx:52-68 | over sane records the screen shows an accuracy in [0, 100] and a non-negative failure bar |
| ImageUploader.Validate | src/components/admin/ImageUploader.tsx:17-26 | over 5 MiB is the size error whatever the type; otherwise a type outside jpeg, png, webp and gif is the type error; no error exactly when both checks pass |
| ImageUploader.OnDrop | src/components/admin/ImageUploader.tsx:13-43 | no file fails before any callback; a rejected file calls onError once and is not uploaded; an upload error or throw calls onError with the upload message; a URL calls onUploadComplete with it; no URL calls nothing |
| ImageUploader.RejectionMessages | src/components/admin/ImageUploader.tsx:17-26 | a rejection carries the size or the type message, never the upload one |
| ImageUploader.SizeBoundary | src/components/admin/ImageUploader.tsx:17 | exactly 5 MiB passes the size check; one byte more fails it |
| ImageUploader.SizeCheckedBeforeType | src/components/admin/ImageUploader.tsx:17-26 | an oversized file of a wrong type gets the size error; at the limit it gets the type error |

## Left out

- IntervalEngine.NextInterval: the `??` defaults for missing repetitions and ease factor are not modelled. The card type requires both fields. Only the missing last interval is modelled, through `Option`. The branch for a missing card object is left out.
- IntervalEngine.RoundHalfUp: rounding is exact; the floating-point error of the source's products is not modelled.
- IntervalEngine.NextReview: the next review date is `now` plus whole days in milliseconds. Daylight-saving changes in `setDate` and the ISO string encoding are not modelled.
- CardRotation.ShuffleCards: the model proves a permutation for every choice of swap partner. It says nothing about the uniformity of the distribution.
- Progress.UpdateUserProgress: the `update_daily_xp` SQL function is not visible, so it is modelled as adding the XP to the row. A failing rollback is not modelled. The timestamps written are the `now` parameter. The all-or-nothing outcome assumes that the `begin_transaction`, `commit_transaction` and `rollback_transaction` calls make the separate insert, XP call and upsert requests one transaction; the model takes this as given and does not derive it.
- StudySession.Session.Rate: the awaits are treated as atomic, so no other event can run while the store answers. Error toasts are left out.
- StudySession.Session.Tick: re-subscribing the interval when `stats` or `onComplete` change is React lifecycle behaviour and is not modelled. One tick is one event.
- DeckManager.HandleReorder: a source index at which `splice` finds nothing (an empty list, or an index of at least the list's length) makes the source throw a TypeError when it reads the missing deck's id. The model requires a non-empty list and a source index below its length; an index below minus the length is clamped to 0, as `splice` does. Store errors are ignored by the source, and the refetch and toasts are not modelled.
- Categories.Categories: strings are compared character by character. UTF-16 surrogate pairs are not distinguished from single code units.
- UserStats.Accuracy: the percentage is exact rational arithmetic rounded half up. The source's floating-point `c / s * 100` could round differently on a value lying exactly on a half.
- UserStats.View: the 0.3/0.5/0.2 chart split, the chart options and the raw per-deck counters shown under each title are presentation and are left out.
- Sm2Scheduler: the SM-2 file's own default ease factor of 2.5 is never read by its code, so it has no counterpart in the model.
- ImageUploader.OnDrop: the dropzone's own size and type filtering (react-dropzone) is not part of this model; the handler is modelled for whatever file list it receives. Toasts and console output are left out.
- Session abort or back navigation is not in the session hook and is not modelled.
- ZIP/XML import, authentication, the Supabase client and all screens other than the ones above are not part of this model.

## Findings

| source | as written | input that shows it | evidently intended | confidence | as-written member | corrected member |
|---|---|---|---|---|---|---|
| src/hooks/useStudySession.ts:102-111 | the session hands the already-reviewed card to `updateUserProgress`, which computes interval and ease a second time | a fresh card rated GOOD: the card gets 7 days, the history records 18; rated FAIL: the card gets ease 2.3, the history records 2.1 | the history records the schedule the card received, so the card passed is the one before review | high, not executed | StudySession.AsWrittenRecordDisagreesWithCard | StudySession.SessionDeltaMatchesCard |
| src/utils/spaced-repetition.ts:29 | after the second success the interval is the old repetition count times the new ease | a new card answered three times with quality 4 (ease 2.5): intervals 1, 6, 5 | SM-2 multiplies the previous interval by the ease: 1, 6, 15, and never shrinks | high, not executed | Sm2Scheduler.AsWrittenThirdIntervalShrinks | Sm2Scheduler.CorrectedIntervalNeverShrinks |
