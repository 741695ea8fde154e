/**
 * The records the scheduler works on: a catalogue flashcard and the
 * session-scoped study card that extends it with its review history.
 * Ease factors are integer hundredths (2.5 is 250); timestamps are integer
 * milliseconds since the epoch.
 */
module LearningTypes {
  import opened Wrappers

  /** A flashcard as stored in the catalogue; none of it matters to scheduling. */
  datatype Flashcard = Flashcard(
    id: string,
    deckId: string,
    frontText: string,
    backText: string,
    imageUrl: Option<string>,
    difficulty: int,
    createdAt: string,
    updatedAt: string)

  datatype Status = New | Learning | Reviewing

  /** A flashcard together with its scheduling state. */
  datatype StudyCard = StudyCard(
    card: Flashcard,
    status: Status,
    nextReviewDate: Option<int>,
    repetitions: int,
    easeFactor: int,
    lastInterval: Option<int>)

  /** The summary handed to the caller when a session's countdown runs out. */
  datatype LearningSession = LearningSession(
    deckId: string,
    startTime: int,
    cardsStudied: int,
    correctAnswers: int,
    lastReviewDate: int)

  const MS_PER_DAY: int := 86_400_000
}
