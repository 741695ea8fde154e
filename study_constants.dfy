/**
 * The lookup tables of the study screens: the five quality ratings with
 * their weights, the base interval (in days) of each rating, and the three
 * session durations.
 */
module StudyConstants {

  /** A quality rating, in increasing order of recall quality. */
  datatype Rating = FAIL | HARD | GOOD | EASY | PERFECT

  /** The numeric weight of a rating. */
  function Weight(r: Rating): (w: int)
    ensures 1 <= w <= 5
  {
    match r
    case FAIL => 1
    case HARD => 2
    case GOOD => 3
    case EASY => 4
    case PERFECT => 5
  }

  /** The interval, in days, used for a card that has no repetition history. */
  function BaseInterval(r: Rating): (days: int)
    ensures days >= 1
  {
    match r
    case FAIL => 1
    case HARD => 3
    case GOOD => 7
    case EASY => 14
    case PERFECT => 30
  }

  /** The three session lengths a user can pick. */
  datatype Duration = SHORT | MEDIUM | LONG

  function Minutes(d: Duration): (m: int)
    ensures m == 5 || m == 10 || m == 15
  {
    match d
    case SHORT => 5
    case MEDIUM => 10
    case LONG => 15
  }

  /** The countdown a session starts from, `duration * 60` seconds. */
  function InitialSeconds(d: Duration): (s: int)
    ensures s == 300 || s == 600 || s == 900
    ensures s == Minutes(d) * 60
  {
    Minutes(d) * 60
  }

  /** Weights tell ratings apart, and their order is the order of the ratings. */
  lemma WeightsDistinctAndOrdered(a: Rating, b: Rating)
    ensures Weight(a) == Weight(b) <==> a == b
    ensures a == FAIL ==> Weight(a) < Weight(HARD)
    ensures a == HARD ==> Weight(a) < Weight(GOOD)
    ensures a == GOOD ==> Weight(a) < Weight(EASY)
    ensures a == EASY ==> Weight(a) < Weight(PERFECT)
  {
  }

  /** A better rating never gets a shorter base interval, and a strictly better one a strictly longer one. */
  lemma BaseIntervalIncreasing(a: Rating, b: Rating)
    ensures Weight(a) < Weight(b) <==> BaseInterval(a) < BaseInterval(b)
    ensures Weight(a) == Weight(b) <==> BaseInterval(a) == BaseInterval(b)
  {
  }
}
