/** The two integer helpers shared by the scheduler, the rotation and the deck list. */
module IntMath {
  function Max(a: int, b: int): int { if a < b then b else a }
  function Min(a: int, b: int): int { if a < b then a else b }
}
