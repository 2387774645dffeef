/** The three difficulty presets of the game and the number of card pairs each one deals. */
module Levels {

  datatype Difficulty = Easy | Medium | Hard

  /** The `pairs` column of the `gridSizes` table used when a round starts. */
  function PairCount(d: Difficulty): (pairs: nat)
    ensures 6 <= pairs <= 12 && pairs % 2 == 0
  {
    match d
    case Easy => 6
    case Medium => 8
    case Hard => 12
  }

  function Min(a: int, b: int): int
  {
    if a <= b then a else b
  }

  function Max(a: int, b: int): int
  {
    if a >= b then a else b
  }
}
