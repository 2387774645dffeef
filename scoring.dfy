/** Score arithmetic of a round: the bonus for a found pair, the star rating and the win message. */
module Scoring {
  import opened Levels

  /** Points for a found pair: a time bonus `max(100 - timer, 10)` plus `combo * 50`. */
  function MatchBonus(timer: nat, combo: nat): (bonus: int)
    ensures 10 + 50 * combo <= bonus <= 100 + 50 * combo
    ensures timer <= 90 ==> bonus == 100 - timer + 50 * combo
    ensures timer >= 90 ==> bonus == 10 + 50 * combo
  {
    Max(100 - timer, 10) + combo * 50
  }

  /** The bonus never grows as the clock runs, and grows by 50 per combo step. */
  lemma MatchBonusMonotone(t1: nat, t2: nat, combo: nat)
    requires t1 <= t2
    ensures MatchBonus(t2, combo) <= MatchBonus(t1, combo)
    ensures MatchBonus(t1, combo + 1) == MatchBonus(t1, combo) + 50
  {
  }

  /** First pair of an easy round found at 0 s with combo 1. */
  lemma MatchBonusExample()
    ensures MatchBonus(0, 1) == 150
  {
  }

  /**
   * Star rating at the end of a round. With `minMoves = totalPairs` and `maxMoves = 3 * totalPairs`,
   * three stars for `moves <= 1.5 * minMoves`, two for `moves <= 0.7 * maxMoves`, otherwise one.
   * Both thresholds are written over the integers.
   */
  function Rating(moves: nat, totalPairs: nat): (stars: nat)
    ensures 1 <= stars <= 3
    ensures stars == 3 <==> 2 * moves <= 3 * totalPairs
    ensures stars == 2 <==> 3 * totalPairs < 2 * moves && 10 * moves <= 21 * totalPairs
    ensures stars == 1 <==> 21 * totalPairs < 10 * moves
  {
    if 2 * moves <= 3 * totalPairs then 3
    else if 10 * moves <= 21 * totalPairs then 2
    else 1
  }

  /** The same rating with the code's factors 1.5 and 0.7, over exact reals. */
  function RealRating(moves: nat, totalPairs: nat): nat
  {
    var minMoves := totalPairs as real;
    var maxMoves := (totalPairs * 3) as real;
    if moves as real <= minMoves * 1.5 then 3
    else if moves as real <= maxMoves * 0.7 then 2
    else 1
  }

  /** The integer thresholds are exactly the decimal ones. */
  lemma RatingIsRealRating(moves: nat, totalPairs: nat)
    ensures Rating(moves, totalPairs) == RealRating(moves, totalPairs)
  {
  }

  /** More moves never earn more stars. */
  lemma RatingMonotone(m1: nat, m2: nat, totalPairs: nat)
    requires m1 <= m2
    ensures Rating(m2, totalPairs) <= Rating(m1, totalPairs)
  {
  }

  /** With 6 pairs: 6 moves give 3 stars, 9 still 3, 12 give 2, 13 give 1. */
  lemma RatingExamples()
    ensures Rating(6, 6) == 3 && Rating(9, 6) == 3 && Rating(10, 6) == 2
    ensures Rating(12, 6) == 2 && Rating(13, 6) == 1
  {
  }

  /** The four win messages, indexed from "Good Job!" to "Perfect!". */
  const Messages: seq<string> := ["Good Job!", "Great Work!", "Amazing!", "Perfect!"]

  /** `Math.min(rating, messages.length - 1)`. */
  function MessageIndex(rating: int): (index: int)
    ensures index <= |Messages| - 1
    ensures index == rating || (index == |Messages| - 1 && rating > index)
  {
    Min(rating, |Messages| - 1)
  }

  /** A rating always selects an existing message, never the first one, and the index is the rating itself. */
  lemma WinMessageIndex(moves: nat, totalPairs: nat)
    ensures 1 <= MessageIndex(Rating(moves, totalPairs)) <= 3
    ensures MessageIndex(Rating(moves, totalPairs)) == Rating(moves, totalPairs)
  {
  }
}
