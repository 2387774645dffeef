/**
 * The game as the page runs it: one object whose fields are the game's module-level variables.
 * Event handlers and timer callbacks are methods the host calls; each performs the step that
 * module `RoundState` defines on the value of all fields.
 */
module Game {
  import opened Levels
  import opened DeckBuilder
  import opened Scoring
  import opened RoundState
  import Leaderboard

  class MemoryGame {
    var cards: seq<Card>
    var flippedCards: seq<CardRef>
    var matchedPairs: nat
    var moves: nat
    var score: nat
    var combo: nat
    var timer: nat
    var timerRunning: bool
    var difficulty: Difficulty
    var totalPairs: nat
    var gameStarted: bool
    var isPaused: bool
    var round: nat

    /** All fields as one value. */
    function Snapshot(): State
      reads this
    {
      State(cards, flippedCards, matchedPairs, moves, score, combo, timer, timerRunning,
            difficulty, totalPairs, gameStarted, isPaused, round)
    }

    /** The page has loaded: no round yet. */
    constructor ()
      ensures Snapshot() == Initial
      ensures Consistent(Snapshot())
    {
      cards, flippedCards := [], [];
      matchedPairs, moves, score, combo, timer := 0, 0, 0, 1, 0;
      timerRunning := false;
      difficulty := Easy;
      totalPairs := 0;
      gameStarted, isPaused := false, false;
      round := 0;
      InitialConsistent();
    }

    /** Lays out a new face-down deck in the shuffled order given, one card per icon. */
    method CreateCards(shuffled: seq<Icon>)
      modifies this`cards, this`round
      ensures cards == FreshCards(shuffled) && round == old(round) + 1
    {
      round := round + 1;
      cards := [];
      var k := 0;
      while k < |shuffled|
        invariant 0 <= k <= |shuffled|
        invariant cards == FreshCards(shuffled[..k])
        invariant round == old(round) + 1
      {
        cards := cards + [Card(shuffled[k], false, false)];
        k := k + 1;
      }
      assert shuffled[..k] == shuffled;
    }

    /** The reset at the top of `startGame`, for the difficulty chosen. */
    method ResetCounters(d: Difficulty)
      modifies this`difficulty, this`matchedPairs, this`moves, this`score, this`combo, this`timer,
        this`gameStarted, this`isPaused, this`totalPairs
      ensures difficulty == d && totalPairs == PairCount(d)
      ensures matchedPairs == 0 && moves == 0 && score == 0 && combo == 1 && timer == 0
      ensures gameStarted && !isPaused
    {
      difficulty := d;
      matchedPairs, moves, score, combo, timer := 0, 0, 0, 1, 0;
      gameStarted, isPaused := true, false;
      totalPairs := PairCount(d);
    }

    /** A difficulty button: sets the difficulty and starts a round with the shuffled deck given. */
    method StartGame(d: Difficulty, shuffled: seq<Icon>)
      requires IsShuffle(shuffled, PairCount(d))
      modifies this
      ensures Snapshot() == Start(old(Snapshot()), d, shuffled)
    {
      ResetCounters(d);
      CreateCards(shuffled);
      timerRunning := true;
    }

    /** `restartGame`: clears the interval and starts a new round at the same difficulty. */
    method RestartGame(shuffled: seq<Icon>)
      requires IsShuffle(shuffled, PairCount(difficulty))
      modifies this
      ensures Snapshot() == Start(old(Snapshot()), old(difficulty), shuffled)
    {
      timerRunning := false;
      StartGame(difficulty, shuffled);
    }

    /**
     * A click on card `i`. Returns whether the comparison was scheduled (600 ms later), which
     * happens exactly when this click turned the second card face up.
     */
    method FlipCard(i: nat) returns (checkScheduled: bool)
      requires i < |cards|
      modifies this
      ensures Snapshot() == Flip(old(Snapshot()), i)
      ensures checkScheduled == (old(FlipAccepted(Snapshot(), i)) && |flippedCards| == 2)
      ensures old(Valid(Snapshot())) ==> Valid(Snapshot())
      ensures old(Consistent(Snapshot())) ==> Consistent(Snapshot())
    {
      checkScheduled := false;
      if isPaused || !gameStarted {
        return;
      }
      if cards[i].flipped || cards[i].matched {
        return;
      }
      if |flippedCards| >= 2 {
        return;
      }
      cards := cards[i := cards[i].(flipped := true)];
      flippedCards := flippedCards + [CardRef(round, i, cards[i].icon)];
      if |flippedCards| == 2 {
        moves := moves + 1;
        checkScheduled := true;
      }
      if old(Consistent(Snapshot())) {
        FlipConsistent(old(Snapshot()), i);
      }
    }

    /** The matched branch of `checkMatch`: both cards matched, one more pair, the bonus added. */
    method ScorePair(card1: CardRef, card2: CardRef)
      requires card1.round == round ==> card1.index < |cards|
      requires card2.round == round ==> card2.index < |cards|
      modifies this`cards, this`matchedPairs, this`score, this`combo
      ensures cards == MarkMatched(MarkMatched(old(cards), round, card1), round, card2)
      ensures matchedPairs == old(matchedPairs) + 1 && combo == old(combo) + 1
      ensures score == old(score) + MatchBonus(timer, old(combo))
    {
      if card1.round == round {
        cards := cards[card1.index := cards[card1.index].(matched := true)];
      }
      if card2.round == round {
        cards := cards[card2.index := cards[card2.index].(matched := true)];
      }
      matchedPairs := matchedPairs + 1;
      var timeBonus := Max(100 - timer, 10);
      var comboBonus := combo * 50;
      score := score + timeBonus + comboBonus;
      combo := combo + 1;
    }

    /** The comparison callback; see `RoundState.CheckMatch`. */
    method CheckMatch() returns (outcome: MatchOutcome)
      requires Valid(Snapshot()) && |flippedCards| == 2
      modifies this`cards, this`matchedPairs, this`score, this`combo, this`flippedCards
      ensures Snapshot() == RoundState.CheckMatch(old(Snapshot())).next
      ensures outcome == RoundState.CheckMatch(old(Snapshot())).outcome
      ensures Valid(Snapshot())
      ensures old(Consistent(Snapshot())) ==> Consistent(Snapshot()) && matchedPairs <= totalPairs
    {
      var card1, card2 := flippedCards[0], flippedCards[1];
      assert card1 in flippedCards && card2 in flippedCards;
      if card1.icon == card2.icon {
        ScorePair(card1, card2);
        outcome := Matched(matchedPairs == totalPairs);
      } else {
        outcome := Mismatched(card1, card2);
        combo := 1;
      }
      flippedCards := [];
      if old(Consistent(Snapshot())) {
        CheckMatchConsistent(old(Snapshot()));
        MatchedPairsBounded(Snapshot());
      }
    }

    /** The un-flip callback of a mismatch, holding the two cards it was created with. */
    method Unflip(card1: CardRef, card2: CardRef)
      requires RefOk(Snapshot(), card1) && RefOk(Snapshot(), card2)
      modifies this
      ensures Snapshot() == RoundState.Unflip(old(Snapshot()), card1, card2)
      ensures old(Valid(Snapshot())) ==> Valid(Snapshot())
      ensures old(Consistent(Snapshot()) && NotWaiting(Snapshot(), card1) && NotWaiting(Snapshot(), card2))
        ==> Consistent(Snapshot())
    {
      if card1.round == round {
        cards := cards[card1.index := cards[card1.index].(flipped := false)];
      }
      if card2.round == round {
        cards := cards[card2.index := cards[card2.index].(flipped := false)];
      }
      if old(Consistent(Snapshot()) && NotWaiting(Snapshot(), card1) && NotWaiting(Snapshot(), card2)) {
        UnflipConsistent(old(Snapshot()), card1, card2);
      }
    }

    /** The one-second interval callback. */
    method Tick()
      modifies this
      ensures Snapshot() == RoundState.Tick(old(Snapshot()))
    {
      if timerRunning && !isPaused {
        timer := timer + 1;
      }
    }

    method PauseGame()
      modifies this
      ensures Snapshot() == Pause(old(Snapshot()))
    {
      isPaused := true;
    }

    method ResumeGame()
      modifies this
      ensures Snapshot() == Resume(old(Snapshot()))
    {
      isPaused := false;
    }

    method QuitGame()
      modifies this
      ensures Snapshot() == Stop(old(Snapshot()))
    {
      timerRunning := false;
      gameStarted := false;
    }

    /**
     * The win callback (500 ms after the last pair): stops the round, rates it, picks the win
     * message and records the result in the tier of the current difficulty. `date` is the
     * timestamp of the entry.
     */
    method WinGame(store: Leaderboard.Store, date: string) returns (rating: nat, messageIndex: int)
      modifies this, store
      ensures Snapshot() == Stop(old(Snapshot()))
      ensures rating == Rating(moves, totalPairs) && 1 <= rating <= 3
      ensures messageIndex == MessageIndex(rating) && 1 <= messageIndex <= 3
      ensures var entry := Leaderboard.Entry(score, timer, moves, date);
        store.stored == Leaderboard.Some(
          Leaderboard.Load(old(store.stored)).Set(difficulty, Leaderboard.Record(old(store.Query(difficulty)), entry)))
    {
      timerRunning := false;
      gameStarted := false;
      rating := Rating(moves, totalPairs);
      messageIndex := MessageIndex(rating);
      WinMessageIndex(moves, totalPairs);
      store.Save(difficulty, Leaderboard.Entry(score, timer, moves, date));
    }
  }
}
