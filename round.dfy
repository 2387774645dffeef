/**
 * The state of one game and the events that change it, as values: the module-level variables of
 * the game become the fields of `State`, and each event handler or timer callback a function from
 * the state before to the state after. The class in module `Game` performs these same steps on
 * its fields.
 */
module RoundState {
  import opened Levels
  import opened DeckBuilder
  import opened Scoring

  /** One card element: its icon and its `flipped` and `matched` classes. */
  datatype Card = Card(icon: Icon, flipped: bool, matched: bool)

  /**
   * A reference to a card element, as held in `flippedCards` and by the un-flip callback. Elements
   * are told apart by the round whose deck created them and their position in it; the icon never
   * changes. Starting a round replaces the deck, so a reference from an earlier round names a
   * detached element: changing its classes has no effect on the current deck.
   */
  datatype CardRef = CardRef(round: nat, index: nat, icon: Icon)

  /** What the comparison of the two face-up cards schedules next. */
  datatype MatchOutcome =
    | Matched(winScheduled: bool)                    // `winGame` in 500 ms when the last pair was found
    | Mismatched(first: CardRef, second: CardRef)    // turn these two face down in 400 ms

  datatype State = State(
    cards: seq<Card>,
    flippedCards: seq<CardRef>,
    matchedPairs: nat,
    moves: nat,
    score: nat,
    combo: nat,
    timer: nat,
    timerRunning: bool,      // the one-second interval is set
    difficulty: Difficulty,
    totalPairs: nat,
    gameStarted: bool,
    isPaused: bool,
    round: nat)              // how many rounds have been started

  datatype CheckResult = CheckResult(next: State, outcome: MatchOutcome)

  /** The values the variables hold when the page loads. */
  const Initial := State([], [], 0, 0, 0, 1, 0, false, Easy, 0, false, false, 0)

  function IconsOf(cs: seq<Card>): (icons: seq<Icon>)
    ensures |icons| == |cs|
    ensures forall k :: 0 <= k < |cs| ==> icons[k] == cs[k].icon
  {
    seq(|cs|, k requires 0 <= k < |cs| => cs[k].icon)
  }

  /** The fresh, face-down deck laid out for a shuffled icon sequence. */
  function FreshCards(icons: seq<Icon>): (cs: seq<Card>)
    ensures IconsOf(cs) == icons
    ensures forall k :: 0 <= k < |cs| ==> !cs[k].flipped && !cs[k].matched
  {
    seq(|icons|, k requires 0 <= k < |icons| => Card(icons[k], false, false))
  }

  /** Number of cards that carry the `matched` class. */
  function MatchedCount(cs: seq<Card>): nat
  {
    if cs == [] then 0 else (if cs[0].matched then 1 else 0) + MatchedCount(cs[1..])
  }

  /** A reference is from this round or an earlier one; if from this round, it names its card. */
  ghost predicate RefOk(s: State, r: CardRef)
  {
    r.round <= s.round &&
    (r.round == s.round ==> r.index < |s.cards| && s.cards[r.index].icon == r.icon)
  }

  /** What holds in every reachable state, whatever the order of events. */
  ghost predicate Valid(s: State)
  {
    && |s.flippedCards| <= 2
    && s.combo >= 1
    && forall r :: r in s.flippedCards ==> RefOk(s, r)
  }

  /**
   * A well-formed round: the deck is a permutation of the doubled icon selection, the face-up
   * cards waiting for comparison are distinct cards of this deck that are flipped and unmatched,
   * and `matchedPairs` counts the matched cards in twos.
   */
  ghost predicate Consistent(s: State)
  {
    && Valid(s)
    && |s.cards| == 2 * s.totalPairs
    && IsShuffle(IconsOf(s.cards), s.totalPairs)
    && (forall r :: r in s.flippedCards ==>
          r.round == s.round && r.index < |s.cards| && s.cards[r.index].flipped && !s.cards[r.index].matched)
    && (|s.flippedCards| == 2 ==> s.flippedCards[0].index != s.flippedCards[1].index)
    && MatchedCount(s.cards) == 2 * s.matchedPairs
  }

  lemma InitialConsistent()
    ensures Consistent(Initial)
  {
  }

  // ---------------------------------------------------------------------------------------------
  // Counting matched cards

  lemma {:induction false} MatchedCountBound(cs: seq<Card>)
    ensures MatchedCount(cs) <= |cs|
    ensures MatchedCount(cs) == |cs| ==> forall k :: 0 <= k < |cs| ==> cs[k].matched
  {
    if cs != [] {
      MatchedCountBound(cs[1..]);
      if MatchedCount(cs) == |cs| {
        forall k | 0 <= k < |cs| ensures cs[k].matched {
          if k > 0 {
            assert cs[k] == cs[1..][k - 1];
          }
        }
      }
    }
  }

  lemma {:induction false} MatchedCountUpdate(cs: seq<Card>, i: nat, c: Card)
    requires i < |cs|
    ensures MatchedCount(cs[i := c]) ==
      MatchedCount(cs) - (if cs[i].matched then 1 else 0) + (if c.matched then 1 else 0)
  {
    if i > 0 {
      MatchedCountUpdate(cs[1..], i - 1, c);
      assert cs[i := c][1..] == cs[1..][i - 1 := c];
    } else {
      assert cs[i := c][1..] == cs[1..];
    }
  }

  lemma {:induction false} MatchedCountNone(cs: seq<Card>)
    requires forall k :: 0 <= k < |cs| ==> !cs[k].matched
    ensures MatchedCount(cs) == 0
  {
    if cs != [] {
      assert forall k :: 0 <= k < |cs[1..]| ==> cs[1..][k] == cs[k + 1];
      MatchedCountNone(cs[1..]);
    }
  }

  /** Changing a card's classes keeps its icon, so the deck's icon sequence is unchanged. */
  lemma IconsOfUpdate(cs: seq<Card>, i: nat, c: Card)
    requires i < |cs| && c.icon == cs[i].icon
    ensures IconsOf(cs[i := c]) == IconsOf(cs)
  {
  }

  /** In a well-formed round the number of pairs found never exceeds the number of pairs dealt. */
  lemma MatchedPairsBounded(s: State)
    requires Consistent(s)
    ensures s.matchedPairs <= s.totalPairs
  {
    MatchedCountBound(s.cards);
  }

  // ---------------------------------------------------------------------------------------------
  // startGame / restartGame

  /**
   * `startGame` for difficulty `d`, with `shuffled` the order the shuffle produced. The counters
   * are reset and a new deck is laid out; `flippedCards` is left as it was.
   */
  function Start(s: State, d: Difficulty, shuffled: seq<Icon>): (t: State)
    requires IsShuffle(shuffled, PairCount(d))
    ensures t.matchedPairs == 0 && t.moves == 0 && t.score == 0 && t.combo == 1 && t.timer == 0
    ensures t.gameStarted && !t.isPaused && t.timerRunning
    ensures t.difficulty == d && t.totalPairs == PairCount(d) && t.totalPairs in {6, 8, 12}
    ensures IconsOf(t.cards) == shuffled
    ensures forall k :: 0 <= k < |t.cards| ==> !t.cards[k].flipped && !t.cards[k].matched
    ensures t.flippedCards == s.flippedCards && t.round == s.round + 1
    ensures Valid(s) ==> Valid(t)
  {
    s.(cards := FreshCards(shuffled), matchedPairs := 0, moves := 0, score := 0, combo := 1, timer := 0,
       gameStarted := true, isPaused := false, difficulty := d, totalPairs := PairCount(d),
       timerRunning := true, round := s.round + 1)
  }

  /** A round started with no card waiting for comparison is well formed. */
  lemma StartConsistent(s: State, d: Difficulty, shuffled: seq<Icon>)
    requires IsShuffle(shuffled, PairCount(d))
    requires s.flippedCards == []
    ensures Consistent(Start(s, d, shuffled))
  {
    var t := Start(s, d, shuffled);
    PairCountFits(d);
    ShuffledDeck(PairCount(d), shuffled, Icons[0]);
    MatchedCountNone(t.cards);
  }

  /**
   * Why `matchedPairs <= totalPairs` needs a well-formed round: starting a round while two equal
   * cards wait for comparison leaves them in `flippedCards`. The pending comparison then counts a
   * pair in the new round although no card of the new deck is matched: from then on the count of
   * found pairs runs one ahead of the matched cards, and the round is no longer well formed.
   */
  lemma StaleComparisonCountsPair(s: State, d: Difficulty, shuffled: seq<Icon>)
    requires Valid(s) && |s.flippedCards| == 2 && s.flippedCards[0].icon == s.flippedCards[1].icon
    requires IsShuffle(shuffled, PairCount(d))
    ensures var t := CheckMatch(Start(s, d, shuffled)).next;
      t.matchedPairs == 1 && MatchedCount(t.cards) == 0 && !Consistent(t)
  {
    var u := Start(s, d, shuffled);
    assert s.flippedCards[0] in s.flippedCards && s.flippedCards[1] in s.flippedCards;
    MatchedCountNone(u.cards);
  }

  // ---------------------------------------------------------------------------------------------
  // flipCard

  /** The guards of `flipCard`: running, unpaused, the card face down and unmatched, fewer than two up. */
  predicate FlipAccepted(s: State, i: nat)
    requires i < |s.cards|
    ensures FlipAccepted(s, i) <==>
      !(s.isPaused || !s.gameStarted) && !(s.cards[i].flipped || s.cards[i].matched) && !(|s.flippedCards| >= 2)
  {
    !s.isPaused && s.gameStarted && !s.cards[i].flipped && !s.cards[i].matched && |s.flippedCards| < 2
  }

  /** A click on card `i` of the current deck. */
  function Flip(s: State, i: nat): (t: State)
    requires i < |s.cards|
    ensures !FlipAccepted(s, i) ==> t == s
    ensures FlipAccepted(s, i) ==>
      && t.cards == s.cards[i := s.cards[i].(flipped := true)]
      && t.flippedCards == s.flippedCards + [CardRef(s.round, i, s.cards[i].icon)]
    ensures t.moves == if FlipAccepted(s, i) && |t.flippedCards| == 2 then s.moves + 1 else s.moves
    ensures t.(cards := s.cards, flippedCards := s.flippedCards, moves := s.moves) == s
    ensures Valid(s) ==> Valid(t)
  {
    if s.isPaused || !s.gameStarted then s
    else if s.cards[i].flipped || s.cards[i].matched then s
    else if |s.flippedCards| >= 2 then s
    else
      var flipped := s.flippedCards + [CardRef(s.round, i, s.cards[i].icon)];
      s.(cards := s.cards[i := s.cards[i].(flipped := true)],
         flippedCards := flipped,
         moves := if |flipped| == 2 then s.moves + 1 else s.moves)
  }

  /** A flip is rejected whenever two cards are already face up (the third click is a no-op). */
  lemma ThirdFlipIgnored(s: State, i: nat)
    requires i < |s.cards| && |s.flippedCards| == 2
    ensures Flip(s, i) == s
  {
  }

  lemma FlipConsistent(s: State, i: nat)
    requires Consistent(s) && i < |s.cards|
    ensures Consistent(Flip(s, i))
  {
    if FlipAccepted(s, i) {
      var t := Flip(s, i);
      var c := s.cards[i].(flipped := true);
      MatchedCountUpdate(s.cards, i, c);
      IconsOfUpdate(s.cards, i, c);
      forall r | r in t.flippedCards
        ensures r.round == t.round && r.index < |t.cards| && t.cards[r.index].flipped && !t.cards[r.index].matched
      {
        if r in s.flippedCards {
          assert r.index != i;
        }
      }
    }
  }

  // ---------------------------------------------------------------------------------------------
  // checkMatch (600 ms after the second flip)

  /** Adds `matched` to the card `r` names; a card of an earlier deck is detached and changes nothing. */
  function MarkMatched(cs: seq<Card>, round: nat, r: CardRef): (res: seq<Card>)
    ensures |res| == |cs|
    ensures forall k :: 0 <= k < |cs| ==>
      res[k] == if r.round == round && r.index == k then cs[k].(matched := true) else cs[k]
  {
    if r.round == round && r.index < |cs| then cs[r.index := cs[r.index].(matched := true)] else cs
  }

  /** Removes `flipped` from the card `r` names; a card of an earlier deck is detached. */
  function TurnDown(cs: seq<Card>, round: nat, r: CardRef): (res: seq<Card>)
    ensures |res| == |cs|
    ensures forall k :: 0 <= k < |cs| ==>
      res[k] == if r.round == round && r.index == k then cs[k].(flipped := false) else cs[k]
  {
    if r.round == round && r.index < |cs| then cs[r.index := cs[r.index].(flipped := false)] else cs
  }

  /**
   * Compares the two face-up cards. Equal icons: both matched, one more pair, the bonus added,
   * the combo raised, and the win scheduled when this was the last pair. Different icons: the
   * combo drops to 1 and both cards stay face up until the un-flip callback. Either way the list
   * of face-up cards is emptied at once.
   */
  function CheckMatch(s: State): (r: CheckResult)
    requires Valid(s) && |s.flippedCards| == 2
    ensures r.next.flippedCards == []
    ensures var a, b := s.flippedCards[0], s.flippedCards[1];
      if a.icon == b.icon then
        && r.outcome == Matched(r.next.matchedPairs == s.totalPairs)
        && r.next.matchedPairs == s.matchedPairs + 1
        && r.next.score == s.score + MatchBonus(s.timer, s.combo)
        && r.next.combo == s.combo + 1
        && r.next.cards == MarkMatched(MarkMatched(s.cards, s.round, a), s.round, b)
        && r.next.(cards := s.cards, matchedPairs := s.matchedPairs, score := s.score, combo := s.combo,
                   flippedCards := s.flippedCards) == s
      else
        && r.outcome == Mismatched(a, b)
        && r.next == s.(combo := 1, flippedCards := [])
    ensures r.next.score >= s.score
    ensures Valid(r.next)
  {
    var a, b := s.flippedCards[0], s.flippedCards[1];
    assert RefOk(s, a) && RefOk(s, b);
    if a.icon == b.icon then
      var cards := MarkMatched(MarkMatched(s.cards, s.round, a), s.round, b);
      var pairs := s.matchedPairs + 1;
      var bonus := MatchBonus(s.timer, s.combo);
      CheckResult(
        s.(cards := cards, matchedPairs := pairs, score := s.score + bonus, combo := s.combo + 1, flippedCards := []),
        Matched(pairs == s.totalPairs))
    else
      CheckResult(s.(combo := 1, flippedCards := []), Mismatched(a, b))
  }

  /** In a well-formed round the two matched cards are two distinct cards of the current deck. */
  lemma CheckMatchConsistent(s: State)
    requires Consistent(s) && |s.flippedCards| == 2
    ensures Consistent(CheckMatch(s).next)
    ensures CheckMatch(s).outcome.Matched? ==> CheckMatch(s).next.matchedPairs <= s.totalPairs
  {
    var a, b := s.flippedCards[0], s.flippedCards[1];
    assert a in s.flippedCards && b in s.flippedCards;
    var t := CheckMatch(s).next;
    if a.icon == b.icon {
      var cs1 := MarkMatched(s.cards, s.round, a);
      MatchedCountUpdate(s.cards, a.index, s.cards[a.index].(matched := true));
      IconsOfUpdate(s.cards, a.index, s.cards[a.index].(matched := true));
      MatchedCountUpdate(cs1, b.index, cs1[b.index].(matched := true));
      IconsOfUpdate(cs1, b.index, cs1[b.index].(matched := true));
      MatchedPairsBounded(t);
    }
  }

  /** The win is scheduled exactly by the comparison that finds the last pair. */
  lemma WinScheduledOnLastPair(s: State)
    requires Valid(s) && |s.flippedCards| == 2
    ensures CheckMatch(s).outcome == Matched(true) <==>
      s.flippedCards[0].icon == s.flippedCards[1].icon && s.matchedPairs + 1 == s.totalPairs
  {
  }

  lemma HeadIsMember<T>(s: seq<T>)
    requires s != []
    ensures s[0] in s
  {
  }

  /**
   * Once every pair of a well-formed round is found, no card is waiting and no click is accepted,
   * so no further comparison, and no second win, can be scheduled in that round.
   */
  lemma AllMatchedIsFinal(s: State)
    requires Consistent(s) && s.matchedPairs == s.totalPairs
    ensures s.flippedCards == []
    ensures forall i :: 0 <= i < |s.cards| ==> !FlipAccepted(s, i)
  {
    MatchedCountBound(s.cards);
    if s.flippedCards != [] {
      HeadIsMember(s.flippedCards);
      assert false;
    }
  }

  // ---------------------------------------------------------------------------------------------
  // The un-flip callback (400 ms after a mismatch)

  /** Turns the two mismatched cards face down again; cards of an earlier deck are detached. */
  function Unflip(s: State, a: CardRef, b: CardRef): (t: State)
    requires RefOk(s, a) && RefOk(s, b)
    ensures |t.cards| == |s.cards|
    ensures forall k :: 0 <= k < |s.cards| ==>
      t.cards[k] == if (a.round == s.round && a.index == k) || (b.round == s.round && b.index == k)
                    then s.cards[k].(flipped := false) else s.cards[k]
    ensures t.(cards := s.cards) == s
    ensures Valid(s) ==> Valid(t)
  {
    s.(cards := TurnDown(TurnDown(s.cards, s.round, a), s.round, b))
  }

  /** A card is not waiting for comparison. */
  ghost predicate NotWaiting(s: State, r: CardRef)
  {
    forall w :: w in s.flippedCards ==> w.round != r.round || w.index != r.index
  }

  /**
   * Turning down two cards that are not waiting for comparison keeps the round well formed. The
   * cards of a mismatch are not waiting: the list is emptied by the comparison, and they stay face
   * up, so they cannot be clicked again before the callback turns them down.
   */
  lemma UnflipConsistent(s: State, a: CardRef, b: CardRef)
    requires Consistent(s) && RefOk(s, a) && RefOk(s, b)
    requires NotWaiting(s, a) && NotWaiting(s, b)
    ensures Consistent(Unflip(s, a, b))
  {
    var cs1 := TurnDown(s.cards, s.round, a);
    if a.round == s.round {
      MatchedCountUpdate(s.cards, a.index, s.cards[a.index].(flipped := false));
      IconsOfUpdate(s.cards, a.index, s.cards[a.index].(flipped := false));
    }
    if b.round == s.round {
      MatchedCountUpdate(cs1, b.index, cs1[b.index].(flipped := false));
      IconsOfUpdate(cs1, b.index, cs1[b.index].(flipped := false));
    }
  }

  /**
   * A card whose un-flip callback is pending: a valid reference, not waiting for comparison, and,
   * if it is a card of the current deck, still face up, so no click can pick it again.
   */
  ghost predicate AwaitingUnflip(s: State, r: CardRef)
  {
    && RefOk(s, r)
    && NotWaiting(s, r)
    && (r.round == s.round ==> s.cards[r.index].flipped)
  }

  /** The two cards a mismatch hands to the un-flip callback are valid and not waiting afterwards. */
  lemma MismatchCardsNotWaiting(s: State)
    requires Valid(s) && |s.flippedCards| == 2
    ensures CheckMatch(s).outcome.Mismatched? ==>
      var t, out := CheckMatch(s).next, CheckMatch(s).outcome;
      RefOk(t, out.first) && RefOk(t, out.second) && NotWaiting(t, out.first) && NotWaiting(t, out.second)
    ensures Consistent(s) && CheckMatch(s).outcome.Mismatched? ==>
      var t, out := CheckMatch(s).next, CheckMatch(s).outcome;
      AwaitingUnflip(t, out.first) && AwaitingUnflip(t, out.second)
  {
    assert s.flippedCards[0] in s.flippedCards && s.flippedCards[1] in s.flippedCards;
  }

  /** A click never picks a card that awaits its un-flip: that card is face up. */
  lemma FlipKeepsAwaiting(s: State, i: nat, r: CardRef)
    requires i < |s.cards| && AwaitingUnflip(s, r)
    ensures AwaitingUnflip(Flip(s, i), r)
  {
  }

  /** A comparison only marks cards matched and empties the list of waiting cards. */
  lemma CheckMatchKeepsAwaiting(s: State, r: CardRef)
    requires Valid(s) && |s.flippedCards| == 2 && AwaitingUnflip(s, r)
    ensures AwaitingUnflip(CheckMatch(s).next, r)
  {
    assert s.flippedCards[0] in s.flippedCards && s.flippedCards[1] in s.flippedCards;
  }

  /** The un-flip callback of two other cards leaves a pending card as it is. */
  lemma UnflipKeepsAwaiting(s: State, a: CardRef, b: CardRef, r: CardRef)
    requires RefOk(s, a) && RefOk(s, b) && AwaitingUnflip(s, r)
    requires a.round != r.round || a.index != r.index
    requires b.round != r.round || b.index != r.index
    ensures AwaitingUnflip(Unflip(s, a, b), r)
  {
  }

  /** Ticks, pausing, resuming and stopping change no card and no face-up list. */
  lemma ControlsKeepAwaiting(s: State, r: CardRef)
    requires AwaitingUnflip(s, r)
    ensures AwaitingUnflip(Tick(s), r) && AwaitingUnflip(Pause(s), r)
    ensures AwaitingUnflip(Resume(s), r) && AwaitingUnflip(Stop(s), r)
  {
  }

  /** After a restart the pending card belongs to an earlier deck, so its un-flip changes nothing. */
  lemma StartKeepsAwaiting(s: State, d: Difficulty, shuffled: seq<Icon>, r: CardRef)
    requires IsShuffle(shuffled, PairCount(d)) && AwaitingUnflip(s, r)
    ensures AwaitingUnflip(Start(s, d, shuffled), r)
    ensures Unflip(Start(s, d, shuffled), r, r) == Start(s, d, shuffled)
  {
  }

  // ---------------------------------------------------------------------------------------------
  // Timer, pause, quit, win

  /** The one-second interval callback; a cleared interval never fires. */
  function Tick(s: State): (t: State)
    ensures t.timer == if s.timerRunning && !s.isPaused then s.timer + 1 else s.timer
    ensures t.(timer := s.timer) == s
    ensures Valid(s) ==> Valid(t)
  {
    if s.timerRunning && !s.isPaused then s.(timer := s.timer + 1) else s
  }

  function Pause(s: State): (t: State)
    ensures t.isPaused && t.(isPaused := s.isPaused) == s
    ensures Valid(s) ==> Valid(t)
  {
    s.(isPaused := true)
  }

  function Resume(s: State): (t: State)
    ensures !t.isPaused && t.(isPaused := s.isPaused) == s
    ensures Valid(s) ==> Valid(t)
  {
    s.(isPaused := false)
  }

  /**
   * `stopTimer()` followed by `gameStarted = false`: the state change `quitGame` and `winGame`
   * share. The interval is cleared and the round no longer accepts clicks.
   */
  function Stop(s: State): (t: State)
    ensures !t.timerRunning && !t.gameStarted
    ensures t.(timerRunning := s.timerRunning, gameStarted := s.gameStarted) == s
    ensures Valid(s) ==> Valid(t)
  {
    s.(timerRunning := false, gameStarted := false)
  }

  /** Ticks, pausing, resuming and stopping (quit or win) keep a round well formed. */
  lemma ControlsConsistent(s: State)
    requires Consistent(s)
    ensures Consistent(Tick(s)) && Consistent(Pause(s)) && Consistent(Resume(s))
    ensures Consistent(Stop(s))
  {
  }

  /** No click is accepted while paused or after the round has stopped. */
  lemma StoppedIgnoresClicks(s: State, i: nat)
    requires i < |s.cards| && (s.isPaused || !s.gameStarted)
    ensures Flip(s, i) == s
  {
  }

  /** The clock stands still while paused and after the interval is cleared. */
  lemma TickNeedsRunningClock(s: State)
    requires s.isPaused || !s.timerRunning
    ensures Tick(s) == s
  {
  }
}
