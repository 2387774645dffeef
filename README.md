# Memory Master: a verified model of the game logic

Memory Master is a browser concentration game. The player picks a difficulty, and the game deals
6, 8 or 12 pairs of emoji cards face down in shuffled order. The player turns two cards at a time.
A pair of equal cards stays face up and scores a time bonus plus a combo bonus. A different pair
is turned back down after a short delay and resets the combo. When every pair is found the round
is rated with one to three stars and recorded in a per-difficulty high-score table of ten entries
kept in browser storage.

This project models the game-state and scoring logic of `script.js` and proves properties of it.
The DOM, audio, animations and real-time timers are not modelled.

- `levels.dfy`, module `Levels`: the three difficulties and their pair counts.
- `deck.dfy`, module `DeckBuilder`: the 24-icon table and the deck of a round (the first `pairs`
  icons, each twice). The shuffle is a permutation the caller supplies.
- `scoring.dfy`, module `Scoring`: the bonus for a found pair, the star rating and the index of
  the win message.
- `timefmt.dfy`, module `TimeFormat`: the `mm:ss` clock text, with a parser that reads it back.
- `leaderboard.dfy`, module `Leaderboard`: the stored table, recording a result (append, stable
  sort by descending score, keep ten), and the storage item as the class `Store`.
- `round.dfy`, module `RoundState`: all game variables as one value `State`. Each event handler
  and timer callback is a function from the state before to the state after. This module also
  holds the invariants and the lemmas about them.
- `game.dfy`, module `Game`: the class `MemoryGame`. Its fields are the game's module-level
  variables. Its methods are the event handlers and timer callbacks (`StartGame`, `RestartGame`,
  `FlipCard`, `CheckMatch`, `Unflip`, `Tick`, `PauseGame`, `ResumeGame`, `QuitGame`, `WinGame`).
  Each of these is proved to leave `Snapshot()` (all fields read as one `State`) equal to the
  matching `RoundState` step applied to the old value. Three helpers carry out parts of a handler
  and state only the fields they may change: `ResetCounters` and `CreateCards` (both parts of
  `startGame`) and `ScorePair` (the matched branch of `checkMatch`).

Timer callbacks become methods the host calls:
- `CheckMatch`, 600 ms after the second card is turned up;
- `Unflip`, 400 ms after a mismatch;
- `WinGame`, 500 ms after the last pair;
- `Tick`, once a second.

`FlipCard` returns whether it scheduled the comparison. `CheckMatch` returns a `MatchOutcome`:
either whether the win was scheduled, or the two cards the un-flip callback will turn down.

Card identity. The game keeps references to card elements in `flippedCards`. `startGame` replaces
the deck but leaves `flippedCards` as it was. So a reference can outlive its deck, for example
after a restart while one or two cards are face up. The model names a card by
`CardRef(round, index, icon)`. Here `round` counts the rounds started so far. Changing a card of
an earlier round changes nothing in the current deck, just as the source changes a detached
element. The old card's icon still takes part in a pending comparison, as in the source.

Two invariants:
- `Valid` holds in every state: at most two face-up cards wait for comparison, `combo >= 1`, and
  every reference from the current round names its card. It holds at page load, and every step
  keeps it: each `RoundState` step function states `Valid(s) ==> Valid(t)`, and `CheckMatch`
  requires and ensures it.
- `Consistent` is a well-formed round. The deck is a permutation of the doubled icon selection.
  The waiting cards are distinct cards of this deck, face up and unmatched. `matchedPairs` is half
  the number of matched cards, so `matchedPairs <= totalPairs`.

`Consistent` holds at page load. Starting a round with no card waiting establishes it, and every
step keeps it. The one exception is `Unflip`, which keeps it only when its two cards are not
waiting (`NotWaiting`). The cards of a mismatch meet that condition when their callback runs.
`AwaitingUnflip` says that a card is a valid reference, is not waiting and, if it belongs to the
current deck, is still face up. The comparison hands over its two cards in that condition
(`MismatchCardsNotWaiting`). Each step that can happen before the callback keeps the condition:
- clicks (`FlipKeepsAwaiting`), because a face-up card is never accepted;
- a comparison (`CheckMatchKeepsAwaiting`);
- ticks, pause, resume, quit and win (`ControlsKeepAwaiting`);
- a restart (`StartKeepsAwaiting`), after which the card belongs to an old deck and its un-flip
  changes nothing;
- the un-flip of two other cards (`UnflipKeepsAwaiting`).

Starting a round while cards wait does not establish `Consistent`. `StaleComparisonCountsPair` shows the effect: a pending
comparison of two old equal cards counts a pair in the new round with no card matched.

## Model

| member | source | states |
|---|---|---|
| `DeckBuilder.IconsDistinct` | script.js:17-21 | the icon table has 24 entries, all different |
| `DeckBuilder.PairCountFits` | script.js:119-123 | every preset deals at most 24 pairs, so the icon slice is never cut short |
| `Levels.PairCount` | script.js:119-126 | the preset's pair count: 6, 8 or 12, always even and between 6 and 12 |
| `DeckBuilder.Selected` | script.js:146 | `icons.slice(0, pairs)`: the first `min(pairs, 24)` icons of the table |
| `DeckBuilder.Deck` | script.js:146-147 | the deck has `2 * min(pairs, 24)` cards; each card is one of the selected icons; the second half repeats the first, which is `Icons[0..pairs)` |
| `DeckBuilder.DeckCount` | script.js:146-147 | each of the first `pairs` icons occurs exactly twice in the deck, and every other value occurs zero times |
| `DeckBuilder.ShuffledDeck` | script.js:149-150 | any permutation of the deck has the same length and counts, and holds exactly the selected icons |
| `Scoring.MatchBonus` | script.js:203-205 | the bonus is between `10 + 50*combo` and `100 + 50*combo`: `100 - timer + 50*combo` up to 90 s, then `10 + 50*combo` |
| `Scoring.MatchBonusMonotone` | script.js:203-205 | the bonus never grows as the timer grows; each combo step adds 50 |
| `Scoring.MatchBonusExample` | script.js:203-205 | at 0 s with combo 1 the bonus is 150 |
| `Scoring.Rating` | script.js:300-307 | the rating is 1, 2 or 3: 3 iff `2*moves <= 3*totalPairs`, 2 iff above that and `10*moves <= 21*totalPairs`, 1 iff `10*moves > 21*totalPairs` |
| `Scoring.RatingIsRealRating` | script.js:300-307 | the integer thresholds equal `moves <= minMoves*1.5` and `moves <= maxMoves*0.7` over exact reals |
| `Scoring.RatingMonotone` | script.js:300-307 | more moves never give more stars |
| `Scoring.RatingExamples` | script.js:300-307 | with 6 pairs, 6 and 9 moves give 3 stars, 10 and 12 give 2, 13 gives 1 |
| `Scoring.MessageIndex` | script.js:283-284 | the index is the rating, capped at 3, the last message |
| `Scoring.WinMessageIndex` | script.js:266-285 | for a rating the index is the rating itself, in 1..3, so "Good Job!" is never shown |
| `TimeFormat.ToDecimal` | script.js:245 | `String(n)`: at least one character, all decimal digits, no leading zero; one digit iff `n < 10`, at most two iff `n < 100` |
| `TimeFormat.PadTwo` | script.js:245 | `padStart(2, '0')`: at least two characters; the input is a suffix and everything before it is '0' |
| `TimeFormat.FormatTime` | script.js:242-246 | the text is digits with ':' third from the end; it is exactly 5 characters below 100 minutes |
| `TimeFormat.DecimalRoundTrip` | script.js:245 | reading the decimal text back gives `n` |
| `TimeFormat.FormatTimeRoundTrip` | script.js:242-246 | reading the clock text back as minutes*60 + seconds gives the timer: nothing is lost |
| `TimeFormat.FormatTimeExample` | script.js:242-246 | 75 s shows `01:15`: both fields padded to two digits |
| `TimeFormat.FormatTimeWideExample` | script.js:242-246 | 6000 s shows `100:00`: from 100 minutes on the minutes field is wider than two digits |
| `Leaderboard.Load` | script.js:337-341 | an absent storage item reads as the board whose three tiers are empty, and a present item reads as the board it holds |
| `Leaderboard.Board.Set` | script.js:350-352 | the tier gets the new list; the other tiers are unchanged |
| `Leaderboard.Insert` | script.js:351 | one entry longer, holding only old entries and the new one; a descending list stays descending |
| `Leaderboard.SortDesc` | script.js:351 | the sort keeps the length and gives a list in descending score order |
| `Leaderboard.SortDescPermutes` | script.js:351 | the sorted list is a permutation of the input |
| `Leaderboard.SortDescStable` | script.js:351 | for every score, the entries with that score keep their relative order (stability) |
| `Leaderboard.StableSortUnique` | script.js:351 | two descending lists with the same per-score sublists are equal |
| `Leaderboard.SortDescIsTheStableSort` | script.js:351 | every descending, stable rearrangement of a list equals `SortDesc` of it, whatever stable algorithm produced it |
| `Leaderboard.Take` | script.js:352 | `slice(0, 10)` is the prefix of length `min(n, 10)` |
| `Leaderboard.Record` | script.js:350-352 | the new tier list has `min(old + 1, 10)` entries, in descending score order |
| `Leaderboard.RecordEntries` | script.js:350-352 | the new list holds only old entries and the new one; while the tier has fewer than 10, none is dropped |
| `Leaderboard.RecordIntoSorted` | script.js:350-352 | on a descending list, the entry goes right after every entry that scores at least as much; the result is cut to ten; the entry stays iff fewer than ten stored entries score at least as much |
| `Leaderboard.Store.Query` | script.js:363-372 | the list a tier's tab reads: empty while nothing is stored, otherwise the stored tier |
| `Leaderboard.Store.Save` | script.js:336-355 | the stored board becomes the loaded board with the tier replaced by `Record(old tier, entry)`; that tier has at most 10 entries in descending order; other tiers are unchanged; a well-formed table stays well formed |
| `Leaderboard.Store.Clear` | script.js:400-405 | on confirmation the item is removed and every tier reads as empty; otherwise nothing changes |
| `RoundState.FreshCards` | script.js:153-169 | the new deck has the shuffled icons in order, all face down and unmatched |
| `RoundState.InitialConsistent` | script.js:2-13 | the state at page load is a well-formed (empty) round |
| `RoundState.MatchedCountBound` | script.js:198-200 | at most all cards are matched; if all are counted, every card is matched |
| `RoundState.MatchedPairsBounded` | script.js:200 | in a well-formed round `matchedPairs <= totalPairs` |
| `RoundState.Start` | script.js:110-131 | counters reset (`matchedPairs`, `moves`, `score`, `timer` 0, `combo` 1), started and unpaused, interval set, `totalPairs` 6/8/12; the deck is the shuffled icons face down; `flippedCards` untouched; `Valid` kept |
| `RoundState.StartConsistent` | script.js:110-131 | a round started with no card waiting is well formed |
| `RoundState.StaleComparisonCountsPair` | script.js:110-116 | starting a round while two equal cards wait lets the pending comparison count a pair with no card of the new deck matched, breaking `Consistent` |
| `RoundState.FlipAccepted` | script.js:174-176 | a click is accepted iff none of the three early returns of `flipCard` applies |
| `RoundState.Flip` | script.js:173-187 | rejected (state unchanged) when paused, not started, the card face up or matched, or two cards waiting; otherwise the card turns face up and is appended; `moves` grows by 1 exactly when the list reaches 2; nothing else changes; `Valid` kept |
| `RoundState.ThirdFlipIgnored` | script.js:176 | with two cards waiting, a click changes nothing |
| `RoundState.StoppedIgnoresClicks` | script.js:174 | while paused or not started, a click changes nothing |
| `RoundState.FlipConsistent` | script.js:173-187 | a click keeps a round well formed |
| `RoundState.MarkMatched` | script.js:198-199 | `classList.add('matched')` on the card a reference names: only that card of the current deck gains `matched`, and a card of an earlier deck changes nothing |
| `RoundState.CheckMatch` | script.js:191-226 | equal icons: both cards matched, `matchedPairs + 1`, `score + MatchBonus(timer, combo)`, `combo + 1`, win scheduled iff `matchedPairs == totalPairs`; different icons: only `combo := 1`, and the two cards are handed to the un-flip callback; either way `flippedCards` is empty; `Valid` holds after |
| `RoundState.CheckMatchConsistent` | script.js:196-213 | the comparison keeps a round well formed, and a match leaves `matchedPairs <= totalPairs` |
| `RoundState.WinScheduledOnLastPair` | script.js:210-213 | the win is scheduled exactly when the icons are equal and this pair brings `matchedPairs` to `totalPairs` |
| `RoundState.AllMatchedIsFinal` | script.js:175-176 | once every pair of a well-formed round is found, no card waits and no click is accepted, so no second win can be scheduled |
| `RoundState.TurnDown` | script.js:217-218 | `classList.remove('flipped')` on the card a reference names: only that card of the current deck loses `flipped` |
| `RoundState.Unflip` | script.js:216-220 | the two cards, if from the current deck, turn face down; no other card and no other variable changes; `Valid` kept |
| `RoundState.UnflipConsistent` | script.js:216-220 | turning down two cards that are not waiting keeps a round well formed |
| `RoundState.MismatchCardsNotWaiting` | script.js:214-224 | the cards handed to the un-flip callback are valid and not waiting after the comparison; in a well-formed round they are face up too (`AwaitingUnflip`) |
| `RoundState.FlipKeepsAwaiting` | script.js:175 | a click keeps a card that awaits its un-flip in that condition, since its face-up card is never accepted |
| `RoundState.CheckMatchKeepsAwaiting` | script.js:191-226 | a comparison keeps a card that awaits its un-flip in that condition |
| `RoundState.UnflipKeepsAwaiting` | script.js:216-220 | the un-flip of two other cards keeps a pending card in that condition |
| `RoundState.ControlsKeepAwaiting` | script.js:230-333 | ticks, pause, resume and stop keep a pending card in that condition |
| `RoundState.StartKeepsAwaiting` | script.js:105-138 | a restart keeps a pending card in that condition; its un-flip then changes nothing |
| `RoundState.Tick` | script.js:230-235 | the timer grows by 1 exactly when the interval is set and the game is not paused; nothing else changes; `Valid` kept |
| `RoundState.TickNeedsRunningClock` | script.js:231 | while paused or after the interval is cleared, a tick changes nothing |
| `RoundState.Pause` | script.js:310-313 | sets `isPaused`, nothing else; `Valid` kept |
| `RoundState.Resume` | script.js:315-318 | clears `isPaused`, nothing else; `Valid` kept |
| `RoundState.Stop` | script.js:328-333 | clears the interval and `gameStarted`, nothing else: the state change of `quitGame`, which `winGame` also makes (lines 262-263); `Valid` kept |
| `RoundState.ControlsConsistent` | script.js:230-333 | ticks, pause, resume and stop (quit or win) keep a round well formed |
| `Game.MemoryGame.constructor` | script.js:2-13 | the initial values of the game variables, a well-formed state |
| `Game.MemoryGame.CreateCards` | script.js:141-169 | the loop lays out `FreshCards(shuffled)` as a new deck and starts a new round id; it may change only `cards` and `round` |
| `Game.MemoryGame.ResetCounters` | script.js:110-126 | the chosen difficulty and the reset at the top of `startGame`: counters 0, combo 1, started and unpaused, `totalPairs` from the preset; it may change only those fields |
| `Game.MemoryGame.StartGame` | script.js:105-138 | the new state is `Start` of the old one |
| `Game.MemoryGame.RestartGame` | script.js:321-325 | the new state is `Start` at the current difficulty |
| `Game.MemoryGame.FlipCard` | script.js:173-188 | the new state is `Flip` of the old one; the comparison is scheduled exactly when the click was accepted and two cards are up; `Valid` and `Consistent` kept |
| `Game.MemoryGame.ScorePair` | script.js:198-206 | both cards (of the current deck) matched, `matchedPairs` and `combo` up by one, score up by `MatchBonus(timer, old combo)`; only those fields change |
| `Game.MemoryGame.CheckMatch` | script.js:191-226 | the new state and outcome are those of `RoundState.CheckMatch`; a well-formed round stays well formed with `matchedPairs <= totalPairs` |
| `Game.MemoryGame.Unflip` | script.js:216-220 | the new state is `RoundState.Unflip`; well-formedness kept for cards that are not waiting |
| `Game.MemoryGame.Tick` | script.js:230-235 | the new state is `RoundState.Tick` |
| `Game.MemoryGame.PauseGame` | script.js:310-313 | the new state is `Pause` |
| `Game.MemoryGame.ResumeGame` | script.js:315-318 | the new state is `Resume` |
| `Game.MemoryGame.QuitGame` | script.js:328-333 | the new state is `Stop` of the old one |
| `Game.MemoryGame.WinGame` | script.js:261-297 | the new state is `Stop` of the old one; the rating is `Rating(moves, totalPairs)` in 1..3; the message index equals it; the store records `{score, timer, moves, date}` in the current difficulty's tier |

## Left out

- Rendering and presentation are not modelled: DOM construction and class toggling for display, the `gridSizes` column count, `updateUI` texts, modals, stars, `showLeaderboard` and the HTML of `updateLeaderboardDisplay`. The list each tab shows is `Store.Query`. Its time column uses the same `mm:ss` format as `FormatTime`.
- The accuracy percentage is not modelled: it is float division with `Math.round`, for display only.
- Sound (`playSound`, `toggleSound`), particles and confetti are not modelled: they are presentation and use float randomness.
- The shuffle `sort(() => Math.random() - 0.5)` is not a specifiable distribution. The caller supplies its result, and `StartGame` requires that result to be a permutation of the deck.
- Real-time scheduling is not modelled. The host calls each `setTimeout` or `setInterval` callback as a method, and the model does not constrain the order of those calls. `timerRunning` stands for "the interval is set"; a cleared interval never fires, so `Tick` then changes nothing.
- `localStorage`, JSON serialisation and its round trip are not modelled: they are foreign calls. The storage item is an `Option<Board>` value. Malformed JSON is not modelled: `JSON.parse` would throw. A stored record missing a tier is not handled either: the code would throw at `push`.
- The timestamp `new Date().toISOString()` is an opaque string parameter of `WinGame`. `confirm()` is the boolean parameter of `Store.Clear`.
- Scoring.Rating: the source compares `moves` with the double `totalPairs * 3 * 0.7`. The integer form `10*moves <= 21*totalPairs` agrees with that comparison when `totalPairs` is below 30, which covers the presets 6, 8 and 12. For some larger pair counts (30, 60, ...) the double rounds below `2.1*totalPairs`, and this is not modelled.
- Leaderboard.SortDesc: `Array.prototype.sort` is modelled by its result, not its algorithm. `SortDescIsTheStableSort` shows that every stable descending sort gives this same list.
- Game.MemoryGame.StartGame: its contract gives the new state only. That the new round is well formed when no card was waiting is the lemma `RoundState.StartConsistent` about `Start`.
- Game.MemoryGame.Unflip: keeps `Consistent` only when its cards are not waiting. The model does not track pending callbacks as state. The `AwaitingUnflip` lemmas show that the cards of a mismatch still meet this condition when the callback runs. The exception is an earlier un-flip naming one of the same cards, which the lemmas exclude by their preconditions and do not rule out.
- The shuffle uses a random comparator and is not uniform. `startGame` does not clear `flippedCards`, so `matchedPairs <= totalPairs` holds only in a `Consistent` round. A missing tier is not filled with an empty list.
- Number precision is not modelled. In the code, `timer`, `moves` and `score` are double-precision numbers. In the model they are unbounded naturals. So the model does not capture the loss of precision past 2^53, or the exponent form `String(n)` takes from 1e21 on. Neither is reachable in play.
