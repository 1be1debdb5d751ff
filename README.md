# No Thanks! game engine in Dafny

This project models the game engine of `No_Thanks.py`, a three-player simulation of the card game
"No Thanks!". It covers:

- the deck of 24 cards drawn from 3..35;
- the two shared globals `card_pool` (the card on offer) and `chip_pool` (the chips placed on it);
- the players' moves `take_card`, `pass_card` and `rand_play`;
- the scorer `point_tally`;
- the turn loop and winner selection of `Run_Game`.

There are four modules:

- `Decks` (`deck.dfy`) is class `Deck`: `build`, `draw` (a `pop` from the end of the list) and `check_end`.
- `Scoring` (`scoring.dfy`) gives the value of what `point_tally` does to a hand. The hand is sorted, reversed, and walked by
  a `for` loop that removes every card whose predecessor is held. The loop deletes from the list it walks, so the card
  that slides into a removed card's position is never examined. Lemmas state what this loop keeps and drops. They also
  compare it with the rule the game intends (only the lowest card of a run of consecutive cards counts).
- `Rules` (`rules.dfy`) states the turn engine on values: `Take`, `Pass`, `Draw`, one call of `rand_play` with the
  chain of draws a take starts (`Play`), the `while` loop of `Run_Game` (`Rounds`), the whole game (`GameOutcome`), and
  the game's invariants:
  - all 33 chips stay in play;
  - every card is in exactly one place (the deck, card_pool, or one hand);
  - the deck only loses cards from its top;
  - no card is dealt twice.
- `Game` (`game.dfy`) holds the source's objects as classes:
  - `Pool` holds the two globals;
  - `Player` has `cardHand` and `chipHand` and the methods `DrawCard`, `TakeCard`, `PassCard`, `RandPlay` and `PointTally`;
  - `RunGame` runs all of them in the order `Run_Game` does.

  Each method is proved to change the object state exactly as the corresponding `Rules` or `Scoring` function says.
  `RunGame` returns exactly `Rules.GameOutcome`.

The randomness of the source is an input:

- the list `random.sample(range(3, 36), 24)` returns is the parameter `sample` (`Decks.IsSample`);
- every value of `random.randint(0, 1)` is taken in order from a decision list `ds` (0 takes, 1 passes).

A game that needs more decisions than `ds` holds has the result `None`. This bound is also what makes the turn loop
terminate: passes do not shrink the deck, and chips may go negative.

`card_pool` is never cleared by the source: after a take it still names the taken card. The model therefore keeps a
ghost flag `pending`, which is true while card_pool holds a drawn card that nobody has taken. This flag is needed to
state card conservation.

## Model

| member | source | states |
|---|---|---|
| `Decks.IsSample` | No_Thanks.py:17-18 | a list `random.sample(range(3, 36), 24)` can return holds no card twice |
| `Decks.DistinctCountsAtMostOneEverywhere` | No_Thanks.py:17-18 | a list without repeats has every card's count at most 1 |
| `Decks.Deck.constructor` | No_Thanks.py:13-14 | a new deck is empty |
| `Decks.Deck.Build` | No_Thanks.py:16-21 | the sample's cards are appended in order to the deck |
| `Decks.NewShuffledDeck` | No_Thanks.py:13-21 | a fresh deck after `build` holds exactly 24 pairwise different cards, each in 3..35 |
| `Decks.Deck.Draw` | No_Thanks.py:25-26 | on a non-empty deck, returns the last card; the deck becomes the old deck without its last card, and the rest is unchanged |
| `Decks.Deck.CheckEnd` | No_Thanks.py:28-30 | true exactly when the deck is empty |
| `Decks.DistinctCountsAtMostOne` | No_Thanks.py:17-18 | a sampled deck holds every card at most once |
| `Scoring.SortAsc` | No_Thanks.py:95 | `sort()` keeps exactly the hand's cards (same multiset) |
| `Scoring.SortAscIsAscending` | No_Thanks.py:95 | after `sort()` the hand is ascending |
| `Scoring.SortAscIsTheSortedPermutation` | No_Thanks.py:95 | `sort()` yields the only ascending list with the hand's cards |
| `Scoring.Reverse` | No_Thanks.py:96 | `reverse()` puts element `i` at position `n-1-i` |
| `Scoring.ReversePermutes` | No_Thanks.py:96 | `reverse()` keeps exactly the hand's cards |
| `Scoring.IndexOf` | No_Thanks.py:100 | the position `remove` deletes holds the card |
| `Scoring.IndexOfIsFirst` | No_Thanks.py:100 | that position is the first occurrence of the card |
| `Scoring.RemoveFirst` | No_Thanks.py:100 | `remove(i)` deletes one occurrence of `i` and nothing else |
| `Scoring.Sweep` | No_Thanks.py:98-100 | the removal loop only ever deletes cards of the list it walks |
| `Scoring.SweepKeepsDescending` | No_Thanks.py:98-100 | the removal loop keeps a descending list descending |
| `Scoring.Scored` | No_Thanks.py:94-100 | the hand left in `card_hand` holds only cards of the original hand |
| `Scoring.Tally` | No_Thanks.py:102-104 | the value point_tally returns, for cards that are not negative, lies between minus the chips and the whole hand's sum minus the chips: collapsing runs never adds points |
| `Scoring.SumOfSubMultiset` | No_Thanks.py:102 | of cards that are not negative, a sub-multiset never sums to more than the whole hand |
| `Scoring.ScoredSumBound` | No_Thanks.py:94-102 | the sum of the hand point_tally leaves is between 0 and the sum of the whole hand |
| `Scoring.ScoredIsDescendingSubHand` | No_Thanks.py:94-100 | the hand left is in descending order and is a sub-multiset of the original hand |
| `Scoring.ScoredDropsOnlyCardsWithPredecessor` | No_Thanks.py:98-100 | every card whose count drops had its predecessor `i-1` in the hand |
| `Scoring.ScoredKeepsLowestOfEveryRun` | No_Thanks.py:98-100 | a card whose predecessor is not held keeps its count, so the lowest card of every run survives |
| `Scoring.RunMinimumSurvives` | No_Thanks.py:98-100 | a held card without a held predecessor is in the scored hand |
| `Scoring.RunMinimaSurviveScoring` | No_Thanks.py:98-100 | every card the intended run rule keeps is also kept by point_tally |
| `Scoring.ScoredWithoutPairsKeepsAll` | No_Thanks.py:94-100 | a hand with no two consecutive cards loses nothing; it only ends up sorted descending |
| `Scoring.AscendingUnique` | No_Thanks.py:95 | two ascending lists with the same cards are equal |
| `Scoring.ScoredIgnoresOrder` | No_Thanks.py:94-104 | two hands with the same cards, in any order, leave the same scored hand |
| `Scoring.RemovalLoopOnRunOfThree` | No_Thanks.py:98-100 | on `[5, 4, 3]` the loop removes 5 and skips the 4 that slides into its place |
| `Scoring.RemovalLoopKeepsThree` | No_Thanks.py:98-100 | the last step of the loop on `[4, 3]` keeps the 3, since 2 is not held |
| `Scoring.ScoredSkipsAfterRemoval` | No_Thanks.py:94-100 | any hand holding 3, 4 and 5 is left as `[4, 3]` |
| `Scoring.TallyOfRunOfThree` | No_Thanks.py:102-104 | such a hand with 0 chips scores 7, not 3 |
| `Scoring.RunMinimaOfRunOfThree` | No_Thanks.py:98-100 | the intended run rule would keep only `{3}` of that hand |
| `Scoring.ScoredPair` | No_Thanks.py:94-100 | the hand `[4, 3]` is left as `[3]` |
| `Scoring.ScoredIsNotIdempotent` | No_Thanks.py:94-100 | scoring the scored hand `[4, 3]` again changes it to `[3]` |
| `Scoring.RemovalLoopOnSmallHand` | No_Thanks.py:98-100 | on `[10, 4, 3]` the loop keeps 10, removes 4 and keeps 3 |
| `Scoring.ScoredSmallHand` | No_Thanks.py:94-100 | any hand holding 3, 4 and 10 is left as `[10, 3]` |
| `Scoring.TallyOfSmallHand` | No_Thanks.py:94-104 | that hand with 5 chips scores 3 + 10 - 5 = 8 |
| `Scoring.RunMinimaOfSmallHand` | No_Thanks.py:98-100 | the intended run rule keeps `{3, 10}` of that hand, the same cards point_tally keeps |
| `Scoring.RemoveFirstOfRun` | No_Thanks.py:100 | removing 7 from `[10, 7, 6, 5]` leaves `[10, 6, 5]` |
| `Scoring.RemovalLoopKeepsFive` | No_Thanks.py:98-100 | the last step of the loop on `[10, 6, 5]` keeps the 5 |
| `Scoring.RemovalLoopOnRunOfThreeAndTen` | No_Thanks.py:98-100 | on `[10, 7, 6, 5]` the loop removes only the 7 and never examines the 6 |
| `Scoring.ScoredDiffersFromRunMinima` | No_Thanks.py:94-100 | any hand holding 5, 6, 7 and 10 is left as `[10, 6, 5]` |
| `Scoring.TallyOfRunOfThreeAndTen` | No_Thanks.py:102-104 | that hand with 0 chips scores 21 |
| `Scoring.RunMinimaOfRunOfThreeAndTen` | No_Thanks.py:98-100 | the intended run rule would keep `{5, 10}` of that hand |
| `Rules.Draw` | No_Thanks.py:47-50 | the top card of the deck moves into card_pool and becomes pending; chip_pool is unchanged |
| `Rules.Take` | No_Thanks.py:59-61 | card_pool is appended to the hand, the player gains chip_pool, chip_pool becomes 0, and the chips of player and pool together are unchanged |
| `Rules.Pass` | No_Thanks.py:72-73 | the player loses one chip into chip_pool, nothing else changes, and the chips of player and pool together are unchanged |
| `Rules.Play` | No_Thanks.py:47-92 | one call of rand_play with the take/draw chain it starts uses at least one decision and returns an unused suffix of the decisions |
| `Rules.SeatOf` | No_Thanks.py:137-144 | turn `n` goes to player `(n - 1) mod 3`, so the players take turns in order |
| `Rules.Rounds` | No_Thanks.py:134-144 | the turn loop only stops with an empty deck, and keeps three players |
| `Rules.EndOfPlay` | No_Thanks.py:116-144 | a whole game's play ends with an empty deck and three players |
| `Rules.Min` | No_Thanks.py:155 | `min` of three totals is one of them and no larger than any |
| `Rules.Winner` | No_Thanks.py:155-162 | the winner has the lowest total, and every earlier player has a strictly higher one (ties go to the earliest player) |
| `Rules.Scores` | No_Thanks.py:147-149 | one total per player |
| `Rules.GameOutcome` | No_Thanks.py:109-162 | a finished game has three totals and a winner among the three players |
| `Rules.PlayConserves` | No_Thanks.py:55-92 | a rand_play call keeps the sum of the player's chips and chip_pool, moves cards only from the deck and card_pool into the player's hand, only pops cards off the deck, and leaves a card pending unless the deck is empty |
| `Rules.TurnConserves` | No_Thanks.py:134-144 | one turn keeps the chip total of the table and the multiset of all cards, and only shortens the deck |
| `Rules.SeatUpdate` | No_Thanks.py:137-144 | replacing the active player's state changes the cards in hand and the chips by that player's difference only |
| `Rules.RoundsConserve` | No_Thanks.py:134-144 | the whole turn loop keeps the chip total and the multiset of all cards |
| `Rules.EndOfPlayConserves` | No_Thanks.py:109-144 | at the end of play the chips still total 33, and the hands plus any pending card hold exactly the 24 cards of the sample |
| `Rules.DealtOnce` | No_Thanks.py:18-21 | cards shared out of a list without repeats are in no hand twice and in no two hands |
| `Rules.EndOfPlayDealsEachCardOnce` | No_Thanks.py:109-144 | at the end of play no hand repeats a card, no two hands share one, and the hands and the pending card hold 24 cards, so exactly 24 draws happen |
| `Rules.PassWithoutChips` | No_Thanks.py:83-92 | the `chip_hand == 0` test has no effect: a player at 0 chips may pass and goes to -1 |
| `Rules.LastCardCanStayInPool` | No_Thanks.py:55-75 | a player who takes with one card left draws it; passing it ends the game with that card still pending, in no hand and unscored |
| `Rules.TakesEndPlay` | No_Thanks.py:55-92 | with more takes available than cards in the deck, a rand_play chain ends with a result and an empty deck |
| `Rules.AllTakesFinish` | No_Thanks.py:109-162 | a game of takes only, with a decision for every card, has a result: the results about finished games are not vacuous |
| `Game.Pool.constructor` | No_Thanks.py:129-130 | card_pool and chip_pool start at 0, with no card pending |
| `Game.Player.constructor` | No_Thanks.py:42-45 | a player starts with an empty hand and 11 chips |
| `Game.Player.DrawCard` | No_Thanks.py:47-50 | the top card moves from the deck to card_pool; the pool's state is `Rules.Draw` of the old state |
| `Game.Player.TakeCard` | No_Thanks.py:55-66 | card_pool is appended to the hand, the old chip_pool is added to the player's chips, and chip_pool becomes 0; card_pool itself is unchanged; the player draws again exactly when the deck is not empty |
| `Game.Player.PassCard` | No_Thanks.py:68-75 | the player's chips drop by exactly 1 and chip_pool rises by 1; card_pool, the hand and all other players are unchanged |
| `Game.Player.RandPlay` | No_Thanks.py:77-92 | deck, pools and player end where `Rules.Play` says, and the unused decisions are returned |
| `Game.Player.PointTally` | No_Thanks.py:94-104 | `card_hand` is replaced in place by `Scored` of the old hand, and the result is the sum of that hand minus the chips |
| `Game.TakeTurn` | No_Thanks.py:135-144 | the player that `turn_no % 3` names plays; the other two are unchanged |
| `Game.FinalTally` | No_Thanks.py:146-162 | each player's `card_hand` is replaced by `Scored` of the old hand with the chips unchanged, the three totals are the players' `Tally` values, and the winner is `Rules.Winner` of them |
| `Game.OpeningThenRounds` | No_Thanks.py:132-134 | the first player's opening draw and play, followed by the loop from turn 1, is a whole game |
| `Game.RunGame` | No_Thanks.py:109-162 | the imperative game returns exactly `Rules.GameOutcome` of the sample and the decisions |

## Where the code and the intended rules differ

The model follows `No_Thanks.py` in each of these places:

- **Run collapse.** The intended rule keeps only the lowest card of every run of consecutive cards (`Scoring.RunMinima`).
  It is independent of order and idempotent. `point_tally` (No_Thanks.py:98-100) deletes from the list it iterates over,
  so it skips the card after every removal:
  - `{3, 4, 5}` scores 7 rather than 3 (`Scoring.TallyOfRunOfThree`, `Scoring.RunMinimaOfRunOfThree`);
  - `{5, 6, 7, 10}` keeps `[10, 6, 5]` rather than `{5, 10}` (`Scoring.ScoredDiffersFromRunMinima`);
  - scoring again changes the result (`Scoring.ScoredIsNotIdempotent`).

  The scorer is still independent of the order the cards were taken in (`Scoring.ScoredIgnoresOrder`). It always keeps
  the cards the intended rule keeps (`Scoring.RunMinimaSurviveScoring`). On `{3, 4, 10}` it agrees with the intended
  rule: both keep `{3, 10}` (`Scoring.ScoredSmallHand`, `Scoring.RunMinimaOfSmallHand`).
- **Forced take.** A player without chips is meant to be forced to take. Line 86 only compares `decision == 0`, so such a
  player can pass and go negative (`Rules.PassWithoutChips`).
- **Ties.** A tie is meant to be reported as a tie. The `if`/`elif` chain at lines 155-162 gives it to the earliest
  player (`Rules.Winner`).
- **End of the game.** The loop is the version that polls `check_end` (line 134), not one with a flag set by the final
  take. When the last card is drawn and passed, the game ends with it in card_pool, unscored
  (`Rules.LastCardCanStayInPool`).

## Left out

- All `print` output (No_Thanks.py:23, 51, 63, 75, 151-162) and the import-time call `Run_Game('Alice', 'Bob', 'Claire')`
  at line 164. The names are kept as `Player.name` but are used only in prints. `RunGame` returns the totals and the
  winner that the source prints.
- `random.sample` and `random.randint` are inputs (`sample`, `ds`) rather than generated. When `ds` runs out before the
  game ends, the result is `None`. The source has no such case.
- `Decks.Deck.Draw` requires a non-empty deck. Python's `pop` would raise `IndexError` there, and Run_Game never draws
  from an empty deck.
- `check_end` returns `True` or `None` in the source. The model returns a `bool`, and `None` becomes `false`.
- `Game.Player.RandPlay`: the mutual recursion `take_card -> draw_card -> rand_play` is a loop. Python's recursion depth
  (at most 24 nested takes) is not modelled.
- `Game.Player.DrawCard` does not itself call `rand_play`. Its callers (`RunGame` and the loop in `RandPlay`) do this
  next, as `draw_card` does at line 53.
- `Game.Player.PointTally` assigns the results of `sort()` and `reverse()` to `card_hand` as whole values
  (`Scoring.SortAsc`, `Scoring.Reverse`). The sorting algorithm itself is not modelled, only its result. The removal loop
  is modelled step by step on the field.
- Integers are unbounded, like Python's.
- `Rules.Scores`: states only that there are three totals. Each total is `Tally` of that player by definition.
- `Rules.GameOutcome`: states only the shape of the outcome. Its contents are tied to the game by `Game.RunGame` and by
  the `Rules` lemmas about `EndOfPlay`.
- `dqn.py` and `main.py` (the learning loop and its command line) are not part of this model. They are training
  plumbing around the game, with floating-point networks and file I/O.
- The weighted heuristic and the environment facade `NTEnv` are not part of this model either. They are floating point,
  and their source files are not part of this model.
