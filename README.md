# FaceMem memory game — a Dafny model of the game controller

FaceMem is a browser game for two players. A grid of face-down cards is dealt
from a roster of people, each with a name and a portrait. Each person gives one
card that shows the name and one card that shows the portrait. The players take
turns turning up two cards. A name card and the portrait card of the same
person form a pair: the player scores it and plays again. Any other two cards
are turned back down, and the turn passes to the other player. When every pair
has been found, the player with more pairs wins, or the game is a tie.

This project models the `MemoryGame` controller of `script.js`, without the
page it draws on:

- `cards.dfy`, module `Cards`: the roster entries (`Pair`), the cards
  (`Card`, with its `Kind`, `id` and face-up mark), the match rule, and how a
  board is dealt. Dealing picks pairs from a reordered roster, makes a name
  card and a portrait card for each, and shuffles the cards. This module also
  holds the counting lemmas. They show that every dealt board holds one name
  card and one portrait card per selected pair, so every card has a partner.
  When the roster's names are distinct, that partner is unique.
- `rules.dfy`, module `Rules`: the players 1 and 2 and the turn toggle; the
  winner; and the grid-size rule. The source computes `rows * cols / 2` as a
  fractional number. The model keeps it as a `real`, and proves the size check
  and the truncated pair count against their integer forms.
- `game.dfy`, module `Session`: the controller as a `class Game`. Its fields
  are the roster (`pairs`), the board (`cards`), the queued face-up cards
  (`pending`, the source's `flippedCards`, as board positions), `canFlip`,
  `currentPlayer`, `score1`, `score2` and `matchedPairs`. Its methods are
  `Initialize`, `Reset`, `CreateBoard`, `Flip`, `Resolve`, `HandleMatch` and
  `HandleMismatch`. Every method keeps the session invariant. Its first
  part, `Consistent`, is about the counters:
  - at most two queued cards, both face up and different;
  - flipping is allowed exactly while fewer than two are queued;
  - `score1 + score2 == matchedPairs`;
  - the number of face-up cards is twice the matched pairs plus the queued
    ones.

  Its second part, `Settled`, is about the ghost field `matchedCards`, the
  board positions of the pairs found so far:
  - there are two per matched pair;
  - each matched card has its matching partner among them;
  - a card is face up exactly when it is matched or queued;
  - no queued card is a matched one.

  So a matched card is never turned back down, and when the winner is
  announced every card on the board is matched.

  `ExampleSession` and `ExampleTurn` are a client that runs through a short
  game:
  - a refused 10×10 request;
  - a 2×4 deal;
  - a repeated click on the same card;
  - a locked third click;
  - a resolution.

Two deliberate choices in how behaviour is modelled:
- Randomness. Each random reordering becomes an arbitrary choice of a
  sequence with the same multiset of elements. One is the roster sort in
  `getRandomPairs`; the other is the card sort in `createBoard`. Nothing is
  claimed about which order is chosen.
- The one-second pause before a pair is resolved becomes the explicit step
  `Game.Resolve`. `Flip` reports through `resolutionDue` when a resolution has
  been scheduled.

Two facts about `script.js` that shape the model:
- `script.js` has one matching rule: a name card and a portrait card with the
  same `id` (script.js:135-136). That is the rule modelled.
- A grid with an odd number of cells gets `⌊rows*cols/2⌋` pairs. The `slice`
  call truncates the fractional count, so one cell stays empty. `PairCount`
  models this with floor division. The check before dealing compares the
  unrounded half with the roster size.

## Model

| member | source | states |
|---|---|---|
| `Cards.IsMatch` | script.js:133-136 | two cards match when they share an id and differ in kind; a card never matches itself |
| `Cards.CardsOf` | script.js:64-72 | the unshuffled list has two cards for every selected pair |
| `Cards.BuildCards` | script.js:64-72 | the loop that pushes a name card and then a portrait card for each pair builds exactly `CardsOf(selected)` |
| `Cards.CardsOfAt` | script.js:66-72 | position `i` of the unshuffled list holds the name card (even `i`) or the portrait card (odd `i`) of pair `i / 2`, sharing that pair's name as id |
| `Cards.CardsOfFaceDown` | script.js:68-71 | every freshly built card is face down |
| `Cards.CountCardsOf` | script.js:66-72 | for every id, the unshuffled list has as many name cards, and as many portrait cards, as there are selected pairs with that name |
| `Cards.GetRandomPairs` | script.js:84-88 | the roster comes back reordered, a permutation of itself, and the selection is its first `count` entries, or all of them when `count` exceeds the roster |
| `Cards.Shuffle` | script.js:74-75 | the shuffled cards are a permutation of the built cards |
| `Cards.Deal` | script.js:63-75 | the dealt board is a permutation of the cards of the first `min(count, roster size)` pairs of the reordered roster, has twice that many cards and an even length, and is all face down; the reordered roster is a permutation of the old one |
| `Cards.DealtBoardFaceDown` | script.js:63-75 | any shuffle of the built cards has two cards per selected pair, all face down |
| `Cards.DealtBoardCounts` | script.js:63-75 | any shuffle of the built cards holds, for every id, exactly one name card and one portrait card per selected pair of that name |
| `Cards.CountPermutation` | script.js:75 | reordering the cards leaves the number of cards of each id and kind unchanged |
| `Cards.EveryCardHasPartner` | script.js:134-136 | on a board with as many name cards as portrait cards of every id (every dealt board), every card has a different card it matches |
| `Cards.PartnerIsUnique` | script.js:134-136 | when every id is on at most one name card and one portrait card, a card's matching partner is unique |
| `Cards.NamedAtMostOnce` | script.js:69-70 | with distinct names in the selected pairs, each id is the name of at most one of them |
| `Cards.DistinctNamesPermutation` | script.js:85-86 | reordering a roster whose names are distinct keeps its names distinct |
| `Cards.DealtEveryCardHasPartner` | script.js:63-75 | every card of any shuffle of the built cards has a different card on the board that it matches |
| `Cards.DealtOncePerId` | script.js:63-75 | a board dealt from a roster with distinct names, after any reordering of the roster and any shuffle of the cards, holds at most one name card and one portrait card of each id |
| `Cards.DealtUniquePartner` | script.js:63-75 | on a board dealt from a roster with distinct names, a card has only one matching partner |
| `Rules.Other` | script.js:163 | the turn always passes to the other player |
| `Rules.OtherInvolutive` | script.js:163 | passing the turn twice gives it back |
| `Rules.Winner` | script.js:177-182 | equal scores are a tie; otherwise the winner has strictly more pairs than the other player and is announced with their own score |
| `Rules.WinnerSymmetric` | script.js:178-179 | swapping the two scores swaps the winner and keeps a tie a tie |
| `Rules.EnoughPairs` | script.js:36-41 | the check on the fractional pair count `rows*cols/2` passes exactly when `rows*cols <= 2 * roster size` |
| `Rules.PairCount` | script.js:63 | the number of pairs dealt, `rows*cols/2` truncated as `slice` (line 87) does, is the floor of the half: `2n <= cells <= 2n + 1`, and `2n == cells` for an even grid |
| `Session.TurnDown` | script.js:161 | exactly the queued cards are turned face down, every other card is unchanged, and the face-up count drops by the number of distinct face-up positions turned down |
| `Session.GameOverAllFaceUp` | script.js:155-157 | once the matched pairs reach half the board, every card is face up and nothing is queued, so no further flip or resolution can happen and the end is announced once |
| `Session.MatchedWithinBoard` | script.js:149 | the matched pairs' cards and the queued cards never exceed the board |
| `Session.FreshBoard` | script.js:43-44 | dealing a face-down board of even size after a reset yields a consistent session with no matched cards |
| `Session.SettledFlip` | script.js:124-125 | turning up a face-down card and queueing it keeps every matched card face up, matched and partnered |
| `Session.SettledMatch` | script.js:147-153 | a matching pair of queued cards joins the matched cards: two more positions, each the other's partner, with the queue emptied |
| `Session.SettledMismatch` | script.js:160-162 | turning the queued cards back down leaves every matched card face up and partnered, and makes the face-up cards exactly the matched ones |
| `Session.MatchStep` | script.js:147-157 | scoring a matching pair keeps both parts of the session invariant with one more matched pair; when it is the last pair, every position on the board is a matched card |
| `Session.GameOverAllMatched` | script.js:155-157 | once the matched pairs reach half the board, every card on it is a matched card with its partner among the matched cards |
| `Session.Game.constructor` | script.js:2-9 | a new controller has an empty board, nothing queued, player 1 to move, zero scores and flipping enabled |
| `Session.Game.Initialize` | script.js:33-45 | refuses, changing nothing, exactly when the grid needs more pairs than the roster has; otherwise the session is reset (player 1, zero scores, nothing queued, flipping enabled) and the board is a face-down permutation of the cards of `PairCount(rows*cols)` pairs taken from the reordered roster (`rows*cols` cards for an even grid) |
| `Session.Game.Reset` | script.js:47-56 | empty board, nothing queued, zero matched pairs and scores, player 1 to move, flipping enabled; the roster is kept |
| `Session.Game.CreateBoard` | script.js:58-82 | the board becomes a face-down permutation of the cards of the selected pairs, the roster a permutation of itself, and no other field changes |
| `Session.Game.Flip` | script.js:118-131 | a click changes nothing while flipping is locked or on a card that is face up or already queued; otherwise it turns that card up, appends it to the queue, and locks flipping exactly when the queue reaches two; the matched cards stay as they are |
| `Session.Game.Resolve` | script.js:133-145 | a full queue is decided by the match rule: a match scores for the current player, who keeps the turn; a mismatch turns both cards back down and passes the turn; either way the queue is emptied and flipping re-enabled; a match adds the two queued positions to the matched cards, a mismatch leaves them as they are |
| `Session.Game.HandleMatch` | script.js:147-158 | called on a matching queued pair (the only call, script.js:139-140): the current player's score and the matched count each rise by one; the two queued positions join the matched cards; the other score, the player, the board and its face-up marks stay the same; the queue is emptied; the winner is announced exactly when the matched count reaches half the board, and then every card is matched |
| `Session.Game.HandleMismatch` | script.js:160-166 | exactly the two queued cards are turned face down, so matched cards stay face up; the turn passes to the other player; the queue is emptied and flipping re-enabled; the scores, the matched count and the matched cards are unchanged |

## Left out

- Loading the configuration (`loadConfig`, script.js:17-27): fetching and
  parsing `config.json`, pre-filling the size fields, logging a load failure.
  The `Game` constructor takes the loaded roster instead. If the load fails,
  the source still goes on to `initializeGame` with no configuration. That
  path is not modelled.
- Reading the grid size with `parseInt` (script.js:34-35): `rows` and `cols`
  are natural numbers in the model. The source does not define behaviour for
  non-numeric or negative input.
- Everything drawn on the page (script.js:29-31, 59-61, 77-81, 90-116,
  168-175): card elements and their markup, grid columns, score and turn
  displays, and event listeners. A card element is modelled by its position
  on the board.
- `setTimeout` and `alert` (script.js:39, 138-144, 183). A resolution is the
  explicit `Resolve` step. `HandleMatch` returns the end-of-game outcome
  instead of showing a message. The refusal in `Initialize` is its `false`
  result, not a warning dialog.
- Starting a new game while a resolution is still pending. The source does
  not guard against this. `Resolve` requires two queued cards, so a stale
  resolution after a restart cannot be expressed.
- Uniformity of the random sorts (script.js:75, 86): the model claims only
  that the result is some permutation.
- The twin-card matching variant. It is not part of this model:
  `script.js` has only the name/portrait variant.
