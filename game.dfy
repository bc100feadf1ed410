/** One session of the two-player memory game: the board, the cards turned
    up and awaiting comparison, whose turn it is, the scores, and the
    transitions between those states. The one-second pause before a pair
    is resolved is the explicit step `Resolve`. */
module Session {
  import opened Cards
  import opened Rules

  /** Number of face-up cards. */
  ghost function FlippedCount(cards: seq<Card>): (n: nat)
    ensures n <= |cards|
  {
    if cards == [] then 0
    else (if cards[0].flipped then 1 else 0) + FlippedCount(cards[1..])
  }

  lemma {:induction false} FlippedCountUpdate(cards: seq<Card>, i: nat, c: Card)
    requires i < |cards|
    ensures FlippedCount(cards[i := c]) ==
      FlippedCount(cards) - (if cards[i].flipped then 1 else 0) + (if c.flipped then 1 else 0)
  {
    if i > 0 {
      assert cards[i := c][1..] == cards[1..][i - 1 := c];
      FlippedCountUpdate(cards[1..], i - 1, c);
    }
  }

  lemma {:induction false} FlippedCountNone(cards: seq<Card>)
    requires forall k :: 0 <= k < |cards| ==> !cards[k].flipped
    ensures FlippedCount(cards) == 0
  {
    if cards != [] {
      FlippedCountNone(cards[1..]);
    }
  }

  /** When every card is counted as face up, every card is face up. */
  lemma {:induction false} FlippedCountAll(cards: seq<Card>, k: nat)
    requires FlippedCount(cards) == |cards| && k < |cards|
    ensures cards[k].flipped
  {
    if k > 0 {
      FlippedCountAll(cards[1..], k - 1);
    }
  }

  /** Turns the cards at the given positions face down, one after the
      other. When those positions are distinct and their cards face up, the
      number of face-up cards drops by exactly the number of positions. */
  method TurnDown(cards: seq<Card>, positions: seq<nat>) returns (board: seq<Card>)
    requires forall k :: 0 <= k < |positions| ==> positions[k] < |cards|
    ensures |board| == |cards|
    ensures forall j :: 0 <= j < |board| ==>
      board[j] == if j in positions then cards[j].(flipped := false) else cards[j]
    ensures (forall m :: 0 <= m < |positions| ==> cards[positions[m]].flipped) &&
            (forall k1, k2 :: 0 <= k1 < k2 < |positions| ==> positions[k1] != positions[k2]) ==>
            FlippedCount(board) == FlippedCount(cards) - |positions|
  {
    board := cards;
    for k := 0 to |positions|
      invariant |board| == |cards|
      invariant forall j :: 0 <= j < |board| ==>
        board[j] == if j in positions[..k] then cards[j].(flipped := false) else cards[j]
      invariant (forall m :: 0 <= m < |positions| ==> cards[positions[m]].flipped) &&
                (forall k1, k2 :: 0 <= k1 < k2 < |positions| ==> positions[k1] != positions[k2]) ==>
                FlippedCount(board) == FlippedCount(cards) - k
    {
      var p := positions[k];
      FlippedCountUpdate(board, p, board[p].(flipped := false));
      board := board[p := board[p].(flipped := false)];
      assert positions[..k + 1] == positions[..k] + [p];
    }
    assert positions[..|positions|] == positions;
  }

  /** The session invariant on the counters: at most two cards await
      comparison, each of them face up and the two distinct; flipping is
      allowed exactly while fewer than two await; the scores add up to the
      matched pairs; and the number of face-up cards is twice the matched
      pairs plus the awaiting ones. Which cards are the matched ones is
      stated by `Settled`. */
  ghost predicate Consistent(cards: seq<Card>, pending: seq<nat>, canFlip: bool,
                             matchedPairs: nat, score1: nat, score2: nat)
  {
    && |cards| % 2 == 0
    && |pending| <= 2
    && (forall k :: 0 <= k < |pending| ==> pending[k] < |cards| && cards[pending[k]].flipped)
    && (|pending| == 2 ==> pending[0] != pending[1])
    && canFlip == (|pending| < 2)
    && score1 + score2 == matchedPairs
    && FlippedCount(cards) == 2 * matchedPairs + |pending|
  }

  /** Once the matched pairs reach half the board, every card is face up
      and none awaits comparison, so no further flip or resolution can
      happen: the end of the game is announced once. */
  lemma GameOverAllFaceUp(cards: seq<Card>, pending: seq<nat>, canFlip: bool,
                          matchedPairs: nat, score1: nat, score2: nat)
    requires Consistent(cards, pending, canFlip, matchedPairs, score1, score2)
    requires matchedPairs == |cards| / 2
    ensures pending == [] && canFlip
    ensures forall k :: 0 <= k < |cards| ==> cards[k].flipped
  {
    forall k | 0 <= k < |cards|
      ensures cards[k].flipped
    {
      FlippedCountAll(cards, k);
    }
  }

  /** Dealing a face-down board of even size onto an empty session keeps
      the session consistent. */
  lemma FreshBoard(board: seq<Card>, pending: seq<nat>, canFlip: bool,
                   matchedPairs: nat, score1: nat, score2: nat)
    requires Consistent([], pending, canFlip, matchedPairs, score1, score2)
    requires |board| % 2 == 0 && forall k :: 0 <= k < |board| ==> !board[k].flipped
    ensures Consistent(board, pending, canFlip, matchedPairs, score1, score2)
    ensures Settled(board, {}, pending, matchedPairs)
  {
    FlippedCountNone(board);
    assert pending == [];
  }

  /** No more pairs can be matched than the board holds. */
  lemma MatchedWithinBoard(cards: seq<Card>, pending: seq<nat>, canFlip: bool,
                           matchedPairs: nat, score1: nat, score2: nat)
    requires Consistent(cards, pending, canFlip, matchedPairs, score1, score2)
    ensures 2 * matchedPairs + |pending| <= |cards|
  {
  }

  /** Card `p` has a partner among the positions `among`: a different card
      it matches. */
  ghost predicate HasPartner(cards: seq<Card>, among: set<nat>, p: nat) {
    exists q :: q in among && p < |cards| && q < |cards| && q != p && IsMatch(cards[p], cards[q])
  }

  /** The session invariant on the matched cards, given as the set of
      their board positions: two per matched pair, each with its partner
      among them; a card is face up exactly when it is matched or awaits
      comparison; and no awaiting card is a matched one. So a matched card
      is never turned back down. */
  ghost predicate Settled(cards: seq<Card>, matchedCards: set<nat>, pending: seq<nat>, matchedPairs: nat) {
    && |matchedCards| == 2 * matchedPairs
    && (forall p :: p in matchedCards ==> p < |cards|)
    && (forall j {:trigger cards[j].flipped} :: 0 <= j < |cards| ==> (cards[j].flipped <==> j in matchedCards || j in pending))
    && (forall k :: 0 <= k < |pending| ==> pending[k] !in matchedCards)
    && (forall p {:trigger HasPartner(cards, matchedCards, p)} ::
          p in matchedCards ==> HasPartner(cards, matchedCards, p))
  }

  /** Changing only cards outside a set of partnered positions keeps them
      partnered. */
  lemma PartnersKept(cards: seq<Card>, board: seq<Card>, matchedCards: set<nat>)
    requires forall p {:trigger HasPartner(cards, matchedCards, p)} ::
      p in matchedCards ==> HasPartner(cards, matchedCards, p)
    requires |board| == |cards|
    requires forall p :: p in matchedCards ==> p < |cards| && board[p] == cards[p]
    ensures forall p {:trigger HasPartner(board, matchedCards, p)} ::
      p in matchedCards ==> HasPartner(board, matchedCards, p)
  {
    forall p | p in matchedCards
      ensures HasPartner(board, matchedCards, p)
    {
      assert HasPartner(cards, matchedCards, p);
      var q :| q in matchedCards && p < |cards| && q < |cards| && q != p && IsMatch(cards[p], cards[q]);
      assert board[p] == cards[p] && board[q] == cards[q];
    }
  }

  /** Turning up a face-down card and queueing it keeps the matched cards
      as they are. */
  lemma SettledFlip(cards: seq<Card>, matchedCards: set<nat>, pending: seq<nat>, matchedPairs: nat, i: nat)
    requires Settled(cards, matchedCards, pending, matchedPairs)
    requires i < |cards| && !cards[i].flipped
    ensures Settled(cards[i := cards[i].(flipped := true)], matchedCards, pending + [i], matchedPairs)
  {
    assert i !in matchedCards;
    PartnersKept(cards, cards[i := cards[i].(flipped := true)], matchedCards);
  }

  /** A matching pair of awaiting cards joins the matched cards. */
  lemma SettledMatch(cards: seq<Card>, matchedCards: set<nat>, pending: seq<nat>, matchedPairs: nat)
    requires Settled(cards, matchedCards, pending, matchedPairs)
    requires |pending| == 2 && pending[0] != pending[1] && pending[0] < |cards| && pending[1] < |cards|
    requires IsMatch(cards[pending[0]], cards[pending[1]])
    ensures Settled(cards, matchedCards + {pending[0], pending[1]}, [], matchedPairs + 1)
  {
    var a, b := pending[0], pending[1];
    AddTwo(matchedCards, a, b);
    PartnersAfterMatch(cards, matchedCards, a, b);
  }

  lemma AddTwo(s: set<nat>, a: nat, b: nat)
    requires a !in s && b !in s && a != b
    ensures |s + {a, b}| == |s| + 2
  {
    assert s + {a, b} == (s + {a}) + {b};
  }

  /** Adding a matching pair to a set of positions in which every card has
      a partner keeps every card partnered. */
  lemma PartnersAfterMatch(cards: seq<Card>, matchedCards: set<nat>, a: nat, b: nat)
    requires forall p {:trigger HasPartner(cards, matchedCards, p)} ::
      p in matchedCards ==> HasPartner(cards, matchedCards, p)
    requires a < |cards| && b < |cards| && a != b && IsMatch(cards[a], cards[b])
    ensures forall p {:trigger HasPartner(cards, matchedCards + {a, b}, p)} ::
      p in matchedCards + {a, b} ==> HasPartner(cards, matchedCards + {a, b}, p)
  {
    var after := matchedCards + {a, b};
    forall p | p in after
      ensures HasPartner(cards, after, p)
    {
      if p == a {
        assert b in after && IsMatch(cards[a], cards[b]);
      } else if p == b {
        assert a in after && IsMatch(cards[b], cards[a]);
      } else {
        assert HasPartner(cards, matchedCards, p);
        var q :| q in matchedCards && p < |cards| && q < |cards| && q != p && IsMatch(cards[p], cards[q]);
        assert q in after;
      }
    }
  }

  /** Turning the awaiting cards back down leaves the matched cards face
      up and matched. */
  lemma SettledMismatch(cards: seq<Card>, matchedCards: set<nat>, pending: seq<nat>, matchedPairs: nat,
                        board: seq<Card>)
    requires Settled(cards, matchedCards, pending, matchedPairs)
    requires |board| == |cards|
    requires forall j :: 0 <= j < |board| ==>
      board[j] == if j in pending then cards[j].(flipped := false) else cards[j]
    ensures Settled(board, matchedCards, [], matchedPairs)
  {
    PartnersKept(cards, board, matchedCards);
  }

  /** Scoring the awaiting pair as a match keeps the session consistent;
      when it is the last pair, every card is a matched card. */
  lemma MatchStep(cards: seq<Card>, matchedCards: set<nat>, pending: seq<nat>, canFlip: bool,
                  matchedPairs: nat, score1: nat, score2: nat, newScore1: nat, newScore2: nat)
    requires Consistent(cards, pending, canFlip, matchedPairs, score1, score2)
    requires Settled(cards, matchedCards, pending, matchedPairs)
    requires |pending| == 2 && IsMatch(cards[pending[0]], cards[pending[1]])
    requires newScore1 + newScore2 == score1 + score2 + 1
    ensures Consistent(cards, [], true, matchedPairs + 1, newScore1, newScore2)
    ensures Settled(cards, matchedCards + {pending[0], pending[1]}, [], matchedPairs + 1)
    ensures matchedPairs + 1 == |cards| / 2 ==> AllMatched(cards, matchedCards + {pending[0], pending[1]})
  {
    SettledMatch(cards, matchedCards, pending, matchedPairs);
    if matchedPairs + 1 == |cards| / 2 {
      GameOverAllMatched(cards, matchedCards + {pending[0], pending[1]}, [], matchedPairs + 1);
    }
  }

  /** A set of positions below `n` has at most `n` elements. */
  lemma {:induction false} CardBelow(s: set<nat>, n: nat)
    requires forall p :: p in s ==> p < n
    ensures |s| <= n
  {
    if n == 0 {
      assert s == {};
    } else {
      CardBelow(s - {n - 1}, n - 1);
    }
  }

  /** A set of positions below `n` that misses one of them has fewer than
      `n` elements. */
  lemma {:induction false} CardBelowMissing(s: set<nat>, n: nat, j: nat)
    requires forall p :: p in s ==> p < n
    requires j < n && j !in s
    ensures |s| < n
  {
    if j == n - 1 {
      CardBelow(s, n - 1);
    } else {
      CardBelowMissing(s - {n - 1}, n - 1, j);
    }
  }

  /** Every card on the board is a matched card. */
  ghost predicate AllMatched(cards: seq<Card>, matchedCards: set<nat>) {
    forall j :: 0 <= j < |cards| ==> j in matchedCards
  }

  /** Once the matched pairs reach half the board, every card on it is a
      matched card, with its partner. */
  lemma GameOverAllMatched(cards: seq<Card>, matchedCards: set<nat>, pending: seq<nat>, matchedPairs: nat)
    requires Settled(cards, matchedCards, pending, matchedPairs)
    requires 2 * matchedPairs == |cards|
    ensures forall j :: 0 <= j < |cards| ==> j in matchedCards && HasPartner(cards, matchedCards, j)
  {
    forall j | 0 <= j < |cards|
      ensures j in matchedCards
    {
      if j !in matchedCards {
        CardBelowMissing(matchedCards, |cards|, j);
      }
    }
  }

  class Game {
    /** The configured roster; dealing a board reorders it in place. */
    var pairs: seq<Pair>
    var cards: seq<Card>
    /** Positions of the face-up cards awaiting comparison, in flip order. */
    var pending: seq<nat>
    var matchedPairs: nat
    var currentPlayer: Player
    var score1: nat
    var score2: nat
    var canFlip: bool
    /** Positions of the cards of the pairs found so far. */
    ghost var matchedCards: set<nat>

    ghost predicate Valid()
      reads this
    {
      && Consistent(cards, pending, canFlip, matchedPairs, score1, score2)
      && Settled(cards, matchedCards, pending, matchedPairs)
    }

    /** A controller over a loaded roster, before any board is dealt. */
    constructor (roster: seq<Pair>)
      ensures Valid()
      ensures pairs == roster && cards == [] && pending == []
      ensures matchedPairs == 0 && currentPlayer == 1 && score1 == 0 && score2 == 0 && canFlip
      ensures matchedCards == {}
    {
      pairs := roster;
      cards := [];
      pending := [];
      matchedPairs := 0;
      currentPlayer := 1;
      score1, score2 := 0, 0;
      canFlip := true;
      matchedCards := {};
    }

    /** Starts a new game on a rows-by-cols grid, or refuses without
        touching the session when the roster has too few pairs. */
    method Initialize(rows: nat, cols: nat) returns (ok: bool)
      requires Valid()
      modifies this
      ensures Valid()
      ensures ok == EnoughPairs(rows * cols, |old(pairs)|)
      ensures !ok ==> unchanged(this)
      ensures ok ==> pending == [] && canFlip && matchedPairs == 0 && matchedCards == {}
      ensures ok ==> currentPlayer == 1 && score1 == 0 && score2 == 0
      ensures ok ==> multiset(pairs) == multiset(old(pairs)) && PairCount(rows * cols) <= |pairs|
      ensures ok ==> |cards| == 2 * PairCount(rows * cols)
      ensures ok ==> multiset(cards) == multiset(CardsOf(pairs[..PairCount(rows * cols)]))
      ensures ok ==> forall k :: 0 <= k < |cards| ==> !cards[k].flipped
    {
      var cells := rows * cols;
      if !EnoughPairs(cells, |pairs|) {
        return false;
      }
      assert PairCount(cells) <= |pairs|;
      Reset();
      CreateBoard(rows, cols);
      assert |cards| == 2 * PairCount(cells);
      ok := true;
    }

    /** Back to the start of a game: empty board, player 1 to move, no
        points, nothing awaiting comparison. */
    method Reset()
      modifies this
      ensures Valid()
      ensures cards == [] && pending == [] && canFlip
      ensures matchedPairs == 0 && currentPlayer == 1 && score1 == 0 && score2 == 0
      ensures matchedCards == {} && pairs == old(pairs)
    {
      cards := [];
      pending := [];
      matchedPairs := 0;
      currentPlayer := 1;
      score1, score2 := 0, 0;
      canFlip := true;
      matchedCards := {};
    }

    /** Deals a board after a reset: a name card and a portrait card for
        each of `PairCount(rows * cols)` pairs drawn from the roster, in some
        shuffled order, all face down. */
    method CreateBoard(rows: nat, cols: nat)
      requires Valid() && cards == []
      modifies this
      ensures Valid()
      ensures multiset(pairs) == multiset(old(pairs)) && |pairs| == |old(pairs)|
      ensures var n := if PairCount(rows * cols) <= |pairs| then PairCount(rows * cols) else |pairs|;
        |cards| == 2 * n && multiset(cards) == multiset(CardsOf(pairs[..n]))
      ensures forall k :: 0 <= k < |cards| ==> !cards[k].flipped
      ensures pending == old(pending) && canFlip == old(canFlip) && matchedPairs == old(matchedPairs)
      ensures currentPlayer == old(currentPlayer) && score1 == old(score1) && score2 == old(score2)
      ensures matchedCards == old(matchedCards) == {}
    {
      var reordered, board := Deal(pairs, PairCount(rows * cols));
      FreshBoard(board, pending, canFlip, matchedPairs, score1, score2);
      assert matchedCards == {};
      pairs, cards := reordered, board;
    }

    /** A click on the card at position `i`. It does nothing while flipping
        is locked or when the card is already face up or awaiting
        comparison; otherwise it turns the card up and queues it, and the
        second queued card locks flipping until the pair is resolved
        (`resolutionDue`). */
    method Flip(i: nat) returns (resolutionDue: bool)
      requires Valid() && i < |cards|
      modifies this
      ensures Valid()
      ensures old(!canFlip || cards[i].flipped || i in pending) ==> unchanged(this) && !resolutionDue
      ensures !old(!canFlip || cards[i].flipped || i in pending) ==>
        && cards == old(cards)[i := old(cards[i]).(flipped := true)]
        && pending == old(pending) + [i]
        && resolutionDue == (|pending| == 2)
        && canFlip == !resolutionDue
      ensures pairs == old(pairs) && matchedPairs == old(matchedPairs) && matchedCards == old(matchedCards)
      ensures currentPlayer == old(currentPlayer) && score1 == old(score1) && score2 == old(score2)
    {
      resolutionDue := false;
      if !canFlip || cards[i].flipped || i in pending {
        return;
      }
      FlippedCountUpdate(cards, i, cards[i].(flipped := true));
      SettledFlip(cards, matchedCards, pending, matchedPairs, i);
      cards := cards[i := cards[i].(flipped := true)];
      pending := pending + [i];
      if |pending| == 2 {
        canFlip := false;
        resolutionDue := true;
      }
    }

    /** The delayed resolution of a full pair: a match if the two cards
        share an id and differ in kind, handled as a match or a mismatch;
        `ending` carries the end-of-game announcement, if this was the last
        pair. */
    method Resolve() returns (matched: bool, ending: Option<Outcome>)
      requires Valid() && |pending| == 2
      modifies this
      ensures Valid()
      ensures matched == IsMatch(old(cards[pending[0]]), old(cards[pending[1]]))
      ensures pending == [] && canFlip && pairs == old(pairs)
      ensures matched ==>
        && cards == old(cards)
        && currentPlayer == old(currentPlayer)
        && matchedPairs == old(matchedPairs) + 1
        && matchedCards == old(matchedCards) + {old(pending)[0], old(pending)[1]}
        && score1 == old(score1) + (if currentPlayer == 1 then 1 else 0)
        && score2 == old(score2) + (if currentPlayer == 2 then 1 else 0)
        && ending == (if matchedPairs == |cards| / 2 then Some(Winner(score1, score2)) else None)
      ensures !matched ==>
        && |cards| == |old(cards)|
        && (forall j :: 0 <= j < |cards| ==>
              cards[j] == if j in old(pending) then old(cards[j]).(flipped := false) else old(cards[j]))
        && currentPlayer == Other(old(currentPlayer))
        && matchedPairs == old(matchedPairs) && score1 == old(score1) && score2 == old(score2)
        && matchedCards == old(matchedCards)
        && ending == None
    {
      matched := IsMatch(cards[pending[0]], cards[pending[1]]);
      if matched {
        ending := HandleMatch();
      } else {
        HandleMismatch();
        ending := None;
      }
    }

    /** The current player scores the pair and keeps the turn; the
        matched cards stay face up. When the last pair is found, the
        result is announced. */
    method HandleMatch() returns (ending: Option<Outcome>)
      requires Valid() && |pending| == 2 && IsMatch(cards[pending[0]], cards[pending[1]])
      modifies this
      ensures Valid()
      ensures matchedCards == old(matchedCards) + {old(pending)[0], old(pending)[1]}
      ensures currentPlayer == old(currentPlayer)
      ensures score1 == old(score1) + (if currentPlayer == 1 then 1 else 0)
      ensures score2 == old(score2) + (if currentPlayer == 2 then 1 else 0)
      ensures matchedPairs == old(matchedPairs) + 1
      ensures pending == [] && canFlip
      ensures cards == old(cards) && pairs == old(pairs)
      ensures ending == if matchedPairs == |cards| / 2 then Some(Winner(score1, score2)) else None
      ensures ending.Some? ==> AllMatched(cards, matchedCards)
    {
      var s1 := if currentPlayer == 1 then score1 + 1 else score1;
      var s2 := if currentPlayer == 2 then score2 + 1 else score2;
      MatchStep(cards, matchedCards, pending, canFlip, matchedPairs, score1, score2, s1, s2);
      ending := if matchedPairs + 1 == |cards| / 2 then Some(Winner(s1, s2)) else None;
      matchedCards, matchedPairs := matchedCards + {pending[0], pending[1]}, matchedPairs + 1;
      score1, score2, pending, canFlip := s1, s2, [], true;
    }

    /** Turns the two awaiting cards face down again and passes the turn;
        every other card, the scores and the matched count stay as they were. */
    method HandleMismatch()
      requires Valid() && |pending| == 2
      modifies this
      ensures Valid()
      ensures |cards| == |old(cards)|
      ensures forall j :: 0 <= j < |cards| ==>
        cards[j] == if j in old(pending) then old(cards[j]).(flipped := false) else old(cards[j])
      ensures currentPlayer == Other(old(currentPlayer))
      ensures pending == [] && canFlip
      ensures matchedPairs == old(matchedPairs) && score1 == old(score1) && score2 == old(score2)
      ensures matchedCards == old(matchedCards) && pairs == old(pairs)
    {
      var board := TurnDown(cards, pending);
      SettledMismatch(cards, matchedCards, pending, matchedPairs, board);
      cards := board;
      pending := [];
      currentPlayer := Other(currentPlayer);
      canFlip := true;
    }
  }

  /** A client of the controller: a 10-by-10 grid is refused against a
      roster of four pairs and leaves the session as it was; a 2-by-4 grid
      deals eight face-down cards, and a first turn is played on them. */
  method ExampleSession()
  {
    var roster := [Pair("Ada", "ada.png"), Pair("Alan", "alan.png"),
                   Pair("Grace", "grace.png"), Pair("Edsger", "edsger.png")];
    var game := new Game(roster);
    var ok := game.Initialize(10, 10);
    assert !ok && game.cards == [] && game.pairs == roster;
    ok := game.Initialize(2, 4);
    assert ok && |game.cards| == 8;
    ExampleTurn(game);
  }

  /** A first turn on a freshly dealt board of eight cards: clicking the
      same card twice queues it once; a second card locks flipping, so a
      third click does nothing, until the pair is resolved. */
  method ExampleTurn(game: Game)
    requires game.Valid() && |game.cards| == 8 && forall k :: 0 <= k < 8 ==> !game.cards[k].flipped
    requires game.pending == [] && game.canFlip && game.currentPlayer == 1
    requires game.matchedPairs == 0 && game.score1 == 0
    modifies game
  {
    var due := game.Flip(0);
    assert !due && game.pending == [0];
    due := game.Flip(0);
    assert !due && game.pending == [0];
    due := game.Flip(1);
    assert due && game.pending == [0, 1] && !game.canFlip;
    due := game.Flip(2);
    assert !due && game.pending == [0, 1];
    var matched, ending := game.Resolve();
    assert game.pending == [] && game.canFlip && ending == None;
    assert matched ==> game.score1 == 1 && game.currentPlayer == 1;
    assert !matched ==> game.score1 == 0 && game.currentPlayer == 2;
  }
}
