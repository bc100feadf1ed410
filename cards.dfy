/** Cards of the memory game: the configured name/portrait pairs, the cards
    built from them, the rule that decides whether two face-up cards match,
    and the facts about a freshly built board that make every game winnable. */
module Cards {

  /** One entry of the configured roster: a person's name and the URL of
      their portrait. */
  datatype Pair = Pair(name: string, portrait: string)

  /** The `type` of a card: it shows either the name or the portrait. */
  datatype Kind = Name | Portrait

  /** A card on the board. `id` is the name of the pair it was made from;
      `face` is what it shows when turned up (the name for a Name card, the
      portrait URL for a Portrait card); `flipped` is the card's face-up mark. */
  datatype Card = Card(kind: Kind, id: string, face: string, flipped: bool)

  function NameCard(p: Pair): Card { Card(Name, p.name, p.name, false) }

  function PortraitCard(p: Pair): Card { Card(Portrait, p.name, p.portrait, false) }

  /** Two face-up cards match when they come from the same pair and one shows
      the name while the other shows the portrait; in particular no card
      matches itself. */
  function IsMatch(a: Card, b: Card): (m: bool)
    ensures m ==> a != b
  {
    a.id == b.id && a.kind != b.kind
  }

  /** The unshuffled card list: for each selected pair, in order, its name
      card followed by its portrait card. */
  function CardsOf(ps: seq<Pair>): (cs: seq<Card>)
    ensures |cs| == 2 * |ps|
  {
    if ps == [] then []
    else CardsOf(ps[..|ps| - 1]) + [NameCard(ps[|ps| - 1]), PortraitCard(ps[|ps| - 1])]
  }

  /** Builds the card list pair by pair, appending two cards per pair. */
  method BuildCards(selected: seq<Pair>) returns (cards: seq<Card>)
    ensures cards == CardsOf(selected)
  {
    cards := [];
    for k := 0 to |selected|
      invariant cards == CardsOf(selected[..k])
    {
      var pair := selected[k];
      cards := cards + [NameCard(pair), PortraitCard(pair)];
      assert selected[..k + 1][..k] == selected[..k];
    }
    assert selected[..|selected|] == selected;
  }

  /** Position `i` of the unshuffled list holds the name card (even `i`) or
      the portrait card (odd `i`) of pair `i / 2`. */
  lemma {:induction false} CardsOfAt(ps: seq<Pair>, i: nat)
    requires i < 2 * |ps|
    ensures CardsOf(ps)[i] == if i % 2 == 0 then NameCard(ps[i / 2]) else PortraitCard(ps[i / 2])
  {
    var init := ps[..|ps| - 1];
    if i < 2 * |init| {
      CardsOfAt(init, i);
    }
  }

  /** Every card of a freshly built list is face down. */
  lemma {:induction false} CardsOfFaceDown(ps: seq<Pair>)
    ensures forall k :: 0 <= k < |CardsOf(ps)| ==> !CardsOf(ps)[k].flipped
  {
    forall k | 0 <= k < |CardsOf(ps)|
      ensures !CardsOf(ps)[k].flipped
    {
      CardsOfAt(ps, k);
    }
  }

  /** Reorders the roster in some arbitrary way and takes the first `count`
      pairs of the new order (all of them if there are fewer). The new order
      is returned too: it replaces the configured roster. */
  method GetRandomPairs(roster: seq<Pair>, count: nat) returns (reordered: seq<Pair>, selected: seq<Pair>)
    ensures multiset(reordered) == multiset(roster) && |reordered| == |roster|
    ensures selected == reordered[..if count <= |roster| then count else |roster|]
  {
    reordered :| multiset(reordered) == multiset(roster);
    assert |reordered| == |multiset(reordered)| == |roster|;
    selected := reordered[..if count <= |roster| then count else |roster|];
  }

  /** Deals a board: draws `count` pairs from the reordered roster, makes a
      name card and a portrait card for each, and shuffles the cards. */
  method Deal(roster: seq<Pair>, count: nat) returns (reordered: seq<Pair>, board: seq<Card>)
    ensures multiset(reordered) == multiset(roster) && |reordered| == |roster|
    ensures var n := if count <= |roster| then count else |roster|;
      |board| == 2 * n && multiset(board) == multiset(CardsOf(reordered[..n]))
    ensures |board| % 2 == 0 && forall k :: 0 <= k < |board| ==> !board[k].flipped
  {
    var selected;
    reordered, selected := GetRandomPairs(roster, count);
    var built := BuildCards(selected);
    board := Shuffle(built);
    DealtBoardFaceDown(selected, board);
  }

  /** Puts the cards in some arbitrary order. Which order is left open: the
      model claims nothing about how the order is chosen. */
  method Shuffle(cards: seq<Card>) returns (shuffled: seq<Card>)
    ensures multiset(shuffled) == multiset(cards)
  {
    shuffled :| multiset(shuffled) == multiset(cards);
  }

  /** A dealt board, that is any shuffle of the cards built from the
      selected pairs, has two cards per pair, all of them face down. */
  lemma {:induction false} DealtBoardFaceDown(selected: seq<Pair>, board: seq<Card>)
    requires multiset(board) == multiset(CardsOf(selected))
    ensures |board| == 2 * |selected|
    ensures forall k :: 0 <= k < |board| ==> !board[k].flipped
  {
    assert |board| == |multiset(board)| == |CardsOf(selected)|;
    CardsOfFaceDown(selected);
    forall k | 0 <= k < |board|
      ensures !board[k].flipped
    {
      assert board[k] in multiset(CardsOf(selected));
    }
  }

  /** A dealt board holds exactly one name card and one portrait card per
      selected pair of each name, wherever the shuffle put them. */
  lemma {:induction false} DealtBoardCounts(selected: seq<Pair>, board: seq<Card>)
    requires multiset(board) == multiset(CardsOf(selected))
    ensures forall x :: Count(board, x, Name) == Named(selected, x)
    ensures forall x :: Count(board, x, Portrait) == Named(selected, x)
  {
    forall x
      ensures Count(board, x, Name) == Named(selected, x)
      ensures Count(board, x, Portrait) == Named(selected, x)
    {
      CountCardsOf(selected, x);
      CountPermutation(board, CardsOf(selected), x, Name);
      CountPermutation(board, CardsOf(selected), x, Portrait);
    }
  }

  /** Number of cards in `s` with the given id and kind. */
  function Count(s: seq<Card>, id: string, kind: Kind): (n: nat)
    ensures n <= |s|
  {
    if s == [] then 0
    else (if s[0].id == id && s[0].kind == kind then 1 else 0) + Count(s[1..], id, kind)
  }

  /** Number of pairs in `ps` whose name is `id`. */
  function Named(ps: seq<Pair>, id: string): (n: nat)
    ensures n <= |ps|
  {
    if ps == [] then 0
    else Named(ps[..|ps| - 1], id) + (if ps[|ps| - 1].name == id then 1 else 0)
  }

  /** Names in the roster are pairwise different. */
  ghost predicate DistinctNames(ps: seq<Pair>) {
    forall a, b :: 0 <= a < b < |ps| ==> ps[a].name != ps[b].name
  }

  lemma {:induction false} CountConcat(a: seq<Card>, b: seq<Card>, id: string, kind: Kind)
    ensures Count(a + b, id, kind) == Count(a, id, kind) + Count(b, id, kind)
  {
    if a == [] {
      assert a + b == b;
    } else {
      assert (a + b)[1..] == a[1..] + b;
      CountConcat(a[1..], b, id, kind);
    }
  }

  /** The unshuffled list holds, for every id, exactly one name card and one
      portrait card per selected pair of that name. */
  lemma {:induction false} CountCardsOf(ps: seq<Pair>, id: string)
    ensures Count(CardsOf(ps), id, Name) == Named(ps, id)
    ensures Count(CardsOf(ps), id, Portrait) == Named(ps, id)
  {
    if ps != [] {
      var init, p := ps[..|ps| - 1], ps[|ps| - 1];
      var tail := [NameCard(p), PortraitCard(p)];
      CountCardsOf(init, id);
      CountConcat(CardsOf(init), tail, id, Name);
      CountConcat(CardsOf(init), tail, id, Portrait);
      assert tail[1..][1..] == [];
    }
  }

  /** Shuffling does not change how many cards of each id and kind there are. */
  lemma {:induction false} CountPermutation(s: seq<Card>, t: seq<Card>, id: string, kind: Kind)
    requires multiset(s) == multiset(t)
    ensures Count(s, id, kind) == Count(t, id, kind)
    decreases |s|
  {
    if s == [] {
      assert |t| == |multiset(t)| == 0;
    } else {
      assert s[0] in multiset(t);
      var j :| 0 <= j < |t| && t[j] == s[0];
      RemoveOne(s, t, j);
      CountPermutation(s[1..], t[..j] + t[j + 1..], id, kind);
      CountRemove(t, j, id, kind);
    }
  }

  lemma RemoveOne(s: seq<Card>, t: seq<Card>, j: nat)
    requires multiset(s) == multiset(t) && s != [] && j < |t| && t[j] == s[0]
    ensures multiset(s[1..]) == multiset(t[..j] + t[j + 1..])
  {
    var rest := t[..j] + t[j + 1..];
    assert t == t[..j] + [t[j]] + t[j + 1..];
    assert s == [s[0]] + s[1..];
    calc {
      multiset(s[1..]);
      multiset(s) - multiset{s[0]};
      multiset(t) - multiset{t[j]};
      multiset(t[..j]) + multiset(t[j + 1..]);
      multiset(rest);
    }
  }

  lemma CountRemove(t: seq<Card>, j: nat, id: string, kind: Kind)
    requires j < |t|
    ensures Count(t, id, kind) == Count(t[..j] + t[j + 1..], id, kind) + Count([t[j]], id, kind)
  {
    assert t == t[..j] + ([t[j]] + t[j + 1..]);
    CountConcat(t[..j], [t[j]] + t[j + 1..], id, kind);
    CountConcat([t[j]], t[j + 1..], id, kind);
    CountConcat(t[..j], t[j + 1..], id, kind);
  }

  /** A card at position `k` is counted under its own id and kind. */
  lemma {:induction false} CountPositive(s: seq<Card>, k: nat)
    requires k < |s|
    ensures Count(s, s[k].id, s[k].kind) >= 1
  {
    if k > 0 {
      CountPositive(s[1..], k - 1);
    }
  }

  /** A positive count is witnessed by a position. */
  lemma {:induction false} CountWitness(s: seq<Card>, id: string, kind: Kind)
    requires Count(s, id, kind) > 0
    ensures exists j :: 0 <= j < |s| && s[j].id == id && s[j].kind == kind
  {
    if !(s[0].id == id && s[0].kind == kind) {
      CountWitness(s[1..], id, kind);
      var j :| 0 <= j < |s[1..]| && s[1..][j].id == id && s[1..][j].kind == kind;
      assert s[j + 1] == s[1..][j];
    }
  }

  /** Two different positions with the same id and kind make the count at
      least two. */
  lemma {:induction false} CountTwo(s: seq<Card>, j1: nat, j2: nat)
    requires j1 < j2 < |s|
    requires s[j1].id == s[j2].id && s[j1].kind == s[j2].kind
    ensures Count(s, s[j1].id, s[j1].kind) >= 2
  {
    if j1 == 0 {
      CountPositive(s[1..], j2 - 1);
    } else {
      CountTwo(s[1..], j1 - 1, j2 - 1);
    }
  }

  /** On a board holding as many name cards as portrait cards of every id,
      every card has a partner on the board: a different card it matches. */
  lemma {:induction false} EveryCardHasPartner(board: seq<Card>, i: nat)
    requires forall x :: Count(board, x, Name) == Count(board, x, Portrait)
    requires i < |board|
    ensures exists j :: 0 <= j < |board| && j != i && IsMatch(board[i], board[j])
  {
    var c := board[i];
    var other := if c.kind == Name then Portrait else Name;
    CountPositive(board, i);
    assert Count(board, c.id, other) >= 1;
    CountWitness(board, c.id, other);
    var j :| 0 <= j < |board| && board[j].id == c.id && board[j].kind == other;
    assert IsMatch(board[i], board[j]);
  }

  /** When every id occurs on at most one name card and one portrait card
      (the roster's names are distinct), a card's partner is unique. */
  lemma {:induction false} PartnerIsUnique(board: seq<Card>, i: nat, j1: nat, j2: nat)
    requires forall x :: Count(board, x, Name) <= 1 && Count(board, x, Portrait) <= 1
    requires i < |board| && j1 < |board| && j2 < |board|
    requires IsMatch(board[i], board[j1]) && IsMatch(board[i], board[j2])
    ensures j1 == j2
  {
    if j1 < j2 {
      CountTwo(board, j1, j2);
    } else if j2 < j1 {
      CountTwo(board, j2, j1);
    }
  }

  /** A roster with distinct names names each id at most once. */
  lemma {:induction false} NamedAtMostOnce(ps: seq<Pair>, id: string)
    requires DistinctNames(ps)
    ensures Named(ps, id) <= 1
  {
    if ps != [] {
      var init := ps[..|ps| - 1];
      NamedAtMostOnce(init, id);
      if ps[|ps| - 1].name == id {
        NamedNone(init, id);
      }
    }
  }

  lemma {:induction false} NamedNone(ps: seq<Pair>, id: string)
    requires forall a :: 0 <= a < |ps| ==> ps[a].name != id
    ensures Named(ps, id) == 0
  {
    if ps != [] {
      NamedNone(ps[..|ps| - 1], id);
    }
  }

  /** In a roster with distinct names no entry occurs twice. */
  lemma {:induction false} DistinctOccursOnce(ps: seq<Pair>, e: Pair)
    requires DistinctNames(ps)
    ensures multiset(ps)[e] <= 1
  {
    if ps != [] {
      var init, last := ps[..|ps| - 1], ps[|ps| - 1];
      assert ps == init + [last];
      DistinctOccursOnce(init, e);
      if e == last {
        forall a | 0 <= a < |init|
          ensures init[a] != e
        {
          assert ps[a].name != ps[|ps| - 1].name;
        }
      }
    }
  }

  /** An entry found at two different positions occurs at least twice. */
  lemma OccursTwice(ps: seq<Pair>, a: nat, b: nat)
    requires a < b < |ps| && ps[a] == ps[b]
    ensures multiset(ps)[ps[a]] >= 2
  {
    assert ps == ps[..b] + ps[b..];
    assert ps[..b][a] == ps[a];
    assert ps[b..][0] == ps[b];
  }

  /** Reordering a roster whose names are distinct keeps them distinct. */
  lemma DistinctNamesPermutation(roster: seq<Pair>, reordered: seq<Pair>)
    requires multiset(reordered) == multiset(roster) && DistinctNames(roster)
    ensures DistinctNames(reordered)
  {
    forall a, b | 0 <= a < b < |reordered|
      ensures reordered[a].name != reordered[b].name
    {
      if reordered[a] == reordered[b] {
        OccursTwice(reordered, a, b);
        DistinctOccursOnce(roster, reordered[a]);
      } else {
        assert reordered[a] in multiset(roster) && reordered[b] in multiset(roster);
        var i :| 0 <= i < |roster| && roster[i] == reordered[a];
        var j :| 0 <= j < |roster| && roster[j] == reordered[b];
        assert i != j;
      }
    }
  }

  /** Every card of a dealt board, that is any shuffle of the cards built
      from the selected pairs, has a partner on the board. */
  lemma DealtEveryCardHasPartner(selected: seq<Pair>, board: seq<Card>, i: nat)
    requires multiset(board) == multiset(CardsOf(selected))
    requires i < |board|
    ensures exists j :: 0 <= j < |board| && j != i && IsMatch(board[i], board[j])
  {
    DealtBoardCounts(selected, board);
    assert forall x :: Count(board, x, Name) == Count(board, x, Portrait);
    EveryCardHasPartner(board, i);
  }

  /** A board dealt from a roster with distinct names, whatever the
      reordering of the roster and the shuffle of the cards, holds at most
      one name card and one portrait card of each id. */
  lemma DealtOncePerId(roster: seq<Pair>, reordered: seq<Pair>, n: nat, board: seq<Card>)
    requires DistinctNames(roster) && multiset(reordered) == multiset(roster)
    requires n <= |reordered| && multiset(board) == multiset(CardsOf(reordered[..n]))
    ensures forall x :: Count(board, x, Name) <= 1 && Count(board, x, Portrait) <= 1
  {
    var selected := reordered[..n];
    DistinctNamesPermutation(roster, reordered);
    assert DistinctNames(selected);
    DealtBoardCounts(selected, board);
    forall x
      ensures Count(board, x, Name) <= 1 && Count(board, x, Portrait) <= 1
    {
      NamedAtMostOnce(selected, x);
    }
  }

  /** On a board dealt from a roster with distinct names, a card's partner
      is unique. */
  lemma DealtUniquePartner(roster: seq<Pair>, reordered: seq<Pair>, n: nat, board: seq<Card>)
    requires DistinctNames(roster) && multiset(reordered) == multiset(roster)
    requires n <= |reordered| && multiset(board) == multiset(CardsOf(reordered[..n]))
    ensures forall i, j1, j2 ::
      (0 <= i < |board| && 0 <= j1 < |board| && 0 <= j2 < |board| &&
       IsMatch(board[i], board[j1]) && IsMatch(board[i], board[j2])) ==> j1 == j2
  {
    DealtOncePerId(roster, reordered, n, board);
    forall i, j1, j2 | 0 <= i < |board| && 0 <= j1 < |board| && 0 <= j2 < |board| &&
      IsMatch(board[i], board[j1]) && IsMatch(board[i], board[j2])
      ensures j1 == j2
    {
      PartnerIsUnique(board, i, j1, j2);
    }
  }
}
