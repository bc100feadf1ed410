/** Rules of the two-player game that are plain computations: whose turn
    comes next, who wins, and how a requested grid size translates into a
    number of pairs. */
module Rules {

  datatype Option<T> = None | Some(value: T)

  /** The two players are numbered 1 and 2. */
  type Player = p: int | p == 1 || p == 2 witness 1

  /** The turn passes to the other player. */
  function Other(p: Player): (q: Player)
    ensures q != p
  {
    if p == 1 then 2 else 1
  }

  /** Passing the turn twice gives it back. */
  lemma OtherInvolutive(p: Player)
    ensures Other(Other(p)) == p
  {
  }

  /** The end-of-game announcement: a winner together with the number of
      pairs they found, or a tie. */
  datatype Outcome = Won(player: Player, pairs: nat) | Tie

  /** The player with strictly more pairs wins and is announced with their
      own score; equal scores are a tie. */
  function Winner(score1: nat, score2: nat): (o: Outcome)
    ensures o == Tie <==> score1 == score2
    ensures o.Won? ==> o.pairs == (if o.player == 1 then score1 else score2)
    ensures o.Won? ==> o.pairs > (if o.player == 1 then score2 else score1)
  {
    if score1 > score2 then Won(1, score1)
    else if score1 < score2 then Won(2, score2)
    else Tie
  }

  /** The winner does not depend on the players' numbering: swapping the
      scores swaps the winner. */
  lemma WinnerSymmetric(score1: nat, score2: nat)
    ensures Winner(score2, score1) ==
      match Winner(score1, score2)
      case Won(p, n) => Won(Other(p), n)
      case Tie => Tie
  {
  }

  /** The number of pairs a grid of `cells` cells (rows times columns) asks
      for, with the fraction a grid with an odd number of cells leaves. */
  function TotalPairs(cells: nat): real {
    cells as real / 2.0
  }

  /** A grid can be dealt unless it asks for more pairs than the roster has;
      with the fraction cleared, it needs no more cells than twice the roster. */
  function EnoughPairs(cells: nat, available: nat): (ok: bool)
    ensures ok <==> cells <= 2 * available
  {
    !(TotalPairs(cells) > available as real)
  }

  /** The number of pairs actually dealt: taking a fractional count of pairs
      from the roster truncates it, so an odd grid gets one cell fewer cards. */
  function PairCount(cells: nat): (n: nat)
    ensures 2 * n <= cells <= 2 * n + 1
    ensures cells % 2 == 0 ==> 2 * n == cells
  {
    TotalPairs(cells).Floor
  }
}
