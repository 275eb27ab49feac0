/** Judging one round and updating the two score counters. */
module Rounds {
  import opened Gestures

  /** How a round ends, seen from the player. */
  datatype Outcome = Tie | PlayerWins | ComputerWins

  /** The two running scores. */
  datatype Scores = Scores(player: nat, computer: nat)

  /** Position of a move in the cycle Rock, Paper, Scissors. */
  function Index(m: Move): (i: int)
    ensures 0 <= i < 3
  {
    if m == Rock then 0 else if m == Paper then 1 else 2
  }

  /** Reference rule, independent of the judge's condition chain: a move beats
      the move just before it in the cycle (Paper beats Rock, Scissors beats
      Paper, and Rock, wrapping around, beats Scissors). */
  predicate Beats(a: Move, b: Move) {
    (Index(a) - Index(b)) % 3 == 1
  }

  /** The round judge: equal moves tie, the three listed pairs are player
      wins, and every other pair is a computer win. */
  function RoundOutcome(player: Move, computer: Move): (o: Outcome)
    ensures o == Tie <==> player == computer
    ensures o == PlayerWins <==> Beats(player, computer)
    ensures o == ComputerWins <==> Beats(computer, player)
  {
    if player == computer then Tie
    else if (player == Rock && computer == Scissors)
         || (player == Scissors && computer == Paper)
         || (player == Paper && computer == Rock)
    then PlayerWins
    else ComputerWins
  }

  /** The outcome seen from the other side. */
  function Mirror(o: Outcome): Outcome {
    match o
    case Tie => Tie
    case PlayerWins => ComputerWins
    case ComputerWins => PlayerWins
  }

  /** Swapping the two moves swaps a win for a loss and keeps a tie. */
  lemma RoundOutcomeSwap(a: Move, b: Move)
    ensures RoundOutcome(b, a) == Mirror(RoundOutcome(a, b))
  {
  }

  /** Beats is a tournament on the three moves: no move beats itself, no two
      moves beat each other, and of two different moves exactly one beats the
      other; it is not transitive, since the three wins form a cycle. */
  lemma BeatsIsCyclicTournament(a: Move, b: Move)
    ensures !Beats(a, a)
    ensures Beats(a, b) ==> !Beats(b, a)
    ensures a != b ==> Beats(a, b) || Beats(b, a)
    ensures Beats(Rock, Scissors) && Beats(Scissors, Paper) && Beats(Paper, Rock)
  {
  }

  /** The score update of one frame: nothing happens while the player's
      choice is Waiting or on a tie; otherwise the winner's counter goes up
      by one. */
  function ScoreRound(s: Scores, player: Choice, computer: Move): (t: Scores)
    ensures t == s || t == s.(player := s.player + 1) || t == s.(computer := s.computer + 1)
    ensures t == s <==> player == Waiting || player == computer
    ensures t.player == s.player + 1 <==> player != Waiting && Beats(player, computer)
    ensures t.computer == s.computer + 1 <==> player != Waiting && Beats(computer, player)
  {
    if player == Waiting then s
    else match RoundOutcome(player, computer)
      case Tie => s
      case PlayerWins => s.(player := s.player + 1)
      case ComputerWins => s.(computer := s.computer + 1)
  }
}
