/**
 * The production round resolver (RpsGame.Api/Services/GameEngine.cs):
 * the fixed move table, the set of player-winning pairs, the random
 * computer move and the case-insensitive winner rule.
 */
module GameEngine {
  import opened Text

  /** The three outcomes of a round. */
  datatype Winner = Player | Computer | Draw {
    /** The wire name of the outcome, as stored and returned by the API. */
    function Name(): (r: string)
      ensures r in WinnerNames
      ensures r == "draw" <==> this == Draw
      ensures r == "player" <==> this == Player
    {
      match this
      case Player => "player"
      case Computer => "computer"
      case Draw => "draw"
    }
  }

  const WinnerNames: set<string> := {"player", "computer", "draw"}

  /** The argument name carried by an ArgumentNullException. */
  datatype ArgumentNull = ArgumentNull(paramName: string)

  /** The move table `Moves`. */
  const Moves: seq<string> := ["rock", "paper", "scissors"]

  /** The table `PlayerWinningPairs`: (player move, computer move) pairs the player wins. */
  const PlayerWinningPairs: set<(string, string)> :=
    {("rock", "scissors"), ("scissors", "paper"), ("paper", "rock")}

  /**
   * GenerateComputerMove: `Moves[Random.Shared.Next(Moves.Length - 1)]`.
   * `draw` is the value the random source returned; Next(n) promises
   * 0 <= draw < n, so only the first two entries of the table are reachable.
   */
  function GenerateComputerMove(draw: nat): (r: string)
    requires draw < |Moves| - 1
    ensures r in Moves
    ensures r == "rock" || r == "paper"
    ensures r != "scissors"
  {
    Moves[draw]
  }

  /** Every move GenerateComputerMove can return, over every draw Next can make. */
  function GeneratedMoves(): set<string>
  {
    set draw: nat | draw < |Moves| - 1 :: GenerateComputerMove(draw)
  }

  /** The reachable set is exactly {rock, paper}: scissors is never generated. */
  lemma ScissorsNeverGenerated()
    ensures GeneratedMoves() == {"rock", "paper"}
    ensures "scissors" !in GeneratedMoves()
  {
    assert GenerateComputerMove(0) == "rock";
    assert GenerateComputerMove(1) == "paper";
  }

  /** The draw the generator was evidently meant to make: `Next(Moves.Length)`. */
  function GenerateComputerMoveFullRange(draw: nat): (r: string)
    requires draw < |Moves|
    ensures r in Moves
    ensures r == Moves[draw]
  {
    Moves[draw]
  }

  /** With the full range, each of the three moves is reachable. */
  lemma EveryMoveGenerated()
    ensures (set draw: nat | draw < |Moves| :: GenerateComputerMoveFullRange(draw)) == set m | m in Moves
  {
    var reach := set draw: nat | draw < |Moves| :: GenerateComputerMoveFullRange(draw);
    assert GenerateComputerMoveFullRange(0) in reach;
    assert GenerateComputerMoveFullRange(1) in reach;
    assert GenerateComputerMoveFullRange(2) in reach;
  }

  /**
   * ResolveWinner: rejects a null player move, then a null computer move,
   * then compares the lower-cased moves: equal is a draw, a pair in
   * PlayerWinningPairs is a player win, anything else a computer win.
   */
  function ResolveWinner(playerMove: Option<string>, computerMove: Option<string>): (r: Result<Winner, ArgumentNull>)
    ensures playerMove.None? <==> r == Err(ArgumentNull("playerMove"))
    ensures playerMove.Some? && computerMove.None? <==> r == Err(ArgumentNull("computerMove"))
    ensures playerMove.Some? && computerMove.Some? <==> r.Ok?
  {
    if playerMove.None? then Err(ArgumentNull("playerMove"))
    else if computerMove.None? then Err(ArgumentNull("computerMove"))
    else
      var p := Lower(playerMove.value);
      var c := Lower(computerMove.value);
      if p == c then Ok(Draw)
      else if (p, c) in PlayerWinningPairs then Ok(Player)
      else Ok(Computer)
  }

  /** The outcome on two non-null moves. */
  function Outcome(playerMove: string, computerMove: string): Winner
  {
    ResolveWinner(Some(playerMove), Some(computerMove)).value
  }

  /**
   * The outcome in terms of the lower-cased moves: a draw exactly when they
   * are equal, a player win exactly when they form a winning pair, and a
   * computer win otherwise.
   */
  lemma OutcomeCharacterised(playerMove: string, computerMove: string)
    ensures var p, c := Lower(playerMove), Lower(computerMove);
      && (Outcome(playerMove, computerMove) == Draw <==> p == c)
      && (Outcome(playerMove, computerMove) == Player <==> (p, c) in PlayerWinningPairs)
      && (Outcome(playerMove, computerMove) == Computer <==> p != c && (p, c) !in PlayerWinningPairs)
  {
  }

  /** Only the lower-cased moves matter: "RoCk" against "SCISSORS" is "rock" against "scissors". */
  lemma CaseInsensitive(playerMove: string, computerMove: string)
    ensures ResolveWinner(Some(playerMove), Some(computerMove))
         == ResolveWinner(Some(Lower(playerMove)), Some(Lower(computerMove)))
  {
    LowerIdempotent(playerMove);
    LowerIdempotent(computerMove);
  }

  /** A move the table does not know (such as "lizard") never wins: it draws only against itself. */
  lemma UnknownMoveNeverWins(playerMove: string, computerMove: string)
    requires Lower(playerMove) !in Moves
    ensures Outcome(playerMove, computerMove) != Player
    ensures Lower(playerMove) != Lower(computerMove) ==> Outcome(playerMove, computerMove) == Computer
  {
  }

  /** The position of a canonical move in the table. */
  function IndexOf(m: string): (i: nat)
    requires m in Moves
    ensures i < |Moves| && Moves[i] == m
  {
    if m == Moves[0] then 0 else if m == Moves[1] then 1 else 2
  }

  /**
   * An independent reference rule: with rock, paper, scissors numbered
   * 0, 1, 2, a move beats the one numbered one below it, cyclically.
   */
  function CyclicOutcome(playerMove: string, computerMove: string): (w: Winner)
    requires playerMove in Moves && computerMove in Moves
  {
    var d := (IndexOf(playerMove) - IndexOf(computerMove)) % 3;
    if d == 0 then Draw else if d == 1 then Player else Computer
  }

  /** On canonical moves the table-driven rule and the cyclic rule agree. */
  lemma OutcomeMatchesCyclicRule(playerMove: string, computerMove: string)
    requires playerMove in Moves && computerMove in Moves
    ensures Outcome(playerMove, computerMove) == CyclicOutcome(playerMove, computerMove)
  {
    assert Lower(playerMove) == playerMove by { LowerCanonical(playerMove); }
    assert Lower(computerMove) == computerMove by { LowerCanonical(computerMove); }
  }

  /** The canonical moves are already in lower case. */
  lemma LowerCanonical(m: string)
    requires m in Moves
    ensures Lower(m) == m
  {
  }

  /** For two distinct canonical moves, swapping them swaps the player and computer wins. */
  lemma SwapAntisymmetric(a: string, b: string)
    requires a in Moves && b in Moves && a != b
    ensures Outcome(a, b) != Draw
    ensures Outcome(a, b) == Player <==> Outcome(b, a) == Computer
  {
    OutcomeMatchesCyclicRule(a, b);
    OutcomeMatchesCyclicRule(b, a);
  }
}
