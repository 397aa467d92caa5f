/**
 * The integration-test host (RpsGame.Api.Tests/Infrastructure/CustomWebApplicationFactory.cs):
 * DeterministicGameEngine, which always plays rock and delegates the winner
 * rule to GameEngine, and the IGameEngine substitution point it fills.
 */
module TestHost {
  import opened Text
  import GameEngine

  /** DeterministicGameEngine.GenerateComputerMove: always "rock". */
  function DeterministicComputerMove(): (r: string)
    ensures r in GameEngine.Moves && r == GameEngine.Moves[0]
  {
    "rock"
  }

  /** DeterministicGameEngine.ResolveWinner: forwards to the fallback GameEngine. */
  function DeterministicResolveWinner(playerMove: Option<string>, computerMove: Option<string>)
    : (r: Result<GameEngine.Winner, GameEngine.ArgumentNull>)
    ensures playerMove.None? ==> r == Err(GameEngine.ArgumentNull("playerMove"))
    ensures playerMove.Some? && computerMove.None? ==> r == Err(GameEngine.ArgumentNull("computerMove"))
    ensures playerMove.Some? && computerMove.Some? ==> r.Ok?
  {
    GameEngine.ResolveWinner(playerMove, computerMove)
  }

  /** Delegation is exact, null-argument errors included. */
  lemma DeterministicDelegates(playerMove: Option<string>, computerMove: Option<string>)
    ensures DeterministicResolveWinner(playerMove, computerMove) == GameEngine.ResolveWinner(playerMove, computerMove)
  {
  }

  /** The two implementations of IGameEngine: the production engine and the test stand-in. */
  datatype EngineKind = Production | Deterministic

  /**
   * IGameEngine.GenerateComputerMove for either implementation; `draw` is the
   * random source's value, ignored by the deterministic engine. The production
   * engine draws with `Next(Moves.Length - 1)`, so its draw is below 2.
   */
  function EngineComputerMove(engine: EngineKind, draw: nat): (r: string)
    requires draw < |GameEngine.Moves|
    requires engine.Production? ==> draw < |GameEngine.Moves| - 1
    ensures r in GameEngine.Moves
    ensures engine.Deterministic? ==> r == "rock"
    ensures engine.Production? ==> r == GameEngine.Moves[draw] && r != "scissors"
  {
    match engine
    case Production => GameEngine.GenerateComputerMove(draw)
    case Deterministic => DeterministicComputerMove()
  }

  /** IGameEngine.ResolveWinner for either implementation. */
  function EngineResolveWinner(engine: EngineKind, playerMove: Option<string>, computerMove: Option<string>)
    : (r: Result<GameEngine.Winner, GameEngine.ArgumentNull>)
    ensures playerMove.None? ==> r == Err(GameEngine.ArgumentNull("playerMove"))
    ensures playerMove.Some? && computerMove.None? ==> r == Err(GameEngine.ArgumentNull("computerMove"))
    ensures r == GameEngine.ResolveWinner(playerMove, computerMove)
  {
    match engine
    case Production => GameEngine.ResolveWinner(playerMove, computerMove)
    case Deterministic => DeterministicResolveWinner(playerMove, computerMove)
  }

  /** Both implementations decide every round the same way. */
  lemma EnginesResolveAlike(playerMove: Option<string>, computerMove: Option<string>)
    ensures EngineResolveWinner(Production, playerMove, computerMove)
         == EngineResolveWinner(Deterministic, playerMove, computerMove)
  {
  }

  /** With the deterministic engine, a round whose player move lower-cases to "rock" is a draw. */
  lemma DeterministicRockDraws(playerMove: string, draw: nat)
    requires draw < |GameEngine.Moves|
    requires Lower(playerMove) == "rock"
    ensures EngineResolveWinner(Deterministic, Some(playerMove), Some(EngineComputerMove(Deterministic, draw)))
         == Ok(GameEngine.Draw)
  {
  }
}
