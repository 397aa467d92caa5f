/**
 * The HTTP endpoints of RpsGame.Api/Program.cs: the play handler's own
 * computer-move draw and case-sensitive winner rule, and the result store
 * behind play (append), history (newest first) and reset (clear).
 */
module Endpoints {
  import opened Text
  import GameEngine
  import TestHost

  type Winner = GameEngine.Winner

  /** The handler's local `moves` array. */
  const PlayMoves: seq<string> := ["rock", "paper", "scissors"]

  /** The handler's move list is the engine's move table. */
  lemma PlayMovesAreEngineMoves()
    ensures PlayMoves == GameEngine.Moves
  {
  }

  /**
   * The computer move `moves[new Random().Next(moves.Length)]`; `draw` is
   * the value Next returned, so 0 <= draw < 3.
   */
  function ComputerMoveAt(draw: nat): (r: string)
    requires draw < |PlayMoves|
    ensures r in PlayMoves
    ensures r == GameEngine.GenerateComputerMoveFullRange(draw)
  {
    PlayMoves[draw]
  }

  /** Every one of the three moves is a possible computer move. */
  lemma EveryPlayMoveReachable(m: string)
    requires m in PlayMoves
    ensures exists draw: nat :: draw < |PlayMoves| && ComputerMoveAt(draw) == m
  {
    var draw := GameEngine.IndexOf(m);
    assert ComputerMoveAt(draw) == m;
  }

  /**
   * The handler's inline winner rule. It compares the strings exactly as
   * submitted: equal is a draw, one of the three winning pairs a player win,
   * anything else a computer win.
   */
  function InlineWinner(playerMove: string, computerMove: string): (r: Winner)
    ensures r == GameEngine.Draw <==> playerMove == computerMove
    ensures r == GameEngine.Player <==> (playerMove, computerMove) in GameEngine.PlayerWinningPairs
    ensures r == GameEngine.Computer <==>
      playerMove != computerMove && (playerMove, computerMove) !in GameEngine.PlayerWinningPairs
  {
    if playerMove == computerMove then GameEngine.Draw
    else if (playerMove == "rock" && computerMove == "scissors") ||
            (playerMove == "scissors" && computerMove == "paper") ||
            (playerMove == "paper" && computerMove == "rock") then GameEngine.Player
    else GameEngine.Computer
  }

  /**
   * Against any computer move the handler can draw, the inline rule and
   * GameEngine.ResolveWinner agree on a lower-case player move, and they
   * disagree exactly when the player move has an upper-case letter and the
   * engine would not have called it a computer win.
   */
  lemma ResolversDisagreeExactly(playerMove: string, computerMove: string)
    requires computerMove in PlayMoves
    ensures IsLowerCase(playerMove) ==> InlineWinner(playerMove, computerMove) == GameEngine.Outcome(playerMove, computerMove)
    ensures InlineWinner(playerMove, computerMove) != GameEngine.Outcome(playerMove, computerMove) <==>
      !IsLowerCase(playerMove) && GameEngine.Outcome(playerMove, computerMove) != GameEngine.Computer
  {
    GameEngine.LowerCanonical(computerMove);
    LowerIsLowerCase(playerMove);
    if !IsLowerCase(playerMove) {
      if playerMove in PlayMoves {
        GameEngine.LowerCanonical(playerMove);
        assert false;
      }
    }
  }

  /** "Rock" against "scissors": a computer win here, a player win in GameEngine. */
  lemma MixedCaseDisagreement()
    ensures InlineWinner("Rock", "scissors") == GameEngine.Computer
    ensures GameEngine.Outcome("Rock", "scissors") == GameEngine.Player
  {
    assert Lower("Rock") == "rock";
    GameEngine.LowerCanonical("scissors");
  }

  /** A row of the `Results` table. */
  datatype GameResult = GameResult(id: nat, playerMove: string, computerMove: string, winner: string, playedAt: nat)

  /** The computer move and winner of one round. */
  datatype RoundOutcome = RoundOutcome(computerMove: string, winner: Winner)

  /** The round the play handler computes, as written: its own draw and its inline rule. */
  function PlayRound(playerMove: string, draw: nat): (r: RoundOutcome)
    requires draw < |PlayMoves|
    ensures r.computerMove in PlayMoves
    ensures r.computerMove == ComputerMoveAt(draw)
    ensures r.winner == GameEngine.Draw <==> playerMove == r.computerMove
    ensures r.winner == GameEngine.Player <==> (playerMove, r.computerMove) in GameEngine.PlayerWinningPairs
  {
    var computerMove := ComputerMoveAt(draw);
    RoundOutcome(computerMove, InlineWinner(playerMove, computerMove))
  }

  /**
   * The handler never consults the IGameEngine the test host registers, so
   * with the player move "paper" the round is "rock"/"player" only for one of
   * the three draws: draw 1 gives "paper"/"draw" and draw 2 "scissors"/"computer".
   */
  lemma EndpointIgnoresTestEngine()
    ensures PlayRound("paper", 0) == RoundOutcome("rock", GameEngine.Player)
    ensures PlayRound("paper", 1) == RoundOutcome("paper", GameEngine.Draw)
    ensures PlayRound("paper", 2) == RoundOutcome("scissors", GameEngine.Computer)
  {
  }

  /**
   * The round a handler taking its moves from the registered IGameEngine would
   * compute; `draw` is the value of the random source the engine uses.
   */
  function RoundWith(engine: TestHost.EngineKind, playerMove: string, draw: nat): (r: RoundOutcome)
    requires draw < |PlayMoves|
    requires engine.Production? ==> draw < |PlayMoves| - 1
    ensures r.computerMove in GameEngine.Moves
    ensures r.winner == GameEngine.Outcome(playerMove, r.computerMove)
  {
    var computerMove := TestHost.EngineComputerMove(engine, draw);
    TestHost.EnginesResolveAlike(Some(playerMove), Some(computerMove));
    RoundOutcome(computerMove, TestHost.EngineResolveWinner(engine, Some(playerMove), Some(computerMove)).value)
  }

  /** Under the deterministic engine, playing "paper" always gives "rock" and a player win. */
  lemma DeterministicPaperRound(draw: nat)
    requires draw < |PlayMoves|
    ensures RoundWith(TestHost.Deterministic, "paper", draw) == RoundOutcome("rock", GameEngine.Player)
  {
    GameEngine.LowerCanonical("paper");
    GameEngine.LowerCanonical("rock");
  }

  /** Newest first: `playedAt` never increases along `s`. */
  predicate SortedByPlayedAtDesc(s: seq<GameResult>) {
    forall i, j :: 0 <= i < j < |s| ==> s[i].playedAt >= s[j].playedAt
  }

  /** Inserts `r` into a newest-first sequence, keeping it newest first. */
  function InsertByPlayedAt(r: GameResult, s: seq<GameResult>): (t: seq<GameResult>)
    requires SortedByPlayedAtDesc(s)
    ensures SortedByPlayedAtDesc(t)
    ensures multiset(t) == multiset(s) + multiset{r}
  {
    if s == [] || r.playedAt >= s[0].playedAt then [r] + s
    else
      var rest := InsertByPlayedAt(r, s[1..]);
      assert s == [s[0]] + s[1..];
      HeadBoundsInsertion(r, s, rest);
      [s[0]] + rest
  }

  /** Every row of `rest`, a reordering of `s[1..]` plus an older `r`, is no newer than `s[0]`. */
  lemma HeadBoundsInsertion(r: GameResult, s: seq<GameResult>, rest: seq<GameResult>)
    requires SortedByPlayedAtDesc(s) && s != [] && r.playedAt < s[0].playedAt
    requires multiset(rest) == multiset(s[1..]) + multiset{r}
    ensures forall j :: 0 <= j < |rest| ==> rest[j].playedAt <= s[0].playedAt
  {
    forall j | 0 <= j < |rest|
      ensures rest[j].playedAt <= s[0].playedAt
    {
      assert rest[j] in multiset(rest);
      if rest[j] != r {
        assert rest[j] in multiset(s[1..]);
        var k :| 1 <= k < |s| && s[k] == rest[j];
      }
    }
  }

  /** The rows ordered newest first (ORDER BY PlayedAt DESC). */
  function OrderByPlayedAtDesc(s: seq<GameResult>): (t: seq<GameResult>)
    ensures SortedByPlayedAtDesc(t)
    ensures multiset(t) == multiset(s)
  {
    if s == [] then []
    else
      assert s == [s[0]] + s[1..];
      InsertByPlayedAt(s[0], OrderByPlayedAtDesc(s[1..]))
  }

  /** A row the play handler can have written: a drawn computer move and a winner name. */
  predicate WellFormed(r: GameResult) {
    r.computerMove in PlayMoves && r.winner == InlineWinner(r.playerMove, r.computerMove).Name()
  }

  /**
   * The `Results` table. `nextId` is the identity the database gives the next
   * row; it starts at 1 and is not reset when the rows are deleted.
   */
  class GameStore {
    var results: seq<GameResult>
    var nextId: nat

    /** Every row is well formed, and ids are below `nextId` and increase in insertion order. */
    ghost predicate Valid()
      reads this
    {
      && 0 < nextId
      && (forall i :: 0 <= i < |results| ==> WellFormed(results[i]) && 0 < results[i].id < nextId)
      && (forall i, j :: 0 <= i < j < |results| ==> results[i].id < results[j].id)
    }

    constructor ()
      ensures Valid()
      ensures results == [] && nextId == 1
    {
      results := [];
      nextId := 1;
    }

    /**
     * POST /api/game/play: draws the computer move, applies the inline rule,
     * appends one row holding the submitted player move unchanged and returns
     * that row. `draw` is the random value and `playedAt` the clock reading.
     */
    method Play(playerMove: string, draw: nat, playedAt: nat) returns (r: GameResult)
      requires Valid()
      requires draw < |PlayMoves|
      modifies this
      ensures Valid()
      ensures results == old(results) + [r]
      ensures nextId == old(nextId) + 1
      ensures r.id == old(nextId) && r.playedAt == playedAt
      ensures r.playerMove == playerMove
      ensures r.computerMove == ComputerMoveAt(draw)
      ensures r.winner == InlineWinner(playerMove, r.computerMove).Name()
    {
      var round := PlayRound(playerMove, draw);
      r := GameResult(nextId, playerMove, round.computerMove, round.winner.Name(), playedAt);
      results := results + [r];
      nextId := nextId + 1;
    }

    /** GET /api/game/history: every stored row, newest first. */
    method History() returns (h: seq<GameResult>)
      requires Valid()
      ensures SortedByPlayedAtDesc(h)
      ensures multiset(h) == multiset(results)
      ensures forall r :: r in h <==> r in results
      ensures forall r :: r in h ==> WellFormed(r)
    {
      h := OrderByPlayedAtDesc(results);
      assert forall r :: r in h <==> r in multiset(results);
    }

    /** DELETE /api/game/history: removes every row. */
    method Reset()
      requires Valid()
      modifies this
      ensures Valid()
      ensures results == [] && nextId == old(nextId)
    {
      results := [];
    }
  }

  /**
   * The scenario of the integration test for the play endpoint: after a
   * reset, playing "paper" stores exactly one row, the one returned.
   */
  method PlayAfterReset(store: GameStore, draw: nat, playedAt: nat) returns (r: GameResult, h: seq<GameResult>)
    requires store.Valid()
    requires draw < |PlayMoves|
    modifies store
    ensures h == [r]
    ensures r.playerMove == "paper" && r.computerMove == ComputerMoveAt(draw)
  {
    store.Reset();
    r := store.Play("paper", draw, playedAt);
    h := store.History();
    assert multiset(h) == multiset{r};
    assert |h| == 1 && h[0] in multiset(h);
  }
}
