# RpsGame round resolution, in Dafny

This project models how the RpsGame application resolves one round of
Rock-Paper-Scissors.

- **The production resolver** `GameEngine` (module `GameEngine`). It holds the move table and the
  set of player-winning pairs. It draws a computer move from a random index. It decides the
  winner case-insensitively and rejects null moves with an argument error that names the
  parameter.
- **The test-host stand-in** `DeterministicGameEngine` (module `TestHost`). It always plays
  "rock" and forwards winner resolution to `GameEngine`. Both implementations of `IGameEngine`
  are modelled as one `EngineKind` strategy. The production strategy draws exactly as
  `GameEngine` does, so it never returns "scissors".
- **The HTTP endpoints of the API** (module `Endpoints`).
  - The play handler draws its own computer move over all three moves. It decides the winner
    with its own case-sensitive rule, appends one row to the results table and returns that row.
  - The history endpoint returns every row, newest first.
  - The reset endpoint deletes every row.
  - The table is the class `GameStore`. Its fields are the rows (`results`) and the next
    database identity (`nextId`).
- **Two React helpers.** `StatusPill` maps a winner value to its label and builds the badge's
  class list. `GameHelpers` maps a move to its emoji and capitalises a move name.

Nulls are `Option.None` and thrown exceptions are `Result.Err`. The random value returned by
`Random.Next(n)` is the parameter `draw`, restricted to `0 <= draw < n`, which is exactly what
`Next` promises. The clock reading `PlayedAt` is a caller-supplied `nat`.

Behaviour of the code worth stating up front:
- `ResolveWinner` rejects only null moves. An empty string is accepted: `""` against `""` is a
  draw.
- The play endpoint stores the player move exactly as submitted. It is not lower-cased.
- The history endpoint returns a flat list with no pagination or summary.
- `GameEngine.GenerateComputerMove` cannot reach "scissors" (see Findings).

## Model

| member | source | states |
|---|---|---|
| `Text.LowerIdempotent` | RpsGame.Api/Services/GameEngine.cs:47-48 | lower-casing an already lower-cased move changes nothing |
| `GameEngine.Winner.Name` | RpsGame.Api/Services/GameEngine.cs:50-60 | each outcome has one of the three wire names "player", "computer", "draw"; "draw" exactly for a draw and "player" exactly for a player win |
| `GameEngine.GenerateComputerMove` | RpsGame.Api/Services/GameEngine.cs:20-23 | for every index `Next(Moves.Length - 1)` can return, the move is "rock" or "paper" and never "scissors" |
| `GameEngine.ScissorsNeverGenerated` | RpsGame.Api/Services/GameEngine.cs:22 | the set of reachable computer moves is exactly {rock, paper} |
| `GameEngine.GenerateComputerMoveFullRange` | RpsGame.Api/Services/GameEngine.cs:22 | corrected draw `Next(Moves.Length)`: the result is the table entry at the drawn index |
| `GameEngine.EveryMoveGenerated` | RpsGame.Api/Services/GameEngine.cs:8 | with the corrected draw, the reachable set is the whole move table |
| `GameEngine.ResolveWinner` | RpsGame.Api/Services/GameEngine.cs:35-45 | a null player move gives the error naming "playerMove", also when both are null; otherwise a null computer move gives the error naming "computerMove"; two non-null moves always give a winner |
| `GameEngine.OutcomeCharacterised` | RpsGame.Api/Services/GameEngine.cs:47-60 | draw exactly when the lower-cased moves are equal; player exactly when the lower-cased pair is a winning pair; computer in every other case |
| `GameEngine.CaseInsensitive` | RpsGame.Api/Services/GameEngine.cs:47-48 | the result on any two moves equals the result on their lower-cased forms |
| `GameEngine.UnknownMoveNeverWins` | RpsGame.Api/Services/GameEngine.cs:55-60 | a player move outside the table (such as "lizard") never wins; it loses unless it equals the computer move case-insensitively |
| `GameEngine.OutcomeMatchesCyclicRule` | RpsGame.Api/Services/GameEngine.cs:9-14 | on canonical moves the table rule equals the cyclic rule: number the moves 0, 1, 2; the player wins when the index difference mod 3 is 1 |
| `GameEngine.SwapAntisymmetric` | RpsGame.Api/Services/GameEngine.cs:50-60 | two distinct canonical moves never draw, and swapping them swaps a player win into a computer win |
| `TestHost.DeterministicComputerMove` | RpsGame.Api.Tests/Infrastructure/CustomWebApplicationFactory.cs:36-39 | the test engine's computer move is always "rock", the first table entry |
| `TestHost.DeterministicResolveWinner` | RpsGame.Api.Tests/Infrastructure/CustomWebApplicationFactory.cs:44-47 | the test engine has the same null-argument errors and returns a winner for two non-null moves |
| `TestHost.DeterministicDelegates` | RpsGame.Api.Tests/Infrastructure/CustomWebApplicationFactory.cs:44-47 | the test engine's result equals GameEngine's for every pair of arguments, errors included |
| `TestHost.EngineComputerMove` | RpsGame.Api/Services/IGameEngine.cs:8-12 | either implementation returns a move from the table. The deterministic one always returns "rock". The production one returns the table entry at a draw below 2, so never "scissors" |
| `TestHost.EngineResolveWinner` | RpsGame.Api/Services/IGameEngine.cs:14-20 | either implementation rejects a null player move, then a null computer move, and otherwise returns exactly GameEngine's result |
| `TestHost.EnginesResolveAlike` | RpsGame.Api.Tests/Infrastructure/CustomWebApplicationFactory.cs:18-22 | replacing the production engine with the test engine does not change any winner |
| `TestHost.DeterministicRockDraws` | RpsGame.Api.Tests/Infrastructure/CustomWebApplicationFactory.cs:36-39 | with the test engine, a player move that lower-cases to "rock" always draws |
| `Endpoints.PlayMovesAreEngineMoves` | RpsGame.Api/Program.cs:52 | the handler's move list is the engine's move table |
| `Endpoints.ComputerMoveAt` | RpsGame.Api/Program.cs:52-53 | the handler's computer move is a table move, equal to the corrected engine draw at the same index |
| `Endpoints.EveryPlayMoveReachable` | RpsGame.Api/Program.cs:53 | every one of the three moves is produced by some index in range |
| `Endpoints.InlineWinner` | RpsGame.Api/Program.cs:54-63 | on the exact strings: draw exactly when equal; player exactly when the pair is one of the three winning pairs; computer otherwise |
| `Endpoints.ResolversDisagreeExactly` | RpsGame.Api/Program.cs:56-63 | against a drawn computer move, the inline rule and GameEngine agree on lower-case player moves. They disagree exactly when the player move has an upper-case letter and GameEngine would not call it a computer win |
| `Endpoints.MixedCaseDisagreement` | RpsGame.Api/Program.cs:58-63 | "Rock" against "scissors" is a computer win in the handler and a player win in GameEngine |
| `Endpoints.PlayRound` | RpsGame.Api/Program.cs:52-63 | the handler's computer move is the table entry at the drawn index; draw exactly when the player move equals it; player exactly on a winning pair |
| `Endpoints.EndpointIgnoresTestEngine` | RpsGame.Api/Program.cs:53 | playing "paper" gives rock/player, paper/draw or scissors/computer depending on the draw |
| `Endpoints.RoundWith` | RpsGame.Api.Tests/Infrastructure/CustomWebApplicationFactory.cs:18-22 | a round that takes its moves from the registered engine has a table computer move and GameEngine's winner; with the production engine the draw is below 2 |
| `Endpoints.DeterministicPaperRound` | RpsGame.Api.Tests/Integration/GameEndpointsTests.cs:45-47 | with the test engine, playing "paper" always gives computer move "rock" and winner "player" |
| `Endpoints.InsertByPlayedAt` | RpsGame.Api/Program.cs:80 | inserting a row into a newest-first list keeps it newest first and adds exactly that row |
| `Endpoints.OrderByPlayedAtDesc` | RpsGame.Api/Program.cs:80 | ordering by `PlayedAt` descending gives a newest-first permutation of the rows |
| `Endpoints.GameStore.constructor` | RpsGame.Api/Program.cs:39-43 | a freshly created table is empty and its first identity is 1 |
| `Endpoints.GameStore.Play` | RpsGame.Api/Program.cs:50-76 | appends exactly one row and returns it. The row holds the next identity, the submitted player move unchanged, the drawn computer move, the inline winner's name and the clock reading. The store invariant is kept |
| `Endpoints.GameStore.History` | RpsGame.Api/Program.cs:79-80 | returns a permutation of the stored rows, sorted by `PlayedAt` non-increasing, every row well formed; nothing changes |
| `Endpoints.GameStore.Reset` | RpsGame.Api/Program.cs:83-88 | afterwards the table is empty; the identity counter is kept |
| `Endpoints.PlayAfterReset` | RpsGame.Api.Tests/Integration/GameEndpointsTests.cs:34-57 | after a reset and one play of "paper", history holds exactly the returned row |
| `StatusPill.WinnerLabel` | RpsGame.React/src/components/StatusPill.tsx:3-9 | "Draw" exactly for "draw"; "You" exactly for "player"; "Computer" exactly for every other value, "computer" included |
| `StatusPill.Compact` | RpsGame.React/src/components/StatusPill.tsx:18 | `filter(Boolean)` keeps no empty string and never lengthens the list |
| `StatusPill.PillClasses` | RpsGame.React/src/components/StatusPill.tsx:16-18 | the class list is "status-pill", then " " and the winner when the winner is non-empty, then " " and the class name when it is present and non-empty |
| `StatusPill.JoinAppend` | RpsGame.React/src/components/StatusPill.tsx:18 | `join` puts exactly one separator before an appended part |
| `StatusPill.CompactAppend` | RpsGame.React/src/components/StatusPill.tsx:18 | `filter(Boolean)` treats an appended entry on its own |
| `StatusPill.PillClassesShape` | RpsGame.React/src/components/StatusPill.tsx:18 | the `filter(Boolean).join(" ")` expression over the three entries equals that closed form, for every winner and class name |
| `StatusPill.EmptyClassNameAddsNothing` | RpsGame.React/src/components/StatusPill.tsx:18 | an absent and an empty class name give the same list, "status-pill" followed by the winner |
| `StatusPill.ClassNameAppendedLast` | RpsGame.React/src/components/StatusPill.tsx:18 | a non-empty class name is appended last, after a single space |
| `GameHelpers.EmojiForMove` | RpsGame.React/src/utils/gameHelpers.ts:3-14 | rock, paper and scissors map to their own emoji, each exactly for that exact string; every other string, a wrong-case move included, maps to the question mark |
| `GameHelpers.EmojiDistinguishesMoves` | RpsGame.React/src/utils/gameHelpers.ts:3-14 | distinct moves get distinct emojis, and "Rock" gets the question mark |
| `GameHelpers.FormatMove` | RpsGame.React/src/utils/gameHelpers.ts:16-18 | "" maps to ""; otherwise the length is kept, the first character is upper case and the same letter, and the rest is unchanged |
| `GameHelpers.FormatMoveIdempotent` | RpsGame.React/src/utils/gameHelpers.ts:17 | formatting twice equals formatting once |
| `GameHelpers.FormatMoveLowersBack` | RpsGame.React/src/utils/gameHelpers.ts:17 | lower-casing a formatted move gives the lower-cased original |
| `GameHelpers.FormattedMoveResolvesAlike` | RpsGame.React/src/utils/gameHelpers.ts:17 | a formatted move resolves in GameEngine exactly like the raw move |

## Findings

| source | as written | input that shows it | evidently intended | confidence | as-written member | corrected member |
|---|---|---|---|---|---|---|
| RpsGame.Api/Services/GameEngine.cs:22 | `Moves[Random.Shared.Next(Moves.Length - 1)]` draws an index in {0, 1} | any call: `Next(2)` never returns 2, so "scissors" is never generated | `Next(Moves.Length)`, so that all three moves occur, as the doc comment and interface describe | high; not executed | `GameEngine.GenerateComputerMove` with `GameEngine.ScissorsNeverGenerated` | `GameEngine.GenerateComputerMoveFullRange` with `GameEngine.EveryMoveGenerated` |
| RpsGame.Api/Program.cs:53 | the play handler draws its own computer move and never uses the `IGameEngine` that the test host registers | player move "paper" with draw 1 gives computer move "paper" and winner "draw". GameEndpointsTests.cs:46-47 expects "rock" and "player" | the handler takes its computer move and winner from the registered `IGameEngine` | high; not executed | `Endpoints.PlayRound` with `Endpoints.EndpointIgnoresTestEngine` | `Endpoints.RoundWith` with `Endpoints.DeterministicPaperRound` |

`GameStore.Play` keeps the handler as written, because that is the code the endpoint runs.
`RoundWith` is the round the handler would compute if it used the registered engine. The
production strategy in it keeps `GameEngine`'s draw as written, so it too never plays
"scissors"; the handler's own draw, `Endpoints.ComputerMoveAt`, equals the corrected draw.

## Left out

- Configuration and hosting: the connection-string lookup, EF Core and Npgsql setup, Swagger and CORS. These are configuration and I/O.
- Persistence: `GameContext`, `SaveChangesAsync` and the storage errors they can raise. The table is an in-memory sequence. `EnsureCreated` is modelled only as the empty store made by the constructor.
- Identities: the database assigns them. They are modelled as a counter that starts at 1 and is not reset by a delete.
- Timestamps: `DateTime.UtcNow` is replaced by the caller-supplied `playedAt`.
- Randomness: `Random.Next(n)` is replaced by the parameter `draw` with `draw < n`. Uniformity is not modelled.
- The missing query parameter: ASP.NET rejects a play request without `playerMove` before the handler runs, so the handler's `playerMove` is never null.
- HTTP wrapping: `Results.Ok` and status codes are not modelled.
- Concurrency: concurrent requests against the table are not modelled.
- `Endpoints.GameStore.History`: promises only what `ORDER BY PlayedAt DESC` promises, namely newest first and a permutation. The database's order among rows with equal timestamps is not fixed; the model returns one particular such order.
- `Text.Lower`: maps only the ASCII letters A-Z. `ToLowerInvariant` maps full Unicode: U+212A KELVIN SIGN becomes "k" and U+0130 becomes "i". So "ROC\u212A" against "scissors" is a player win in the code and a computer win in the model. `GameEngine.ResolveWinner`, `GameEngine.CaseInsensitive`, `GameEngine.UnknownMoveNeverWins` and `Endpoints.ResolversDisagreeExactly` hold for this ASCII mapping only.
- `GameHelpers.FormatMove`: upper-cases ASCII letters only. JavaScript's `toUpperCase` can lengthen a string (for example "ß" becomes "SS"), and `charAt` works on UTF-16 code units. Neither is modelled, so the length-preservation result holds for the model only.
- `formatTimestamp`: it depends on the locale and `Intl`.
- The pagination and summary types (`GameHistoryPage`, `HistorySummary`): no server code computes them.
- Out of scope: the React pages, the HTTP client wrappers, the browser tests and the load script. They are UI state, network I/O and automation.
