/**
 * The move display helpers of RpsGame.React/src/utils/gameHelpers.ts:
 * the emoji for a move and the capitalised move name.
 */
module GameHelpers {
  import opened Text
  import GameEngine

  /** U+1FAA8 ROCK. */
  const RockEmoji: string := "\U{1FAA8}"
  /** U+1F4C4 PAGE FACING UP. */
  const PaperEmoji: string := "\U{1F4C4}"
  /** U+2702 BLACK SCISSORS followed by the emoji presentation selector U+FE0F. */
  const ScissorsEmoji: string := "\U{2702}\U{FE0F}"
  /** U+2753 BLACK QUESTION MARK ORNAMENT. */
  const UnknownEmoji: string := "\U{2753}"

  /** emojiForMove: exact, case-sensitive match on the three move names. */
  function EmojiForMove(move: string): (r: string)
    ensures r == RockEmoji <==> move == "rock"
    ensures r == PaperEmoji <==> move == "paper"
    ensures r == ScissorsEmoji <==> move == "scissors"
    ensures r == UnknownEmoji <==> move !in GameEngine.Moves
  {
    match move
    case "rock" => RockEmoji
    case "paper" => PaperEmoji
    case "scissors" => ScissorsEmoji
    case _ => UnknownEmoji
  }

  /** Distinct moves show distinct emojis, and a wrong-case move shows the question mark. */
  lemma EmojiDistinguishesMoves(a: string, b: string)
    requires a in GameEngine.Moves && b in GameEngine.Moves && a != b
    ensures EmojiForMove(a) != EmojiForMove(b)
    ensures EmojiForMove("Rock") == UnknownEmoji
  {
  }

  /** formatMove: `move.charAt(0).toUpperCase() + move.slice(1)`. */
  function FormatMove(move: string): (r: string)
    ensures |r| == |move|
    ensures move == [] ==> r == []
    ensures move != [] ==> !IsLower(r[0]) && LowerChar(r[0]) == LowerChar(move[0])
    ensures move != [] ==> r[1..] == move[1..]
  {
    if move == [] then [] else [UpperChar(move[0])] + move[1..]
  }

  /** Formatting an already formatted move changes nothing. */
  lemma FormatMoveIdempotent(move: string)
    ensures FormatMove(FormatMove(move)) == FormatMove(move)
  {
  }

  /** Formatting only changes case, so lower-casing undoes it. */
  lemma FormatMoveLowersBack(move: string)
    ensures Lower(FormatMove(move)) == Lower(move)
  {
  }

  /** A formatted move ("Rock") resolves exactly like the raw one in GameEngine. */
  lemma FormattedMoveResolvesAlike(playerMove: string, computerMove: string)
    ensures GameEngine.Outcome(FormatMove(playerMove), computerMove) == GameEngine.Outcome(playerMove, computerMove)
  {
    FormatMoveLowersBack(playerMove);
  }
}
