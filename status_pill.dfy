/**
 * The outcome badge of RpsGame.React/src/components/StatusPill.tsx: the
 * label shown for a winner value and the CSS class list of the badge.
 */
module StatusPill {
  import opened Text

  /** getWinnerLabel: "draw" reads "Draw", "player" reads "You", anything else "Computer". */
  function WinnerLabel(winner: string): (r: string)
    ensures r == "Draw" <==> winner == "draw"
    ensures r == "You" <==> winner == "player"
    ensures r == "Computer" <==> winner != "draw" && winner != "player"
  {
    if winner == "draw" then "Draw"
    else if winner == "player" then "You" else "Computer"
  }

  /** JavaScript truthiness of a possibly-undefined string: defined and non-empty. */
  predicate Truthy(v: Option<string>) {
    v.Some? && v.value != ""
  }

  /** `filter(Boolean)`: the truthy entries, in order. */
  function Compact(xs: seq<Option<string>>): (ys: seq<string>)
    ensures |ys| <= |xs|
    ensures forall i :: 0 <= i < |ys| ==> ys[i] != ""
  {
    if xs == [] then []
    else if Truthy(xs[0]) then [xs[0].value] + Compact(xs[1..])
    else Compact(xs[1..])
  }

  /** `join(sep)`: the parts with `sep` between neighbours. */
  function Join(parts: seq<string>, sep: string): string
  {
    if parts == [] then ""
    else if |parts| == 1 then parts[0]
    else parts[0] + sep + Join(parts[1..], sep)
  }

  /** Joining one more part puts exactly one separator before it. */
  lemma {:induction false} JoinAppend(parts: seq<string>, sep: string, last: string)
    requires parts != []
    ensures Join(parts + [last], sep) == Join(parts, sep) + sep + last
  {
    if |parts| > 1 {
      assert (parts + [last])[1..] == parts[1..] + [last];
      JoinAppend(parts[1..], sep, last);
    } else {
      assert (parts + [last])[1..] == [last];
    }
  }

  /** Filtering a sequence with one more entry filters the entry on its own. */
  lemma {:induction false} CompactAppend(xs: seq<Option<string>>, x: Option<string>)
    ensures Compact(xs + [x]) == Compact(xs) + (if Truthy(x) then [x.value] else [])
  {
    if xs != [] {
      assert (xs + [x])[1..] == xs[1..] + [x];
      CompactAppend(xs[1..], x);
    }
  }

  /**
   * The class list of the badge: `["status-pill", winner, className].filter(Boolean).join(" ")`.
   * It is "status-pill", then the winner value, then the extra class name,
   * each after a single space, where an empty winner or an absent or empty
   * class name contributes nothing.
   */
  function PillClasses(winner: string, className: Option<string>): (r: string)
    ensures r == "status-pill"
          + (if winner != "" then " " + winner else "")
          + (if Truthy(className) then " " + className.value else "")
  {
    PillClassesShape(winner, className);
    Join(Compact([Some("status-pill"), Some(winner), className]), " ")
  }

  /** The filter/join expression of the class list, in closed form. */
  lemma PillClassesShape(winner: string, className: Option<string>)
    ensures Join(Compact([Some("status-pill"), Some(winner), className]), " ")
         == "status-pill"
          + (if winner != "" then " " + winner else "")
          + (if Truthy(className) then " " + className.value else "")
  {
    var first: seq<Option<string>> := [Some("status-pill")];
    var second := first + [Some(winner)];
    CompactAppend(first, Some(winner));
    CompactAppend(second, className);
    assert second + [className] == [Some("status-pill"), Some(winner), className];
    var c1 := Compact(first);
    var c2 := Compact(second);
    assert c1 == ["status-pill"];
    if winner != "" {
      JoinAppend(c1, " ", winner);
    }
    if Truthy(className) {
      JoinAppend(c2, " ", className.value);
    }
  }

  /** An absent class name and an empty one give the same class list. */
  lemma EmptyClassNameAddsNothing(winner: string)
    ensures PillClasses(winner, None) == PillClasses(winner, Some(""))
    ensures PillClasses(winner, None) == "status-pill" + (if winner != "" then " " + winner else "")
  {
  }

  /** A non-empty class name is appended last, after one space. */
  lemma ClassNameAppendedLast(winner: string, className: string)
    requires className != ""
    ensures PillClasses(winner, Some(className)) == PillClasses(winner, None) + " " + className
  {
  }
}
