// The string transforms behind a puzzle item, shared by the three item
// classes (omission/game/item.py, its copy src/omission/game/item.py, and
// omission/game/game_item.py): blanking every case-insensitive occurrence of
// the chosen letter, and the "read around the gap" form `get_puzzle(False)`.

module Blanking {
  import opened Text

  /** One character of the blanking pass: '_' where `c.lower() == letter`. */
  function BlankChar(c: char, letter: char): char
  {
    if Lower(c) == letter then '_' else c
  }

  /** The text one blanking pass appends, built left to right as the source's `for` loop does. */
  function Blanked(s: string, letter: char): (r: string)
    ensures |r| == |s|
  {
    if |s| == 0 then "" else Blanked(s[..|s| - 1], letter) + [BlankChar(s[|s| - 1], letter)]
  }

  /** The number of positions whose lower-cased character is `letter`. */
  function Matches(s: string, letter: char): nat
  {
    if |s| == 0 then 0
    else Matches(s[..|s| - 1], letter) + (if Lower(s[|s| - 1]) == letter then 1 else 0)
  }

  /** The blanked text keeps the length and differs from the passage exactly at the matches. */
  lemma {:induction false} BlankedAt(s: string, letter: char)
    ensures |Blanked(s, letter)| == |s|
    ensures forall i :: 0 <= i < |s| ==>
      Blanked(s, letter)[i] == (if Lower(s[i]) == letter then '_' else s[i])
    decreases |s|
  {
    if |s| > 0 {
      BlankedAt(s[..|s| - 1], letter);
    }
  }

  /**
   * For an alphabetic letter the underscores of the blanked text are the
   * matches plus the underscores the passage already had.
   */
  lemma {:induction false} BlankedUnderscores(s: string, letter: char)
    requires IsAlpha(letter)
    ensures Count(Blanked(s, letter), '_') == Matches(s, letter) + Count(s, '_')
    decreases |s|
  {
    if |s| > 0 {
      var p := s[..|s| - 1];
      BlankedUnderscores(p, letter);
      var b := Blanked(s, letter);
      assert b[..|b| - 1] == Blanked(p, letter);
      BlankedAt(p, letter);
    }
  }

  /** An upper-case pick never matches: `c.lower()` is never upper case. */
  lemma {:induction false} UpperPickMatchesNothing(s: string, letter: char)
    requires IsUpper(letter)
    ensures Matches(s, letter) == 0
    ensures Blanked(s, letter) == s
    decreases |s|
  {
    if |s| > 0 {
      UpperPickMatchesNothing(s[..|s| - 1], letter);
    }
  }

  /** A lower-case letter that occurs in the passage (in either case) matches at least once. */
  lemma {:induction false} PresentLetterMatches(s: string, letter: char, k: nat)
    requires k < |s| && Lower(s[k]) == letter
    ensures Matches(s, letter) >= 1
    decreases |s|
  {
    if k < |s| - 1 {
      PresentLetterMatches(s[..|s| - 1], letter, k);
    }
  }

  /** Every match position of a character of the passage: `c` occurs case-insensitively. */
  ghost predicate OccursFolded(s: string, letter: char)
  {
    exists k :: 0 <= k < |s| && Lower(s[k]) == letter
  }

  lemma MatchesMeansOccurs(s: string, letter: char)
    ensures Matches(s, letter) >= 1 <==> OccursFolded(s, letter)
  {
    if OccursFolded(s, letter) {
      var k :| 0 <= k < |s| && Lower(s[k]) == letter;
      PresentLetterMatches(s, letter, k);
    } else {
      NoOccurrenceNoMatch(s, letter);
    }
  }

  lemma {:induction false} NoOccurrenceNoMatch(s: string, letter: char)
    requires !OccursFolded(s, letter)
    ensures Matches(s, letter) == 0
    decreases |s|
  {
    if |s| > 0 {
      NoOccurrenceNoMatch(s[..|s| - 1], letter);
    }
  }

  /**
   * The per-character loop of the item constructors: every character whose
   * lower-case form is `letter` becomes '_' and is counted, every other
   * character is copied.
   */
  method BlankPass(passage: string, letter: char) returns (text: string, removed: nat)
    ensures text == Blanked(passage, letter) && removed == Matches(passage, letter)
  {
    text, removed := "", 0;
    var i := 0;
    while i < |passage|
      invariant 0 <= i <= |passage|
      invariant text == Blanked(passage[..i], letter)
      invariant removed == Matches(passage[..i], letter)
    {
      assert passage[..i + 1][..i] == passage[..i];
      if Lower(passage[i]) == letter {
        text := text + "_";
        removed := removed + 1;
      } else {
        text := text + [passage[i]];
      }
      i := i + 1;
    }
    assert passage[..i] == passage;
  }

  /** A pass that matches nothing copies the passage. */
  lemma {:induction false} NoMatchCopies(s: string, letter: char)
    requires Matches(s, letter) == 0
    ensures Blanked(s, letter) == s
    decreases |s|
  {
    if |s| > 0 {
      NoMatchCopies(s[..|s| - 1], letter);
      assert s[..|s| - 1] + [s[|s| - 1]] == s;
    }
  }

  /** `text.replace('_', letter)` for a one-character replacement. */
  function FillBlanks(text: string, letter: char): (r: string)
    ensures |r| == |text|
  {
    seq(|text|, i requires 0 <= i < |text| => if text[i] == '_' then letter else text[i])
  }

  /**
   * Putting the letter back into every gap and upper-casing gives the
   * upper-cased passage, provided the passage had no underscore of its own.
   */
  lemma RestoreBlanks(s: string, letter: char)
    requires IsLower(letter)
    requires '_' !in s
    ensures UpperStr(FillBlanks(Blanked(s, letter), letter)) == UpperStr(s)
  {
    BlankedAt(s, letter);
    var r := UpperStr(FillBlanks(Blanked(s, letter), letter));
    forall i | 0 <= i < |s|
      ensures r[i] == Upper(s[i])
    {
      if Lower(s[i]) == letter {
        UpperOfLower(s[i]);
      }
    }
  }

  /**
   * The inner loop `while not letter.isalpha(): letter = choice().lower()`
   * from position `k` of the draws: the letter it stops at and the position
   * of the next unused draw, or `None` when the draws run out first.
   */
  function InnerPick(draws: seq<char>, k: nat, letter: char): (r: Option<(char, nat)>)
    requires k <= |draws|
    ensures r.Some? ==> IsAlpha(r.value.0) && k <= r.value.1 <= |draws|
    ensures r.Some? && r.value.1 == k ==> r.value.0 == letter
    ensures r.Some? && r.value.1 > k ==> r.value.0 == Lower(draws[r.value.1 - 1])
    decreases |draws| - k
  {
    if IsAlpha(letter) then Some((letter, k))
    else if k == |draws| then None
    else InnerPick(draws, k + 1, Lower(draws[k]))
  }

  /** One pass's choice: the first draw as it comes, then the inner loop. */
  function PassPick(draws: seq<char>, k: nat): (r: Option<(char, nat)>)
    requires k <= |draws|
    ensures r.Some? ==> IsAlpha(r.value.0) && k < r.value.1 <= |draws|
    ensures r.Some? && IsLower(r.value.0) ==> r.value.0 == Lower(draws[r.value.1 - 1])
  {
    if k == |draws| then None else InnerPick(draws, k + 1, draws[k])
  }

  /**
   * One pass's pick as the item constructors make it: take the draw at
   * `start`, and while it is not a letter take the next one lower-cased.
   */
  method PickLetter(draws: seq<char>, start: nat) returns (letter: char, next: nat)
    requires start <= |draws| && PassPick(draws, start).Some?
    ensures PassPick(draws, start) == Some((letter, next))
  {
    letter := draws[start];
    next := start + 1;
    while !IsAlpha(letter)
      invariant start < next <= |draws|
      invariant InnerPick(draws, next, letter) == PassPick(draws, start)
      decreases |draws| - next
    {
      letter := Lower(draws[next]);
      next := next + 1;
    }
  }

  /**
   * Both loops of the item constructors, from position `k` of the draws:
   * passes repeat until the chosen letter matches something. The result is
   * the letter and how many draws were used, or `None` when the draws run
   * out before that.
   */
  function Choose(passage: string, draws: seq<char>, k: nat): (r: Option<(char, nat)>)
    requires k <= |draws|
    ensures r.Some? ==> k < r.value.1 <= |draws| && Matches(passage, r.value.0) >= 1
    decreases |draws| - k
  {
    match PassPick(draws, k)
    case None => None
    case Some((c, next)) =>
      if Matches(passage, c) >= 1 then Some((c, next)) else Choose(passage, draws, next)
  }

  /**
   * How many passes of `Choose` from position `k` pick a letter that matches
   * nothing before the pass that settles. Every pass uses at least one draw.
   */
  function FailedPasses(passage: string, draws: seq<char>, k: nat): (n: nat)
    requires k <= |draws| && Choose(passage, draws, k).Some?
    ensures n < Choose(passage, draws, k).value.1 - k
    decreases |draws| - k
  {
    var (c, next) := PassPick(draws, k).value;
    if Matches(passage, c) >= 1 then 0 else 1 + FailedPasses(passage, draws, next)
  }

  /**
   * The random draws that settle the letter choice: every draw is a character
   * of the passage (what `random.choice` returns), and the loops find a
   * letter that matches before the draws run out.
   */
  predicate Settles(passage: string, draws: seq<char>)
  {
    && (forall i :: 0 <= i < |draws| ==> draws[i] in passage)
    && Choose(passage, draws, 0).Some?
  }

  /**
   * The settled letter is lower case and is the lower-cased last draw used:
   * an upper-case first pick never settles a pass.
   */
  lemma {:induction false} ChooseSettles(passage: string, draws: seq<char>, k: nat)
    requires k <= |draws| && Choose(passage, draws, k).Some?
    ensures var (c, used) := Choose(passage, draws, k).value;
      IsLower(c) && c == Lower(draws[used - 1])
    decreases |draws| - k
  {
    var (c, next) := PassPick(draws, k).value;
    if Matches(passage, c) >= 1 {
      if IsUpper(c) {
        UpperPickMatchesNothing(passage, c);
      }
    } else {
      ChooseSettles(passage, draws, next);
    }
  }

  /**
   * Any letter occurring in the passage can be chosen: in lower case by
   * drawing it directly, and in upper case by drawing a non-letter first so
   * that the inner loop lower-cases the capital.
   */
  lemma LowerReachable(passage: string, j: nat)
    requires j < |passage| && IsLower(passage[j])
    ensures Settles(passage, [passage[j]])
    ensures Choose(passage, [passage[j]], 0) == Some((passage[j], 1))
  {
    PresentLetterMatches(passage, passage[j], j);
  }

  lemma UpperReachable(passage: string, j: nat, m: nat)
    requires j < |passage| && IsUpper(passage[j])
    requires m < |passage| && !IsAlpha(passage[m])
    ensures Settles(passage, [passage[m], passage[j]])
    ensures Choose(passage, [passage[m], passage[j]], 0) == Some((Lower(passage[j]), 2))
  {
    var draws := [passage[m], passage[j]];
    PresentLetterMatches(passage, Lower(passage[j]), j);
    assert InnerPick(draws, 1, passage[m]) == InnerPick(draws, 2, Lower(passage[j]));
  }

  /**
   * Drawing a capital first wastes a pass: the capital matches nothing, and a
   * lower-case letter drawn next settles on the second pass.
   */
  lemma UpperThenLower(passage: string, j: nat, i: nat)
    requires j < |passage| && IsUpper(passage[j])
    requires i < |passage| && IsLower(passage[i])
    ensures Settles(passage, [passage[j], passage[i]])
    ensures Choose(passage, [passage[j], passage[i]], 0) == Some((passage[i], 2))
    ensures FailedPasses(passage, [passage[j], passage[i]], 0) == 1
  {
    var draws := [passage[j], passage[i]];
    UpperPickMatchesNothing(passage, passage[j]);
    PresentLetterMatches(passage, passage[i], i);
    assert PassPick(draws, 0) == Some((passage[j], 1));
    assert PassPick(draws, 1) == Some((passage[i], 2));
  }

  /**
   * A passage made only of capital letters never settles: every first pick
   * is a capital, which matches nothing, so the source's loop never ends.
   */
  lemma {:induction false} CapitalsNeverSettle(passage: string, draws: seq<char>, k: nat)
    requires forall i :: 0 <= i < |passage| ==> IsUpper(passage[i])
    requires forall i :: 0 <= i < |draws| ==> draws[i] in passage
    requires k <= |draws|
    ensures Choose(passage, draws, k).None?
    decreases |draws| - k
  {
    if k < |draws| {
      assert IsUpper(draws[k]);
      UpperPickMatchesNothing(passage, draws[k]);
      CapitalsNeverSettle(passage, draws, k + 1);
    }
  }

  /** `text.replace('_', '')` */
  function StripUnderscores(text: string): (r: string)
    ensures '_' !in r
    ensures |r| <= |text|
  {
    if |text| == 0 then ""
    else if text[0] == '_' then StripUnderscores(text[1..])
    else [text[0]] + StripUnderscores(text[1..])
  }

  /** `text.replace('  ', ' ')`: one left-to-right pass over non-overlapping pairs. */
  function CollapsePairs(text: string): (r: string)
    ensures '_' !in text ==> '_' !in r
    ensures |text| >= 1 ==> |r| >= 1 && r[0] == text[0]
    decreases |text|
  {
    if |text| >= 2 && text[0] == ' ' && text[1] == ' ' then [' '] + CollapsePairs(text[2..])
    else if |text| == 0 then ""
    else [text[0]] + CollapsePairs(text[1..])
  }

  predicate NoDoubleSpace(text: string)
  {
    forall i :: 0 <= i < |text| - 1 ==> !(text[i] == ' ' && text[i + 1] == ' ')
  }

  predicate NoTripleSpace(text: string)
  {
    forall i :: 0 <= i < |text| - 2 ==> !(text[i] == ' ' && text[i + 1] == ' ' && text[i + 2] == ' ')
  }

  /** With no run of three spaces, the single pass leaves no double space. */
  lemma {:induction false} CollapseRemovesPairs(text: string)
    requires NoTripleSpace(text)
    ensures NoDoubleSpace(CollapsePairs(text))
    decreases |text|
  {
    if |text| >= 2 && text[0] == ' ' && text[1] == ' ' {
      CollapseRemovesPairs(text[2..]);
      assert |text| >= 3 ==> text[2] != ' ';
    } else if |text| >= 1 {
      CollapseRemovesPairs(text[1..]);
    }
  }

  /**
   * `get_puzzle(False)`: drop the underscores, collapse double spaces once,
   * drop one leading space and upper-case the first character. `None` is the
   * IndexError the source raises when no character is left to upper-case.
   */
  function Obscure(puzzle: string): (r: Option<string>)
    ensures r.Some? ==> |r.value| >= 1 && '_' !in r.value && !IsLower(r.value[0])
  {
    var joined := CollapsePairs(StripUnderscores(puzzle));
    if |joined| == 0 then None
    else
      var trimmed := if joined[0] == ' ' then joined[1..] else joined;
      if |trimmed| == 0 then None
      else
        assert '_' !in trimmed[1..] by { assert forall i :: 0 <= i < |trimmed| - 1 ==> trimmed[1..][i] == trimmed[i + 1]; }
        Some([Upper(trimmed[0])] + trimmed[1..])
  }

  /**
   * The obscured text fails only when the puzzle holds nothing but
   * underscores and at most two spaces.
   */
  lemma ObscureFails(puzzle: string)
    ensures Obscure(puzzle).None? <==> StripUnderscores(puzzle) in {"", " ", "  "}
  {
    var s := StripUnderscores(puzzle);
    if |s| >= 3 {
      var c := CollapsePairs(s);
      if s[0] == ' ' && s[1] == ' ' {
        assert c == [' '] + CollapsePairs(s[2..]);
        assert |c| >= 2;
      } else {
        assert c == [s[0]] + CollapsePairs(s[1..]);
        assert |c| >= 2;
      }
    } else if |s| == 2 {
      if s == "  " {
        assert CollapsePairs(s) == " ";
      } else {
        assert CollapsePairs(s) == [s[0]] + CollapsePairs(s[1..]) == s;
      }
    } else if |s| == 1 {
      assert CollapsePairs(s) == s;
      if s[0] == ' ' {
        assert s == " ";
      } else {
        assert s != " " && s != "" && s != "  ";
      }
    }
  }

  /**
   * With no run of three spaces left after stripping, the obscured text has
   * no double space and does not start with a space.
   */
  lemma ObscureClean(puzzle: string)
    requires NoTripleSpace(StripUnderscores(puzzle))
    requires Obscure(puzzle).Some?
    ensures NoDoubleSpace(Obscure(puzzle).value)
    ensures Obscure(puzzle).value[0] != ' '
  {
    var joined := CollapsePairs(StripUnderscores(puzzle));
    CollapseRemovesPairs(StripUnderscores(puzzle));
    var trimmed := if joined[0] == ' ' then joined[1..] else joined;
    assert NoDoubleSpace(trimmed);
    var r := Obscure(puzzle).value;
    assert r == [Upper(trimmed[0])] + trimmed[1..];
    assert trimmed[0] != ' ';
  }

  /**
   * Without that condition the single pass can leave a double space: two
   * adjacent one-letter words made of the removed letter ("x a a b", letter
   * 'a') become "X  b".
   */
  lemma ObscureKeepsDoubleSpace()
    ensures Obscure(Blanked("x a a b", 'a')) == Some("X  b")
  {
    BlankedExample();
    StripExample();
    CollapseExample();
    var joined := CollapsePairs(StripUnderscores("x _ _ b"));
    assert joined == "x  b";
    assert joined[0] == 'x' && Upper('x') == 'X';
    assert [Upper(joined[0])] + joined[1..] == "X  b";
  }

  lemma CollapseExample()
    ensures CollapsePairs("x   b") == "x  b"
  {
    assert CollapsePairs(" b") == " b";
    assert CollapsePairs("   b") == "  b";
  }

  lemma BlankedExample()
    ensures Blanked("x a a b", 'a') == "x _ _ b"
  {
    var p := "x a a b";
    var b := Blanked(p, 'a');
    BlankedAt(p, 'a');
    forall i | 0 <= i < 7
      ensures b[i] == "x _ _ b"[i]
    {
      assert b[i] == (if Lower(p[i]) == 'a' then '_' else p[i]);
    }
  }

  lemma StripExample()
    ensures StripUnderscores("x _ _ b") == "x   b"
  {
    assert StripUnderscores("_ b") == " b";
    assert StripUnderscores(" _ b") == "  b";
  }

}
