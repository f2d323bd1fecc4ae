// The puzzle item of omission/game/item.py (ContentItem); the class in
// src/omission/game/item.py is the same code line for line and is covered by
// this model too. The random picks of the letter are the `draws` argument.

module Item {
  import opened Text
  import opened Blanking

  class ContentItem {
    const original: string
    var puzzle: string
    var letter: char
    var removals: nat
    /** How many random draws the letter choice consumed. */
    ghost var drawsUsed: nat

    /** What construction leaves behind: a lower-case letter of the passage, blanked everywhere. */
    ghost predicate Valid()
      reads this
    {
      && IsLower(letter)
      && removals >= 1
      && puzzle == Blanked(original, letter)
      && removals == Matches(original, letter)
    }

    /**
     * `__init__(passage)`: repeat { pick a character; while it is not a
     * letter, pick again and lower-case it; blank every match } until
     * something was removed. Only the first pick of a pass is not
     * lower-cased, so an upper-case first pick removes nothing and forces
     * another pass.
     */
    constructor (passage: string, draws: seq<char>)
      requires Settles(passage, draws)
      ensures original == passage
      ensures Valid()
      ensures Choose(passage, draws, 0) == Some((letter, drawsUsed))
      ensures OccursFolded(original, letter)
      ensures 1 <= drawsUsed <= |draws| && letter == Lower(draws[drawsUsed - 1])
    {
      original := passage;
      removals := 0;
      puzzle := "";
      letter := ' ';
      drawsUsed := 0;
      new;
      ghost var settled := Choose(passage, draws, 0);
      var k := 0;
      while removals == 0
        invariant 0 <= k <= |draws| && drawsUsed == k
        invariant removals == 0 ==> Choose(original, draws, k) == settled
        invariant removals >= 1 ==> settled == Some((letter, k))
        invariant removals >= 1 ==> puzzle == Blanked(original, letter) && removals == Matches(original, letter)
        decreases |draws| - k
      {
        puzzle := "";
        letter, k := PickLetter(draws, k);
        var pass, removed := BlankPass(original, letter);
        puzzle := puzzle + pass;
        removals := removals + removed;
        drawsUsed := k;
      }
      ChooseSettles(original, draws, 0);
      MatchesMeansOccurs(original, letter);
    }

    /**
     * `get_puzzle(underscores)`: the blanked text verbatim, or the text read
     * around the gaps (`None` is the IndexError on an empty result).
     */
    function GetPuzzle(underscores: bool): (r: Option<string>)
      reads this
      requires Valid()
      ensures underscores ==> r == Some(puzzle) && |r.value| == |original|
      ensures !underscores && r.Some? ==> |r.value| >= 1 && '_' !in r.value && !IsLower(r.value[0])
      ensures !underscores ==> (r.None? <==> StripUnderscores(puzzle) in {"", " ", "  "})
    {
      BlankedAt(original, letter);
      ObscureFails(puzzle);
      if underscores then Some(puzzle) else Obscure(puzzle)
    }

    /** `get_answer()` */
    function GetAnswer(): char
      reads this
    {
      letter
    }

    /** `get_solution()`: the passage, untouched by blanking. */
    function GetSolution(): (s: string)
      reads this
      requires Valid()
      ensures s == original && |s| == |puzzle|
      ensures forall i :: 0 <= i < |s| && puzzle[i] != '_' ==> s[i] == puzzle[i]
    {
      BlankedAt(original, letter);
      original
    }

    /** `check_answer(guess)`: `guess.lower() == letter`, so either case of the letter is accepted. */
    function CheckAnswer(guess: string): (ok: bool)
      reads this
      requires Valid()
      ensures ok <==> |guess| == 1 && (guess[0] == letter || guess[0] == Upper(letter))
      ensures ok ==> OccursFolded(original, Lower(guess[0]))
    {
      MatchesMeansOccurs(original, letter);
      LowerStr(guess) == [letter]
    }

    /** `get_removals()`: the blanks this item added, at least one. */
    function GetRemovals(): (n: nat)
      reads this
      requires Valid()
      ensures n >= 1
      ensures n + Count(original, '_') == Count(puzzle, '_')
    {
      BlankedUnderscores(original, letter);
      removals
    }
  }
}
