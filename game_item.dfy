// The puzzle item of omission/game/game_item.py (GameItem). It draws its
// passage from the loader itself, and its retry loop never clears the puzzle
// text between passes: every pass that removed nothing leaves a full copy of
// the passage in front of the final blanked text.

module GameItemModel {
  import opened Text
  import opened Blanking
  import opened Loader

  /** `k` copies of `s` one after another. */
  function Repeat(s: string, k: nat): (r: string)
    ensures |r| == k * |s|
  {
    if k == 0 then "" else Repeat(s, k - 1) + s
  }

  /**
   * The retry loop of `GameItem.__init__` for one passage: pick a letter,
   * blank it, and go again while nothing was removed, appending every pass to
   * the same text.
   */
  method RetryBlanking(passage: string, draws: seq<char>)
    returns (text: string, count: nat, pick: char, ghost passes: nat)
    requires Settles(passage, draws)
    ensures Choose(passage, draws, 0).Some? && pick == Choose(passage, draws, 0).value.0
    ensures IsLower(pick) && OccursFolded(passage, pick)
    ensures count >= 1 && count == Matches(passage, pick)
    ensures passes == FailedPasses(passage, draws, 0)
    ensures text == Repeat(passage, passes) + Blanked(passage, pick)
  {
    text, count, pick, passes := "", 0, ' ', 0;
    ghost var settled := Choose(passage, draws, 0);
    var k := 0;
    while count == 0
      invariant 0 <= k <= |draws|
      invariant count == 0 ==> Choose(passage, draws, k) == settled && text == Repeat(passage, passes)
      invariant count == 0 ==> passes + FailedPasses(passage, draws, k) == FailedPasses(passage, draws, 0)
      invariant count >= 1 ==> passes == FailedPasses(passage, draws, 0)
      invariant count >= 1 ==> settled == Some((pick, k)) && count == Matches(passage, pick)
      invariant count >= 1 ==> text == Repeat(passage, passes) + Blanked(passage, pick)
      decreases |draws| - k
    {
      pick, k := PickLetter(draws, k);
      var pass, removed := BlankPass(passage, pick);
      text := text + pass;
      count := count + removed;
      if count == 0 {
        NoMatchCopies(passage, pick);
        passes := passes + 1;
      }
    }
    ChooseSettles(passage, draws, 0);
    MatchesMeansOccurs(passage, pick);
  }

  class GameItem {
    const original: string
    var puzzle: string
    var letter: char
    var removals: nat
    /** How many passes ended with nothing removed before the successful one. */
    ghost var retries: nat

    ghost predicate Valid()
      reads this
    {
      && IsLower(letter)
      && removals >= 1
      && removals == Matches(original, letter)
      && puzzle == Repeat(original, retries) + Blanked(original, letter)
    }

    /**
     * `__init__(loader)`: take exactly one passage from the loader, then run
     * the same retry loop as ContentItem, except that `_puzzle` is set to ""
     * only once, before the loop.
     */
    constructor (loader: ContentLoader, order: seq<string>, draws: seq<char>)
      requires loader.Valid() && loader.State().Shuffles(order)
      requires Settles(loader.State().Next(order).0, draws)
      modifies loader
      ensures loader.Valid() && loader.State() == old(loader.State().Next(order).1)
      ensures original == old(loader.State().Next(order).0)
      ensures Valid()
      ensures Choose(original, draws, 0).Some? && letter == Choose(original, draws, 0).value.0
      ensures retries == FailedPasses(original, draws, 0)
      ensures OccursFolded(original, letter)
    {
      var passage := loader.GetNext(order);
      var text, count, pick, passes := RetryBlanking(passage, draws);
      original := passage;
      puzzle := text;
      removals := count;
      letter := pick;
      retries := passes;
    }

    /** When the first pass succeeds the puzzle is exactly the blanked passage. */
    lemma FirstPassBlanked()
      requires Valid() && retries == 0
      ensures |puzzle| == |original|
      ensures forall i :: 0 <= i < |original| ==>
        puzzle[i] == (if Lower(original[i]) == letter then '_' else original[i])
      ensures Count(puzzle, '_') == removals + Count(original, '_')
    {
      assert puzzle == Blanked(original, letter);
      BlankedAt(original, letter);
      BlankedUnderscores(original, letter);
    }

    /** `get_puzzle(underscores)`; the stale copies show up in both forms. */
    function GetPuzzle(underscores: bool): (r: Option<string>)
      reads this
      requires Valid()
      ensures underscores ==> r == Some(puzzle) && |puzzle| == (retries + 1) * |original|
      ensures !underscores ==> (r.None? <==> StripUnderscores(puzzle) in {"", " ", "  "})
      ensures !underscores && r.Some? ==> |r.value| >= 1 && '_' !in r.value && !IsLower(r.value[0])
    {
      if underscores then Some(puzzle) else ObscureFails(puzzle); Obscure(puzzle)
    }

    /** `get_answer()` */
    function GetAnswer(): char
      reads this
    {
      letter
    }

    /** `get_solution()` */
    function GetSolution(): string
      reads this
    {
      original
    }

    /** `check_answer(guess)`: case-insensitive equality with the removed letter. */
    function CheckAnswer(guess: string): (ok: bool)
      reads this
      requires Valid()
      ensures ok <==> |guess| == 1 && (guess[0] == letter || guess[0] == Upper(letter))
    {
      LowerStr(guess) == [letter]
    }

    /** `get_removals()`: counts the final pass only. */
    function GetRemovals(): (n: nat)
      reads this
      requires Valid()
      ensures n >= 1 && n == Matches(original, letter)
    {
      removals
    }
  }
}
