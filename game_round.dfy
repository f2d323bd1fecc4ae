// One round of play, omission/game/gameround.py: the settings object with
// its serialiser, the scoring rule, and the GameRound state machine that
// judges guesses against a ContentItem and drives the GameTimer.

module Round {
  import opened Text
  import opened Blanking
  import opened Loader
  import opened Item
  import opened Timer

  datatype GameMode = Timed | Survival | Infinite

  /** The answer to a guess. */
  datatype GameStatus = Incorrect | Skipped | Correct

  /** `get_status()`: mode, remaining percentage, seconds, lives. */
  datatype Status = Status(mode: GameMode, remaining: real, seconds: int, lives: int)

  /** The settings one answer reads. */
  datatype Rules = Rules(mode: GameMode, tries: int, bonus: int, penalty: int)

  /** The round's counters one answer changes; `elapsed` is the timer's count. */
  datatype Tally = Tally(attempt: int, score: int, itemScore: int, lives: int, elapsed: int)

  /** What one answer does: its status, the new counters, whether game over ran and whether a new item is drawn. */
  datatype Outcome = Outcome(status: GameStatus, after: Tally, gameOver: bool, nextItem: bool)

  /** `calculate_item_score`: base score by removals (capped at 10), times try bonus plus time bonus. */
  function ItemScore(removals: int, tries: int, attempt: int, since: int): (r: int)
    ensures removals >= 1 && 0 <= attempt < tries && since >= 0 ==> r >= 10
  {
    var letters := if removals > 10 then 10 else removals;
    var base := 100 - (letters - 1) * 10;
    var time := if since > 6 then 6 else since;
    if removals >= 1 && 0 <= attempt < tries && since >= 0 then
      MulAtLeast(base, (tries - attempt) + (6 - time));
      base * ((tries - attempt) + (6 - time))
    else
      base * ((tries - attempt) + (6 - time))
  }

  lemma MulAtLeast(a: int, b: int)
    requires a >= 10 && b >= 1
    ensures a * b >= 10
  {
    assert a * b == a * (b - 1) + a;
  }

  /**
   * With a removal, an attempt still inside the budget and a non-negative
   * time since the bookmark, the base lies in [10, 100], the time bonus in
   * [0, 6], and the item score is at least 10.
   */
  lemma ItemScorePositive(removals: int, tries: int, attempt: int, since: int)
    requires removals >= 1 && 0 <= attempt < tries && since >= 0
    ensures var letters := if removals > 10 then 10 else removals; 10 <= 100 - (letters - 1) * 10 <= 100
    ensures var time := if since > 6 then 6 else since; 0 <= 6 - time <= 6
    ensures ItemScore(removals, tries, attempt, since) >= 10
  {
    var letters := if removals > 10 then 10 else removals;
    var time := if since > 6 then 6 else since;
    MulAtLeast(100 - (letters - 1) * 10, (tries - attempt) + (6 - time));
  }

  /**
   * Once the attempts reach the budget and the time bonus is spent, a
   * correct answer scores nothing, and less than nothing past the budget.
   */
  lemma ItemScoreAfterBudget(removals: int, tries: int, attempt: int, since: int)
    requires removals >= 1 && attempt >= tries && since >= 6
    ensures ItemScore(removals, tries, attempt, since) <= 0
    ensures attempt > tries ==> ItemScore(removals, tries, attempt, since) < 0
  {
    var letters := if removals > 10 then 10 else removals;
    var base := 100 - (letters - 1) * 10;
    assert ItemScore(removals, tries, attempt, since) == base * (tries - attempt);
    MulNonPositive(base, tries - attempt);
  }

  lemma MulNonPositive(a: int, b: int)
    requires a >= 10 && b <= 0
    ensures a * b <= 0
    ensures b < 0 ==> a * b < 0
  {
    assert a * b == -(a * -b);
  }

  /** Each wrong attempt before the correct one costs one base score. */
  lemma ItemScoreAttemptCost(removals: int, tries: int, attempt: int, since: int)
    requires 1 <= removals <= 10
    ensures ItemScore(removals, tries, attempt, since) - ItemScore(removals, tries, attempt + 1, since) == 100 - (removals - 1) * 10
  {
    var base := 100 - (removals - 1) * 10;
    var time := if since > 6 then 6 else since;
    assert base * ((tries - attempt) + (6 - time)) == base * ((tries - (attempt + 1)) + (6 - time)) + base;
  }

  /**
   * The effect of `answer(letter, progress)` on the counters, given whether
   * the guess was right, the item's removals and the time since the
   * bookmark.
   */
  function Judge(rules: Rules, t: Tally, length: int, correct: bool, removals: int, since: int, progress: bool): (o: Outcome)
    ensures o.status == Correct <==> correct
    ensures o.status == Skipped <==> !correct && t.attempt + 1 >= rules.tries
    ensures !correct ==> o.after.score == t.score && o.after.itemScore == t.itemScore
    ensures correct ==> o.after.score == t.score + o.after.itemScore && o.after.lives == t.lives
    ensures o.after.lives != t.lives ==> rules.mode == Survival && o.status == Skipped && o.after.lives == t.lives - 1
    ensures o.gameOver <==> rules.mode == Survival && o.status == Skipped && o.after.lives <= 0
    ensures o.nextItem <==> progress && (o.status == Correct || (rules.mode == Survival && o.status == Skipped))
    ensures o.nextItem ==> o.after.attempt == 0
    ensures !o.nextItem && !correct ==> o.after.attempt == t.attempt + 1
    ensures correct && rules.bonus >= 0 && t.elapsed >= 0 ==> o.after.elapsed <= t.elapsed
  {
    if correct then
      var s := ItemScore(removals, rules.tries, t.attempt, since);
      var e := if rules.mode == Timed then AddedElapsed(t.elapsed, rules.bonus) else t.elapsed;
      Outcome(Correct, Tally(if progress then 0 else t.attempt, t.score + s, s, t.lives, e), false, progress)
    else
      var e := RemovedElapsed(length, t.elapsed, rules.penalty);
      var a := t.attempt + 1;
      if a >= rules.tries then
        if rules.mode == Survival then
          var l := t.lives - 1;
          Outcome(Skipped, Tally(if progress then 0 else a, t.score, t.itemScore, l, e), l <= 0, progress)
        else
          Outcome(Skipped, Tally(a, t.score, t.itemScore, t.lives, e), false, false)
      else
        Outcome(Incorrect, Tally(a, t.score, t.itemScore, t.lives, e), false, false)
  }

  /** A correct answer inside the try budget raises the score by at least 10. */
  lemma CorrectRaisesScore(rules: Rules, t: Tally, length: int, removals: int, since: int, progress: bool)
    requires removals >= 1 && 0 <= t.attempt < rules.tries && since >= 0
    ensures Judge(rules, t, length, true, removals, since, progress).after.score >= t.score + 10
  {
    ItemScorePositive(removals, rules.tries, t.attempt, since);
  }

  /** The penalty applies to every wrong guess and the bonus only to a correct one in Timed mode. */
  lemma TimeAdjustments(rules: Rules, t: Tally, length: int, correct: bool, removals: int, since: int, progress: bool)
    ensures var o := Judge(rules, t, length, correct, removals, since, progress);
      && (!correct ==> o.after.elapsed == RemovedElapsed(length, t.elapsed, rules.penalty))
      && (correct && rules.mode == Timed ==> o.after.elapsed == AddedElapsed(t.elapsed, rules.bonus))
      && (correct && rules.mode != Timed ==> o.after.elapsed == t.elapsed)
  {
  }

  /** `n` wrong guesses in a row, each with `progress` set. */
  ghost function WrongRun(rules: Rules, t: Tally, length: int, n: nat): seq<Outcome>
    decreases n
  {
    if n == 0 then []
    else
      var o := Judge(rules, t, length, false, 0, 0, true);
      [o] + WrongRun(rules, o.after, length, n - 1)
  }

  /**
   * From a fresh item, the first `tries - 1` wrong guesses are Incorrect and
   * keep the score; the `tries`-th is Skipped.
   */
  lemma {:induction false} SkippedOnLastTry(rules: Rules, t: Tally, length: int, n: nat)
    requires rules.tries >= 1 && 0 <= t.attempt && t.attempt + n <= rules.tries
    ensures |WrongRun(rules, t, length, n)| == n
    ensures forall i :: 0 <= i < n ==>
      && (WrongRun(rules, t, length, n)[i].status == Skipped <==> t.attempt + i + 1 == rules.tries)
      && WrongRun(rules, t, length, n)[i].after.score == t.score
    decreases n
  {
    if n > 0 {
      var o := Judge(rules, t, length, false, 0, 0, true);
      if n > 1 {
        SkippedOnLastTry(rules, o.after, length, n - 1);
      }
      var r := WrongRun(rules, t, length, n);
      assert r == [o] + WrongRun(rules, o.after, length, n - 1);
      forall i | 0 <= i < n
        ensures (r[i].status == Skipped <==> t.attempt + i + 1 == rules.tries) && r[i].after.score == t.score
      {
        if i > 0 {
          assert r[i] == WrongRun(rules, o.after, length, n - 1)[i - 1];
        }
      }
    }
  }

  /**
   * Survival with one try per item: every wrong guess is a skip that costs a
   * life, and game over runs exactly from the skip that brings the lives to
   * zero, i.e. first on the `lives`-th skip.
   */
  lemma {:induction false} SurvivalGameOver(rules: Rules, t: Tally, length: int, n: nat)
    requires rules.mode == Survival && rules.tries == 1 && t.attempt == 0
    ensures |WrongRun(rules, t, length, n)| == n
    ensures forall i :: 0 <= i < n ==>
      && WrongRun(rules, t, length, n)[i].status == Skipped
      && WrongRun(rules, t, length, n)[i].after.lives == t.lives - (i + 1)
      && (WrongRun(rules, t, length, n)[i].gameOver <==> i + 1 >= t.lives)
    decreases n
  {
    if n > 0 {
      var o := Judge(rules, t, length, false, 0, 0, true);
      SurvivalGameOver(rules, o.after, length, n - 1);
      var r := WrongRun(rules, t, length, n);
      assert r == [o] + WrongRun(rules, o.after, length, n - 1);
      forall i | 0 <= i < n
        ensures r[i].status == Skipped && r[i].after.lives == t.lives - (i + 1) && (r[i].gameOver <==> i + 1 >= t.lives)
      {
        if i > 0 {
          assert r[i] == WrongRun(rules, o.after, length, n - 1)[i - 1];
        }
      }
    }
  }

  lemma RatioPercent(a: int, b: int)
    requires 0 <= a <= b && b > 0
    ensures 0.0 <= (a as real / b as real) * 100.0 <= 100.0
  {
    var q := a as real / b as real;
    assert q * b as real == a as real;
  }

  /** The ':'-separated integer fields of a settings datastring. */
  function Fields(mode: GameMode, limit: int, bonus: int, penalty: int, tries: int, countAt: int, clueAt: int, pause: bool): seq<int>
  {
    var sp := if pause then 1 else 0;
    match mode
    case Timed => [limit, bonus, penalty, tries, countAt, clueAt, sp]
    case Survival => [limit, tries, countAt, clueAt, sp]
    case Infinite => [tries, countAt, clueAt, sp]
  }

  function ModeTag(mode: GameMode): string
  {
    match mode
    case Timed => "T"
    case Survival => "S"
    case Infinite => "I"
  }

  function IntStrings(xs: seq<int>): (r: seq<string>)
    ensures |r| == |xs| && forall i :: 0 <= i < |xs| ==> r[i] == IntToString(xs[i])
  {
    seq(|xs|, i requires 0 <= i < |xs| => IntToString(xs[i]))
  }

  class GameRoundSettings {
    var mode: GameMode
    /** The timer length in Timed mode, the number of lives in Survival. */
    var limit: int
    var tries: int
    var clueAt: int
    var countAt: int
    var bonus: int
    var penalty: int
    var solutionPause: bool

    /** The defaults: Timed, 30 seconds, 3 tries, clue at 2, count at 1, bonus 3, penalty 1, pause on solution. */
    constructor ()
      ensures mode == Timed && limit == 30 && tries == 3 && clueAt == 2 && countAt == 1
      ensures bonus == 3 && penalty == 1 && solutionPause
    {
      mode := Timed;
      limit := 30;
      tries := 3;
      clueAt := 2;
      countAt := 1;
      bonus := 3;
      penalty := 1;
      solutionPause := true;
    }

    /** `set_timed(time, bonus, penalty, tries)` */
    method SetTimed(time: int, bonus: int, penalty: int, tries: int)
      modifies this
      ensures mode == Timed && limit == time && this.bonus == bonus && this.penalty == penalty && this.tries == tries
      ensures clueAt == old(clueAt) && countAt == old(countAt) && solutionPause == old(solutionPause)
    {
      mode := Timed;
      limit := time;
      this.bonus := bonus;
      this.penalty := penalty;
      this.tries := tries;
    }

    /** `set_survival(lives, tries)`: bonus and penalty are kept. */
    method SetSurvival(lives: int, tries: int)
      modifies this
      ensures mode == Survival && limit == lives && this.tries == tries
      ensures bonus == old(bonus) && penalty == old(penalty)
      ensures clueAt == old(clueAt) && countAt == old(countAt) && solutionPause == old(solutionPause)
    {
      mode := Survival;
      limit := lives;
      this.tries := tries;
    }

    /** `set_infinite(tries)`: the limit is kept. */
    method SetInfinite(tries: int)
      modifies this
      ensures mode == Infinite && this.tries == tries
      ensures limit == old(limit) && bonus == old(bonus) && penalty == old(penalty)
      ensures clueAt == old(clueAt) && countAt == old(countAt) && solutionPause == old(solutionPause)
    {
      mode := Infinite;
      this.tries := tries;
    }

    /** `set_solution_pause(solution_pause)` */
    method SetSolutionPause(solutionPause: bool)
      modifies this
      ensures this.solutionPause == solutionPause
      ensures mode == old(mode) && limit == old(limit) && tries == old(tries) && bonus == old(bonus)
      ensures penalty == old(penalty) && clueAt == old(clueAt) && countAt == old(countAt)
    {
      this.solutionPause := solutionPause;
    }

    /** `set_clues(count_at, clue_at)` */
    method SetClues(countAt: int, clueAt: int)
      modifies this
      ensures this.countAt == countAt && this.clueAt == clueAt
      ensures mode == old(mode) && limit == old(limit) && tries == old(tries) && bonus == old(bonus)
      ensures penalty == old(penalty) && solutionPause == old(solutionPause)
    {
      this.countAt := countAt;
      this.clueAt := clueAt;
    }

    /** The fields the current mode writes, in order. */
    function CurrentFields(): seq<int>
      reads this
    {
      Fields(mode, limit, bonus, penalty, tries, countAt, clueAt, solutionPause)
    }

    /**
     * `get_datastring()`: the mode tag and the mode's fields joined by ':'.
     * Splitting on ':' gives the tag back, then every field as a decimal
     * integer that parses back to its value.
     */
    function GetDatastring(): (s: string)
      reads this
      ensures |Split(s, ':')| == 1 + |CurrentFields()| && Split(s, ':')[0] == ModeTag(mode)
      ensures forall i :: 0 <= i < |CurrentFields()| ==> ParseInt(Split(s, ':')[i + 1]) == Some(CurrentFields()[i])
      ensures '\n' !in s
    {
      var fields := CurrentFields();
      var parts := [ModeTag(mode)] + IntStrings(fields);
      forall i | 0 <= i < |parts|
        ensures ':' !in parts[i] && '\n' !in parts[i]
      {
        if i > 0 {
          IntToStringNoSeparator(fields[i - 1], ':');
          IntToStringNoSeparator(fields[i - 1], '\n');
        }
      }
      SplitJoin(parts, ':');
      JoinAvoids(parts, ':', '\n');
      forall i | 0 <= i < |fields|
        ensures ParseInt(parts[i + 1]) == Some(fields[i])
      {
        IntToStringRoundTrip(fields[i]);
      }
      Join(parts, ':')
    }
  }

  class GameRound {
    const settings: GameRoundSettings
    const loader: ContentLoader
    const timer: GameTimer
    var item: ContentItem?
    /** `_try`: wrong guesses on the current item. */
    var attempt: int
    var score: int
    var itemScore: int
    /** `_lives`; the source only creates it in Survival mode, here it is 0 otherwise. */
    var lives: int
    var paused: bool
    /** How many times `game_over` has run, i.e. the game-over callback fired. */
    var gameOvers: nat

    ghost predicate Valid()
      reads this, loader, item, timer, settings
    {
      && loader.Valid()
      && (item != null ==> item.Valid())
      && timer.length == (if settings.mode == Timed then settings.limit else 0)
    }

    /** The loader and the random draws can produce the next item. */
    ghost predicate NextReady(order: seq<string>, draws: seq<char>)
      reads loader
    {
      loader.Valid() && loader.State().Shuffles(order) && Settles(loader.State().Next(order).0, draws)
    }

    /** Whether `answer(guess, progress)` draws a new item: a right guess, or a Survival skip, with `progress`. */
    ghost predicate DrawsItem(guess: string, progress: bool)
      reads this, item, settings
      requires item != null ==> item.Valid()
    {
      progress && item != null && (item.CheckAnswer(guess) || (settings.mode == Survival && attempt + 1 >= settings.tries))
    }

    function CurrentRules(): Rules
      reads settings
    {
      Rules(settings.mode, settings.tries, settings.bonus, settings.penalty)
    }

    function CurrentTally(): Tally
      reads this, timer
    {
      Tally(attempt, score, itemScore, lives, timer.elapsed)
    }

    /**
     * `__init__` with a loader and settings supplied: a timer of the Timed
     * limit, or an infinite one; lives from the limit in Survival.
     */
    constructor (settings: GameRoundSettings, loader: ContentLoader)
      requires loader.Valid()
      ensures this.settings == settings && this.loader == loader && fresh(timer)
      ensures Valid()
      ensures timer.elapsed == 0 && timer.bookmark == 0 && timer.alive && timer.handle == Fresh && timer.events == []
      ensures item == null && attempt == 0 && score == 0 && itemScore == 0 && !paused && gameOvers == 0
      ensures lives == if settings.mode == Survival then settings.limit else 0
    {
      this.settings := settings;
      this.loader := loader;
      timer := new GameTimer(if settings.mode == Timed then settings.limit else 0);
      lives := if settings.mode == Survival then settings.limit else 0;
      paused := false;
      item := null;
      attempt := 0;
      score := 0;
      itemScore := 0;
      gameOvers := 0;
    }

    /** `new_item()`: exactly one passage from the loader, tries back to 0, a fresh bookmark. */
    method NewItem(order: seq<string>, draws: seq<char>)
      requires Valid() && NextReady(order, draws)
      modifies this, loader, timer
      ensures Valid()
      ensures item != null && fresh(item) && item.original == old(loader.State().Next(order).0)
      ensures loader.State() == old(loader.State().Next(order).1)
      ensures attempt == 0 && timer.SinceBookmark() == 0
      ensures timer.elapsed == old(timer.elapsed) && timer.handle == old(timer.handle)
      ensures timer.alive == old(timer.alive) && timer.events == old(timer.events)
      ensures score == old(score) && itemScore == old(itemScore) && lives == old(lives)
      ensures paused == old(paused) && gameOvers == old(gameOvers)
    {
      item := null;
      var passage := loader.GetNext(order);
      item := new ContentItem(passage, draws);
      attempt := 0;
      timer.Bookmark();
    }

    /** `start_round()`: the first item, then the timer; `ok` is false when starting raises. */
    method StartRound(order: seq<string>, draws: seq<char>) returns (ok: bool)
      requires Valid() && NextReady(order, draws)
      modifies this, loader, timer
      ensures Valid()
      ensures item != null && fresh(item) && item.original == old(loader.State().Next(order).0)
      ensures attempt == 0 && timer.SinceBookmark() == 0
      ensures ok <==> !(timer.alive && old(timer.handle) in {Pending, Spent})
      ensures ok && timer.alive ==> timer.handle == Pending
    {
      NewItem(order, draws);
      ok := timer.Start();
    }

    /** `get_status()`; `None` is the ZeroDivisionError of a Survival round with limit 0. */
    function GetStatus(): (r: Option<Status>)
      reads this, settings, timer
      ensures r.None? <==> settings.mode == Survival && settings.limit == 0
      ensures r.Some? ==> r.value.mode == settings.mode && r.value.seconds == timer.GetSeconds()
      ensures r.Some? && settings.mode != Survival ==> r.value.lives == 0
      ensures r.Some? && settings.mode == Infinite ==> r.value.remaining == 100.0
      ensures settings.mode == Survival && 0 <= lives <= settings.limit && settings.limit > 0 ==>
        r.Some? && r.value.lives == lives && 0.0 <= r.value.remaining <= 100.0
      ensures settings.mode == Timed && timer.length > 0 && 0 <= timer.elapsed <= timer.length ==>
        r.Some? && 0.0 <= r.value.remaining <= 100.0
    {
      match settings.mode
      case Survival =>
        if settings.limit == 0 then None
        else
          var remaining := (lives as real / settings.limit as real) * 100.0;
          if 0 <= lives <= settings.limit then
            RatioPercent(lives, settings.limit);
            Some(Status(Survival, remaining, timer.GetSeconds(), lives))
          else
            Some(Status(Survival, remaining, timer.GetSeconds(), lives))
      case Timed =>
        Some(Status(Timed, timer.GetRemainingPercent() as real, timer.GetSeconds(), 0))
      case Infinite =>
        Some(Status(Infinite, 100.0, timer.GetSeconds(), 0))
    }

    /** Whether the underscores are shown at the current attempt. */
    predicate ShowsClue()
      reads this, settings
    {
      attempt >= settings.clueAt || settings.clueAt == 0
    }

    /** Whether the removal count is shown at the current attempt. */
    predicate ShowsCount()
      reads this, settings
    {
      attempt >= settings.countAt || settings.countAt == 0
    }

    /**
     * `get_puzzle()`: the text and the count. Underscores appear exactly when
     * the clue is due; the count is non-zero exactly when it is due. `None`
     * is the error of having no item, or of an obscured text left empty.
     */
    function GetPuzzle(): (r: Option<(string, int)>)
      reads this, settings, item
      requires item != null ==> item.Valid()
      ensures r.None? <==> item == null || (!ShowsClue() && Obscure(item.puzzle).None?)
      ensures r.Some? ==> ('_' in r.value.0 <==> ShowsClue())
      ensures r.Some? && ShowsClue() ==> r.value.0 == item.puzzle
      ensures r.Some? ==> (r.value.1 != 0 <==> ShowsCount())
      ensures r.Some? && ShowsCount() ==> r.value.1 == item.removals
    {
      if item == null then None
      else
        var text := item.GetPuzzle(ShowsClue());
        if text.None? then None
        else
          var count := if ShowsCount() then item.GetRemovals() else 0;
          if ShowsClue() then
            BlankedUnderscores(item.original, item.letter);
            CountPositive(item.puzzle, '_');
            Some((text.value, count))
          else
            Some((text.value, count))
    }

    /** `get_tries()`: tries left on this item; positive exactly while a wrong guess is not yet a skip. */
    function GetTries(): (n: int)
      reads this, settings
      ensures n == settings.tries - attempt
      ensures n >= 1 <==> attempt < settings.tries
      ensures n >= 2 <==> Judge(CurrentRules(), Tally(attempt, 0, 0, 0, 0), 0, false, 0, 0, false).status == Incorrect
    {
      settings.tries - attempt
    }

    /** `calculate_item_score()` */
    method CalculateItemScore()
      requires item != null && item.Valid()
      modifies this
      ensures item == old(item) && attempt == old(attempt) && lives == old(lives)
      ensures itemScore == ItemScore(item.removals, settings.tries, attempt, timer.SinceBookmark())
      ensures score == old(score) + itemScore
      ensures paused == old(paused) && gameOvers == old(gameOvers)
    {
      var letters := item.GetRemovals();
      if letters > 10 {
        letters := 10;
      }
      var baseScore := 100 - (letters - 1) * 10;
      var tryBonus := settings.tries - attempt;
      var time := timer.SinceBookmark();
      if time > 6 {
        time := 6;
      }
      var timeBonus := 6 - time;
      itemScore := baseScore * (tryBonus + timeBonus);
      score := score + itemScore;
    }

    /** `get_score()` */
    function GetScore(): (r: (int, int))
      reads this
      ensures r.0 == score && r.1 == itemScore
    {
      (score, itemScore)
    }

    /** `get_solution()`: the letter and the passage; `None` when there is no item. */
    function GetSolution(): (r: Option<(char, string)>)
      reads this, item
      requires item != null ==> item.Valid()
      ensures r.Some? <==> item != null
      ensures r.Some? ==> r.value == (item.letter, item.original)
      ensures r.Some? ==> IsLower(r.value.0) && |r.value.1| == |item.puzzle| && OccursFolded(r.value.1, r.value.0)
    {
      if item == null then None
      else
        MatchesMeansOccurs(item.original, item.letter);
        Some((item.GetAnswer(), item.GetSolution()))
    }

    /** `game_over()`: stop the timer and fire the callback. */
    method GameOver()
      modifies this, timer
      ensures timer.handle == NoHandle && gameOvers == old(gameOvers) + 1
      ensures timer.elapsed == old(timer.elapsed) && timer.bookmark == old(timer.bookmark)
      ensures timer.alive == old(timer.alive) && timer.events == old(timer.events)
      ensures item == old(item) && attempt == old(attempt) && score == old(score)
      ensures itemScore == old(itemScore) && lives == old(lives) && paused == old(paused)
    {
      timer.Stop();
      gameOvers := gameOvers + 1;
    }

    /** What `answer` promises for one verdict on the current item: `Judge`'s outcome, and the new item it draws. */
    twostate predicate Answered(correct: bool, progress: bool, order: seq<string>, status: GameStatus)
      reads this, loader, timer, settings, item
      requires old(item) != null
    {
      var o := Judge(old(CurrentRules()), old(CurrentTally()), timer.length, correct,
                     old(item.removals), old(timer.SinceBookmark()), progress);
      && status == o.status
      && CurrentTally() == o.after
      && gameOvers == old(gameOvers) + (if o.gameOver then 1 else 0)
      && timer.handle == (if o.gameOver then NoHandle else old(timer.handle))
      && (o.nextItem ==> old(loader.Valid()) && old(loader.State().Shuffles(order))
                         && item != null && fresh(item) && item.original == old(loader.State().Next(order).0)
                         && loader.State() == old(loader.State().Next(order).1) && timer.SinceBookmark() == 0)
      && (!o.nextItem ==> item == old(item) && unchanged(loader) && timer.bookmark == old(timer.bookmark))
      && paused == old(paused) && timer.alive == old(timer.alive) && timer.events == old(timer.events)
    }

    /** The right-guess branch of `answer`: score the item, add the Timed bonus, then maybe a new item. */
    method AnswerRight(progress: bool, order: seq<string>, draws: seq<char>) returns (status: GameStatus)
      requires Valid() && item != null
      requires progress ==> NextReady(order, draws)
      modifies this, loader, timer
      ensures Valid()
      ensures Answered(true, progress, order, status)
    {
      CalculateItemScore();
      if settings.mode == Timed {
        timer.AddTime(settings.bonus);
      }
      if progress {
        NewItem(order, draws);
      }
      return Correct;
    }

    /** The wrong-guess branch of `answer`: the penalty, one more try, and on the last try a skip. */
    method AnswerWrong(progress: bool, order: seq<string>, draws: seq<char>) returns (status: GameStatus)
      requires Valid() && item != null
      requires progress && settings.mode == Survival && attempt + 1 >= settings.tries ==> NextReady(order, draws)
      modifies this, loader, timer
      ensures Valid()
      ensures Answered(false, progress, order, status)
    {
      timer.RemoveTime(settings.penalty);
      attempt := attempt + 1;
      if attempt >= settings.tries {
        if settings.mode == Survival {
          lives := lives - 1;
          if lives <= 0 {
            GameOver();
          }
          if progress {
            NewItem(order, draws);
          }
        }
        return Skipped;
      } else {
        return Incorrect;
      }
    }

    /**
     * `answer(letter, progress)`. A right guess scores the item, then adds
     * the Timed bonus; a wrong one takes the penalty and uses a try, and the
     * last try skips the item, which in Survival costs a life and ends the
     * game at zero lives. `None` stands for the source returning nothing
     * when there is no item.
     */
    method Answer(guess: string, progress: bool, order: seq<string>, draws: seq<char>)
      returns (status: Option<GameStatus>)
      requires Valid()
      requires DrawsItem(guess, progress) ==> NextReady(order, draws)
      modifies this, loader, timer
      ensures Valid()
      ensures old(item) == null ==> status.None? && unchanged(this) && unchanged(loader) && unchanged(timer)
      ensures old(item) != null ==> status.Some? && Answered(old(item.CheckAnswer(guess)), progress, order, status.value)
      ensures paused == old(paused) && timer.alive == old(timer.alive) && timer.events == old(timer.events)
    {
      if item == null {
        return None;
      }
      var st;
      if item.CheckAnswer(guess) {
        st := AnswerRight(progress, order, draws);
      } else {
        st := AnswerWrong(progress, order, draws);
      }
      return Some(st);
    }

    /** `pause()`: only a running round stops its timer. */
    method Pause()
      modifies this, timer
      ensures paused
      ensures old(paused) ==> unchanged(this) && unchanged(timer)
      ensures !old(paused) ==> timer.handle == NoHandle
      ensures timer.elapsed == old(timer.elapsed) && timer.bookmark == old(timer.bookmark)
      ensures timer.alive == old(timer.alive) && timer.events == old(timer.events)
      ensures item == old(item) && attempt == old(attempt) && score == old(score) && gameOvers == old(gameOvers)
    {
      if !paused {
        paused := true;
        timer.Stop();
      }
    }

    /** `resume()`: only a paused round restarts its timer; `ok` is false when starting raises. */
    method Resume() returns (ok: bool)
      modifies this, timer
      ensures !paused
      ensures !old(paused) ==> ok && unchanged(this) && unchanged(timer)
      ensures old(paused) ==> (ok <==> !(timer.alive && old(timer.handle) in {Pending, Spent}))
      ensures old(paused) && ok && timer.alive ==> timer.handle == Pending
      ensures timer.elapsed == old(timer.elapsed) && timer.bookmark == old(timer.bookmark)
      ensures timer.alive == old(timer.alive) && timer.events == old(timer.events)
      ensures item == old(item) && attempt == old(attempt) && score == old(score) && gameOvers == old(gameOvers)
    {
      ok := true;
      if paused {
        paused := false;
        ok := timer.Start();
      }
    }

    /**
     * One second of the round's timer, with the callbacks wired as
     * `__init__` wires them: a tick does nothing to the round, and the end of
     * a Timed round's timer runs `game_over`.
     */
    method TimerStep()
      requires Valid() && timer.handle == Pending
      modifies this, timer
      ensures Valid()
      ensures timer.elapsed == old(timer.elapsed) + 1
      ensures timer.events == old(timer.events) + [StepEvent(timer.length, timer.elapsed)]
      ensures StepEvent(timer.length, timer.elapsed) == Done ==>
        settings.mode == Timed && gameOvers == old(gameOvers) + 1 && timer.handle == NoHandle
      ensures StepEvent(timer.length, timer.elapsed) == Tick ==>
        gameOvers == old(gameOvers) && timer.handle == (if timer.alive then Pending else Fresh)
      ensures item == old(item) && attempt == old(attempt) && score == old(score) && lives == old(lives)
    {
      timer.Step();
      if timer.events[|timer.events| - 1] == Done {
        GameOver();
      }
    }
  }
}
