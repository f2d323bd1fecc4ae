# Omission game engine in Dafny

This project models the engine of Omission, a word puzzle. The game shows a
passage with every occurrence of one letter removed, and the player guesses
the letter. The model covers:

- **The puzzle item.** One module covers three copies of the code:
  `ContentItem` of `omission/game/item.py`, its copy in
  `src/omission/game/item.py`, and `GameItem` of
  `omission/game/game_item.py`.
  - Blanking turns every character whose lower-case form is the chosen
    letter into '_' and counts them.
  - `get_puzzle(False)` reads the text around the gaps.
  - The random letter choice is a sequence of draws passed in.
- **The passage walk.** `ContentLoader.get_next` and `reshuffle` of both
  `contentloader.py` and `content_loader.py`. Every shuffle is an `order`
  argument that must be a permutation of the passages.
- **The round.** `GameRound` and `GameRoundSettings` of
  `omission/game/gameround.py`: judging guesses, the item score, lives and
  game over, clues, pause and resume, and the settings datastring.
- **The timer.** `GameTimer` of `omission/game/timer.py`.
  - The `threading.Timer` behind it is a handle state (none, created,
    started, fired).
  - An explicit `Step` is the moment the one-second timer fires.
  - The callbacks are recorded as events.
- **The high-score tables.**
  - The six-place `Scoreboard` of `omission/data/scoreboard.py`.
  - The older eight-place one of `omission/scores/score_loader.py`, with
    its `SCO=` / `:score:name` text form, the `ScoreLoader` that parses it,
    and the `Settings` object that writes the three `DEF=` lines.
  - A table is the sequence of its (score, name) items in OrderedDict
    order.
- **The user settings lines.** `VOL=` and `DYS=` of
  `omission/data/settings.py`, with their parsers, the `datastring` they
  come from, and the dispatch of a line to its parser.
- **The display formatters.** `sec_to_timestring` and
  `score_to_scorestring`, in the unclamped version of
  `omission/interface/helpful.py` and the clamped version shared by
  `omission/kivy-interface/helpful.py` and `omission/interface/useful.py`.

Modules:

- `Text` (text.dfy): the Python string and integer operations the code relies
  on, namely ASCII `lower`/`upper`, `str(n)`, `int(s)`, `split`, `join` and
  `zfill`.
- `Blanking`, `Item`, `GameItemModel`: the puzzle items.
- `Loader`: the passage walk.
- `Timer`: the game timer.
- `Round`: the round and its settings.
- `Ranking`: the ordered table operations. `HighScores` holds the six-place
  table and `ScoreFile` the eight-place table with its loader.
- `UserSettings`: the volume and dyslexia-font settings lines.
- `Display`: the formatters.

Pure parts are functions with lemmas. Parts of the source that update state
are classes whose methods carry `modifies` clauses and loops with invariants.
Each such method is proved against a function that specifies it, for example:

- `Answer` against `Judge`;
- `ParseScores` against `ParseLines`;
- `GetNext` against `Walk.Next`.

Four places where the code does something other than what its comments
or names suggest are modelled as written:

- `Scoreboard.sort_scores` in `omission/scores/score_loader.py` deletes items
  from the OrderedDict while iterating over it.
  - CPython's OrderedDict iterator has already moved to the next key when it
    hands out a key. So deleting the item just handed out raises on the
    following step only when a later key exists.
  - The walk deletes from the ninth item on. `sort_scores` therefore raises
    (after removing the ninth item) exactly when the table held ten or more
    items, and otherwise leaves the top eight.
  - `add_score` adds one item to a table of at most eight, so through the
    public operations the sort never raises and the table is always the top
    eight. The model proves this in `ScoreFile.Scoreboard.AddScore`.
- The docstring of that `sort_scores` says "top 10", but the table keeps
  `retain = 8` items.
- `parse_datastring` in `omission/data/settings.py` sends a line matching
  the survival pattern to `cls.timed.parse_datastring`, so no line ever
  reaches the survival settings. `UserSettings.Dispatch` routes it the same
  way, and `UserSettings.DispatchRoutes` states it.
- The letter choice of the item classes reads a first draw as it comes and
  lower-cases only the draws of the inner `isalpha` loop. A capital drawn
  first matches nothing and forces another pass, so a passage made only of
  capital letters (such as "OK") never gets an item: the loop does not end
  (`Blanking.CapitalsNeverSettle`). A capital drawn after a non-letter is
  lower-cased and accepted (`Blanking.UpperReachable`).

## Model

| member | source | states |
|---|---|---|
| Text.Lower | omission/game/item.py:80 | `c.lower()` on ASCII: maps A-Z to a-z, keeps everything else, and the result is never upper case |
| Text.Upper | omission/game/item.py:104 | `c.upper()` on ASCII: maps a-z to A-Z, keeps everything else, and the result is never lower case |
| Text.LowerStr | omission/game/item.py:124 | `s.lower()` keeps the length and lower-cases each character |
| Text.IntToString | omission/scores/score_loader.py:234 | `str(i)` is non-empty, all digits for `i >= 0`, and '-' followed by digits for `i < 0` |
| Text.ParseInt | omission/scores/score_loader.py:103 | `int(s)` succeeds only on text that starts with a digit or a sign |
| Text.IntToStringRoundTrip | omission/scores/score_loader.py:103 | `int(str(i)) == i` for every integer, negative ones included |
| Text.ZFill | omission/kivy-interface/helpful.py:14 | `s.zfill(w)` has length max(len(s), w) and leaves longer strings unchanged |
| Text.ZFillIntRoundTrip | omission/interface/helpful.py:11 | `int(str(i).zfill(w)) == i` for every integer and width |
| Text.Split | omission/scores/score_loader.py:101 | `s.split(c)` has at least one piece, and is `[s]` when `c` is not in `s` |
| Text.SplitJoin | omission/game/gameround.py:350-357 | splitting a ':'-join of separator-free parts gives the parts back |
| Blanking.Blanked | omission/game/item.py:77-85 | one blanking pass keeps the passage's length |
| Blanking.BlankPass | omission/game/item.py:77-85 | the per-character loop builds the blanked text and counts exactly the case-insensitive matches |
| Blanking.BlankedAt | omission/game/item.py:77-85 | the blanked text has the passage's length, with '_' exactly where `c.lower() == letter` and the passage's character elsewhere |
| Blanking.BlankedUnderscores | src/omission/game/item.py:38-46 | the underscores of the blanked text are the removals plus the underscores the passage already had |
| Blanking.UpperPickMatchesNothing | src/omission/game/item.py:32-43 | an upper-case first pick matches nothing and leaves the passage unchanged, which forces another pass |
| Blanking.PresentLetterMatches | omission/game/item.py:71-82 | a letter drawn from the passage matches at least one position |
| Blanking.MatchesMeansOccurs | src/omission/game/item.py:26-46 | a pass removes something iff the letter occurs in the passage in either case |
| Blanking.NoMatchCopies | omission/game/game_item.py:77-85 | a pass that matches nothing appends an exact copy of the passage |
| Blanking.RestoreBlanks | omission/tests/test_game_item.py:46-56 | for a passage without '_', putting the letter back into every gap and upper-casing gives the upper-cased passage |
| Blanking.InnerPick | omission/game/item.py:72-73 | the inner loop stops only at a letter; a letter it drew itself is the lower-cased last draw, and running out of draws gives nothing |
| Blanking.PassPick | src/omission/game/item.py:32-34 | one pass's pick is a letter after at least one draw; the first draw is taken as it comes, so a lower-case pick is the lower-cased last draw |
| Blanking.PickLetter | omission/game/item.py:71-73 | the pick loop of one pass ends with the letter and draw position that `PassPick` gives |
| Blanking.Choose | omission/game/item.py:65-85 | the retry loop ends only at a letter that matches at least once, after at least one draw |
| Blanking.ChooseSettles | omission/game/game_item.py:67-85 | the settled letter is lower case and is the lower-cased last draw used |
| Blanking.LowerReachable | omission/game/item.py:71-82 | a lower-case letter of the passage is chosen by drawing it once |
| Blanking.UpperReachable | omission/game/item.py:71-82 | a capital of a passage that also has a non-letter is chosen, lower-cased, by drawing the non-letter and then the capital ("I am" yields 'i') |
| Blanking.FailedPasses | omission/game/game_item.py:67-85 | the passes that pick a letter matching nothing, before the one that settles. There are fewer of them than draws used, since every pass takes at least one draw |
| Blanking.UpperThenLower | omission/game/game_item.py:67-85 | a capital drawn first wastes one pass, and a lower-case letter drawn next settles the choice on the second pass |
| Blanking.CapitalsNeverSettle | src/omission/game/item.py:26-46 | a passage made only of capital letters settles on no draws at all: every pass picks a capital, which matches nothing |
| Blanking.StripUnderscores | omission/game/game_item.py:99 | `replace('_', '')` leaves no '_' and is no longer than its input |
| Blanking.CollapsePairs | omission/game/game_item.py:101 | `replace('  ', ' ')` adds no '_' and keeps the first character |
| Blanking.CollapseRemovesPairs | omission/game/game_item.py:99-104 | with no run of three spaces, the single replace leaves no double space |
| Blanking.Obscure | src/omission/game/item.py:56-67 | `get_puzzle(False)`, when it does not raise, is non-empty, has no '_' and does not start with a lower-case letter |
| Blanking.ObscureFails | omission/game/item.py:101-104 | the IndexError happens iff the text without underscores is "", " " or "  " |
| Blanking.ObscureClean | src/omission/game/item.py:58-65 | with no run of three spaces, the result has no double space and no leading space |
| Blanking.ObscureKeepsDoubleSpace | omission/game/item.py:97-104 | counterexample: "x a a b" with letter 'a' reads "X  b", which still has a double space |
| Item.ContentItem.constructor | omission/game/item.py:51-85 | the loops end with the letter and draw count that `Choose` gives: a lower-case letter of the passage, the lower-cased last draw used, at least one removal, and the puzzle equal to the blanked passage |
| Item.ContentItem.GetPuzzle | omission/game/item.py:87-106 | with underscores: the blanked text verbatim, of the passage's length. Without: no '_' and a first character that is not lower case, or the IndexError exactly on an empty text |
| Item.ContentItem.GetSolution | src/omission/game/item.py:75-79 | the passage itself, which agrees with the puzzle everywhere except at the gaps |
| Item.ContentItem.CheckAnswer | omission/game/item.py:120-124 | true iff the guess is the letter in either case, so a right guess names a letter of the passage |
| Item.ContentItem.GetRemovals | src/omission/game/item.py:87-91 | at least one, and equal to the underscores the puzzle adds to the passage |
| GameItemModel.RetryBlanking | omission/game/game_item.py:65-85 | the loop ends with the lower-case letter of the passage that `Choose` gives. The count is the final pass's matches. The number of passes that removed nothing is `FailedPasses` of the draws, and the text is that many passage copies followed by the blanked passage |
| GameItemModel.GameItem.constructor | omission/game/game_item.py:50-85 | exactly one `get_next` call advances the loader. On the passage it returns and any draws on which `Choose` settles, the letter is the one `Choose` gives, and the puzzle holds one passage copy for each of the `FailedPasses` before the blanked passage |
| GameItemModel.GameItem.FirstPassBlanked | omission/game/game_item.py:77-85 | when the first pass succeeds, '_' is exactly at the matches and the removals equal the added underscores |
| GameItemModel.GameItem.GetPuzzle | omission/game/game_item.py:87-108 | the text with underscores is (failed passes + 1) passage lengths long. The text without them fails iff nothing but "", " " or "  " is left once the underscores are stripped. Otherwise it has no '_' and no lower-case first character |
| GameItemModel.GameItem.CheckAnswer | omission/game/game_item.py:122-127 | true iff the guess is the letter in either case |
| GameItemModel.GameItem.GetRemovals | omission/game/game_item.py:129-133 | counts only the final pass, at least one |
| Loader.Walk.Next | omission/game/contentloader.py:32-44 | below the end: returns `content[index]` and steps on. At the end: reshuffles, restarts at 0 and returns the new order's last passage. Always keeps the passages and the index in [0, len] |
| Loader.ServeRest | omission/game/contentloader.py:37-44 | from index i the next len - i calls serve the rest of the content in stored order |
| Loader.ServeFromStart | omission/game/content_loader.py:84-91 | from index 0 the first len calls serve every passage once, in stored order |
| Loader.ServeAfterExhaustion | omission/game/content_loader.py:84-91 | after exhaustion, a cycle serves the new order's last passage and then the whole new order, so that passage comes twice |
| Loader.ContentLoader.constructor | omission/game/content_loader.py:60-76 | the passages are stored shuffled and the walk starts at 0 |
| Loader.ContentLoader.Reshuffle | omission/game/contentloader.py:46-53 | the content becomes a permutation of itself; the index is 0 when restarting and is kept otherwise |
| Loader.ContentLoader.GetNext | omission/game/content_loader.py:78-91 | returns the passage and leaves the state that `Walk.Next` gives |
| Timer.AddedElapsed | omission/game/timer.py:89-97 | `add_time`: elapsed becomes elapsed - s, or 0 when that is not positive, and a non-negative `s` never raises it |
| Timer.RemovedElapsed | omission/game/timer.py:99-107 | `remove_time`: elapsed becomes elapsed + s, capped at the length only for a finite timer |
| Timer.Percent | omission/game/timer.py:62-72 | 100 for an infinite timer or no elapsed time, and 0 at the length |
| Timer.PercentBounds | omission/game/timer.py:66-68 | within a finite run the percentage lies in [0, 100] |
| Timer.PercentMonotone | omission/game/timer.py:66-68 | the percentage never rises as elapsed grows |
| Timer.Seconds | omission/game/timer.py:74-86 | seconds left for a finite timer (adding elapsed gives the length), seconds elapsed for an infinite one |
| Timer.TraceShape | omission/game/timer.py:35-50 | a run from below the length ticks until the length, then fires done once. From the length or beyond, one more step ends it one second past the length |
| Timer.FullRun | omission/game/timer.py:39-41 | a fresh timer of length L gives L - 1 ticks then done, with 0 seconds and 0 percent left |
| Timer.AddTimeLengthensRun | omission/game/timer.py:89-97 | `add_time(k)` mid-run makes the run L + k callbacks long, never giving back more than was used |
| Timer.RemoveTimeShortensRun | omission/game/timer.py:99-107 | `remove_time(k)` mid-run makes the run L - k callbacks long, or one more step when the penalty reaches the length; that step ends at length + 1 (seconds -1) |
| Timer.GameTimer.constructor | omission/game/timer.py:12-33 | elapsed and bookmark 0, alive, a created but unstarted one-second timer, no callbacks yet |
| Timer.GameTimer.Step | omission/game/timer.py:35-50 | elapsed goes up by one and the bookmark stays. At the length the over callback fires and nothing is rescheduled; otherwise the tick callback fires and a new timer starts when alive |
| Timer.GameTimer.GetRemainingPercent | omission/game/timer.py:62-72 | 100 for an infinite timer or at elapsed 0, and in [0, 100] within a finite run |
| Timer.GameTimer.GetSeconds | omission/game/timer.py:74-86 | length - elapsed for a finite timer, elapsed for an infinite one |
| Timer.GameTimer.AddTime | omission/game/timer.py:89-97 | elapsed becomes `AddedElapsed` and nothing else changes |
| Timer.GameTimer.RemoveTime | omission/game/timer.py:99-107 | elapsed becomes `RemovedElapsed` and nothing else changes |
| Timer.GameTimer.Bookmark | omission/game/timer.py:109-119 | the bookmark becomes elapsed, so `since_bookmark` is 0; nothing else changes |
| Timer.GameTimer.Reset | omission/game/timer.py:121-125 | elapsed is 0, so the percentage is back to 100; nothing else changes |
| Timer.GameTimer.Stop | omission/game/timer.py:127-133 | no timer is held afterwards, whatever was held before; counters unchanged |
| Timer.GameTimer.Start | omission/game/timer.py:135-142 | creates a timer if none is held and starts it when alive. It raises iff alive with an already-started timer held. A dead timer is never started |
| Timer.GameTimer.Die | omission/game/timer.py:144-148 | the timer is dead from now on; nothing else changes |
| Round.ItemScore | omission/game/gameround.py:188-210 | with a removal, an attempt inside the budget and a non-negative time since the bookmark, the item score is at least 10 |
| Round.ItemScorePositive | omission/game/gameround.py:193-210 | with a removal, an attempt inside the budget and a non-negative time: base in [10, 100], time bonus in [0, 6], item score at least 10 |
| Round.ItemScoreAfterBudget | omission/game/gameround.py:199-209 | once the attempts reach the budget and six seconds have passed, a correct answer scores 0 or less, and less than 0 past the budget |
| Round.ItemScoreAttemptCost | omission/game/gameround.py:199-209 | each earlier wrong attempt costs exactly one base score |
| Round.Judge | omission/game/gameround.py:135-186 | what one answer does. Correct iff right. Skipped iff wrong on the last try. Only a correct answer changes the score (by the item score). Lives drop by one only on a Survival skip. Game over iff Survival lives reach 0 on a skip. A new item iff `progress` and (correct or Survival skip). Otherwise a wrong guess adds one attempt |
| Round.CorrectRaisesScore | omission/game/gameround.py:142-157 | a correct answer inside the try budget raises the score by at least 10 |
| Round.TimeAdjustments | omission/game/gameround.py:146-160 | the penalty applies to every wrong guess, the bonus only to a correct Timed answer, and nothing else moves the clock |
| Round.SkippedOnLastTry | omission/game/gameround.py:158-186 | from a fresh item the first tries - 1 wrong guesses are Incorrect and the tries-th is Skipped, with the score unchanged |
| Round.SurvivalGameOver | omission/game/gameround.py:164-181 | with one try in Survival, each wrong guess is a skip costing one life, and game over runs from the skip that brings the lives to 0 on |
| Round.GameRoundSettings.constructor | omission/game/gameround.py:285-300 | the defaults: Timed, limit 30, 3 tries, clue at 2, count at 1, bonus 3, penalty 1, pause on solution |
| Round.GameRoundSettings.SetTimed | omission/game/gameround.py:302-310 | Timed with the given limit, bonus, penalty and tries; the clue settings are kept |
| Round.GameRoundSettings.SetSurvival | omission/game/gameround.py:312-318 | Survival with the given lives and tries; bonus, penalty and clue settings are kept |
| Round.GameRoundSettings.SetInfinite | omission/game/gameround.py:320-325 | Infinite with the given tries; the limit and everything else are kept |
| Round.GameRoundSettings.SetSolutionPause | omission/game/gameround.py:327-331 | only the solution-pause flag changes |
| Round.GameRoundSettings.SetClues | omission/game/gameround.py:333-340 | only `count_at` and `clue_at` change |
| Round.GameRoundSettings.GetDatastring | omission/game/gameround.py:342-377 | split on ':', the string gives the mode tag, then each field of that mode, and each field parses back to its value; no newline |
| Round.GameRound.constructor | omission/game/gameround.py:19-65 | a timer of the Timed limit or an infinite one, lives equal to the limit in Survival, no item, zero counters, not paused |
| Round.GameRound.NewItem | omission/game/gameround.py:76-86 | exactly one passage from the loader, a new item from it, tries back to 0 and `since_bookmark` 0; score, lives and clock unchanged |
| Round.GameRound.StartRound | omission/game/gameround.py:67-74 | the first item, then the timer started; raises iff a started timer was already held |
| Round.GameRound.GetStatus | omission/game/gameround.py:88-102 | mode and seconds from the timer. Lives only in Survival. 100 % in Infinite. A percentage in [0, 100] for Survival within its lives and for a Timed run within its length. A ZeroDivisionError iff Survival with limit 0 |
| Round.GameRound.GetPuzzle | omission/game/gameround.py:104-127 | underscores shown iff `_try >= clue_at` or `clue_at == 0`. The count is non-zero iff `_try >= count_at` or `count_at == 0`, and then equals the removals |
| Round.GameRound.GetTries | omission/game/gameround.py:129-133 | the tries left, `tries - _try`: positive iff the attempt is inside the budget, and at least 2 iff the next wrong guess is only Incorrect |
| Round.GameRound.CalculateItemScore | omission/game/gameround.py:188-210 | the item score is `ItemScore` of the removals, tries, attempt and time since the bookmark; the score grows by it and nothing else changes |
| Round.GameRound.GetScore | omission/game/gameround.py:212-216 | the round score and the last item score |
| Round.GameRound.GetSolution | omission/game/gameround.py:218-222 | the item's letter and passage: a lower-case letter that occurs in the passage, and a passage as long as the puzzle; nothing without an item |
| Round.GameRound.GameOver | omission/game/gameround.py:246-254 | the timer is stopped and the over callback fires once; the round's counters are unchanged |
| Round.GameRound.AnswerRight | omission/game/gameround.py:142-156 | a right guess does what `Judge` gives for it: the item score added, the Timed bonus, and a new item with `progress` |
| Round.GameRound.AnswerWrong | omission/game/gameround.py:157-185 | a wrong guess does what `Judge` gives for it: the penalty, one more try, and on the last try a skip, which in Survival costs a life, may end the game and draws a new item with `progress` |
| Round.GameRound.Answer | omission/game/gameround.py:135-186 | with no item: nothing happens and nothing is returned. Settling draws are needed only when a new item is drawn. Otherwise the status and the new counters are `Judge`'s, game over stops the timer, and a new item is drawn exactly when `Judge` says so |
| Round.GameRound.Pause | omission/game/gameround.py:224-230 | idempotent: only a running round changes, and then the timer is stopped |
| Round.GameRound.Resume | omission/game/gameround.py:238-244 | idempotent: only a paused round changes, and then the timer is started |
| Round.GameRound.TimerStep | omission/game/gameround.py:42-49 | a timer step with the round's callbacks: a tick changes nothing in the round, and the end of a Timed timer runs game over once |
| Ranking.Upsert | omission/data/scoreboard.py:70 | `table[score] = name` leaves the score in the table and grows it by at most one |
| Ranking.UpsertEffect | omission/data/scoreboard.py:63-71 | the keys stay distinct. An existing score keeps its place and only its name changes; a new score is appended |
| Ranking.UpsertMembers | omission/data/scoreboard.py:70 | every item afterwards is the new one or an old one |
| Ranking.SortDesc | omission/data/scoreboard.py:107 | `reversed(sorted(items))` is a permutation of the items |
| Ranking.SortDescSorted | omission/data/scoreboard.py:107 | with distinct keys, the sorted items are strictly descending |
| Ranking.SortDescIdentity | omission/scores/score_loader.py:203 | a table already descending is left unchanged by the sort |
| Ranking.TopK | omission/data/scoreboard.py:103-109 | `islice(..., 0, k)` keeps min(k, len) items |
| Ranking.TopKShape | omission/data/scoreboard.py:98-109 | the kept table is descending and made of old items, and every dropped item scores below every kept one |
| Ranking.TopKKeepsAll | omission/data/scoreboard.py:103-109 | with room for every item nothing is dropped |
| Ranking.Worthy | omission/data/scoreboard.py:73-96 | on a full descending table, `check_score(n)` is true iff the lowest stored score is below n |
| Ranking.CheckMeansKept | omission/data/scoreboard.py:73-109 | on a full table and a new score, `check_score` is true iff adding the score keeps it |
| Ranking.Pairs | omission/data/scoreboard.py:111-115 | the (score, name) pairs in table order |
| HighScores.AddExistingRenames | omission/data/scoreboard.py:63-71 | adding a score already present only renames it; nothing moves and nothing is dropped |
| HighScores.FullCheckMatchesAdd | omission/data/scoreboard.py:73-96 | on a full six-place table, `check_score(n)` for a new n is true iff n is present after `add_score(n, _)` |
| HighScores.RoomKeepsScore | omission/data/scoreboard.py:94-96 | a table with room keeps any score added to it, matching `check_score`'s unconditional yes |
| HighScores.Scoreboard.constructor | omission/data/scoreboard.py:56-61 | an empty table for the given datastring |
| HighScores.Scoreboard.AddScore | omission/data/scoreboard.py:63-71 | the table becomes the top six of the old items with the new one, stays descending with at most six items, and keeps the new score unless it was full |
| HighScores.Scoreboard.SortScores | omission/data/scoreboard.py:98-109 | the table becomes the top six, descending, and every dropped item scores below every kept one |
| HighScores.Scoreboard.CheckScore | omission/data/scoreboard.py:73-96 | true iff the table has fewer than six items or some stored score is below the new one |
| HighScores.Scoreboard.GetScores | omission/data/scoreboard.py:111-115 | exactly the (score, name) pairs of the table in stored order: at most six, strictly descending |
| ScoreFile.BoardAdd | omission/scores/score_loader.py:175-180 | `add_score` as a value: at most eight items, and from a bounded table a descending one (so still bounded) made of the old items and the new one |
| ScoreFile.SplitEntriesText | omission/scores/score_loader.py:233-235 | split on newlines, the score lines give one `:score:name` line per item and an empty piece at the end |
| ScoreFile.ParseLines | omission/scores/score_loader.py:85-107 | no table is lost and every table stays bounded; lines without a header before them change nothing |
| ScoreFile.BadScoreStops | omission/scores/score_loader.py:100-106 | under any table header, a score line whose score is not an integer or that has no name field stops the parse; the tables read so far stay and no later line is read |
| ScoreFile.EntryLineTokens | omission/scores/score_loader.py:234 | a score line is not a header, and its fields are the score's digits and the name |
| ScoreFile.ParseEntryLine | omission/scores/score_loader.py:100-104 | one score line under a header appends its item to that table |
| ScoreFile.ParseEntries | omission/scores/score_loader.py:92-106 | the score lines of a table, read back under its header, append its items in order |
| ScoreFile.BoardText | omission/scores/score_loader.py:227-235 | split on newlines, the text of a table is its `SCO=` header, one `:score:name` line per item, and an empty piece at the end |
| ScoreFile.ParseBoardText | omission/scores/score_loader.py:227-235 | parsing the text of a table restores the table (non-empty key without newline, at most eight descending items, names free of ':' and newline) |
| ScoreFile.WriteBoard | omission/scores/score_loader.py:232-234 | the loop writes the header line, then one `:score:name` line per item |
| ScoreFile.Scoreboard.constructor | omission/scores/score_loader.py:168-173 | an empty table for the given datastring |
| ScoreFile.Scoreboard.AddScore | omission/scores/score_loader.py:175-180 | never raises, and the table becomes the top eight of the old items with the new one |
| ScoreFile.Scoreboard.SortScores | omission/scores/score_loader.py:198-213 | as written: with at most nine items the table becomes the top eight, descending. With ten or more the walk raises after removing only the ninth item |
| ScoreFile.Scoreboard.CheckScore | omission/scores/score_loader.py:182-196 | true iff the table has fewer than eight items or some stored score is below the new one |
| ScoreFile.Scoreboard.GetScores | omission/scores/score_loader.py:215-225 | the pairs in table order, strictly descending |
| ScoreFile.Scoreboard.GetDatastring | omission/scores/score_loader.py:227-235 | the text form of the table, which `ParseBoardText` reads back |
| ScoreFile.FullCheckMatchesAdd | omission/scores/score_loader.py:182-196 | on a full eight-place table, `check_score(n)` for a new n is true iff n is present after `add_score(n, _)` |
| ScoreFile.ScoreLoader.constructor | omission/scores/score_loader.py:37 | no tables before any file is read |
| ScoreFile.ScoreLoader.ParseScores | omission/scores/score_loader.py:85-107 | the loop leaves the tables and the success flag that `ParseLines` gives, and keeps every table bounded |
| ScoreFile.ScoreLoader.GetScores | omission/scores/score_loader.py:128-136 | nothing iff the table is unknown; otherwise that table's `get_scores`: its pairs in stored order, at most eight, strictly descending |
| ScoreFile.ScoreLoader.CheckScore | omission/scores/score_loader.py:138-148 | true for an unknown table, otherwise that table's `check_score` |
| ScoreFile.ScoreLoader.AddScore | omission/scores/score_loader.py:150-161 | adds to the table, creating it (with just the new item) when absent; other tables are unchanged |
| ScoreFile.ThreeLines | omission/scores/score_loader.py:273-282 | three newline-free lines, each ended by a newline, split back into themselves and an empty piece |
| ScoreFile.CopySettings | omission/scores/score_loader.py:254 | `copy.deepcopy`: a new settings object with equal fields |
| ScoreFile.Settings.constructor | omission/scores/score_loader.py:242-248 | three separate objects, each with its setter's defaults and the other fields at the `GameRoundSettings` defaults: Timed 30/2/1/3; Survival 5 lives, 1 try, bonus 3, penalty 1; Infinite 3 tries, limit 30, bonus 3, penalty 1; clue at 2, count at 1 and pause on solution for all three |
| ScoreFile.Settings.SaveTimed | omission/scores/score_loader.py:250-254 | a new private object equal to the argument in every field, hence with the same datastring; the other modes unchanged |
| ScoreFile.Settings.SaveSurvival | omission/scores/score_loader.py:256-260 | a new private object equal to the argument in every field, hence with the same datastring; the other modes unchanged |
| ScoreFile.Settings.SaveInfinite | omission/scores/score_loader.py:262-266 | a new private object equal to the argument in every field, hence with the same datastring; the other modes unchanged |
| ScoreFile.Settings.GetDatastring | omission/scores/score_loader.py:268-282 | exactly three lines, `DEF=` and the timed, survival and infinite datastrings, each ended by a newline |
| UserSettings.SecondField | omission/data/settings.py:100-105 | a value is read only from a line with the prefix |
| UserSettings.FieldAfterTag | omission/data/settings.py:101 | the field after the first '=' runs up to the next '=' or the end |
| UserSettings.SecondFieldOf | omission/data/settings.py:101-103 | an integer written after `XYZ=` reads back, whatever follows a further '=' |
| UserSettings.VolumeRoundTrip | omission/data/settings.py:98-107 | `VOL=` and any integer gives that volume back, with no range check; text after a second '=' is ignored |
| UserSettings.DyslexicRoundTrip | omission/data/settings.py:111-120 | `DYS=` and an integer k gives the flag k != 0 |
| UserSettings.VolumeNotInteger | omission/data/settings.py:102-105 | any volume field that is not an integer is refused, whatever follows a further '=' |
| UserSettings.DispatchRoutes | omission/data/settings.py:85-96 | a volume or dyslexic line reaches only its own parser. Nothing is parsed iff no pattern matches. A survival line goes to the timed settings |
| UserSettings.DyslexicDigit | omission/data/settings.py:76 | `int(dys)` written as a digit that parses back to 0 or 1 |
| UserSettings.DatastringLines | omission/tests/test_settings.py:45-52 | the datastring splits into its five lines, and the last two read back as the volume and the flag |
| UserSettings.VolumeLineDispatch | omission/data/settings.py:66-75 | the written volume line reaches the volume parser when not negative; a negative volume matches no pattern |
| UserSettings.DyslexicLineDispatch | omission/data/settings.py:67-76 | the written dyslexic line reaches the dyslexic parser |
| UserSettings.Settings.constructor | omission/data/settings.py:60-63 | volume 10, dyslexia font off |
| UserSettings.Settings.Datastring | omission/data/settings.py:69-76 | split on newlines: the three `DEF=` lines of the mode datastrings, then `VOL=` and `DYS=`, which read back as the current volume and flag |
| UserSettings.Settings.VolumeFromDatastring | omission/data/settings.py:98-109 | true and the new volume iff the line reads as a volume; otherwise false and nothing changes |
| UserSettings.Settings.DyslexicFromDatastring | omission/data/settings.py:111-122 | true and the new flag iff the line reads as a flag; otherwise false and nothing changes |
| UserSettings.Settings.ParseDatastring | omission/data/settings.py:78-96 | each line goes to the parser `Dispatch` picks, with that parser's answer and effect; false and no change when no pattern matches |
| Display.LeftOver | omission/interface/helpful.py:9-10 | minutes * 60 + the left-over seconds is the input; the left-over is in [0, 60) for non-negative input and in (-60, 0] for negative input |
| Display.Scorestring | omission/kivy-interface/helpful.py:16-21 | length max(len(str(score)), fill depth), and it parses back to the score |
| Display.Timestring | omission/interface/helpful.py:5-11 | minutes * 60 + seconds read back from the string give the input, negative inputs included |
| Display.TimestringSeconds | omission/interface/helpful.py:10-11 | for seconds >= 0 the part after ':' is exactly two digits with a value below 60 |
| Display.NegativeTimestring | omission/interface/helpful.py:9-11 | no clamp: a time in (-60, 0) shows as "0:" and the negative seconds, "0:-5" for -5 |
| Display.PaddedTimestring | omission/kivy-interface/helpful.py:5-14 | the string reads back as the input clamped at 0 |
| Display.PaddedZero | omission/kivy-interface/helpful.py:10-14 | any input of 0 or less shows as "00:00" |
| Display.PaddedFields | omission/interface/useful.py:48-57 | minutes of at least two digits, ':', then exactly two digits of seconds |
| Display.PaddedScorestring | omission/interface/useful.py:60-65 | a non-negative score pads to at least ten digits and reads back |
| Display.PlainScorestring | omission/interface/helpful.py:17-18 | at eight places, a non-negative score is at least eight digits and reads back |
| Display.NegativeScorestring | omission/interface/helpful.py:17-18 | a negative score shorter than the fill depth keeps its sign in front of the zeros and fills the depth exactly: -42 shows as "-0000042" |

## Left out

- Threads: the `threading.Timer` and the `life_signal` registration are replaced by the handle state and an explicit `Step`. Real concurrency between ticks and guesses is not modelled.
- Randomness: `random.choice` is a sequence of draws and `random.shuffle` is an `order` argument that must be a permutation. The draws must be characters of the passage on which both retry loops settle (`Blanking.Choose`). Termination with probability one is not expressed; `Blanking.CapitalsNeverSettle` shows the passages on which the loop never ends.
- File I/O and resource lookup are not modelled: `ScoreLoader.__init__`'s file reading, `write_out`, appdirs, the sound player, the content file and its split on blank lines. The score parser receives the lines and the loader receives the passages.
- `ScoreLoader.parse_settings` is not modelled. It calls `set_clues` with three arguments and `set_timed` in a field order that `GameRoundSettings` in omission/game/gameround.py does not accept.
- Floating point: the Survival percentage in `get_status` is an exact real quotient. The timer's `int(elapsed / length * 100)` is the exact integer quotient truncated toward zero, so binary rounding (which can differ by one) is not modelled. The formatters' `int(seconds / 60)` is exact integer truncation, which can differ from the float for huge values.
- Text.ParseInt: accepts only an optional sign followed by ASCII digits. Python's `int()` also accepts surrounding whitespace, underscores between digits and non-ASCII digits, and those forms are not modelled.
- Text.Lower: ASCII case mapping only. Non-ASCII letters are neither letters nor case-mapped, and `isalpha` is ASCII only.
- The per-mode settings objects of `omission/data/settings.py` (their patterns, `datastring` and `parse_datastring`) are parameters here. omission/data/game_round_settings.py has only field defaults, without the patterns and parsers this code calls.
- `ScoreLoader.scoreboards` is a map from datastring to table value rather than an OrderedDict of Scoreboard objects, so the order in which tables were first added is not modelled. Only `write_out` reads that order, and it is left out with the file I/O.
- Round.GameRound: `_lives` exists only in Survival mode in the source. Here it is 0 otherwise, which `get_status` never reads outside Survival.
- Round.GameRound: the tick callback and the game-over callback are counted (`gameOvers`) rather than called, and the UI code they reach is not modelled.
- `get_answer` of both item classes, `GameItem.get_solution` and `since_bookmark` are plain accessors with no contract of their own. `Round.GameRound.GetSolution` and `Round.GameRound.CalculateItemScore` state what they return.
- Display: omission/interface/useful.py and omission/kivy-interface/helpful.py share one model of the formatters (`PaddedTimestring`, `Scorestring` with depth 10).
- Item: src/omission/game/item.py is the same code as omission/game/item.py and shares its model.
- The UI, the sound modules, the font and image loaders, the `pass` stubs of omission/game/game_round.py and the behaviour-less files are not part of this model.
