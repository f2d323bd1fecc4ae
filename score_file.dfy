// The older score store, omission/scores/score_loader.py: an eight-place
// Scoreboard with its text form, the ScoreLoader that reads `SCO=` and
// `:score:name` lines into one table per settings datastring, and the
// Settings object whose datastring holds the three `DEF=` lines. Reading
// and writing the file are outside the model: the parser receives the lines.

module ScoreFile {
  import opened Text
  import opened Ranking
  import opened Round

  /** `Scoreboard.retain` */
  const Retain: nat := 8

  /** `add_score` on a table of at most eight: assign, sort, keep the top eight. */
  function BoardAdd(s: seq<Entry>, score: int, name: string): (r: seq<Entry>)
    ensures |r| <= Retain
    ensures Bounded(s) ==> Bounded(r) && forall x :: x in r ==> x in Upsert(s, score, name)
  {
    TopEight(s, score, name);
    TopK(Upsert(s, score, name), Retain)
  }

  /** The table invariant between calls. */
  predicate Bounded(s: seq<Entry>)
  {
    Descending(s) && |s| <= Retain
  }

  /** The top eight of a bounded table with one score assigned. */
  lemma TopEight(s: seq<Entry>, score: int, name: string)
    ensures Bounded(s) ==> Descending(TopK(Upsert(s, score, name), Retain))
    ensures Bounded(s) ==> forall x :: x in TopK(Upsert(s, score, name), Retain) ==> x in Upsert(s, score, name)
  {
    if Bounded(s) {
      UpsertEffect(s, score, name);
      TopKShape(Upsert(s, score, name), Retain);
    }
  }

  /** One `:score:name` line. */
  function EntryLine(e: Entry): string
  {
    ":" + IntToString(e.score) + ":" + e.name
  }

  /** The score lines of a table, each ending in a newline. */
  function EntriesText(s: seq<Entry>): string
  {
    if |s| == 0 then "" else EntryLine(s[0]) + "\n" + EntriesText(s[1..])
  }

  /** `Scoreboard.get_datastring()` as a value. */
  function BoardText(key: string, s: seq<Entry>): (r: string)
    ensures '\n' !in key && PlainNames(s) ==> Split(r, '\n') == ["SCO=" + key] + (EntryLines(s) + [""])
  {
    if '\n' !in key && PlainNames(s) then
      SplitEntriesText(s);
      assert "SCO=" + key + "\n" + EntriesText(s) == ("SCO=" + key) + ['\n'] + EntriesText(s);
      SplitAfterField("SCO=" + key, '\n', EntriesText(s));
      "SCO=" + key + "\n" + EntriesText(s)
    else
      "SCO=" + key + "\n" + EntriesText(s)
  }

  lemma {:induction false} EntriesTextAppend(s: seq<Entry>, e: Entry)
    ensures EntriesText(s + [e]) == EntriesText(s) + (EntryLine(e) + "\n")
    decreases |s|
  {
    var tail := EntryLine(e) + "\n";
    if |s| == 0 {
      assert s + [e] == [e];
      assert EntriesText([e]) == tail + EntriesText([]);
    } else {
      var head := EntryLine(s[0]) + "\n";
      var rest := EntriesText(s[1..]);
      assert EntriesText(s + [e]) == head + EntriesText(s[1..] + [e]) by {
        assert (s + [e])[1..] == s[1..] + [e];
      }
      EntriesTextAppend(s[1..], e);
      Associative(head, rest, tail);
    }
  }

  /** One more item adds its line to the text after any header. */
  lemma EntriesTextStep(header: string, s: seq<Entry>, i: nat)
    requires i < |s|
    ensures header + EntriesText(s[..i + 1]) == (header + EntriesText(s[..i])) + (EntryLine(s[i]) + "\n")
  {
    var a, b := EntriesText(s[..i]), EntryLine(s[i]) + "\n";
    assert EntriesText(s[..i + 1]) == a + b by {
      assert s[..i + 1] == s[..i] + [s[i]];
      EntriesTextAppend(s[..i], s[i]);
    }
    Associative(header, a, b);
  }

  /** A name the text form can carry: it splits neither fields nor lines. */
  predicate PlainName(name: string)
  {
    ':' !in name && '\n' !in name
  }

  predicate PlainNames(s: seq<Entry>)
  {
    forall i :: 0 <= i < |s| ==> PlainName(s[i].name)
  }

  /** The score lines of a table, without their newlines. */
  function EntryLines(s: seq<Entry>): (r: seq<string>)
    ensures |r| == |s|
  {
    if |s| == 0 then [] else [EntryLine(s[0])] + EntryLines(s[1..])
  }

  /** Split on newlines, the score part gives its lines and the empty piece after the last newline. */
  lemma {:induction false} SplitEntriesText(s: seq<Entry>)
    requires PlainNames(s)
    ensures Split(EntriesText(s), '\n') == EntryLines(s) + [""]
    decreases |s|
  {
    if |s| > 0 {
      SplitEntriesText(s[1..]);
      IntToStringNoSeparator(s[0].score, '\n');
      var line := EntryLine(s[0]);
      assert line == ":" + IntToString(s[0].score) + ":" + s[0].name;
      assert '\n' !in line;
      assert EntriesText(s) == line + ['\n'] + EntriesText(s[1..]);
      SplitAfterField(line, '\n', EntriesText(s[1..]));
    }
  }

  /** The result of `parse_scores`: `ok` is false when a score line raised. */
  datatype Parsed = Parsed(ok: bool, boards: map<string, seq<Entry>>)

  predicate AllBounded(boards: map<string, seq<Entry>>)
  {
    forall k :: k in boards ==> Bounded(boards[k])
  }

  /**
   * The `parse_scores` loop from the given tables and current header.
   * A `SCO=` line opens an empty table under the rest of the line; a line
   * starting with ':' under a non-empty header is split on ':' and added,
   * and stops the parse when its score is not an integer or it has no name
   * field; every other line is skipped.
   */
  function ParseLines(boards: map<string, seq<Entry>>, datastring: string, lines: seq<string>): (r: Parsed)
    requires datastring == "" || datastring in boards
    requires AllBounded(boards)
    ensures boards.Keys <= r.boards.Keys
    ensures AllBounded(r.boards)
    ensures datastring == "" && (forall i :: 0 <= i < |lines| ==> !StartsWith(lines[i], "SCO=")) ==> r == Parsed(true, boards)
    decreases |lines|
  {
    if |lines| == 0 then Parsed(true, boards)
    else
      var line := lines[0];
      if StartsWith(line, "SCO=") then
        ParseLines(boards[line[4..] := []], line[4..], lines[1..])
      else if |line| >= 1 && line[0] == ':' && datastring != "" then
        var tokens := Split(line[1..], ':');
        var score := ParseInt(tokens[0]);
        if score.None? || |tokens| < 2 then Parsed(false, boards)
        else
          ParseLines(boards[datastring := BoardAdd(boards[datastring], score.value, tokens[1])], datastring, lines[1..])
      else ParseLines(boards, datastring, lines[1..])
  }

  /**
   * Under a table header, a score line whose score is not an integer, or
   * that has no name field, stops the parse: the tables read so far stay
   * and nothing after that line is read.
   */
  lemma BadScoreStops(boards: map<string, seq<Entry>>, datastring: string, line: string, rest: seq<string>)
    requires AllBounded(boards) && datastring != "" && datastring in boards
    requires |line| >= 1 && line[0] == ':'
    requires ParseInt(Split(line[1..], ':')[0]).None? || |Split(line[1..], ':')| < 2
    ensures ParseLines(boards, datastring, [line] + rest) == Parsed(false, boards)
  {
    var lines := [line] + rest;
    assert lines[0] == line;
    assert !StartsWith(line, "SCO=") by {
      assert |line| >= 4 ==> line[..4][0] == ':';
    }
  }

  /** A score line is not a header, and its fields are the score's digits and the name. */
  lemma EntryLineTokens(e: Entry)
    requires PlainName(e.name)
    ensures !StartsWith(EntryLine(e), "SCO=") && EntryLine(e)[0] == ':'
    ensures Split(EntryLine(e)[1..], ':') == [IntToString(e.score), e.name]
  {
    var digits := IntToString(e.score);
    var line := EntryLine(e);
    assert line == ":" + (digits + ":" + e.name) by {
      Associative(":", digits, ":");
      Associative(":", digits + ":", e.name);
    }
    assert line[0] == ':' && line[1..] == digits + [':'] + e.name;
    assert !StartsWith(line, "SCO=") by {
      assert |line| >= 4 ==> line[..4][0] != "SCO="[0];
    }
    assert Split(digits + [':'] + e.name, ':') == [digits, e.name] by {
      IntToStringNoSeparator(e.score, ':');
      SplitAfterField(digits, ':', e.name);
    }
  }

  /** Adding the lowest item of a sorted table puts it last and cuts nothing. */
  lemma AddLowest(p: seq<Entry>, e: Entry)
    requires Bounded(p + [e])
    ensures Bounded(p)
    ensures BoardAdd(p, e.score, e.name) == p + [e]
  {
    assert forall i :: 0 <= i < |p| ==> p[i] == (p + [e])[i];
    forall i | 0 <= i < |p|
      ensures p[i].score != e.score
    {
      assert (p + [e])[i].score > (p + [e])[|p|].score;
    }
    assert !HasScore(p, e.score);
    UpsertEffect(p, e.score, e.name);
    assert Upsert(p, e.score, e.name) == p + [e];
    SortDescIdentity(p + [e]);
    assert TopK(p + [e], Retain) == p + [e];
  }

  /** One score line under the header of a table appends its item. */
  lemma ParseEntryLine(boards: map<string, seq<Entry>>, key: string, p: seq<Entry>, e: Entry, rest: seq<string>)
    requires key != "" && AllBounded(boards) && Bounded(p + [e]) && PlainName(e.name)
    ensures Bounded(p)
    ensures ParseLines(boards[key := p], key, [EntryLine(e)] + rest)
      == ParseLines(boards[key := p + [e]], key, rest)
  {
    AddLowest(p, e);
    EntryLineTokens(e);
    IntToStringRoundTrip(e.score);
    var b := boards[key := p];
    assert ([EntryLine(e)] + rest)[1..] == rest;
    assert b[key := p + [e]] == boards[key := p + [e]];
  }

  /** The score lines of a table, read back under its header, append its items in order. */
  lemma {:induction false} ParseEntries(boards: map<string, seq<Entry>>, key: string, p: seq<Entry>, s: seq<Entry>)
    requires key != "" && AllBounded(boards) && Bounded(p + s) && PlainNames(s)
    ensures Bounded(p)
    ensures ParseLines(boards[key := p], key, EntryLines(s) + [""]) == Parsed(true, boards[key := p + s])
    decreases |s|
  {
    if |s| == 0 {
      assert p + s == p;
      var b := boards[key := p];
      assert (EntryLines(s) + [""])[1..] == [];
      assert ParseLines(b, key, [""]) == ParseLines(b, key, []);
    } else {
      var e := s[0];
      assert p + s == (p + [e]) + s[1..];
      ParseEntries(boards, key, p + [e], s[1..]);
      assert EntryLines(s) + [""] == [EntryLine(e)] + (EntryLines(s[1..]) + [""]);
      ParseEntryLine(boards, key, p, e, EntryLines(s[1..]) + [""]);
    }
  }

  /**
   * Reading back the text of a table restores it: for a non-empty key
   * without a newline, at most eight items sorted from the highest score
   * down, and names free of ':' and newlines.
   */
  lemma ParseBoardText(boards: map<string, seq<Entry>>, key: string, s: seq<Entry>)
    requires key != "" && '\n' !in key && Bounded(s) && PlainNames(s) && AllBounded(boards)
    ensures ParseLines(boards, "", Split(BoardText(key, s), '\n')) == Parsed(true, boards[key := s])
  {
    var header := "SCO=" + key;
    var lines := Split(BoardText(key, s), '\n');
    assert lines == [header] + (EntryLines(s) + [""]);
    assert StartsWith(header, "SCO=") && header[4..] == key;
    assert lines[1..] == EntryLines(s) + [""];
    assert [] + s == s;
    ParseEntries(boards, key, [], s);
  }

  /** The `get_datastring` loop: the header line, then one line per item. */
  method WriteBoard(key: string, s: seq<Entry>) returns (output: string)
    ensures output == BoardText(key, s)
  {
    var header := "SCO=" + key + "\n";
    output := header;
    var i := 0;
    while i < |s|
      invariant 0 <= i <= |s|
      invariant output == header + EntriesText(s[..i])
    {
      EntriesTextStep(header, s, i);
      output := output + (EntryLine(s[i]) + "\n");
      i := i + 1;
    }
    assert s[..i] == s;
  }

  class Scoreboard {
    /** `setting_datastring` */
    const key: string
    var entries: seq<Entry>

    ghost predicate Valid()
      reads this
    {
      Bounded(entries)
    }

    constructor (key: string)
      ensures this.key == key && entries == [] && Valid()
    {
      this.key := key;
      entries := [];
    }

    /**
     * `add_score(score, name)`: assign, then sort. On a table of at most
     * eight the sort never raises, and the result is the top eight.
     */
    method AddScore(score: int, name: string) returns (ok: bool)
      requires Valid()
      modifies this
      ensures ok && Valid()
      ensures entries == BoardAdd(old(entries), score, name)
    {
      UpsertEffect(entries, score, name);
      entries := Upsert(entries, score, name);
      ok := SortScores();
    }

    /**
     * `sort_scores()` as written: sort from the highest score down, then walk
     * the sorted dict deleting every item from the ninth on. Deleting from an
     * OrderedDict during the walk makes the walk's next step raise, so only
     * a deletion of the last item goes through: `ok` is false, with the
     * ninth item gone, exactly when there were ten or more items.
     */
    method SortScores() returns (ok: bool)
      requires DistinctKeys(entries)
      modifies this
      ensures ok <==> |old(entries)| <= Retain + 1
      ensures ok ==> entries == TopK(old(entries), Retain) && Bounded(entries)
      ensures !ok ==> entries == SortDesc(old(entries))[..Retain] + SortDesc(old(entries))[Retain + 1..]
    {
      var sorted := SortDesc(entries);
      SortDescSorted(entries);
      entries := sorted;
      ok := true;
      var i := 0;
      while i < |sorted|
        invariant 0 <= i <= |sorted|
        invariant i <= Retain ==> entries == sorted
        invariant i > Retain ==> i == Retain + 1 == |sorted| && entries == sorted[..Retain]
      {
        if i >= Retain {
          entries := entries[..Retain] + entries[Retain + 1..];
          if i + 1 < |sorted| {
            ok := false;
            return;
          }
          assert entries == sorted[..Retain];
        }
        i := i + 1;
      }
    }

    /** `check_score(new_score)`: room left, or some stored score below the new one. */
    method CheckScore(n: int) returns (worth: bool)
      ensures worth <==> Worthy(entries, Retain, n)
    {
      if |entries| >= Retain {
        var i := 0;
        while i < |entries|
          invariant 0 <= i <= |entries|
          invariant forall j :: 0 <= j < i ==> !(n > entries[j].score)
        {
          if n > entries[i].score {
            return true;
          }
          i := i + 1;
        }
        return false;
      }
      return true;
    }

    /** `get_scores()`: the pairs collected in table order. */
    method GetScores() returns (scores: seq<(int, string)>)
      requires Valid()
      ensures scores == Pairs(entries)
      ensures forall i, j :: 0 <= i < j < |scores| ==> scores[i].0 > scores[j].0
    {
      scores := [];
      var i := 0;
      while i < |entries|
        invariant 0 <= i <= |entries|
        invariant scores == Pairs(entries[..i])
      {
        scores := scores + [(entries[i].score, entries[i].name)];
        i := i + 1;
      }
      assert entries[..i] == entries;
    }

    /** `get_datastring()`: the header line, then one line per item. */
    method GetDatastring() returns (output: string)
      ensures output == BoardText(key, entries)
    {
      output := WriteBoard(key, entries);
    }
  }

  /** On a full eight-place table, the check agrees with what adding the score does. */
  lemma FullCheckMatchesAdd(s: seq<Entry>, n: int, name: string)
    requires Bounded(s) && |s| == Retain && !HasScore(s, n)
    ensures Worthy(s, Retain, n) <==> HasScore(BoardAdd(s, n, name), n)
  {
    CheckMeansKept(s, Retain, n, name);
  }

  class ScoreLoader {
    /** `scoreboards`: each settings datastring's table, held by value. */
    var boards: map<string, seq<Entry>>

    ghost predicate Valid()
      reads this
    {
      AllBounded(boards)
    }

    /** `__init__` before any file is read: no tables. */
    constructor ()
      ensures boards == map[] && Valid()
    {
      boards := map[];
    }

    /** `parse_scores()` over the lines of the file; `ok` is false when a score line raised. */
    method ParseScores(data: seq<string>) returns (ok: bool)
      requires Valid()
      modifies this
      ensures Valid()
      ensures Parsed(ok, boards) == ParseLines(old(boards), "", data)
    {
      var datastring := "";
      var i := 0;
      while i < |data|
        invariant 0 <= i <= |data|
        invariant datastring == "" || datastring in boards
        invariant Valid()
        invariant ParseLines(boards, datastring, data[i..]) == ParseLines(old(boards), "", data)
      {
        assert data[i..][1..] == data[i + 1..];
        var line := data[i];
        assert data[i..][0] == line;
        ghost var result := ParseLines(boards, datastring, data[i..]);
        if StartsWith(line, "SCO=") {
          assert result == ParseLines(boards[line[4..] := []], line[4..], data[i + 1..]);
          datastring := line[4..];
          boards := boards[datastring := []];
        } else if |line| >= 1 && line[0] == ':' && datastring != "" {
          var tokens := Split(line[1..], ':');
          var score := ParseInt(tokens[0]);
          if score.None? || |tokens| < 2 {
            assert result == Parsed(false, boards);
            return false;
          }
          assert result == ParseLines(boards[datastring := BoardAdd(boards[datastring], score.value, tokens[1])], datastring, data[i + 1..]);
          boards := boards[datastring := BoardAdd(boards[datastring], score.value, tokens[1])];
        } else {
          assert result == ParseLines(boards, datastring, data[i + 1..]);
        }
        i := i + 1;
      }
      return true;
    }

    /** `get_scores(setting_datastring)`: the pairs of that table, `None` for an unknown one. */
    function GetScores(key: string): (r: Option<seq<(int, string)>>)
      reads this
      requires Valid()
      ensures r.None? <==> key !in boards
      ensures r.Some? ==> r.value == Pairs(boards[key])
      ensures r.Some? ==> |r.value| <= Retain && forall i, j :: 0 <= i < j < |r.value| ==> r.value[i].0 > r.value[j].0
    {
      if key in boards then Some(Pairs(boards[key])) else None
    }

    /** `check_score(setting_datastring, score)`: always worth it for an unknown table. */
    function CheckScore(key: string, n: int): (worth: bool)
      reads this
      ensures key !in boards ==> worth
      ensures key in boards ==> (worth <==> Worthy(boards[key], Retain, n))
    {
      key !in boards || Worthy(boards[key], Retain, n)
    }

    /** `add_score(setting_datastring, score, name)`: add to the table, creating it when absent. */
    method AddScore(key: string, score: int, name: string)
      requires Valid()
      modifies this
      ensures Valid()
      ensures boards == old(boards)[key := BoardAdd(if key in old(boards) then old(boards)[key] else [], score, name)]
      ensures key !in old(boards) ==> boards[key] == [Entry(score, name)]
    {
      var table := if key in boards then boards[key] else [];
      if key !in boards {
        assert BoardAdd([], score, name) == [Entry(score, name)];
      }
      boards := boards[key := BoardAdd(table, score, name)];
    }
  }

  /** Three newline-free lines, each ended by a newline, split back into themselves and an empty piece. */
  lemma ThreeLines(a: string, b: string, c: string)
    requires '\n' !in a && '\n' !in b && '\n' !in c
    ensures Split("" + (a + "\n") + (b + "\n") + (c + "\n"), '\n') == [a, b, c, ""]
  {
    var p, q, r := a + "\n", b + "\n", c + "\n";
    assert Split(r, '\n') == [c, ""] by {
      assert r == c + ['\n'] + "";
      SplitAfterField(c, '\n', "");
    }
    assert Split(q + r, '\n') == [b, c, ""] by {
      SplitAfterField(b, '\n', r);
    }
    assert Split(p + (q + r), '\n') == [a, b, c, ""] by {
      SplitAfterField(a, '\n', q + r);
    }
    assert "" + p + q + r == p + (q + r) by {
      assert "" + p == p;
      Associative(p, q, r);
    }
  }

  /** Two settings objects hold the same values in every field. */
  ghost predicate SameSettings(a: GameRoundSettings, b: GameRoundSettings)
    reads a, b
  {
    && a.mode == b.mode && a.limit == b.limit && a.tries == b.tries && a.solutionPause == b.solutionPause
    && a.clueAt == b.clueAt && a.countAt == b.countAt && a.bonus == b.bonus && a.penalty == b.penalty
  }

  /** `copy.deepcopy` of a settings object: a new object with the same fields. */
  method CopySettings(g: GameRoundSettings) returns (c: GameRoundSettings)
    ensures fresh(c)
    ensures c.mode == g.mode && c.limit == g.limit && c.tries == g.tries && c.solutionPause == g.solutionPause
    ensures c.clueAt == g.clueAt && c.countAt == g.countAt && c.bonus == g.bonus && c.penalty == g.penalty
  {
    c := new GameRoundSettings();
    c.mode, c.limit, c.tries, c.solutionPause := g.mode, g.limit, g.tries, g.solutionPause;
    c.clueAt, c.countAt, c.bonus, c.penalty := g.clueAt, g.countAt, g.bonus, g.penalty;
  }

  class Settings {
    var timed: GameRoundSettings
    var survival: GameRoundSettings
    var infinite: GameRoundSettings

    /** `__init__`: each mode's settings object with its setter's defaults. */
    constructor ()
      ensures fresh(timed) && fresh(survival) && fresh(infinite)
      ensures timed != survival && survival != infinite && timed != infinite
      ensures timed.mode == Timed && timed.limit == 30 && timed.bonus == 2 && timed.penalty == 1 && timed.tries == 3
      ensures survival.mode == Survival && survival.limit == 5 && survival.tries == 1
      ensures survival.bonus == 3 && survival.penalty == 1
      ensures infinite.mode == Infinite && infinite.tries == 3
      ensures infinite.limit == 30 && infinite.bonus == 3 && infinite.penalty == 1
      ensures timed.clueAt == 2 && timed.countAt == 1 && timed.solutionPause
      ensures survival.clueAt == 2 && survival.countAt == 1 && survival.solutionPause
      ensures infinite.clueAt == 2 && infinite.countAt == 1 && infinite.solutionPause
    {
      var t := new GameRoundSettings();
      t.SetTimed(30, 2, 1, 3);
      var s := new GameRoundSettings();
      s.SetSurvival(5, 1);
      var i := new GameRoundSettings();
      i.SetInfinite(3);
      timed, survival, infinite := t, s, i;
    }

    /** `save_timed(settings)`: keep a private copy, so later changes to the argument do not leak in. */
    method SaveTimed(g: GameRoundSettings)
      modifies this
      ensures fresh(timed) && SameSettings(timed, g) && timed.GetDatastring() == g.GetDatastring()
      ensures survival == old(survival) && infinite == old(infinite)
    {
      timed := CopySettings(g);
    }

    /** `save_survival(settings)` */
    method SaveSurvival(g: GameRoundSettings)
      modifies this
      ensures fresh(survival) && SameSettings(survival, g) && survival.GetDatastring() == g.GetDatastring()
      ensures timed == old(timed) && infinite == old(infinite)
    {
      survival := CopySettings(g);
    }

    /** `save_infinite(settings)` */
    method SaveInfinite(g: GameRoundSettings)
      modifies this
      ensures fresh(infinite) && SameSettings(infinite, g) && infinite.GetDatastring() == g.GetDatastring()
      ensures timed == old(timed) && survival == old(survival)
    {
      infinite := CopySettings(g);
    }

    /**
     * `get_datastring()`: exactly three lines, `DEF=` and the timed,
     * survival and infinite datastrings, each ending in a newline.
     */
    method GetDatastring() returns (output: string)
      ensures Split(output, '\n') == ["DEF=" + timed.GetDatastring(), "DEF=" + survival.GetDatastring(), "DEF=" + infinite.GetDatastring(), ""]
    {
      var t, s, i := "DEF=" + timed.GetDatastring(), "DEF=" + survival.GetDatastring(), "DEF=" + infinite.GetDatastring();
      output := "";
      output := output + (t + "\n");
      output := output + (s + "\n");
      output := output + (i + "\n");
      ThreeLines(t, s, i);
    }
  }
}
