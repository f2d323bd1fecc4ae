// The user settings of omission/data/settings.py: the sound volume and the
// dyslexia-font flag, the `VOL=` and `DYS=` lines that carry them, and the
// dispatch of a settings line to its parser. The per-mode settings objects it
// refers to are outside the model: their datastrings are strings here, and
// whether a line matches one of their patterns, and what their parsers answer,
// are parameters.

module UserSettings {
  import opened Text

  /** What `int(datastring.split('=')[1])` yields after `prefix`, `None` when it raises or the prefix is missing. */
  function SecondField(d: string, prefix: string): (r: Option<int>)
    ensures r.Some? ==> StartsWith(d, prefix)
  {
    if StartsWith(d, prefix) then
      var data := Split(d, '=');
      if |data| >= 2 then ParseInt(data[1]) else None
    else None
  }

  /** The volume `volume_from_datastring` reads from a line. */
  function VolumeValue(d: string): Option<int>
  {
    SecondField(d, "VOL=")
  }

  /** The flag `dyslexic_from_datastring` reads from a line: any non-zero integer is true. */
  function DyslexicValue(d: string): Option<bool>
  {
    var n := SecondField(d, "DYS=");
    if n.Some? then Some(n.value != 0) else None
  }

  /** A field free of '=' runs up to the next '=' or the end. */
  lemma FirstField(x: string, rest: string)
    requires '=' !in x
    requires rest == "" || rest[0] == '='
    ensures Split(x + rest, '=')[0] == x
  {
    if rest == "" {
      assert x + rest == x;
    } else {
      assert x + rest == x + ['='] + rest[1..];
      SplitAfterField(x, '=', rest[1..]);
    }
  }

  /** The field after `tag=` runs up to the next '=' or the end. */
  lemma FieldAfterTag(tag: string, x: string, rest: string)
    requires '=' !in tag && '=' !in x
    requires rest == "" || rest[0] == '='
    ensures |Split(tag + "=" + x + rest, '=')| >= 2 && Split(tag + "=" + x + rest, '=')[1] == x
  {
    var d := tag + "=" + x + rest;
    assert Split(d, '=') == [tag] + Split(x + rest, '=') by {
      Associative(tag + "=", x, rest);
      SplitAfterField(tag, '=', x + rest);
    }
    FirstField(x, rest);
  }

  /**
   * The integer written after a four-character `XYZ=` prefix reads back,
   * whatever follows a further '='.
   */
  lemma SecondFieldOf(tag: string, v: int, rest: string)
    requires |tag| == 3 && '=' !in tag
    requires rest == "" || rest[0] == '='
    ensures SecondField(tag + "=" + IntToString(v) + rest, tag + "=") == Some(v)
  {
    var d := tag + "=" + IntToString(v) + rest;
    assert d[..4] == tag + "=";
    IntToStringNoSeparator(v, '=');
    FieldAfterTag(tag, IntToString(v), rest);
    IntToStringRoundTrip(v);
  }

  /** `VOL=` and any integer gives that volume back, with no range check; text after a second '=' is ignored. */
  lemma VolumeRoundTrip(v: int, rest: string)
    requires rest == "" || rest[0] == '='
    ensures VolumeValue("VOL=" + IntToString(v) + rest) == Some(v)
  {
    SecondFieldOf("VOL", v, rest);
    assert "VOL" + "=" == "VOL=";
  }

  /** `DYS=` and an integer gives whether it is non-zero. */
  lemma DyslexicRoundTrip(k: int, rest: string)
    requires rest == "" || rest[0] == '='
    ensures DyslexicValue("DYS=" + IntToString(k) + rest) == Some(k != 0)
  {
    SecondFieldOf("DYS", k, rest);
    assert "DYS" + "=" == "DYS=";
  }

  /**
   * A volume field that is not an integer is refused, whatever follows a
   * further '='.
   */
  lemma VolumeNotInteger(x: string, rest: string)
    requires '=' !in x && ParseInt(x).None?
    requires rest == "" || rest[0] == '='
    ensures VolumeValue("VOL=" + x + rest) == None
  {
    FieldAfterTag("VOL", x, rest);
    assert "VOL" + "=" == "VOL=";
  }

  /** `pattern_datastring_settings_volume`: `VOL=` and a digit. */
  predicate VolumePattern(d: string)
  {
    StartsWith(d, "VOL=") && |d| > 4 && IsDigit(d[4])
  }

  /** `pattern_datastring_settings_dyslexic`: `DYS=` and a 0 or a 1. */
  predicate DyslexicPattern(d: string)
  {
    StartsWith(d, "DYS=") && |d| > 4 && (d[4] == '0' || d[4] == '1')
  }

  /** Where `parse_datastring` sends a line. */
  datatype Target = TimedTarget | InfiniteTarget | VolumeTarget | DyslexicTarget | NoTarget

  /**
   * The first pattern that matches wins, in the order timed, survival,
   * infinite, volume, dyslexic. A survival line goes to the timed settings.
   */
  function Dispatch(d: string, timedMatch: bool, survivalMatch: bool, infiniteMatch: bool): Target
  {
    if timedMatch then TimedTarget
    else if survivalMatch then TimedTarget
    else if infiniteMatch then InfiniteTarget
    else if VolumePattern(d) then VolumeTarget
    else if DyslexicPattern(d) then DyslexicTarget
    else NoTarget
  }

  /**
   * The dispatch never reaches a parser that would refuse the line's prefix,
   * and it is lost only when no pattern matches; no line reaches the
   * survival settings.
   */
  lemma DispatchRoutes(d: string, timedMatch: bool, survivalMatch: bool, infiniteMatch: bool)
    ensures Dispatch(d, timedMatch, survivalMatch, infiniteMatch) == VolumeTarget ==> StartsWith(d, "VOL=")
    ensures Dispatch(d, timedMatch, survivalMatch, infiniteMatch) == DyslexicTarget ==> StartsWith(d, "DYS=")
    ensures Dispatch(d, timedMatch, survivalMatch, infiniteMatch) == NoTarget
      <==> !timedMatch && !survivalMatch && !infiniteMatch && !VolumePattern(d) && !DyslexicPattern(d)
    ensures survivalMatch && !timedMatch ==> Dispatch(d, timedMatch, survivalMatch, infiniteMatch) == TimedTarget
  {
  }

  /** `DYS=` followed by the digit of a flag. */
  function DyslexicDigit(dys: bool): (s: string)
    ensures ParseInt(s) == Some(if dys then 1 else 0)
  {
    if dys then IntToStringRoundTrip(1); "1" else IntToStringRoundTrip(0); "0"
  }

  /** `datastring`: the three `DEF=` lines, then `VOL=` and `DYS=`, with no newline at the end. */
  function DatastringText(timed: string, survival: string, infinite: string, vol: int, dys: bool): string
  {
    Join(["DEF=" + timed, "DEF=" + survival, "DEF=" + infinite, "VOL=" + IntToString(vol), "DYS=" + DyslexicDigit(dys)], '\n')
  }

  /**
   * Split on newlines, the datastring gives its five lines; the last two
   * read back as the volume and the flag.
   */
  lemma DatastringLines(timed: string, survival: string, infinite: string, vol: int, dys: bool)
    requires '\n' !in timed && '\n' !in survival && '\n' !in infinite
    ensures Split(DatastringText(timed, survival, infinite, vol, dys), '\n')
      == ["DEF=" + timed, "DEF=" + survival, "DEF=" + infinite, "VOL=" + IntToString(vol), "DYS=" + DyslexicDigit(dys)]
    ensures VolumeValue("VOL=" + IntToString(vol)) == Some(vol)
    ensures DyslexicValue("DYS=" + DyslexicDigit(dys)) == Some(dys)
  {
    var parts := ["DEF=" + timed, "DEF=" + survival, "DEF=" + infinite, "VOL=" + IntToString(vol), "DYS=" + DyslexicDigit(dys)];
    IntToStringNoSeparator(vol, '\n');
    forall i | 0 <= i < |parts|
      ensures '\n' !in parts[i]
    {
    }
    SplitJoin(parts, '\n');
    VolumeRoundTrip(vol, "");
    assert "VOL=" + IntToString(vol) + "" == "VOL=" + IntToString(vol);
    var k := if dys then 1 else 0;
    DyslexicRoundTrip(k, "");
    assert "DYS=" + IntToString(k) + "" == "DYS=" + DyslexicDigit(dys);
  }

  /**
   * A volume line the datastring writes reaches the volume parser when the
   * volume is not negative; a negative one matches no pattern and is dropped.
   */
  lemma VolumeLineDispatch(vol: int)
    ensures vol >= 0 ==> Dispatch("VOL=" + IntToString(vol), false, false, false) == VolumeTarget
    ensures vol < 0 ==> Dispatch("VOL=" + IntToString(vol), false, false, false) == NoTarget
  {
    var d := "VOL=" + IntToString(vol);
    assert d[..4] == "VOL=" && d[4] == IntToString(vol)[0];
  }

  /** A dyslexic line the datastring writes reaches the dyslexic parser. */
  lemma DyslexicLineDispatch(dys: bool)
    ensures Dispatch("DYS=" + DyslexicDigit(dys), false, false, false) == DyslexicTarget
  {
    var d := "DYS=" + DyslexicDigit(dys);
    assert d[..4] == "DYS=" && d[4] == DyslexicDigit(dys)[0];
  }

  class Settings {
    /** The sound volume, 0 to 10 by convention but never checked. */
    var vol: int
    /** Whether to use the dyslexia font. */
    var dys: bool

    constructor ()
      ensures vol == 10 && !dys
    {
      vol := 10;
      dys := false;
    }

    /** `datastring`, given the three mode datastrings. */
    function Datastring(timed: string, survival: string, infinite: string): (s: string)
      reads this
      requires '\n' !in timed && '\n' !in survival && '\n' !in infinite
      ensures Split(s, '\n') == ["DEF=" + timed, "DEF=" + survival, "DEF=" + infinite, "VOL=" + IntToString(vol), "DYS=" + DyslexicDigit(dys)]
      ensures Split(s, '\n')[3] == "VOL=" + IntToString(vol) && VolumeValue(Split(s, '\n')[3]) == Some(vol)
      ensures Split(s, '\n')[4] == "DYS=" + DyslexicDigit(dys) && DyslexicValue(Split(s, '\n')[4]) == Some(dys)
    {
      DatastringLines(timed, survival, infinite, vol, dys);
      DatastringText(timed, survival, infinite, vol, dys)
    }

    /** `volume_from_datastring(datastring)`: true and the new volume, or false and nothing changed. */
    method VolumeFromDatastring(d: string) returns (ok: bool)
      modifies this
      ensures ok <==> VolumeValue(d).Some?
      ensures vol == if ok then VolumeValue(d).value else old(vol)
      ensures dys == old(dys)
    {
      if |d| >= 4 && d[..4] == "VOL=" {
        var data := Split(d, '=');
        if |data| < 2 {
          return false;
        }
        var n := ParseInt(data[1]);
        if n.None? {
          return false;
        }
        vol := n.value;
        return true;
      }
      return false;
    }

    /** `dyslexic_from_datastring(datastring)`: true and the new flag, or false and nothing changed. */
    method DyslexicFromDatastring(d: string) returns (ok: bool)
      modifies this
      ensures ok <==> DyslexicValue(d).Some?
      ensures dys == if ok then DyslexicValue(d).value else old(dys)
      ensures vol == old(vol)
    {
      if |d| >= 4 && d[..4] == "DYS=" {
        var data := Split(d, '=');
        if |data| < 2 {
          return false;
        }
        var n := ParseInt(data[1]);
        if n.None? {
          return false;
        }
        dys := n.value != 0;
        return true;
      }
      return false;
    }

    /**
     * `parse_datastring(datastring)`: hand the line to the parser its
     * pattern picks. A mode line is answered by that mode's parser, given
     * here as `modeParsed`; a line no pattern matches gives false.
     */
    method ParseDatastring(d: string, timedMatch: bool, survivalMatch: bool, infiniteMatch: bool, modeParsed: bool)
      returns (ok: bool)
      modifies this
      ensures Dispatch(d, timedMatch, survivalMatch, infiniteMatch) in {TimedTarget, InfiniteTarget}
        ==> ok == modeParsed && vol == old(vol) && dys == old(dys)
      ensures Dispatch(d, timedMatch, survivalMatch, infiniteMatch) == VolumeTarget
        ==> (ok <==> VolumeValue(d).Some?) && vol == (if ok then VolumeValue(d).value else old(vol)) && dys == old(dys)
      ensures Dispatch(d, timedMatch, survivalMatch, infiniteMatch) == DyslexicTarget
        ==> (ok <==> DyslexicValue(d).Some?) && dys == (if ok then DyslexicValue(d).value else old(dys)) && vol == old(vol)
      ensures Dispatch(d, timedMatch, survivalMatch, infiniteMatch) == NoTarget
        ==> !ok && vol == old(vol) && dys == old(dys)
    {
      if timedMatch || survivalMatch || infiniteMatch {
        ok := modeParsed;
      } else if |d| > 4 && d[..4] == "VOL=" && IsDigit(d[4]) {
        ok := VolumeFromDatastring(d);
      } else if |d| > 4 && d[..4] == "DYS=" && (d[4] == '0' || d[4] == '1') {
        ok := DyslexicFromDatastring(d);
      } else {
        ok := false;
      }
    }
  }
}
