// The two text formatters of the game screens: seconds as a clock string
// and a score as a zero-padded string. omission/interface/helpful.py has the
// first version (no clamp, unpadded minutes, scores padded to 8);
// omission/kivy-interface/helpful.py and omission/interface/useful.py share
// the second (negative seconds clamped to zero, minutes padded to two digits,
// scores padded to 10).

module Display {
  import opened Text

  /** `score_to_scorestring`'s `fill_depth` in omission/interface/helpful.py. */
  const PlainFillDepth: nat := 8
  /** `fill_depth` in the other two copies. */
  const PaddedFillDepth: nat := 10

  /** `int(seconds/60)`: whole minutes, truncated toward zero. */
  function Minutes(seconds: int): int
  {
    TruncDiv(seconds, 60)
  }

  /** `seconds - minutes*60`: what is left after the whole minutes. */
  function LeftOver(seconds: int): (s: int)
    ensures Minutes(seconds) * 60 + s == seconds
    ensures seconds >= 0 ==> 0 <= s < 60
    ensures seconds < 0 ==> -60 < s <= 0
  {
    seconds - Minutes(seconds) * 60
  }

  /**
   * `sec_to_timestring` of omission/interface/helpful.py. It reads back as
   * the very number of seconds, negative ones included: the minutes and the
   * leftover both truncate toward zero, so they carry the same sign.
   */
  function Timestring(seconds: int): (r: string)
    ensures ReadClock(r) == Some(seconds)
  {
    var m := Minutes(seconds);
    assert ZFill(IntToString(m), 0) == IntToString(m);
    ClockFields(m, 0, LeftOver(seconds));
    IntToString(m) + ":" + ZFill(IntToString(LeftOver(seconds)), 2)
  }

  /**
   * `sec_to_timestring` of omission/kivy-interface/helpful.py and
   * omission/interface/useful.py: it reads back as the seconds, or as zero for
   * a negative time.
   */
  function PaddedTimestring(seconds: int): (r: string)
    ensures ReadClock(r) == Some(if seconds < 0 then 0 else seconds)
  {
    var clamped := if seconds < 0 then 0 else seconds;
    ClockFields(Minutes(clamped), 2, LeftOver(clamped));
    ZFill(IntToString(Minutes(clamped)), 2) + ":" + ZFill(IntToString(LeftOver(clamped)), 2)
  }

  /** `score_to_scorestring` with the given fill depth. */
  function Scorestring(score: int, fillDepth: nat): (r: string)
    ensures |r| == if |IntToString(score)| >= fillDepth then |IntToString(score)| else fillDepth
    ensures ParseInt(r) == Some(score)
  {
    ZFillIntRoundTrip(score, fillDepth);
    ZFill(IntToString(score), fillDepth)
  }

  /**
   * Reading a clock string back: two ':'-separated integers, minutes and
   * seconds, giving minutes * 60 + seconds; `None` for anything else.
   */
  function ReadClock(r: string): Option<int>
  {
    var parts := Split(r, ':');
    if |parts| == 2 && ParseInt(parts[0]).Some? && ParseInt(parts[1]).Some? then
      Some(ParseInt(parts[0]).value * 60 + ParseInt(parts[1]).value)
    else None
  }

  /** The two fields of a clock string built from two numbers. */
  lemma ClockFields(m: int, mWidth: nat, s: int)
    ensures Split(ZFill(IntToString(m), mWidth) + ":" + ZFill(IntToString(s), 2), ':')
      == [ZFill(IntToString(m), mWidth), ZFill(IntToString(s), 2)]
    ensures ReadClock(ZFill(IntToString(m), mWidth) + ":" + ZFill(IntToString(s), 2)) == Some(m * 60 + s)
  {
    var a, b := ZFill(IntToString(m), mWidth), ZFill(IntToString(s), 2);
    assert Split(a + ":" + b, ':') == [a, b] by {
      ZFillNoSeparator(m, mWidth, ':');
      ZFillNoSeparator(s, 2, ':');
      SplitAfterField(a, ':', b);
    }
    ZFillIntRoundTrip(m, mWidth);
    ZFillIntRoundTrip(s, 2);
  }

  /** For a time that is not negative, the part after ':' is exactly two digits below 60. */
  lemma TimestringSeconds(seconds: int)
    requires seconds >= 0
    ensures |Split(Timestring(seconds), ':')| == 2
    ensures var f := Split(Timestring(seconds), ':')[1];
      |f| == 2 && AllDigits(f) && ParseInt(f) == Some(LeftOver(seconds)) && 0 <= LeftOver(seconds) < 60
  {
    var m := Minutes(seconds);
    assert ZFill(IntToString(m), 0) == IntToString(m);
    ClockFields(m, 0, LeftOver(seconds));
    ZFillDigits(LeftOver(seconds), 2);
    ZFillIntRoundTrip(LeftOver(seconds), 2);
    assert |IntToString(LeftOver(seconds))| <= 2 by {
      if LeftOver(seconds) >= 10 {
        assert IntToString(LeftOver(seconds)) == NatToString(LeftOver(seconds) / 10) + [DigitChar(LeftOver(seconds) % 10)];
      }
    }
  }

  /**
   * Without the clamp, a time between minus a minute and zero shows zero
   * minutes and the negative seconds, "0:-5" for minus five.
   */
  lemma NegativeTimestring(seconds: int)
    requires -60 < seconds < 0
    ensures Timestring(seconds) == "0:" + IntToString(seconds)
    ensures Timestring(seconds)[2] == '-'
  {
    assert Minutes(seconds) == 0;
    assert IntToString(0) == "0";
  }

  /** Any time of zero or less shows as "00:00". */
  lemma PaddedZero(seconds: int)
    requires seconds <= 0
    ensures PaddedTimestring(seconds) == "00:00"
  {
    assert Minutes(0) == 0 && LeftOver(0) == 0;
    assert IntToString(0) == "0";
    assert ZFill("0", 2) == "00" by {
      assert Zeros(1) == "0";
    }
  }

  /**
   * The clamped clock string is two digit fields: minutes padded to at least
   * two digits, then exactly two digits of seconds below 60.
   */
  lemma PaddedFields(seconds: int)
    ensures var parts := Split(PaddedTimestring(seconds), ':');
      |parts| == 2 && |parts[0]| >= 2 && AllDigits(parts[0]) && |parts[1]| == 2 && AllDigits(parts[1])
  {
    var clamped := if seconds < 0 then 0 else seconds;
    var m, s := Minutes(clamped), LeftOver(clamped);
    ClockFields(m, 2, s);
    ZFillDigits(m, 2);
    ZFillDigits(s, 2);
    assert |IntToString(s)| <= 2 by {
      if s >= 10 {
        assert IntToString(s) == NatToString(s / 10) + [DigitChar(s % 10)];
      }
    }
  }

  /** A non-negative score pads to at least ten digits and reads back. */
  lemma PaddedScorestring(score: int)
    requires score >= 0
    ensures var r := Scorestring(score, PaddedFillDepth);
      |r| >= 10 && AllDigits(r) && ParseInt(r) == Some(score)
  {
    ZFillDigits(score, PaddedFillDepth);
  }

  /** At the eight places of the first copy a non-negative score is all digits and reads back. */
  lemma PlainScorestring(score: int)
    requires score >= 0
    ensures var r := Scorestring(score, PlainFillDepth);
      |r| >= 8 && AllDigits(r) && ParseInt(r) == Some(score)
  {
    ZFillDigits(score, PlainFillDepth);
  }

  /** A negative score keeps its sign in front of the zeros, "-0000042" for -42 in eight places. */
  lemma NegativeScorestring(score: int, fillDepth: nat)
    requires score < 0 && |IntToString(score)| < fillDepth
    ensures Scorestring(score, fillDepth) == "-" + Zeros(fillDepth - |IntToString(score)|) + IntToString(score)[1..]
    ensures |Scorestring(score, fillDepth)| == fillDepth
  {
  }
}
