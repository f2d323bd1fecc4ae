// Character and string helpers shared by the whole model: the small part of
// Python's `str`/`int` behaviour that the game relies on (ASCII case mapping,
// `str(n)`, `int(s)`, `s.split(c)`, `s.zfill(w)`).

module Text {

  datatype Option<T> = None | Some(value: T)

  predicate IsUpper(c: char) { 'A' <= c <= 'Z' }
  predicate IsLower(c: char) { 'a' <= c <= 'z' }
  predicate IsAlpha(c: char) { IsUpper(c) || IsLower(c) }
  predicate IsDigit(c: char) { '0' <= c <= '9' }

  /** `c.lower()` on ASCII. */
  function Lower(c: char): (r: char)
    ensures IsAlpha(c) <==> IsAlpha(r)
    ensures !IsUpper(r)
    ensures IsLower(c) || !IsAlpha(c) ==> r == c
  {
    if IsUpper(c) then (c as int + 32) as char else c
  }

  /** `c.upper()` on ASCII. */
  function Upper(c: char): (r: char)
    ensures IsAlpha(c) <==> IsAlpha(r)
    ensures !IsLower(r)
    ensures IsUpper(c) || !IsAlpha(c) ==> r == c
  {
    if IsLower(c) then (c as int - 32) as char else c
  }

  /** `s.lower()` */
  function LowerStr(s: string): (r: string)
    ensures |r| == |s|
    ensures forall i :: 0 <= i < |s| ==> r[i] == Lower(s[i])
  {
    seq(|s|, i requires 0 <= i < |s| => Lower(s[i]))
  }

  /** `s.upper()` */
  function UpperStr(s: string): (r: string)
    ensures |r| == |s|
    ensures forall i :: 0 <= i < |s| ==> r[i] == Upper(s[i])
  {
    seq(|s|, i requires 0 <= i < |s| => Upper(s[i]))
  }

  lemma UpperOfLower(c: char)
    ensures Upper(Lower(c)) == Upper(c)
  {
  }

  predicate AllDigits(s: string) { forall i :: 0 <= i < |s| ==> IsDigit(s[i]) }

  function DigitChar(d: nat): (c: char)
    requires d < 10
    ensures IsDigit(c)
  {
    ('0' as int + d) as char
  }

  function DigitValue(c: char): (d: nat)
    requires IsDigit(c)
    ensures d < 10 && DigitChar(d) == c
  {
    c as int - '0' as int
  }

  /** `str(n)` for a non-negative integer: decimal digits, no leading zero. */
  function NatToString(n: nat): (s: string)
    ensures |s| >= 1 && AllDigits(s)
    ensures n < 10 <==> |s| == 1
    decreases n
  {
    if n < 10 then [DigitChar(n)] else NatToString(n / 10) + [DigitChar(n % 10)]
  }

  /** `str(i)` for any integer. */
  function IntToString(i: int): (s: string)
    ensures |s| >= 1
    ensures i >= 0 ==> AllDigits(s)
    ensures i < 0 ==> s[0] == '-' && |s| >= 2 && AllDigits(s[1..])
  {
    if i < 0 then "-" + NatToString(-i) else NatToString(i)
  }

  /** The value of a run of decimal digits (leading zeros allowed, as `int` does). */
  function DigitsValue(s: string): nat
    requires AllDigits(s)
  {
    if |s| == 0 then 0 else DigitsValue(s[..|s| - 1]) * 10 + DigitValue(s[|s| - 1])
  }

  /**
   * `int(s)` on the forms this game writes: an optional '+' or '-' followed by
   * at least one ASCII digit. `None` stands for the ValueError Python raises.
   */
  function ParseInt(s: string): (r: Option<int>)
    ensures r.Some? ==> |s| >= 1 && (IsDigit(s[0]) || s[0] == '-' || s[0] == '+')
  {
    if |s| >= 1 && AllDigits(s) then Some(DigitsValue(s))
    else if |s| >= 2 && s[0] == '-' && AllDigits(s[1..]) then Some(-(DigitsValue(s[1..]) as int))
    else if |s| >= 2 && s[0] == '+' && AllDigits(s[1..]) then Some(DigitsValue(s[1..]))
    else None
  }

  lemma {:induction false} NatToStringValue(n: nat)
    ensures DigitsValue(NatToString(n)) == n
    decreases n
  {
    if n >= 10 {
      NatToStringValue(n / 10);
      var s := NatToString(n);
      assert s[..|s| - 1] == NatToString(n / 10);
    }
  }

  /** `int(str(i)) == i` */
  lemma IntToStringRoundTrip(i: int)
    ensures ParseInt(IntToString(i)) == Some(i)
  {
    if i < 0 {
      var n := NatToString(-i);
      var s := "-" + n;
      assert IntToString(i) == s;
      assert ParseInt(s) == Some(-(DigitsValue(n) as int)) by {
        assert s[1..] == n;
        ParseNegative(s);
      }
      assert DigitsValue(n) == -i by {
        NatToStringValue(-i);
      }
    } else {
      var n := NatToString(i);
      assert IntToString(i) == n;
      assert ParseInt(n) == Some(DigitsValue(n)) by {
        ParseDigits(n);
      }
      assert DigitsValue(n) == i by {
        NatToStringValue(i);
      }
    }
  }

  lemma ParseDigits(s: string)
    requires |s| >= 1 && AllDigits(s)
    ensures ParseInt(s) == Some(DigitsValue(s))
  {
  }

  lemma ParseNegative(s: string)
    requires |s| >= 2 && s[0] == '-' && AllDigits(s[1..])
    ensures ParseInt(s) == Some(-(DigitsValue(s[1..]) as int))
  {
    assert !IsDigit(s[0]);
  }

  function Zeros(k: nat): (z: string)
    ensures |z| == k && AllDigits(z)
    ensures forall i :: 0 <= i < k ==> z[i] == '0'
  {
    seq(k, _ => '0')
  }

  lemma {:induction false} LeadingZerosValue(k: nat, s: string)
    requires AllDigits(s)
    ensures AllDigits(Zeros(k) + s) && DigitsValue(Zeros(k) + s) == DigitsValue(s)
    decreases |s|
  {
    var t := Zeros(k) + s;
    if |s| == 0 {
      ZerosValue(k);
      assert t == Zeros(k);
    } else {
      LeadingZerosValue(k, s[..|s| - 1]);
      assert t[..|t| - 1] == Zeros(k) + s[..|s| - 1];
    }
  }

  lemma {:induction false} ZerosValue(k: nat)
    ensures DigitsValue(Zeros(k)) == 0
  {
    if k > 0 {
      ZerosValue(k - 1);
      assert Zeros(k)[..k - 1] == Zeros(k - 1);
    }
  }

  /** `s.zfill(width)`: left-pad with '0' to `width`, keeping a leading sign in front. */
  function ZFill(s: string, width: nat): (r: string)
    ensures |r| == if |s| >= width then |s| else width
    ensures |s| >= width ==> r == s
  {
    if |s| >= width then s
    else if |s| >= 1 && (s[0] == '-' || s[0] == '+') then [s[0]] + Zeros(width - |s|) + s[1..]
    else Zeros(width - |s|) + s
  }

  /** `int(str(i).zfill(w)) == i`: padding never changes the value read back. */
  lemma ZFillIntRoundTrip(i: int, width: nat)
    ensures ParseInt(ZFill(IntToString(i), width)) == Some(i)
  {
    var s := IntToString(i);
    IntToStringRoundTrip(i);
    if |s| < width {
      var k := width - |s|;
      var z := ZFill(s, width);
      if i < 0 {
        assert DigitsValue(z[1..]) == DigitsValue(s[1..]) by {
          assert z[1..] == Zeros(k) + s[1..];
          LeadingZerosValue(k, s[1..]);
        }
        ParseNegative(z);
        ParseNegative(s);
      } else {
        assert AllDigits(z) && DigitsValue(z) == DigitsValue(s) by {
          assert z == Zeros(k) + s;
          LeadingZerosValue(k, s);
        }
        ParseDigits(z);
        ParseDigits(s);
      }
    }
  }

  /** Concatenation regroups freely. */
  lemma Associative(a: string, b: string, c: string)
    ensures a + (b + c) == (a + b) + c
  {
  }

  /** `s.split(sep)` for a one-character separator. */
  function Split(s: string, sep: char): (r: seq<string>)
    ensures |r| >= 1
    ensures sep !in s ==> r == [s]
  {
    if |s| == 0 then [""]
    else
      var rest := Split(s[1..], sep);
      assert [s[0]] + s[1..] == s;
      if s[0] == sep then [""] + rest else [[s[0]] + rest[0]] + rest[1..]
  }

  /** `sep.join(parts)` */
  function Join(parts: seq<string>, sep: char): string
  {
    if |parts| == 0 then ""
    else if |parts| == 1 then parts[0]
    else parts[0] + [sep] + Join(parts[1..], sep)
  }

  lemma {:induction false} SplitAfterField(p: string, sep: char, rest: string)
    requires sep !in p
    ensures Split(p + [sep] + rest, sep) == [p] + Split(rest, sep)
    decreases |p|
  {
    var s := p + [sep] + rest;
    if |p| == 0 {
      assert s == [sep] + rest;
      assert s[1..] == rest;
    } else {
      var tail := Split(s[1..], sep);
      assert tail == [p[1..]] + Split(rest, sep) by {
        assert s[1..] == p[1..] + [sep] + rest;
        SplitAfterField(p[1..], sep, rest);
      }
      assert Split(s, sep) == [[p[0]] + tail[0]] + tail[1..] by {
        assert s[0] == p[0] && p[0] != sep;
      }
      assert [p[0]] + p[1..] == p;
    }
  }

  /** Splitting a join on a separator no part contains gives the parts back. */
  lemma {:induction false} SplitJoin(parts: seq<string>, sep: char)
    requires |parts| >= 1
    requires forall i :: 0 <= i < |parts| ==> sep !in parts[i]
    ensures Split(Join(parts, sep), sep) == parts
    decreases |parts|
  {
    if |parts| > 1 {
      SplitJoin(parts[1..], sep);
      SplitAfterField(parts[0], sep, Join(parts[1..], sep));
      assert [parts[0]] + parts[1..] == parts;
    }
  }

  lemma NatToStringNoSeparator(n: nat, sep: char)
    requires !IsDigit(sep)
    ensures sep !in NatToString(n)
  {
  }

  lemma IntToStringNoSeparator(i: int, sep: char)
    requires !IsDigit(sep) && sep != '-'
    ensures sep !in IntToString(i)
  {
    if i < 0 {
      NatToStringNoSeparator(-i, sep);
    } else {
      NatToStringNoSeparator(i, sep);
    }
  }

  /** Padding a number adds only zeros: a separator that is no digit and no sign stays out. */
  lemma ZFillNoSeparator(i: int, width: nat, sep: char)
    requires !IsDigit(sep) && sep != '-' && sep != '+'
    ensures sep !in ZFill(IntToString(i), width)
  {
    IntToStringNoSeparator(i, sep);
  }

  /** Padding a natural number keeps it all digits. */
  lemma ZFillDigits(n: nat, width: nat)
    ensures AllDigits(ZFill(IntToString(n), width))
  {
    var s := IntToString(n);
    if |s| < width {
      LeadingZerosValue(width - |s|, s);
    }
  }

  /** `int(a / b)` for a positive divisor: the quotient truncated toward zero. */
  function TruncDiv(a: int, b: int): int
    requires b > 0
  {
    if a >= 0 then a / b else -((-a) / b)
  }

  /** Number of occurrences of `c` in `s`. */
  function Count(s: string, c: char): (n: nat)
    ensures n <= |s|
  {
    if |s| == 0 then 0 else Count(s[..|s| - 1], c) + (if s[|s| - 1] == c then 1 else 0)
  }

  lemma {:induction false} CountPositive(s: string, c: char)
    requires Count(s, c) >= 1
    ensures c in s
    decreases |s|
  {
    if s[|s| - 1] != c {
      CountPositive(s[..|s| - 1], c);
    }
  }

  /** `re.match(prefix, s)` for a literal prefix. */
  predicate StartsWith(s: string, prefix: string)
  {
    |s| >= |prefix| && s[..|prefix|] == prefix
  }

  /** A character found in neither the parts nor the separator is not in the join. */
  lemma {:induction false} JoinAvoids(parts: seq<string>, sep: char, c: char)
    requires c != sep && forall i :: 0 <= i < |parts| ==> c !in parts[i]
    ensures c !in Join(parts, sep)
    decreases |parts|
  {
    if |parts| > 1 {
      JoinAvoids(parts[1..], sep, c);
    }
  }
}
