/**
 * The Python string built-ins the controller relies on, written out on
 * `seq<char>`: `str.strip`, `str.split` with a one-character separator,
 * `in` on strings, `str.replace`, `str.rsplit(c, 1)[0]`, `str.lower` on
 * ASCII letters, and the parts of `float()` and `int()` that turn decimal
 * text into a number.
 */
module PyStr {
  import opened Wrappers

  /** Python's `str.isspace()` on one character. */
  predicate IsSpace(c: char)
  {
    c == ' ' || ('\t' <= c <= '\r') || ('\U{1C}' <= c <= '\U{1F}') || c == '\U{85}' || c == '\U{A0}'
    || c == '\U{1680}' || ('\U{2000}' <= c <= '\U{200A}') || c == '\U{2028}' || c == '\U{2029}'
    || c == '\U{202F}' || c == '\U{205F}' || c == '\U{3000}'
  }

  predicate AllSpace(s: string)
  {
    forall i :: 0 <= i < |s| ==> IsSpace(s[i])
  }

  function StripLeft(s: string): (r: string)
  {
    if |s| > 0 && IsSpace(s[0]) then StripLeft(s[1..]) else s
  }

  function StripRight(s: string): (r: string)
  {
    if |s| > 0 && IsSpace(s[|s| - 1]) then StripRight(s[..|s| - 1]) else s
  }

  /** `s.strip()`: leading and trailing white space removed. */
  function Strip(s: string): (r: string)
  {
    StripRight(StripLeft(s))
  }

  /** Text whose two ends are not white space is its own strip. */
  lemma StripUnpadded(s: string)
    requires s == [] || (!IsSpace(s[0]) && !IsSpace(s[|s| - 1]))
    ensures Strip(s) == s
  {
  }

  /** A digit string is its own strip. */
  lemma StripDigits(s: string)
    requires |s| > 0 && AllDigits(s)
    ensures Strip(s) == s
  {
    assert IsDigit(s[0]) && IsDigit(s[|s| - 1]);
    StripUnpadded(s);
  }

  /** Leading white space is removed by strip. */
  lemma {:induction false} StripPadded(pad: string, s: string)
    requires AllSpace(pad)
    requires s == [] || (!IsSpace(s[0]) && !IsSpace(s[|s| - 1]))
    ensures Strip(pad + s) == s
  {
    if pad == [] {
      assert pad + s == s;
    } else {
      assert (pad + s)[1..] == pad[1..] + s;
      StripPadded(pad[1..], s);
    }
  }

  /** What `lstrip` removes is a prefix of white space; what it keeps does not start with white space. */
  lemma {:induction false} StripLeftShape(s: string)
    ensures var r := StripLeft(s);
      |r| <= |s| && r == s[|s| - |r|..] && AllSpace(s[..|s| - |r|]) && (r == [] || !IsSpace(r[0]))
  {
    if |s| > 0 && IsSpace(s[0]) {
      StripLeftShape(s[1..]);
      var k := |s| - |StripLeft(s)|;
      assert s[1..][..k - 1] == s[1..k];
      assert forall i :: 0 < i < k ==> s[i] == s[1..k][i - 1];
    }
  }

  /** What `rstrip` removes is a suffix of white space; what it keeps does not end with white space. */
  lemma {:induction false} StripRightShape(s: string)
    ensures var r := StripRight(s);
      |r| <= |s| && r == s[..|r|] && AllSpace(s[|r|..]) && (r == [] || !IsSpace(r[|r| - 1]))
  {
    if |s| > 0 && IsSpace(s[|s| - 1]) {
      var t := s[..|s| - 1];
      StripRightShape(t);
      var k := |StripRight(s)|;
      assert t[..k] == s[..k];
      assert forall i :: k <= i < |s| - 1 ==> s[i] == t[k..][i - k];
    }
  }

  /**
   * `strip` keeps one contiguous slice of the text, removes only white
   * space around it, and leaves no white space at either end.
   */
  lemma StripShape(s: string)
    ensures var i := |s| - |StripLeft(s)|;
      0 <= i && i + |Strip(s)| <= |s| && Strip(s) == s[i..i + |Strip(s)|]
      && AllSpace(s[..i]) && AllSpace(s[i + |Strip(s)|..])
      && (Strip(s) == [] || (!IsSpace(Strip(s)[0]) && !IsSpace(Strip(s)[|Strip(s)| - 1])))
  {
    var l := StripLeft(s);
    var i := |s| - |l|;
    StripLeftShape(s);
    StripRightShape(l);
    var r := Strip(s);
    assert r == l[..|r|];
    assert l[..|r|] == s[i..i + |r|];
    assert l[|r|..] == s[i + |r|..];
    if r != [] {
      assert r[0] == l[0];
    }
  }

  /** Text made only of white space strips to nothing. */
  lemma StripAllSpace(s: string)
    requires AllSpace(s)
    ensures Strip(s) == []
  {
    StripShape(s);
  }

  /** Number of occurrences of `c` in `s`. */
  function Count(s: string, c: char): nat
  {
    if |s| == 0 then 0 else (if s[0] == c then 1 else 0) + Count(s[1..], c)
  }

  lemma {:induction false} CountAbsent(s: string, c: char)
    requires c !in s
    ensures Count(s, c) == 0
  {
    if |s| > 0 {
      assert c !in s[1..];
      CountAbsent(s[1..], c);
    }
  }

  /** `s.split(sep)` for a one-character separator: one part more than there are separators. */
  function Split(s: string, sep: char): (parts: seq<string>)
    ensures |parts| == Count(s, sep) + 1
  {
    if |s| == 0 then [""]
    else
      var rest := Split(s[1..], sep);
      if s[0] == sep then [""] + rest else [[s[0]] + rest[0]] + rest[1..]
  }

  /** Text without the separator splits into itself. */
  lemma {:induction false} SplitWithout(s: string, sep: char)
    requires sep !in s
    ensures Split(s, sep) == [s]
  {
    if |s| > 0 {
      assert sep !in s[1..];
      SplitWithout(s[1..], sep);
      assert [s[0]] + s[1..] == s;
    }
  }

  /** The first separator ends the first part. */
  lemma {:induction false} SplitAt(a: string, b: string, sep: char)
    requires sep !in a
    ensures Split(a + [sep] + b, sep) == [a] + Split(b, sep)
  {
    if a == [] {
      assert a + [sep] + b == [sep] + b;
      assert ([sep] + b)[1..] == b;
    } else {
      var s := a + [sep] + b;
      assert s[0] == a[0] && s[1..] == a[1..] + [sep] + b;
      assert sep !in a[1..];
      SplitAt(a[1..], b, sep);
      assert [a[0]] + a[1..] == a;
    }
  }

  /** `pat in s` for strings: `pat` occurs as a contiguous piece of `s`. */
  predicate Contains(s: string, pat: string)
  {
    if |s| < |pat| then false else s[..|pat|] == pat || Contains(s[1..], pat)
  }

  predicate IsDigit(c: char)
  {
    '0' <= c <= '9'
  }

  predicate AllDigits(s: string)
  {
    forall i :: 0 <= i < |s| ==> IsDigit(s[i])
  }

  function DigitValue(c: char): nat
    requires IsDigit(c)
  {
    c as int - '0' as int
  }

  function DigitChar(d: nat): (c: char)
    requires d < 10
    ensures IsDigit(c) && DigitValue(c) == d
  {
    ('0' as int + d) as char
  }

  /** The value of a decimal digit string, most significant digit first. */
  function DigitsValue(s: string): nat
    requires AllDigits(s)
  {
    if |s| == 0 then 0 else 10 * DigitsValue(s[..|s| - 1]) + DigitValue(s[|s| - 1])
  }

  /** The decimal text of a natural number, as Python's `str(n)` writes it. */
  function NatStr(n: nat): (r: string)
    ensures |r| >= 1 && AllDigits(r)
  {
    if n < 10 then [DigitChar(n)] else NatStr(n / 10) + [DigitChar(n % 10)]
  }

  /** The decimal text of an integer, with a leading `-` when negative. */
  function IntStr(i: int): string
  {
    if i < 0 then "-" + NatStr(-i) else NatStr(i)
  }

  /** Reading back the decimal text of `n` gives `n`. */
  lemma {:induction false} NatStrValue(n: nat)
    ensures DigitsValue(NatStr(n)) == n
  {
    if n >= 10 {
      var s := NatStr(n);
      assert s[..|s| - 1] == NatStr(n / 10);
      NatStrValue(n / 10);
    }
  }

  function Pow10(k: nat): (r: nat)
    ensures r >= 1
  {
    if k == 0 then 1 else 10 * Pow10(k - 1)
  }

  /** An unsigned decimal: digits, optionally one `.` and more digits, at least one digit in all. */
  function ParseUnsigned(t: string): Option<real>
  {
    var parts := Split(t, '.');
    if |parts| == 1 && |t| > 0 && AllDigits(t) then Some(DigitsValue(t) as real)
    else if |parts| == 2 && AllDigits(parts[0]) && AllDigits(parts[1]) && |parts[0]| + |parts[1]| > 0 then
      Some(DigitsValue(parts[0]) as real + DigitsValue(parts[1]) as real / Pow10(|parts[1]|) as real)
    else None
  }

  /**
   * Python's `float(s)` on decimal text: surrounding white space is
   * ignored, an optional sign, then an unsigned decimal.  `None` stands for
   * the `ValueError` that `float` raises on anything else.
   */
  function ParseNum(s: string): Option<real>
  {
    var t := Strip(s);
    if |t| > 0 && (t[0] == '+' || t[0] == '-') then
      match ParseUnsigned(t[1..])
      case None => None
      case Some(x) => Some(if t[0] == '-' then -x else x)
    else ParseUnsigned(t)
  }

  /** A digit string holds no character that is not a digit. */
  lemma DigitsExclude(s: string, c: char)
    requires AllDigits(s) && !IsDigit(c)
    ensures c !in s
  {
    assert forall i :: 0 <= i < |s| ==> s[i] != c;
  }

  /** `float(str(n)) == n` for every natural number. */
  lemma ParseNumNatStr(n: nat)
    ensures ParseNum(NatStr(n)) == Some(n as real)
  {
    var s := NatStr(n);
    StripDigits(s);
    DigitsExclude(s, '.');
    SplitWithout(s, '.');
    NatStrValue(n);
  }

  /** A digit string is an unsigned decimal worth its digits' value. */
  lemma ParseUnsignedDigits(d: string)
    requires |d| > 0 && AllDigits(d)
    ensures ParseUnsigned(d) == Some(DigitsValue(d) as real)
  {
    DigitsExclude(d, '.');
    SplitWithout(d, '.');
  }

  /** Unpadded text with a leading sign reads as the signed value of the rest. */
  lemma ParseNumSign(t: string)
    requires |t| > 0 && (t[0] == '-' || t[0] == '+') && Strip(t) == t && ParseUnsigned(t[1..]).Some?
    ensures ParseNum(t) == Some(if t[0] == '-' then -ParseUnsigned(t[1..]).value else ParseUnsigned(t[1..]).value)
  {
  }

  /** Digit strings around one `.` split into those two strings. */
  lemma SplitFraction(sa: string, sb: string)
    requires AllDigits(sa) && AllDigits(sb)
    ensures Split(sa + "." + sb, '.') == [sa, sb]
  {
    DigitsExclude(sa, '.');
    DigitsExclude(sb, '.');
    assert sa + "." + sb == sa + ['.'] + sb;
    SplitAt(sa, sb, '.');
    SplitWithout(sb, '.');
  }

  /** Two digit strings that the text splits into at its one `.` are an unsigned decimal. */
  lemma ParseUnsignedFraction(sa: string, sb: string)
    requires |sa| > 0 && |sb| > 0 && AllDigits(sa) && AllDigits(sb)
    requires Split(sa + "." + sb, '.') == [sa, sb]
    ensures ParseUnsigned(sa + "." + sb)
      == Some(DigitsValue(sa) as real + DigitsValue(sb) as real / Pow10(|sb|) as real)
  {
  }

  /** Unpadded text that starts with a digit carries no sign: `float` reads it unsigned. */
  lemma ParseNumUnsigned(t: string)
    requires |t| > 0 && IsDigit(t[0]) && Strip(t) == t
    ensures ParseNum(t) == ParseUnsigned(t)
  {
  }

  /** Digits, one `.` and digits read as the whole part plus the fraction. */
  lemma ParseNumDecimal(sa: string, sb: string)
    requires |sa| > 0 && |sb| > 0 && AllDigits(sa) && AllDigits(sb)
    ensures ParseNum(sa + "." + sb)
      == Some(DigitsValue(sa) as real + DigitsValue(sb) as real / Pow10(|sb|) as real)
  {
    var t := sa + "." + sb;
    assert t[0] == sa[0] && t[|t| - 1] == sb[|sb| - 1];
    assert IsDigit(sa[0]) && IsDigit(sb[|sb| - 1]);
    StripUnpadded(t);
    ParseNumUnsigned(t);
    SplitFraction(sa, sb);
    ParseUnsignedFraction(sa, sb);
  }

  /** Blank text is no number: both `float` and `int` raise on it. */
  lemma ParseBlank(s: string)
    requires AllSpace(s)
    ensures ParseNum(s).None? && ParseInt(s).None?
  {
    StripAllSpace(s);
    assert |Split([], '.')| == 1;
  }

  /**
   * Python's `int(s)` on decimal text: surrounding white space, an optional
   * sign and at least one digit.  `None` stands for the `ValueError`.
   */
  function ParseInt(s: string): Option<int>
  {
    var t := Strip(s);
    if |t| > 0 && (t[0] == '+' || t[0] == '-') then
      var body := t[1..];
      if |body| > 0 && AllDigits(body) then
        var v: int := DigitsValue(body);
        Some(if t[0] == '-' then -v else v)
      else None
    else if |t| > 0 && AllDigits(t) then Some(DigitsValue(t))
    else None
  }

  /** `int(str(n)) == n` for every natural number. */
  lemma ParseIntNatStr(n: nat)
    ensures ParseInt(NatStr(n)) == Some(n as int)
  {
    var s := NatStr(n);
    StripDigits(s);
    assert IsDigit(s[0]);
    NatStrValue(n);
  }

  /** `int` reads a signed natural number with its sign. */
  lemma ParseIntSigned(n: nat)
    ensures ParseInt("-" + NatStr(n)) == Some(-(n as int))
    ensures ParseInt("+" + NatStr(n)) == Some(n as int)
  {
    var d := NatStr(n);
    NatStrValue(n);
    assert IsDigit(d[|d| - 1]);
    var neg, pos := "-" + d, "+" + d;
    assert neg[|neg| - 1] == d[|d| - 1] && pos[|pos| - 1] == d[|d| - 1];
    StripUnpadded(neg);
    StripUnpadded(pos);
    assert neg[1..] == d && pos[1..] == d;
  }

  /** Unlike `float`, `int` refuses a decimal point: `int("6.5")` raises. */
  lemma ParseIntRejectsFraction(a: nat, b: nat)
    ensures ParseInt(NatStr(a) + "." + NatStr(b)).None?
  {
    var sa, sb := NatStr(a), NatStr(b);
    var t := sa + "." + sb;
    assert t[0] == sa[0] && t[|t| - 1] == sb[|sb| - 1];
    assert IsDigit(sa[0]) && IsDigit(sb[|sb| - 1]);
    StripUnpadded(t);
    assert t[|sa|] == '.';
    assert !IsDigit(t[|sa|]);
  }

  /** `s.replace(c, rep)` for a one-character pattern. */
  function ReplaceChar(s: string, c: char, rep: string): string
  {
    if |s| == 0 then [] else (if s[0] == c then rep else [s[0]]) + ReplaceChar(s[1..], c, rep)
  }

  /** A one-character replace works piece by piece. */
  lemma {:induction false} ReplaceCharAppend(a: string, b: string, c: char, rep: string)
    ensures ReplaceChar(a + b, c, rep) == ReplaceChar(a, c, rep) + ReplaceChar(b, c, rep)
  {
    if |a| > 0 {
      assert (a + b)[1..] == a[1..] + b;
      ReplaceCharAppend(a[1..], b, c, rep);
    } else {
      assert a + b == b;
    }
  }

  /**
   * `s.replace(pat, rep)`: non-overlapping occurrences, scanned left to
   * right.  Replacing a pattern by itself gives back the text.
   */
  function Replace(s: string, pat: string, rep: string): (r: string)
    requires |pat| > 0
    ensures rep == pat ==> r == s
  {
    if |s| < |pat| then s
    else if s[..|pat|] == pat then rep + Replace(s[|pat|..], pat, rep)
    else [s[0]] + Replace(s[1..], pat, rep)
  }

  /** Replacing a pattern that does not occur changes nothing. */
  lemma {:induction false} ReplaceAbsent(s: string, pat: string, rep: string)
    requires |pat| > 0 && !Contains(s, pat)
    ensures Replace(s, pat, rep) == s
  {
    if |s| >= |pat| {
      ReplaceAbsent(s[1..], pat, rep);
      assert [s[0]] + s[1..] == s;
    }
  }

  /** When the pattern occurs, the replacement text occurs in the result. */
  lemma {:induction false} ReplacePresent(s: string, pat: string, rep: string)
    requires |pat| > 0 && Contains(s, pat)
    ensures Contains(Replace(s, pat, rep), rep)
  {
    if s[..|pat|] == pat {
      ContainsPrefix(rep, Replace(s[|pat|..], pat, rep));
    } else {
      ReplacePresent(s[1..], pat, rep);
      ContainsTail(s[0], Replace(s[1..], pat, rep), rep);
    }
  }

  /** A replacement at least as long as the pattern never shortens the text, and lengthens it where the pattern occurs. */
  lemma {:induction false} ReplaceLength(s: string, pat: string, rep: string)
    requires 0 < |pat| <= |rep|
    ensures |Replace(s, pat, rep)| >= |s|
    ensures |rep| > |pat| && Contains(s, pat) ==> |Replace(s, pat, rep)| > |s|
  {
    if |s| >= |pat| {
      if s[..|pat|] == pat {
        ReplaceLength(s[|pat|..], pat, rep);
      } else {
        ReplaceLength(s[1..], pat, rep);
      }
    }
  }

  /** A replacement no longer than the pattern never lengthens the text. */
  lemma {:induction false} ReplaceShrinks(s: string, pat: string, rep: string)
    requires 0 < |pat| && |rep| <= |pat|
    ensures |Replace(s, pat, rep)| <= |s|
  {
    if |s| >= |pat| {
      if s[..|pat|] == pat {
        ReplaceShrinks(s[|pat|..], pat, rep);
      } else {
        ReplaceShrinks(s[1..], pat, rep);
      }
    }
  }

  lemma ContainsPrefix(p: string, rest: string)
    ensures Contains(p + rest, p)
  {
    assert (p + rest)[..|p|] == p;
  }

  lemma ContainsTail(c: char, s: string, pat: string)
    requires Contains(s, pat)
    ensures Contains([c] + s, pat)
  {
    assert ([c] + s)[1..] == s;
  }

  /**
   * `s.rsplit(c, 1)[0]`: everything before the last `c`, or all of `s` when
   * `c` does not occur.
   */
  function BeforeLast(s: string, c: char): (r: string)
    ensures c !in s ==> r == s
    ensures c in s ==> |r| < |s| && r == s[..|r|] && s[|r|] == c && c !in s[|r| + 1..]
  {
    if c !in s then s
    else if s[|s| - 1] == c then s[..|s| - 1]
    else
      assert c in s[..|s| - 1] by {
        var i :| 0 <= i < |s| && s[i] == c;
        assert s[..|s| - 1][i] == c;
      }
      BeforeLast(s[..|s| - 1], c)
  }

  function LowerChar(c: char): char
  {
    if 'A' <= c <= 'Z' then (c as int + 32) as char else c
  }

  /** `s.lower()` on ASCII letters. */
  function Lower(s: string): (r: string)
    ensures |r| == |s|
    ensures forall i :: 0 <= i < |s| ==> r[i] == LowerChar(s[i])
  {
    seq(|s|, i requires 0 <= i < |s| => LowerChar(s[i]))
  }

  /** Lower-casing twice is lower-casing once. */
  lemma LowerIdempotent(s: string)
    ensures Lower(Lower(s)) == Lower(s)
  {
  }
}
