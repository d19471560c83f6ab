/**
 * `format_duration`: a number of seconds written as `"<h>h <m>m <s>s"`, or
 * `"<m>m <s>s"` when there is no whole hour.
 */
module Durations {
  import opened PyStr

  /** Python's `int(x)` on a float: truncation toward zero. */
  function TruncToInt(x: real): (r: int)
    ensures x >= 0.0 ==> r >= 0 && r as real <= x < r as real + 1.0
    ensures x < 0.0 ==> r <= 0 && r as real - 1.0 < x <= r as real
  {
    if x >= 0.0 then x.Floor else -((-x).Floor)
  }

  /**
   * Hours, minutes and seconds of `n` by floor division and remainder;
   * Dafny's `/` and `%` agree with Python's `//` and `%` for the positive
   * divisors used here.
   */
  function DurationParts(n: int): (r: (int, int, int))
    ensures 3600 * r.0 + 60 * r.1 + r.2 == n
    ensures 0 <= r.1 < 60 && 0 <= r.2 < 60
    ensures n >= 0 ==> r.0 >= 0
    ensures r.0 > 0 <==> n >= 3600
  {
    var hours := n / 3600;
    var minutes := (n % 3600) / 60;
    var seconds := n % 60;
    assert n % 3600 == 60 * minutes + seconds;
    (hours, minutes, seconds)
  }

  /** The parts are unique: any decomposition with minutes and seconds below 60 is the one computed. */
  lemma PartsUnique(n: int, h: int, m: int, s: int)
    requires 3600 * h + 60 * m + s == n && 0 <= m < 60 && 0 <= s < 60
    ensures DurationParts(n) == (h, m, s)
  {
    var r := DurationParts(n);
    assert 3600 * (h - r.0) == 60 * (r.1 - m) + (r.2 - s);
    assert -3600 < 60 * (r.1 - m) + (r.2 - s) < 3600;
    assert h == r.0;
    assert 60 * (m - r.1) == r.2 - s;
  }

  /**
   * The whole seconds of `seconds` (truncated as `int` does) written with
   * units: the hours only when there is a whole hour, then the minutes and
   * the seconds, each at least one digit, so the text always ends in `s`.
   */
  function FormatDuration(seconds: real): (r: string)
    ensures |r| >= 5 && r[|r| - 1] == 's'
  {
    var (h, m, s) := DurationParts(TruncToInt(seconds));
    (if h > 0 then IntStr(h) + "h " else "") + NatStr(m) + "m " + NatStr(s) + "s"
  }

  /** The hours part is written exactly when there is at least one whole hour. */
  lemma HoursShownIff(seconds: real)
    ensures 'h' in FormatDuration(seconds) <==> TruncToInt(seconds) >= 3600
  {
    var (h, m, s) := DurationParts(TruncToInt(seconds));
    DigitsExclude(NatStr(m), 'h');
    DigitsExclude(NatStr(s), 'h');
    var tail := NatStr(m) + "m " + NatStr(s) + "s";
    assert 'h' !in tail;
    if h > 0 {
      assert FormatDuration(seconds) == IntStr(h) + "h " + tail;
      assert (IntStr(h) + "h " + tail)[|IntStr(h)|] == 'h';
    } else {
      assert FormatDuration(seconds) == tail;
    }
  }

  /** Below an hour the text starts with the minutes. */
  lemma MinutesFirst(seconds: real)
    requires 0.0 <= seconds < 3600.0
    ensures var n := TruncToInt(seconds);
      FormatDuration(seconds) == NatStr(n / 60) + "m " + NatStr(n % 60) + "s"
  {
  }
}
