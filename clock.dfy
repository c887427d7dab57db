/**
 * Wall-clock `HH:MM` strings as the booking code handles them: the time
 * pattern `^([0-1]?[0-9]|2[0-3]):[0-5][0-9]$`, reading a clock string as
 * minutes since midnight, rendering minutes as a zero-padded string, and
 * the string order of the booking overlap query's `$lt`/`$gt` bounds.
 */
module Clock {

  const MinutesPerDay: nat := 1440

  predicate IsDigit(c: char) { '0' <= c <= '9' }

  function DigitValue(c: char): (d: nat)
    requires IsDigit(c)
    ensures d < 10
  {
    c as int - '0' as int
  }

  function DigitChar(d: nat): (c: char)
    requires d < 10
    ensures IsDigit(c) && DigitValue(c) == d
  {
    ('0' as int + d) as char
  }

  /** The two-character hour alternatives `[0-1][0-9]` and `2[0-3]`. */
  predicate IsTwoDigitHour(a: char, b: char)
  {
    ((a == '0' || a == '1') && IsDigit(b)) || (a == '2' && '0' <= b <= '3')
  }

  /** The minute part `[0-5][0-9]` at positions i and i + 1. */
  predicate IsMinuteAt(s: string, i: nat)
    requires i + 1 < |s|
  {
    '0' <= s[i] <= '5' && IsDigit(s[i + 1])
  }

  /**
   * The anchored pattern `^([0-1]?[0-9]|2[0-3]):[0-5][0-9]$` of both
   * `startTime` and `endTime`: a one-digit hour (the optional leading digit
   * left out) or a two-digit one, a colon, two minute digits.
   */
  predicate MatchesTimePattern(s: string)
  {
    || (|s| == 4 && IsDigit(s[0]) && s[1] == ':' && IsMinuteAt(s, 2))
    || (|s| == 5 && IsTwoDigitHour(s[0], s[1]) && s[2] == ':' && IsMinuteAt(s, 3))
  }

  /** A pattern-matching string with a two-digit hour, as `endTime` is always rendered. */
  predicate IsPadded(s: string)
  {
    |s| == 5 && MatchesTimePattern(s)
  }

  /** `parseInt(s.split(':')[0])`. */
  function HourOf(s: string): (h: nat)
    requires MatchesTimePattern(s)
    ensures h < 24
  {
    if |s| == 4 then DigitValue(s[0]) else DigitValue(s[0]) * 10 + DigitValue(s[1])
  }

  /** `parseInt(s.split(':')[1])`. */
  function MinuteOf(s: string): (m: nat)
    requires MatchesTimePattern(s)
    ensures m < 60
  {
    DigitValue(s[|s| - 2]) * 10 + DigitValue(s[|s| - 1])
  }

  /** The clock reading of a time string, in minutes since midnight. */
  function MinutesOf(s: string): (m: nat)
    requires MatchesTimePattern(s)
    ensures m < MinutesPerDay
  {
    HourOf(s) * 60 + MinuteOf(s)
  }

  /** `String(n).padStart(2, '0')` for n < 100. */
  function Pad2(n: nat): (s: string)
    requires n < 100
    ensures |s| == 2 && IsDigit(s[0]) && IsDigit(s[1])
    ensures DigitValue(s[0]) * 10 + DigitValue(s[1]) == n
  {
    [DigitChar(n / 10), DigitChar(n % 10)]
  }

  /**
   * The zero-padded `HH:MM` rendering of a clock reading. It matches the
   * time pattern and reads back as the same clock reading.
   */
  function FormatTime(m: nat): (s: string)
    requires m < MinutesPerDay
    ensures IsPadded(s)
    ensures MinutesOf(s) == m
  {
    Pad2(m / 60) + ":" + Pad2(m % 60)
  }

  /** The other half of the round trip: a padded string is the rendering of its own reading. */
  lemma FormatOfPadded(s: string)
    requires IsPadded(s)
    ensures FormatTime(MinutesOf(s)) == s
  {
    var m := MinutesOf(s);
    assert m / 60 == HourOf(s) && m % 60 == MinuteOf(s);
    var t := FormatTime(m);
    assert t[0] == s[0] && t[1] == s[1] && t[2] == s[2] && t[3] == s[3] && t[4] == s[4];
  }

  /**
   * `a < b` on strings, as the database compares the query's `$lt`/`$gt`
   * bounds: lexicographic, character by character. On the ASCII strings
   * read here, byte order and code-unit order coincide.
   */
  predicate StrLess(a: string, b: string)
    decreases |a|
  {
    if |b| == 0 then false
    else if |a| == 0 then true
    else if a[0] != b[0] then a[0] < b[0]
    else StrLess(a[1..], b[1..])
  }

  /** Two padded strings compare as the tuples of their five characters. */
  lemma StrLessFive(a: string, b: string)
    requires |a| == 5 && |b| == 5
    ensures StrLess(a, b) <==>
      || a[0] < b[0]
      || (a[0] == b[0] && a[1] < b[1])
      || (a[0] == b[0] && a[1] == b[1] && a[2] < b[2])
      || (a[0] == b[0] && a[1] == b[1] && a[2] == b[2] && a[3] < b[3])
      || (a[0] == b[0] && a[1] == b[1] && a[2] == b[2] && a[3] == b[3] && a[4] < b[4])
  {
    var a1, b1 := a[1..], b[1..];
    var a2, b2 := a1[1..], b1[1..];
    var a3, b3 := a2[1..], b2[1..];
    var a4, b4 := a3[1..], b3[1..];
    assert a4 == [a[4]] && b4 == [b[4]];
    assert StrLess(a4, b4) <==> a[4] < b[4];
    assert a3[0] == a[3] && b3[0] == b[3];
    assert StrLess(a3, b3) <==> a[3] < b[3] || (a[3] == b[3] && a[4] < b[4]);
    assert a2[0] == a[2] && b2[0] == b[2];
    assert StrLess(a2, b2) <==> a[2] < b[2] || (a[2] == b[2] && StrLess(a3, b3));
    assert a1[0] == a[1] && b1[0] == b[1];
    assert StrLess(a1, b1) <==> a[1] < b[1] || (a[1] == b[1] && StrLess(a2, b2));
    assert StrLess(a, b) <==> a[0] < b[0] || (a[0] == b[0] && StrLess(a1, b1));
  }

  /**
   * For padded `HH:MM` strings, string order is clock order. This is
   * what makes the string comparison of the overlap query sound, and it
   * needs both operands padded.
   */
  lemma PaddedOrderIsClockOrder(a: string, b: string)
    requires IsPadded(a) && IsPadded(b)
    ensures StrLess(a, b) <==> MinutesOf(a) < MinutesOf(b)
  {
    StrLessFive(a, b);
  }

  /** A one-digit hour breaks it: "10:00" sorts before "9:30" though it is later. */
  lemma UnpaddedOrderIsNotClockOrder()
    ensures MatchesTimePattern("9:30") && MatchesTimePattern("10:00")
    ensures StrLess("10:00", "9:30") && MinutesOf("10:00") > MinutesOf("9:30")
  {
  }

  /**
   * The minute offset, from midnight of the booking day, at which a slot of
   * `durationHours` starting at `startMinute` ends: the whole minutes of
   * `start + durationHours * 3600000` ms, before any wrap to a clock reading.
   */
  function EndMinute(startMinute: nat, durationHours: real): (e: int)
    requires durationHours >= 0.0
    ensures startMinute as real + durationHours * 60.0 - 1.0 < e as real <= startMinute as real + durationHours * 60.0
    ensures e >= startMinute
  {
    (startMinute as real + durationHours * 60.0).Floor
  }

  /** `(end - start) / 3600000` for two clock strings of the same day, in hours. */
  function SpanHours(startTime: string, endTime: string): (h: real)
    requires MatchesTimePattern(startTime) && MatchesTimePattern(endTime)
    ensures h * 60.0 == (MinutesOf(endTime) - MinutesOf(startTime)) as real
    ensures h > 0.0 <==> MinutesOf(startTime) < MinutesOf(endTime)
  {
    (MinutesOf(endTime) - MinutesOf(startTime)) as real / 60.0
  }
}
