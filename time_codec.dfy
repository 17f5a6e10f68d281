/**
 * The time strings `MultiPointController` exchanges with a renderer:
 * `format(int)` renders a number of seconds as `HH:MM:SS` (hours capped at
 * 99, every field at least two digits) and `format(String)` reads back
 * `H:MM:SS[.fraction]`, `M:SS` or a bare number of seconds.
 */
module TimeCodec {
  import opened JavaText

  const MAX_HOURS := 99

  /** `unitFormat`: a value below ten gets a leading "0" (a negative value too). */
  function UnitFormat(time: int): string
  {
    if time < 10 then "0" + IntToString(time) else IntToString(time)
  }

  /**
   * `format(int)`. Every negative input takes the first branch, so the
   * divisions below only see positive operands, where Java's truncating
   * division and Dafny's Euclidean division agree. Above the hour cap the
   * seconds field absorbs the excess.
   */
  function FormatTime(timeSeconds: int32): string
  {
    if timeSeconds < 60 then
      "00:00:" + UnitFormat(timeSeconds)
    else
      var minutes := timeSeconds / 60;
      if minutes < 60 then
        "00:" + UnitFormat(minutes) + ":" + UnitFormat(timeSeconds % 60)
      else
        var hours := Min(minutes / 60, MAX_HOURS);
        var minutesOfHour := minutes % 60;
        var seconds := timeSeconds - hours * 3600 - minutesOfHour * 60;
        UnitFormat(hours) + ":" + UnitFormat(minutesOfHour) + ":" + UnitFormat(seconds)
  }

  /** The `:`-separated fields of a time string, after dropping everything from its first `.`. */
  function TimeFields(timeStr: string): seq<string>
  {
    var whole := if '.' in timeStr then timeStr[..IndexOf(timeStr, '.')] else timeStr;
    JavaSplit(whole, ':')
  }

  /** Field lists whose fields used (the first three at most) are all `int` literals. */
  predicate FieldsReadable(fields: seq<string>)
  {
    forall i :: 0 <= i < |fields| && i < 3 ==> IsJavaIntLiteral(fields[i])
  }

  /**
   * The strings `format(String)` reads without a `NumberFormatException`:
   * the empty string, or one whose fields are readable.
   */
  predicate TimeParseable(timeStr: string)
  {
    timeStr == "" || FieldsReadable(TimeFields(timeStr))
  }

  /**
   * The seconds a list of fields stands for: -1 without fields, otherwise
   * seconds, minutes:seconds or hours:minutes:seconds, any further field
   * ignored, in `int` arithmetic.
   */
  function FieldsValue(values: seq<string>): (r: int32)
    requires FieldsReadable(values)
    ensures values == [] ==> r == -1
    ensures |values| == 1 ==> r == JavaIntValue(values[0])
  {
    if |values| < 1 then -1
    else if |values| == 1 then JavaIntValue(values[0])
    else if |values| == 2 then WrapInt32(60 * JavaIntValue(values[0]) + JavaIntValue(values[1]))
    else WrapInt32(3600 * JavaIntValue(values[0]) + 60 * JavaIntValue(values[1]) + JavaIntValue(values[2]))
  }

  /** `format(String)`: -1 for the empty string, otherwise the value of its fields. */
  function ParseTime(timeStr: string): (r: int32)
    requires TimeParseable(timeStr)
    ensures timeStr == "" ==> r == -1
  {
    if timeStr == "" then -1 else FieldsValue(TimeFields(timeStr))
  }

  // ------------------------------------------------------------ formatting

  /** A non-negative field is rendered with at least two digits and reads back as itself. */
  lemma UnitFormatDigits(x: int32)
    requires x >= 0
    ensures IsDigits(UnitFormat(x)) && |UnitFormat(x)| >= 2
    ensures IsJavaIntLiteral(UnitFormat(x)) && JavaIntValue(UnitFormat(x)) == x
    ensures x < 100 ==> UnitFormat(x) == TwoDigits(x)
  {
    NatToStringValue(x);
    if x < 10 {
      PaddedDigitsValue(NatToString(x));
    } else if x < 100 {
      var s := NatToString(x);
      assert s == NatToString(x / 10) + [DigitChar(x % 10)];
    }
  }

  /**
   * For every non-negative input the result is three fields: hours capped at
   * 99, the minutes of the hour, and the remaining seconds, which add up to
   * the input.
   */
  lemma FormatTimeFields(t: int32) returns (h: int32, m: int32, s: int32)
    requires t >= 0
    ensures FormatTime(t) == UnitFormat(h) + ":" + UnitFormat(m) + ":" + UnitFormat(s)
    ensures h == Min(t / 3600, MAX_HOURS) && m == (t / 60) % 60 && s == t - 3600 * h - 60 * m
    ensures 0 <= h && 0 <= m < 60 && 0 <= s
  {
    SecondsSplit(t);
    if t < 60 {
      FormatTimeUnderMinute(t);
      h, m, s := 0, 0, t;
    } else if t < 3600 {
      FormatTimeUnderHour(t);
      h, m, s := 0, t / 60, t % 60;
    } else {
      h := Min(t / 3600, MAX_HOURS);
      m := (t / 60) % 60;
      assert h * 3600 + m * 60 <= t;
      s := t - h * 3600 - m * 60;
      FormatTimeHours(t);
    }
  }

  /** Below a minute, the hours and minutes fields are "00". */
  lemma FormatTimeUnderMinute(t: int32)
    requires 0 <= t < 60
    ensures FormatTime(t) == UnitFormat(0) + ":" + UnitFormat(0) + ":" + UnitFormat(t)
  {
    ZeroFields();
  }

  /** Below an hour, the hours field is "00". */
  lemma FormatTimeUnderHour(t: int32)
    requires 60 <= t < 3600
    ensures FormatTime(t) == UnitFormat(0) + ":" + UnitFormat(t / 60) + ":" + UnitFormat(t % 60)
  {
    MinutesBelowHour(t);
    ZeroFields();
  }

  lemma MinutesBelowHour(t: int)
    requires 0 <= t < 3600
    ensures t / 60 < 60
  {
  }

  /** The text of zero hours, and of zero hours and zero minutes. */
  lemma ZeroFields()
    ensures UnitFormat(0) + ":" == "00:"
    ensures UnitFormat(0) + ":" + UnitFormat(0) + ":" == "00:00:"
  {
    assert UnitFormat(0) == "00";
  }

  /** From an hour on, the fields are the capped hours, the minutes of the hour and the rest. */
  lemma FormatTimeHours(t: int32)
    requires t >= 3600
    ensures var h := Min(t / 3600, MAX_HOURS); var m := (t / 60) % 60;
      FormatTime(t) == UnitFormat(h) + ":" + UnitFormat(m) + ":" + UnitFormat(t - h * 3600 - m * 60)
  {
    SecondsSplit(t);
  }

  /** Below the cap (100 hours) the result is exactly `HH:MM:SS`, two digits per field. */
  lemma FormatTimeBelowCap(t: int32)
    requires 0 <= t < 100 * 3600
    ensures FormatTime(t) == TwoDigits(t / 3600) + ":" + TwoDigits((t / 60) % 60) + ":" + TwoDigits(t % 60)
    ensures |FormatTime(t)| == 8
  {
    var h, m, s := FormatTimeFields(t);
    SecondsSplit(t);
    assert h == t / 3600 && s == t % 60;
    UnitFormatDigits(h);
    UnitFormatDigits(m);
    UnitFormatDigits(s);
  }

  /** Seconds split into whole hours, the minutes of the hour and the seconds of the minute. */
  lemma SecondsSplit(t: int)
    requires t >= 0
    ensures t == 60 * (t / 60) + t % 60 && (t / 60) / 60 == t / 3600
    ensures t / 60 == 60 * ((t / 60) / 60) + (t / 60) % 60
    ensures t == 3600 * (t / 3600) + 60 * ((t / 60) % 60) + t % 60
  {
    var minutes := t / 60;
    assert t == 60 * minutes + t % 60;
    assert minutes == 60 * (minutes / 60) + minutes % 60;
    assert minutes / 60 == t / 3600;
  }

  // --------------------------------------------------------------- parsing

  /** A bare number of seconds. */
  lemma ParseTimeOneField(a: string)
    requires IsJavaIntLiteral(a) && ':' !in a && '.' !in a
    ensures TimeParseable(a) && ParseTime(a) == JavaIntValue(a)
  {
  }

  /** `M:SS`: sixty times the first field plus the second. */
  lemma ParseTimeTwoFields(a: string, b: string)
    requires IsJavaIntLiteral(a) && IsJavaIntLiteral(b)
    requires ':' !in a && ':' !in b && '.' !in a && '.' !in b
    ensures TimeParseable(a + ":" + b)
    ensures ParseTime(a + ":" + b) == WrapInt32(60 * JavaIntValue(a) + JavaIntValue(b))
  {
    assert b != "" by { assert |Unsigned(b)| > 0; }
    TwoFields(a, b);
    assert (a + ":" + b)[|a|] == ':';
    ReadTwoFields(a + ":" + b, a, b);
  }

  /** Reading a time string whose fields are two literals. */
  lemma ReadTwoFields(s: string, a: string, b: string)
    requires s != "" && TimeFields(s) == [a, b] && IsJavaIntLiteral(a) && IsJavaIntLiteral(b)
    ensures TimeParseable(s) && ParseTime(s) == WrapInt32(60 * JavaIntValue(a) + JavaIntValue(b))
  {
  }

  /** Reading a time string whose first three fields are literals. */
  lemma ReadThreeFields(s: string, a: string, b: string, c: string)
    requires s != "" && IsJavaIntLiteral(a) && IsJavaIntLiteral(b) && IsJavaIntLiteral(c)
    requires var f := TimeFields(s); |f| >= 3 && f[0] == a && f[1] == b && f[2] == c
    ensures TimeParseable(s)
    ensures ParseTime(s) == WrapInt32(3600 * JavaIntValue(a) + 60 * JavaIntValue(b) + JavaIntValue(c))
  {
  }

  lemma TwoFields(a: string, b: string)
    requires ':' !in a && ':' !in b && '.' !in a && '.' !in b && b != ""
    ensures TimeFields(a + ":" + b) == [a, b]
  {
    var s := a + [':'] + b;
    assert s == a + ":" + b;
    assert s[|a|] == ':';
    SplitOnJoin(a, ':', b);
    SplitOnNoSeparator(b, ':');
    assert SplitOn(s, ':') == [a, b];
  }

  /** `H:MM:SS`, with any further `:`-separated fields ignored. */
  lemma ParseTimeThreeFields(a: string, b: string, c: string, extra: string)
    requires IsJavaIntLiteral(a) && IsJavaIntLiteral(b) && IsJavaIntLiteral(c)
    requires ':' !in a && ':' !in b && ':' !in c
    requires '.' !in a && '.' !in b && '.' !in c && '.' !in extra
    requires extra == "" || extra[0] == ':'
    ensures TimeParseable(a + ":" + b + ":" + c + extra)
    ensures ParseTime(a + ":" + b + ":" + c + extra)
         == WrapInt32(3600 * JavaIntValue(a) + 60 * JavaIntValue(b) + JavaIntValue(c))
  {
    assert c != "" by { assert |Unsigned(c)| > 0; }
    ThreeFieldsPrefix(a, b, c, extra);
    assert (a + ":" + b + ":" + c + extra)[|a|] == ':';
    ReadThreeFields(a + ":" + b + ":" + c + extra, a, b, c);
  }

  /** The first three fields of `a:b:c` followed by more fields are `a`, `b` and `c`. */
  lemma ThreeFieldsPrefix(a: string, b: string, c: string, extra: string)
    requires ':' !in a && ':' !in b && ':' !in c && c != ""
    requires '.' !in a && '.' !in b && '.' !in c && '.' !in extra
    requires extra == "" || extra[0] == ':'
    ensures var f := TimeFields(a + ":" + b + ":" + c + extra);
      |f| >= 3 && f[0] == a && f[1] == b && f[2] == c
  {
    var s := a + ":" + b + ":" + c + extra;
    var tail := ThreePieces(a, b, c, extra);
    assert '.' !in s;
    assert ':' in s by { assert s[|a|] == ':'; }
    DropTrailingEmptyAppend([a, b, c], tail);
    assert TimeFields(s) == [a, b, c] + DropTrailingEmpty(tail);
  }

  lemma ThreePieces(a: string, b: string, c: string, extra: string) returns (tail: seq<string>)
    requires ':' !in a && ':' !in b && ':' !in c
    requires extra == "" || extra[0] == ':'
    ensures SplitOn(a + ":" + b + ":" + c + extra, ':') == [a, b, c] + tail
  {
    var third := c + extra;
    if extra == "" {
      SplitOnNoSeparator(c, ':');
      assert third == c;
      tail := [];
    } else {
      assert third == c + [':'] + extra[1..];
      SplitOnJoin(c, ':', extra[1..]);
      tail := SplitOn(extra[1..], ':');
    }
    assert SplitOn(third, ':') == [c] + tail;
    var second := b + [':'] + third;
    SplitOnJoin(b, ':', third);
    var pieces2 := SplitOn(second, ':');
    assert pieces2 == [b] + ([c] + tail);
    var whole := a + [':'] + second;
    SplitOnJoin(a, ':', second);
    var pieces := SplitOn(whole, ':');
    assert pieces == [a] + ([b] + ([c] + tail));
    ThreeJoined(a, b, c, extra, tail);
  }

  lemma ThreeJoined(a: string, b: string, c: string, extra: string, tail: seq<string>)
    ensures [a] + ([b] + ([c] + tail)) == [a, b, c] + tail
    ensures a + ":" + b + ":" + c + extra == a + [':'] + (b + [':'] + (c + extra))
  {
  }

  /** Everything from the first `.` on is ignored. */
  lemma ParseTimeDropsFraction(whole: string, fraction: string)
    requires whole != "" && '.' !in whole
    ensures TimeParseable(whole + "." + fraction) == TimeParseable(whole)
    ensures TimeParseable(whole) ==> ParseTime(whole + "." + fraction) == ParseTime(whole)
  {
    assert whole + "." + fraction == whole + ['.'] + fraction;
    IndexOfAfterPrefix(whole, '.', fraction);
    assert (whole + "." + fraction)[..|whole|] == whole;
    assert TimeFields(whole + "." + fraction) == TimeFields(whole);
  }

  /** A string of separators only has no fields and reads as -1. */
  lemma {:induction false} ParseTimeOnlySeparators(s: string)
    requires s != [] && forall i :: 0 <= i < |s| ==> s[i] == ':'
    ensures TimeParseable(s) && ParseTime(s) == -1
  {
    AllEmptyPieces(s);
    AllEmptyDropped(SplitOn(s, ':'));
    assert s[0] == ':';
  }

  lemma {:induction false} AllEmptyPieces(s: string)
    requires forall i :: 0 <= i < |s| ==> s[i] == ':'
    ensures forall j :: 0 <= j < |SplitOn(s, ':')| ==> SplitOn(s, ':')[j] == ""
    decreases |s|
  {
    if s != [] {
      assert s == [] + [':'] + s[1..];
      SplitOnJoin([], ':', s[1..]);
      AllEmptyPieces(s[1..]);
    }
  }

  lemma {:induction false} AllEmptyDropped(parts: seq<string>)
    requires forall j :: 0 <= j < |parts| ==> parts[j] == ""
    ensures DropTrailingEmpty(parts) == []
    decreases |parts|
  {
    if parts != [] {
      AllEmptyDropped(parts[..|parts| - 1]);
    }
  }

  // ------------------------------------------------------------ round trip

  /**
   * `format(format(n)) == n` for every non-negative `int` `n`, above the
   * 99-hour cap too, because the seconds field then takes the excess.
   */
  lemma FormatParseRoundTrip(n: int32)
    requires n >= 0
    ensures TimeParseable(FormatTime(n)) && ParseTime(FormatTime(n)) == n
  {
    var h, m, s := FormatTimeFields(n);
    UnitFormatDigits(h);
    UnitFormatDigits(m);
    UnitFormatDigits(s);
    ParseTimeThreeFields(UnitFormat(h), UnitFormat(m), UnitFormat(s), "");
    assert UnitFormat(h) + ":" + UnitFormat(m) + ":" + UnitFormat(s) + "" == FormatTime(n);
  }

  /** A negative input renders with a minus sign inside the seconds field (which `int` parsing rejects). */
  lemma FormatTimeNegative()
    ensures FormatTime(-5) == "00:00:0-5"
  {
    assert IntToString(-5) == "-5";
  }
}
