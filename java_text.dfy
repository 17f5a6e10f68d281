/**
 * The pieces of Java's `String` and `int` behaviour that the modelled classes
 * rely on: decimal rendering (`Integer.toString`), decimal parsing
 * (`Integer.valueOf`), 32-bit wrap-around, `indexOf`, `lastIndexOf`,
 * `split` on a one-character separator and ASCII `equalsIgnoreCase`.
 */
module JavaText {

  datatype Option<T> = None | Some(value: T)

  const INT_MIN: int := -0x8000_0000
  const INT_MAX: int := 0x7fff_ffff

  /** The values of a Java `int`. */
  type int32 = x: int | INT_MIN <= x <= INT_MAX

  function Min(a: int, b: int): int { if a <= b then a else b }

  /** Java `int` arithmetic: the result is taken modulo 2^32 into the signed range. */
  function WrapInt32(x: int): (r: int32)
    ensures INT_MIN <= x <= INT_MAX ==> r == x
  {
    (x - INT_MIN) % 0x1_0000_0000 + INT_MIN
  }

  // ---------------------------------------------------------------- digits

  predicate IsDigit(c: char) { '0' <= c <= '9' }

  predicate AllDigits(s: string) { forall i :: 0 <= i < |s| ==> IsDigit(s[i]) }

  /** A non-empty string of ASCII decimal digits. */
  predicate IsDigits(s: string) { |s| > 0 && AllDigits(s) }

  function DigitChar(d: nat): (c: char)
    requires d < 10
    ensures IsDigit(c) && c as int - '0' as int == d
  {
    (d + '0' as int) as char
  }

  /** The value of a digit string read in base ten (the empty string reads as 0). */
  function DigitsValue(s: string): nat
    requires AllDigits(s)
    decreases |s|
  {
    if s == [] then 0 else 10 * DigitsValue(s[..|s| - 1]) + (s[|s| - 1] as int - '0' as int)
  }

  /** `Integer.toString(n)` for a non-negative `n`: no sign, no leading zero. */
  function NatToString(n: nat): (s: string)
    ensures IsDigits(s)
    ensures |s| == 1 <==> n < 10
    ensures s[0] != '0' || n == 0
  {
    if n < 10 then [DigitChar(n)] else NatToString(n / 10) + [DigitChar(n % 10)]
  }

  lemma {:induction false} NatToStringValue(n: nat)
    ensures DigitsValue(NatToString(n)) == n
  {
    if n >= 10 {
      NatToStringValue(n / 10);
      var s := NatToString(n);
      assert s[..|s| - 1] == NatToString(n / 10);
    }
  }

  /** A leading zero does not change the value of a digit string. */
  lemma {:induction false} LeadingZeroValue(s: string)
    requires AllDigits(s)
    ensures AllDigits("0" + s) && DigitsValue("0" + s) == DigitsValue(s)
  {
    if s != [] {
      LeadingZeroValue(s[..|s| - 1]);
      assert ("0" + s)[..|s|] == "0" + s[..|s| - 1];
    }
  }

  /** `Integer.toString(x)`: a minus sign before the digits of a negative number. */
  function IntToString(x: int): (s: string)
    ensures x >= 0 ==> IsDigits(s)
  {
    if x < 0 then "-" + NatToString(-x) else NatToString(x)
  }

  /** Two decimal digits, the first one possibly zero. */
  function TwoDigits(x: nat): (s: string)
    requires x < 100
    ensures IsDigits(s) && |s| == 2
  {
    [DigitChar(x / 10), DigitChar(x % 10)]
  }

  // ------------------------------------------------------- Integer.valueOf

  /** The digits of a decimal literal, after at most one leading sign. */
  function Unsigned(s: string): string
  {
    if |s| > 0 && (s[0] == '-' || s[0] == '+') then s[1..] else s
  }

  function JavaIntValue(s: string): int
    requires IsDigits(Unsigned(s))
  {
    if s[0] == '-' then 0 - DigitsValue(s[1..]) as int else DigitsValue(Unsigned(s))
  }

  /**
   * The strings `Integer.valueOf` accepts: an optional sign, at least one
   * ASCII digit, and a value that fits an `int`. On any other string it
   * throws `NumberFormatException`.
   */
  predicate IsJavaIntLiteral(s: string)
  {
    IsDigits(Unsigned(s)) && INT_MIN <= JavaIntValue(s) <= INT_MAX
  }

  /** `Integer.valueOf(Integer.toString(x)) == x` for every `int`. */
  lemma IntToStringValue(x: int32)
    ensures IsJavaIntLiteral(IntToString(x)) && JavaIntValue(IntToString(x)) == x
  {
    if x < 0 {
      var m: nat := 0 - (x as int);
      NatToStringValue(m);
      assert Unsigned(IntToString(x)) == NatToString(m);
    } else {
      NatToStringValue(x);
    }
  }

  /** A digit string, possibly zero-padded, reads back as its value. */
  lemma PaddedDigitsValue(s: string)
    requires IsDigits(s)
    ensures IsDigits("0" + s) && Unsigned("0" + s) == "0" + s
    ensures IsDigits(Unsigned(s)) && JavaIntValue("0" + s) == JavaIntValue(s) == DigitsValue(s)
  {
    LeadingZeroValue(s);
  }

  // ------------------------------------------------------ searching a string

  /** `s.indexOf(c)`: the first position of `c`, or -1. */
  function IndexOf(s: string, c: char): (r: int)
    ensures -1 <= r < |s|
    ensures r == -1 <==> c !in s
    ensures r >= 0 ==> s[r] == c && c !in s[..r]
  {
    if s == [] then -1
    else if s[0] == c then 0
    else
      var k := IndexOf(s[1..], c);
      assert s == [s[0]] + s[1..];
      if k < 0 then -1
      else
        assert s[..k + 1] == [s[0]] + s[1..][..k];
        k + 1
  }

  /** `s.lastIndexOf(c)`: the last position of `c`, or -1. */
  function LastIndexOf(s: string, c: char): (r: int)
    ensures -1 <= r < |s|
    ensures r == -1 <==> c !in s
    ensures r >= 0 ==> s[r] == c && c !in s[r + 1..]
  {
    if s == [] then -1
    else if s[|s| - 1] == c then |s| - 1
    else
      var k := LastIndexOf(s[..|s| - 1], c);
      assert s == s[..|s| - 1] + [s[|s| - 1]];
      if k >= 0 then
        assert s[k + 1..] == s[..|s| - 1][k + 1..] + [s[|s| - 1]];
        k
      else -1
  }

  /** The first occurrence of `c` in `a + [c] + rest` is the one after `a`. */
  lemma IndexOfAfterPrefix(a: string, c: char, rest: string)
    requires c !in a
    ensures IndexOf(a + [c] + rest, c) == |a|
  {
    var s := a + [c] + rest;
    assert s[|a|] == c;
  }

  // ------------------------------------------------------------ String.split

  /** Every piece of `s` between occurrences of `c`, empty pieces included. */
  function SplitOn(s: string, c: char): (parts: seq<string>)
    ensures |parts| >= 1
    decreases |s|
  {
    var i := IndexOf(s, c);
    if i < 0 then [s] else [s[..i]] + SplitOn(s[i + 1..], c)
  }

  function DropTrailingEmpty(parts: seq<string>): seq<string>
  {
    if parts == [] then []
    else if parts[|parts| - 1] == "" then DropTrailingEmpty(parts[..|parts| - 1])
    else parts
  }

  /**
   * `s.split(c)` for a separator that is not a regular-expression
   * metacharacter: a string without the separator is returned whole (even
   * when it is empty); otherwise the pieces, with trailing empty pieces
   * removed.
   */
  function JavaSplit(s: string, c: char): seq<string>
  {
    if c !in s then [s] else DropTrailingEmpty(SplitOn(s, c))
  }

  lemma SplitOnNoSeparator(a: string, c: char)
    requires c !in a
    ensures SplitOn(a, c) == [a]
  {
  }

  lemma SplitOnJoin(a: string, c: char, rest: string)
    requires c !in a
    ensures SplitOn(a + [c] + rest, c) == [a] + SplitOn(rest, c)
  {
    var s := a + [c] + rest;
    IndexOfAfterPrefix(a, c, rest);
    assert s[..|a|] == a;
    assert s[|a| + 1..] == rest;
  }

  /** Pieces after a non-empty piece do not affect the pieces before it. */
  lemma {:induction false} DropTrailingEmptyAppend(p: seq<string>, q: seq<string>)
    requires p != [] && p[|p| - 1] != ""
    ensures DropTrailingEmpty(p + q) == p + DropTrailingEmpty(q)
    decreases |q|
  {
    if q == [] {
      assert p + q == p;
    } else if q[|q| - 1] == "" {
      assert (p + q)[..|p + q| - 1] == p + q[..|q| - 1];
      DropTrailingEmptyAppend(p, q[..|q| - 1]);
    } else {
      assert (p + q)[|p + q| - 1] == q[|q| - 1];
    }
  }

  // ------------------------------------------------------ equalsIgnoreCase

  function ToLowerAscii(c: char): char
  {
    if 'A' <= c <= 'Z' then (c as int + 32) as char else c
  }

  /** `a.equalsIgnoreCase(b)` on ASCII text: same length, letters compared without case. */
  predicate EqualsIgnoreCase(a: string, b: string)
  {
    |a| == |b| && forall i :: 0 <= i < |a| ==> ToLowerAscii(a[i]) == ToLowerAscii(b[i])
  }

  lemma EqualsIgnoreCaseIsEquivalence(a: string, b: string, c: string)
    ensures EqualsIgnoreCase(a, a)
    ensures EqualsIgnoreCase(a, b) ==> EqualsIgnoreCase(b, a)
    ensures EqualsIgnoreCase(a, b) && EqualsIgnoreCase(b, c) ==> EqualsIgnoreCase(a, c)
  {
  }
}
