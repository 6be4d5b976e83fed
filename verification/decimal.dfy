/** Decimal text: the `%d` conversion used to build the request path and the
    `atol` parse behind Arduino's `String::toInt`. */
module Decimal {

  predicate IsDigit(c: char)
  {
    '0' <= c <= '9'
  }

  predicate AllDigits(s: string)
  {
    forall i :: 0 <= i < |s| ==> IsDigit(s[i])
  }

  /** The whitespace characters C's `isspace` accepts in the "C" locale. */
  predicate IsSpace(c: char)
  {
    c == ' ' || c == '\t' || c == '\n' || c == '\U{B}' || c == '\U{C}' || c == '\r'
  }

  function DigitValue(c: char): (d: nat)
    requires IsDigit(c)
    ensures d < 10
  {
    (c as int) - ('0' as int)
  }

  function DigitChar(d: nat): (c: char)
    requires d < 10
    ensures IsDigit(c) && DigitValue(c) == d
  {
    (('0' as int) + d) as char
  }

  /** Value of a string of decimal digits, most significant first. */
  function DigitsValue(s: string): nat
    requires AllDigits(s)
  {
    if |s| == 0 then 0 else DigitsValue(s[..|s| - 1]) * 10 + DigitValue(s[|s| - 1])
  }

  /** `%d` of a non-negative value: shortest digit string, no leading zero. */
  function FormatNat(n: nat): (s: string)
    ensures |s| >= 1 && AllDigits(s)
    ensures |s| > 1 ==> s[0] != '0'
    ensures DigitsValue(s) == n
    decreases n
  {
    if n < 10 then [DigitChar(n)]
    else
      var high := FormatNat(n / 10);
      var s := high + [DigitChar(n % 10)];
      assert s[..|s| - 1] == high;
      s
  }

  /** The number of decimal digits of `n`. */
  function Width(n: nat): (w: nat)
    ensures w >= 1
    decreases n
  {
    if n < 10 then 1 else 1 + Width(n / 10)
  }

  /** `%d` writes exactly as many characters as the value has digits. */
  lemma {:induction false} FormatNatWidth(n: nat)
    ensures |FormatNat(n)| == Width(n)
    decreases n
  {
    if n >= 10 {
      FormatNatWidth(n / 10);
    }
  }

  /** `%d` of any integer: a minus sign before the magnitude when negative. */
  function FormatInt(n: int): (s: string)
    ensures |s| >= 1
    ensures forall i :: 0 <= i < |s| ==> IsDigit(s[i]) || s[i] == '-'
    ensures n < 0 <==> s[0] == '-'
    ensures n < 0 ==> AllDigits(s[1..])
    ensures n >= 0 ==> AllDigits(s)
  {
    if n < 0 then "-" + FormatNat(-n) else FormatNat(n)
  }

  /** Drops the leading whitespace `atol` skips. */
  function SkipSpace(s: string): (t: string)
    ensures |t| <= |s|
    ensures t == [] || !IsSpace(t[0])
  {
    if |s| > 0 && IsSpace(s[0]) then SkipSpace(s[1..]) else s
  }

  /** What `SkipSpace` drops is whitespace, and what it keeps is a suffix. */
  lemma {:induction false} SkipSpaceSuffix(s: string)
    ensures var t := SkipSpace(s);
            && t == s[|s| - |t|..]
            && forall i :: 0 <= i < |s| - |t| ==> IsSpace(s[i])
    decreases |s|
  {
    if |s| > 0 && IsSpace(s[0]) {
      SkipSpaceSuffix(s[1..]);
    }
  }

  /** The longest prefix of decimal digits. */
  function LeadingDigits(s: string): (d: string)
    ensures AllDigits(d)
  {
    if |s| > 0 && IsDigit(s[0]) then [s[0]] + LeadingDigits(s[1..]) else []
  }

  /** `LeadingDigits` keeps a prefix and stops only at a non-digit or at the end. */
  lemma {:induction false} LeadingDigitsPrefix(s: string)
    ensures var d := LeadingDigits(s);
            && |d| <= |s| && d == s[..|d|]
            && (|d| == |s| || !IsDigit(s[|d|]))
    decreases |s|
  {
    if |s| > 0 && IsDigit(s[0]) {
      var rest := LeadingDigits(s[1..]);
      LeadingDigitsPrefix(s[1..]);
      assert s[..1 + |rest|] == [s[0]] + s[1..][..|rest|];
    }
  }

  /** The value `atol` reads before any range limit: skip whitespace, take
      one optional sign, then as many digits as follow; no digits gives 0. */
  function AtoL(s: string): int
  {
    var t := SkipSpace(s);
    if |t| > 0 && t[0] == '-' then -(DigitsValue(LeadingDigits(t[1..])) as int)
    else if |t| > 0 && t[0] == '+' then DigitsValue(LeadingDigits(t[1..]))
    else DigitsValue(LeadingDigits(t))
  }

  /** Range of the target's 32-bit `long`. */
  const LongMin: int := -0x8000_0000
  const LongMax: int := 0x7FFF_FFFF

  /** `strtol`'s overflow rule: a value outside `long` becomes the nearest
      bound. */
  function SaturateLong(n: int): (r: int)
    ensures LongMin <= r <= LongMax
    ensures LongMin <= n <= LongMax ==> r == n
    ensures n > LongMax ==> r == LongMax
    ensures n < LongMin ==> r == LongMin
  {
    if n > LongMax then LongMax else if n < LongMin then LongMin else n
  }

  /** `String::toInt` on the target: `atol`, which is `strtol` in base 10,
      so a value too large for `long` saturates. */
  function ToInt(s: string): (n: int)
    ensures LongMin <= n <= LongMax
    ensures LongMin <= AtoL(s) <= LongMax ==> n == AtoL(s)
    ensures AtoL(s) > LongMax ==> n == LongMax
    ensures AtoL(s) < LongMin ==> n == LongMin
  {
    SaturateLong(AtoL(s))
  }

  /** Text with no digit after the optional whitespace and sign reads as 0. */
  lemma AtoLWithoutDigits(s: string)
    requires var t := SkipSpace(s);
             if |t| > 0 && (t[0] == '-' || t[0] == '+') then |t| == 1 || !IsDigit(t[1])
             else |t| == 0 || !IsDigit(t[0])
    ensures AtoL(s) == 0
  {
  }

  /** Text without any digit reads as 0. */
  lemma AtoLNoDigits(s: string)
    requires forall i :: 0 <= i < |s| ==> !IsDigit(s[i])
    ensures AtoL(s) == 0
  {
    var t := SkipSpace(s);
    SkipSpaceSuffix(s);
    if |t| > 0 {
      assert t[0] == s[|s| - |t|];
    }
    if |t| > 1 {
      assert t[1] == s[|s| - |t| + 1];
    }
    AtoLWithoutDigits(s);
  }

  /** The digits read from a digit string are all of it, whatever non-digit
      text follows. */
  lemma {:induction false} LeadingDigitsOfDigits(s: string, rest: string)
    requires AllDigits(s)
    requires rest == [] || !IsDigit(rest[0])
    ensures LeadingDigits(s + rest) == s
    decreases |s|
  {
    if |s| > 0 {
      assert (s + rest)[0] == s[0];
      assert (s + rest)[1..] == s[1..] + rest;
      LeadingDigitsOfDigits(s[1..], rest);
    } else {
      assert s + rest == rest;
    }
  }

  /** `atol` reads back what `%d` wrote, whatever non-digit text follows. */
  lemma {:induction false} AtoLFormatInt(n: int, rest: string)
    requires rest == [] || !IsDigit(rest[0])
    ensures AtoL(FormatInt(n) + rest) == n
  {
    var s := FormatInt(n) + rest;
    assert SkipSpace(s) == s;
    if n < 0 {
      assert s[1..] == FormatNat(-n) + rest;
      LeadingDigitsOfDigits(FormatNat(-n), rest);
    } else {
      LeadingDigitsOfDigits(FormatNat(n), rest);
    }
  }

  lemma AtoLFormatIntExact(n: int)
    ensures AtoL(FormatInt(n)) == n
  {
    AtoLFormatInt(n, []);
    assert FormatInt(n) + [] == FormatInt(n);
  }

  /** `toInt` inverts `%d` on every value of the target's `int`. */
  lemma ToIntFormatInt(n: int)
    requires LongMin <= n <= LongMax
    ensures ToInt(FormatInt(n)) == n
  {
    AtoLFormatIntExact(n);
  }

  /** `%d` is injective: distinct integers print differently. */
  lemma FormatIntInjective(a: int, b: int)
    ensures FormatInt(a) == FormatInt(b) <==> a == b
  {
    AtoLFormatIntExact(a);
    AtoLFormatIntExact(b);
  }
}
