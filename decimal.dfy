/** Decimal numerals: the formatting JavaScript does for `${n}` and for moment's zero-padded
    date fields, and `parseInt` read as a decimal-prefix parser (NaN is `None`). */
module Decimal {
  import opened Wrappers

  predicate IsDigit(c: char) { '0' <= c <= '9' }

  function DigitChar(d: nat): (c: char)
    requires d < 10
    ensures IsDigit(c) && c as int - '0' as int == d
  {
    ('0' as int + d) as char
  }

  function DigitOf(c: char): (d: nat)
    requires IsDigit(c)
    ensures d < 10 && DigitChar(d) == c
  {
    c as int - '0' as int
  }

  function Pow10(w: nat): (p: nat)
    ensures p >= 1
  {
    if w == 0 then 1 else 10 * Pow10(w - 1)
  }

  /** The number a string of digits denotes (most significant digit first). */
  function Value(s: string): nat
    requires forall i :: 0 <= i < |s| ==> IsDigit(s[i])
  {
    if s == [] then 0 else 10 * Value(s[..|s| - 1]) + DigitOf(s[|s| - 1])
  }

  /** `String(n)` for a natural number: the shortest decimal numeral. */
  function Format(n: nat): (s: string)
    ensures |s| >= 1
    ensures forall i :: 0 <= i < |s| ==> IsDigit(s[i])
    ensures |s| > 1 ==> s[0] != '0'
  {
    if n < 10 then [DigitChar(n)] else Format(n / 10) + [DigitChar(n % 10)]
  }

  /** `String(i)` for an integer: a minus sign before negative numbers. */
  function FormatInt(i: int): (s: string)
    ensures |s| >= 1
  {
    if i < 0 then "-" + Format(-i) else Format(i)
  }

  /** The last `w` decimal digits of `n`, zero-padded: moment's `YYYY` (w = 4) and `MM`/`DD` (w = 2). */
  function Fixed(n: nat, w: nat): (s: string)
    ensures |s| == w
    ensures forall i :: 0 <= i < |s| ==> IsDigit(s[i])
  {
    if w == 0 then [] else Fixed(n / 10, w - 1) + [DigitChar(n % 10)]
  }

  lemma {:induction false} ValueOfFormat(n: nat)
    ensures Value(Format(n)) == n
  {
    if n >= 10 {
      var s := Format(n);
      assert s[..|s| - 1] == Format(n / 10);
      ValueOfFormat(n / 10);
    }
  }

  /** A zero-padded numeral that is wide enough reads back as the number. */
  lemma {:induction false} ValueOfFixed(n: nat, w: nat)
    requires n < Pow10(w)
    ensures Value(Fixed(n, w)) == n
  {
    if w > 0 {
      var s := Fixed(n, w);
      assert s[..|s| - 1] == Fixed(n / 10, w - 1);
      assert n / 10 < Pow10(w - 1);
      ValueOfFixed(n / 10, w - 1);
    }
  }

  /** Distinct numbers below 10^w have distinct zero-padded numerals. */
  lemma FixedInjective(m: nat, n: nat, w: nat)
    requires m < Pow10(w) && n < Pow10(w) && m != n
    ensures Fixed(m, w) != Fixed(n, w)
  {
    ValueOfFixed(m, w);
    ValueOfFixed(n, w);
  }

  /** The characters ECMAScript's `parseInt` skips before the numeral (white space and line terminators). */
  predicate IsJsSpace(c: char) {
    c == ' ' || c == '\t' || c == '\n' || c == '\r' || c == '\U{B}' || c == '\U{C}'
    || c == '\U{A0}' || c == '\U{1680}' || ('\U{2000}' <= c <= '\U{200A}')
    || c == '\U{2028}' || c == '\U{2029}' || c == '\U{202F}' || c == '\U{205F}'
    || c == '\U{3000}' || c == '\U{FEFF}'
  }

  /** `s` without its leading white space. */
  function TrimStart(s: string): (r: string)
    ensures |r| <= |s| && r == s[|s| - |r|..]
    ensures r == [] || !IsJsSpace(r[0])
    ensures s != [] && !IsJsSpace(s[0]) ==> r == s
  {
    if s != [] && IsJsSpace(s[0]) then TrimStart(s[1..]) else s
  }

  /** The length of the run of digits at the start of `s`. */
  function DigitRun(s: string): (n: nat)
    ensures n <= |s|
    ensures forall i :: 0 <= i < n ==> IsDigit(s[i])
    ensures n < |s| ==> !IsDigit(s[n])
  {
    if s == [] || !IsDigit(s[0]) then 0 else 1 + DigitRun(s[1..])
  }

  /** The number the leading digits of `s` denote, `None` when `s` does not start with a digit. */
  function LeadingNumber(s: string): (r: Option<nat>)
    ensures r.None? <==> (s == [] || !IsDigit(s[0]))
  {
    var n := DigitRun(s);
    if n == 0 then None else Some(Value(s[..n]))
  }

  /** `parseInt(s)` with radix 10: skip white space, read an optional sign, then the longest run of
      digits; `None` (NaN) when there is none. */
  function ParseInt(s: string): Option<int>
  {
    SignedNumber(TrimStart(s))
  }

  /** An optional sign followed by the leading digits. */
  function SignedNumber(t: string): Option<int>
  {
    if t != [] && (t[0] == '-' || t[0] == '+') then
      match LeadingNumber(t[1..])
      case None => None
      case Some(v) => Some(if t[0] == '-' then 0 - v as int else v)
    else
      match LeadingNumber(t)
      case None => None
      case Some(v) => Some(v)
  }

  /** A numeral followed by anything that is not a digit parses as its number. */
  lemma LeadingNumberOfFormat(n: nat, rest: string)
    requires rest == [] || !IsDigit(rest[0])
    ensures LeadingNumber(Format(n) + rest) == Some(n)
  {
    var f := Format(n);
    var s := f + rest;
    DigitRunOfDigitsThen(f, rest);
    assert s[..|f|] == f;
    ValueOfFormat(n);
  }

  lemma {:induction false} DigitRunOfDigitsThen(f: string, rest: string)
    requires forall i :: 0 <= i < |f| ==> IsDigit(f[i])
    requires rest == [] || !IsDigit(rest[0])
    ensures DigitRun(f + rest) == |f|
  {
    if f != [] {
      assert (f + rest)[1..] == f[1..] + rest;
      DigitRunOfDigitsThen(f[1..], rest);
    }
  }

  /** `parseInt(String(i) + rest)` is `i` whenever `rest` does not continue the numeral. */
  lemma ParseIntOfFormatInt(i: int, rest: string)
    requires rest == [] || !IsDigit(rest[0])
    ensures ParseInt(FormatInt(i) + rest) == Some(i)
  {
    var s := FormatInt(i) + rest;
    FormatIntStart(i, rest);
    TrimStartKeeps(s);
    SignedNumberOfFormatInt(i, rest);
  }

  lemma FormatIntStart(i: int, rest: string)
    ensures var s := FormatInt(i) + rest;
            s != [] && (s[0] == '-' || IsDigit(s[0])) && !IsJsSpace(s[0])
  {
    var s := FormatInt(i) + rest;
    if i < 0 {
      assert s[0] == '-';
    } else {
      assert s[0] == Format(i)[0];
    }
  }

  lemma SignedNumberOfFormatInt(i: int, rest: string)
    requires rest == [] || !IsDigit(rest[0])
    ensures SignedNumber(FormatInt(i) + rest) == Some(i)
  {
    if i < 0 {
      var tail := Format(-i) + rest;
      assert FormatInt(i) + rest == ['-'] + tail;
      LeadingNumberOfFormat(-i, rest);
      NegativeNumber(tail, -i);
    } else {
      LeadingNumberOfFormat(i, rest);
      UnsignedNumber(Format(i) + rest, i);
    }
  }

  lemma UnsignedNumber(t: string, n: nat)
    requires LeadingNumber(t) == Some(n)
    ensures SignedNumber(t) == Some(n)
  {
  }

  lemma NegativeNumber(t: string, n: nat)
    requires LeadingNumber(t) == Some(n)
    ensures SignedNumber(['-'] + t) == Some(0 - n as int)
  {
    assert (['-'] + t)[1..] == t;
  }

  lemma TrimStartKeeps(s: string)
    requires s != [] && !IsJsSpace(s[0])
    ensures TrimStart(s) == s
  {
  }

  /** A string with no digit in it parses as NaN. */
  lemma ParseIntWithoutDigits(s: string)
    requires forall i :: 0 <= i < |s| ==> !IsDigit(s[i])
    ensures ParseInt(s) == None
  {
    var t := TrimStart(s);
    assert forall i :: 0 <= i < |t| ==> t[i] == s[|s| - |t| + i];
  }
}
