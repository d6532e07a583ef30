/**
 * The few pieces of JavaScript's string semantics the dashboard relies on:
 * `String(n)` for an integer, `parseInt(s, 10)`, `String.prototype.trim`,
 * `name.split(' ')[0]`, and `startsWith` (Dafny's prefix relation `p <= s`).
 * Strings are sequences of characters.
 */
module JsText {
  import opened Options

  /** The WhiteSpace and LineTerminator code points of ECMAScript, the set that
      `trim` removes and `parseInt` skips before the number. */
  predicate IsWhite(c: char) {
    c in WhiteChars || '\U{2000}' <= c <= '\U{200A}'
  }

  const WhiteChars: set<char> :=
    {'\t', '\n', '\U{000B}', '\U{000C}', '\r', ' ', '\U{00A0}', '\U{1680}',
     '\U{2028}', '\U{2029}', '\U{202F}', '\U{205F}', '\U{3000}', '\U{FEFF}'}

  predicate AllWhite(s: string) {
    forall i :: 0 <= i < |s| ==> IsWhite(s[i])
  }

  predicate IsDigit(c: char) {
    '0' <= c <= '9'
  }

  predicate AllDigits(s: string) {
    forall i :: 0 <= i < |s| ==> IsDigit(s[i])
  }

  function DigitValue(c: char): (d: nat)
    requires IsDigit(c)
    ensures d < 10
  {
    (c as int) - ('0' as int)
  }

  function DigitChar(d: nat): (c: char)
    requires d < 10
    ensures IsDigit(c) && DigitValue(c) == d
  {
    ('0' as int + d) as char
  }

  /** The value of a run of decimal digits, most significant first. */
  function DigitsValue(s: string): nat
    requires AllDigits(s)
  {
    if s == [] then 0 else DigitsValue(s[..|s| - 1]) * 10 + DigitValue(s[|s| - 1])
  }

  /** `String(n)` for a non-negative integer: its decimal digits, no leading zero. */
  function NatToString(n: nat): string
  {
    if n < 10 then [DigitChar(n)] else NatToString(n / 10) + [DigitChar(n % 10)]
  }

  /** `String(n)` for any integer (JavaScript switches to exponent notation
      only beyond 10^21, far above any timestamp or count here). */
  function IntToString(n: int): (r: string)
    ensures |r| > 0 && (r[0] == '-' <==> n < 0)
  {
    NatToStringDigits(if n < 0 then -n else n);
    if n < 0 then "-" + NatToString(-n) else NatToString(n)
  }

  /** The longest prefix of decimal digits. */
  function LeadingDigits(s: string): (r: string)
    ensures r <= s && AllDigits(r)
    ensures |r| < |s| ==> !IsDigit(s[|r|])
  {
    if s == [] || !IsDigit(s[0]) then [] else [s[0]] + LeadingDigits(s[1..])
  }

  /** The number of white-space characters at the front of `s`. */
  function LeadingWhite(s: string): (n: nat)
    ensures n <= |s| && AllWhite(s[..n])
    ensures n < |s| ==> !IsWhite(s[n])
  {
    if s != [] && IsWhite(s[0]) then
      var n := 1 + LeadingWhite(s[1..]);
      assert s[..n] == [s[0]] + s[1..][..n - 1];
      n
    else 0
  }

  /** Where the content of `s` ends: the start of the white-space run at its back,
      not moving below `lo`. */
  function ContentEnd(s: string, lo: nat): (m: nat)
    requires lo <= |s|
    ensures lo <= m <= |s| && AllWhite(s[m..])
    ensures m > lo ==> !IsWhite(s[m - 1])
  {
    if |s| > lo && IsWhite(s[|s| - 1]) then
      var m := ContentEnd(s[..|s| - 1], lo);
      WhiteSnoc(s, m);
      m
    else |s|
  }

  /** A white run before a white last character extends to the end. */
  lemma WhiteSnoc(s: string, m: nat)
    requires m < |s| && AllWhite(s[..|s| - 1][m..]) && IsWhite(s[|s| - 1])
    ensures AllWhite(s[m..])
  {
    forall i | m <= i < |s|
      ensures IsWhite(s[i])
    {
      if i < |s| - 1 {
        assert s[i] == s[..|s| - 1][m..][i - m];
      }
    }
  }

  /** `s` without its leading white space, as `parseInt` skips it. */
  function TrimStart(s: string): string {
    s[LeadingWhite(s)..]
  }

  /** `s.trim()`: the slice of `s` left once white space is removed at both ends. */
  function Trim(s: string): (r: string)
    ensures var a := LeadingWhite(s); var b := ContentEnd(s, a);
            r == s[a..b] && AllWhite(s[..a]) && AllWhite(s[b..])
    ensures r == [] || (!IsWhite(r[0]) && !IsWhite(r[|r| - 1]))
  {
    var a := LeadingWhite(s);
    var b := ContentEnd(s, a);
    s[a..b]
  }

  /** `parseInt(s, 10)`: skip leading white space, take an optional sign, then the
      longest run of digits; `None` stands for NaN (no digit at all). */
  function ParseInt(s: string): (r: Option<int>)
    ensures r.None? <==> LeadingDigits(SignedBody(TrimStart(s))) == []
  {
    var t := TrimStart(s);
    var ds := LeadingDigits(SignedBody(t));
    if ds == [] then None
    else if |t| > 0 && t[0] == '-' then Some(0 - DigitsValue(ds))
    else Some(DigitsValue(ds))
  }

  /** What follows an optional leading sign. */
  function SignedBody(t: string): string
  {
    if |t| > 0 && (t[0] == '-' || t[0] == '+') then t[1..] else t
  }

  /** `s.split(' ')[0]`: everything before the first space character. */
  function FirstWord(s: string): (r: string)
    ensures r <= s && ' ' !in r
    ensures |r| < |s| ==> s[|r|] == ' '
  {
    if s == [] || s[0] == ' ' then [] else [s[0]] + FirstWord(s[1..])
  }

  // ----- lemmas -----

  /** `String(n)` is a non-empty run of digits whose value is `n`. */
  lemma {:induction false} NatToStringDigits(n: nat)
    ensures |NatToString(n)| > 0 && AllDigits(NatToString(n))
    ensures DigitsValue(NatToString(n)) == n
  {
    if n >= 10 {
      NatToStringDigits(n / 10);
      var s := NatToString(n);
      assert s[..|s| - 1] == NatToString(n / 10);
    }
  }

  /** The digit run of a string of digits followed by a non-digit is those digits. */
  lemma {:induction false} LeadingDigitsStop(s: string, rest: string)
    requires AllDigits(s) && (rest == [] || !IsDigit(rest[0]))
    ensures LeadingDigits(s + rest) == s
  {
    if s != [] {
      LeadingDigitsStop(s[1..], rest);
      assert (s + rest)[1..] == s[1..] + rest;
    }
  }

  /** Writing a number with `String` and reading it back with `parseInt` gives
      the number back: the watermark round trip. */
  lemma ParseIntRoundTrip(n: int)
    ensures ParseInt(IntToString(n)) == Some(n)
  {
    ParseIntLeading(n, []);
    assert IntToString(n) + [] == IntToString(n);
  }

  /** `parseInt` stops at the first non-digit: a number followed by a unit letter or
      other text reads back as the number. */
  lemma ParseIntLeading(n: int, rest: string)
    requires rest == [] || !IsDigit(rest[0])
    ensures ParseInt(IntToString(n) + rest) == Some(n)
  {
    if n < 0 {
      MinusConcat(n, rest);
      ParseNegative(-n, rest);
    } else {
      ParseNonNegative(n, rest);
    }
  }

  /** A negative number written before `rest` is a minus sign before the digits and `rest`. */
  lemma MinusConcat(n: int, rest: string)
    requires n < 0
    ensures IntToString(n) + rest == "-" + (NatToString(-n) + rest)
  {
  }

  /** `parseInt` of a written natural number followed by a text that does not start
      with a digit is that number. */
  lemma ParseNonNegative(n: nat, rest: string)
    requires rest == [] || !IsDigit(rest[0])
    ensures ParseInt(NatToString(n) + rest) == Some(n)
  {
    var digits := NatToString(n);
    var s := digits + rest;
    NatToStringDigits(n);
    assert LeadingDigits(s) == digits by {
      LeadingDigitsStop(digits, rest);
    }
    assert IsDigit(s[0]) && TrimStart(s) == s && SignedBody(s) == s by {
      assert s[0] == digits[0];
      NoWhiteStart(s);
    }
  }

  /** The same after a minus sign: the number is negated. */
  lemma ParseNegative(n: nat, rest: string)
    requires rest == [] || !IsDigit(rest[0])
    ensures ParseInt("-" + (NatToString(n) + rest)) == Some(0 - n)
  {
    var digits := NatToString(n);
    var body := digits + rest;
    var s := "-" + body;
    NatToStringDigits(n);
    assert LeadingDigits(body) == digits by {
      LeadingDigitsStop(digits, rest);
    }
    assert TrimStart(s) == s && SignedBody(s) == body by {
      NoWhiteStart(s);
      assert s[1..] == body;
    }
  }

  lemma NoWhiteStart(s: string)
    requires |s| > 0 && (s[0] == '-' || IsDigit(s[0]))
    ensures TrimStart(s) == s
  {
    assert !IsWhite(s[0]);
    assert LeadingWhite(s) == 0;
  }

  /** Trimming twice is trimming once. */
  lemma TrimIdempotent(s: string)
    ensures Trim(Trim(s)) == Trim(s)
  {
    var r := Trim(s);
    assert LeadingWhite(r) == 0;
    assert ContentEnd(r, 0) == |r|;
    assert r[0..|r|] == r;
  }
}
