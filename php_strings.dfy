/**
 * The parts of PHP's string semantics that the gateway's code relies on:
 * `empty`, `is_numeric`, loose `==` between strings (as used by `switch`),
 * `strtoupper`/`strtolower`, `strpos`-based containment, `str_replace`,
 * `substr($s, 0, $n)` and decimal formatting (`%d`, `%+d`).
 *
 * Strings are sequences of characters; one character stands for one byte,
 * which is what PHP's byte-oriented string functions see for ASCII text.
 */
module PhpStrings {

  datatype Option<+T> = None | Some(value: T)

  // ---------------------------------------------------------------------------
  // Case mapping (ASCII only: strtoupper, strtolower and PCRE's /i in byte mode)
  // ---------------------------------------------------------------------------

  function LowerChar(c: char): char
  {
    if 'A' <= c <= 'Z' then (c as int + 32) as char else c
  }

  function UpperChar(c: char): char
  {
    if 'a' <= c <= 'z' then (c as int - 32) as char else c
  }

  function ToUpper(s: string): (r: string)
    ensures |r| == |s|
    ensures forall i :: 0 <= i < |s| ==> r[i] == UpperChar(s[i])
  {
    if s == [] then [] else [UpperChar(s[0])] + ToUpper(s[1..])
  }

  function ToLower(s: string): (r: string)
    ensures |r| == |s|
    ensures forall i :: 0 <= i < |s| ==> r[i] == LowerChar(s[i])
  {
    if s == [] then [] else [LowerChar(s[0])] + ToLower(s[1..])
  }

  /** Equality of two strings of the same length up to ASCII case. */
  predicate EqualsIgnoreCase(a: string, b: string)
  {
    |a| == |b| && forall i :: 0 <= i < |a| ==> LowerChar(a[i]) == LowerChar(b[i])
  }

  // ---------------------------------------------------------------------------
  // empty() and truthiness of strings
  // ---------------------------------------------------------------------------

  /** PHP's `empty($s)` for a string: true for "" and for "0". */
  predicate PhpEmpty(s: string)
  {
    s == "" || s == "0"
  }

  // ---------------------------------------------------------------------------
  // Substrings and replacement
  // ---------------------------------------------------------------------------

  predicate OccursAt(s: string, i: nat, needle: string)
  {
    i + |needle| <= |s| && s[i..i + |needle|] == needle
  }

  /** `false !== strpos($s, $needle)` */
  predicate Contains(s: string, needle: string)
  {
    exists i: nat :: i <= |s| && OccursAt(s, i, needle)
  }

  /** `str_replace($pat, $rep, $s)` for one non-empty search string: scans left to right, non-overlapping. */
  function ReplaceAll(s: string, pat: string, rep: string): string
    requires |pat| > 0
    decreases |s|
  {
    if |s| < |pat| then s
    else if s[..|pat|] == pat then rep + ReplaceAll(s[|pat|..], pat, rep)
    else [s[0]] + ReplaceAll(s[1..], pat, rep)
  }

  /** `substr($s, 0, $n)` for $n >= 0: the first $n bytes, or all of them. */
  function Truncate(s: string, n: nat): (r: string)
    ensures |r| <= n && |r| <= |s|
    ensures |s| <= n ==> r == s
    ensures |s| > n ==> |r| == n
    ensures r <= s
  {
    if |s| <= n then s else s[..n]
  }

  /** `implode($sep, $parts)` */
  function Join(sep: string, parts: seq<string>): string
  {
    if parts == [] then ""
    else if |parts| == 1 then parts[0]
    else parts[0] + sep + Join(sep, parts[1..])
  }

  /** Appending one more part to an implode. */
  lemma {:induction false} JoinSnoc(sep: string, parts: seq<string>, x: string)
    requires |parts| >= 1
    ensures Join(sep, parts + [x]) == Join(sep, parts) + sep + x
  {
    if |parts| == 1 {
      assert parts + [x] == [parts[0], x];
    } else {
      assert (parts + [x])[1..] == parts[1..] + [x];
      JoinSnoc(sep, parts[1..], x);
    }
  }

  predicate NoChar(s: string, c: char)
  {
    forall i :: 0 <= i < |s| ==> s[i] != c
  }

  /** `explode($c, $s)` for a one-character separator. */
  function Split(s: string, c: char): (r: seq<string>)
    ensures |r| >= 1
    decreases |s|
  {
    if s == [] then [""]
    else
      var rest := Split(s[1..], c);
      if s[0] == c then [""] + rest else [[s[0]] + rest[0]] + rest[1..]
  }

  lemma {:induction false} SplitNoSeparator(p: string, c: char)
    requires NoChar(p, c)
    ensures Split(p, c) == [p]
    decreases |p|
  {
    if p != [] {
      SplitNoSeparator(p[1..], c);
      assert [p[0]] + p[1..] == p;
    }
  }

  lemma {:induction false} SplitPrefix(p: string, c: char, t: string)
    requires NoChar(p, c)
    ensures Split(p + [c] + t, c) == [p] + Split(t, c)
    decreases |p|
  {
    if p == [] {
      assert p + [c] + t == [c] + t;
      assert ([c] + t)[1..] == t;
    } else {
      var s := p + [c] + t;
      assert s[0] == p[0];
      assert s[1..] == p[1..] + [c] + t;
      SplitPrefix(p[1..], c, t);
      assert [p[0]] + p[1..] == p;
    }
  }

  /** explode undoes implode when no part contains the separator. */
  lemma {:induction false} SplitJoin(parts: seq<string>, c: char)
    requires |parts| >= 1
    requires forall i :: 0 <= i < |parts| ==> NoChar(parts[i], c)
    ensures Split(Join([c], parts), c) == parts
  {
    if |parts| == 1 {
      SplitNoSeparator(parts[0], c);
    } else {
      SplitJoin(parts[1..], c);
      SplitPrefix(parts[0], c, Join([c], parts[1..]));
      assert parts == [parts[0]] + parts[1..];
    }
  }

  // ---------------------------------------------------------------------------
  // Decimal digits
  // ---------------------------------------------------------------------------

  predicate IsDigit(c: char)
  {
    '0' <= c <= '9'
  }

  predicate AllDigits(s: string)
  {
    forall i :: 0 <= i < |s| ==> IsDigit(s[i])
  }

  function DigitValue(c: char): nat
    requires IsDigit(c)
  {
    c as int - '0' as int
  }

  function DigitChar(d: nat): (c: char)
    requires d < 10
    ensures IsDigit(c) && DigitValue(c) == d
  {
    ('0' as int + d) as char
  }

  /** The value of a string of decimal digits, most significant first. */
  function DigitsValue(s: string): nat
    requires AllDigits(s)
  {
    if s == [] then 0 else DigitsValue(s[..|s| - 1]) * 10 + DigitValue(s[|s| - 1])
  }

  /** Canonical decimal rendering of a natural number (no leading zeros). */
  function NatToString(n: nat): (r: string)
    ensures |r| > 0 && AllDigits(r)
    ensures DigitsValue(r) == n
    ensures |r| > 1 ==> r[0] != '0'
  {
    if n < 10 then [DigitChar(n)]
    else
      var prefix := NatToString(n / 10);
      var r := prefix + [DigitChar(n % 10)];
      assert r[..|r| - 1] == prefix;
      r
  }

  /** `sprintf('%d', $n)` */
  function IntToString(n: int): string
  {
    if n < 0 then "-" + NatToString(-n) else NatToString(n)
  }

  /** `sprintf('%+d', $n)`: a sign is always printed, zero gets "+". */
  function SignedDecimal(n: int): string
  {
    if n < 0 then "-" + NatToString(-n) else "+" + NatToString(n)
  }

  /** Reads back what SignedDecimal prints: a sign followed by digits. */
  function ParseSignedDecimal(s: string): Option<int>
  {
    if |s| >= 2 && (s[0] == '+' || s[0] == '-') && AllDigits(s[1..]) then
      var v: int := DigitsValue(s[1..]);
      Some(if s[0] == '-' then -v else v)
    else None
  }

  /** %+d is injective: the signed rendering reads back to the number itself. */
  lemma SignedDecimalRoundTrip(n: int)
    ensures ParseSignedDecimal(SignedDecimal(n)) == Some(n)
    ensures SignedDecimal(n)[0] == (if n < 0 then '-' else '+')
  {
    var m: nat := if n < 0 then -n else n;
    var s := SignedDecimal(n);
    assert s[1..] == NatToString(m);
  }

  // ---------------------------------------------------------------------------
  // is_numeric (PHP 8) and the numeric value of a numeric string
  // ---------------------------------------------------------------------------

  /** The whitespace PHP allows around a numeric string: " \t\n\r\v\f". */
  predicate IsNumericWhitespace(c: char)
  {
    c == ' ' || c == '\t' || c == '\n' || c == '\r' || c == 11 as char || c == 12 as char
  }

  function TrimLeading(s: string): (r: string)
  {
    if s != [] && IsNumericWhitespace(s[0]) then TrimLeading(s[1..]) else s
  }

  function TrimTrailing(s: string): (r: string)
  {
    if s != [] && IsNumericWhitespace(s[|s| - 1]) then TrimTrailing(s[..|s| - 1]) else s
  }

  /** Number of leading decimal digits of s. */
  function LeadingDigits(s: string): (n: nat)
    ensures n <= |s|
  {
    if s != [] && IsDigit(s[0]) then 1 + LeadingDigits(s[1..]) else 0
  }

  /** The leading digits are digits, and whatever follows them is not. */
  lemma {:induction false} LeadingDigitsSpan(s: string)
    ensures AllDigits(s[..LeadingDigits(s)])
    ensures LeadingDigits(s) < |s| ==> !IsDigit(s[LeadingDigits(s)])
  {
    if s != [] && IsDigit(s[0]) {
      LeadingDigitsSpan(s[1..]);
      assert s[..LeadingDigits(s)] == [s[0]] + s[1..][..LeadingDigits(s[1..])];
    }
  }

  /** Trimming trailing whitespace keeps a prefix. */
  lemma {:induction false} TrimTrailingPrefix(s: string)
    ensures |TrimTrailing(s)| <= |s|
    ensures TrimTrailing(s) == s[..|TrimTrailing(s)|]
  {
    if s != [] && IsNumericWhitespace(s[|s| - 1]) {
      TrimTrailingPrefix(s[..|s| - 1]);
    }
  }

  /** A decimal number `(-1)^negative * mantissa * 10^exponent`. */
  datatype Decimal = Decimal(negative: bool, mantissa: nat, exponent: int)

  /** The exponent part after 'e'/'E': an optional sign and one or more digits. */
  function ParseExponent(s: string): Option<int>
  {
    var neg := s != [] && s[0] == '-';
    var t := if s != [] && (s[0] == '+' || s[0] == '-') then s[1..] else s;
    if t != [] && AllDigits(t) then Some(if neg then -(DigitsValue(t) as int) else DigitsValue(t)) else None
  }

  /** LNUM, DNUM and EXPONENT_DNUM of PHP's numeric-string grammar, without the sign. */
  function ParseUnsigned(u: string): Option<(nat, int)>
  {
    var d1 := LeadingDigits(u);
    var intPart := u[..d1];
    var rest := u[d1..];
    var hasDot := rest != [] && rest[0] == '.';
    var d2 := if hasDot then LeadingDigits(rest[1..]) else 0;
    var fracPart := if hasDot then rest[1..][..d2] else "";
    var tail := if hasDot then rest[1 + d2..] else rest;
    if d1 + d2 == 0 then None
    else
      LeadingDigitsSpan(u);
      LeadingDigitsSpan(if hasDot then rest[1..] else "");
      var mantissa := DigitsValue(intPart + fracPart);
      if tail == [] then Some((mantissa, -(d2 as int)))
      else if tail[0] == 'e' || tail[0] == 'E' then
        match ParseExponent(tail[1..])
        case Some(e) => Some((mantissa, e - d2))
        case None => None
      else None
  }

  /** The value of a PHP numeric string, or None when `is_numeric` is false. */
  function ParseNumber(s: string): Option<Decimal>
  {
    var b := TrimTrailing(TrimLeading(s));
    var negative := b != [] && b[0] == '-';
    var u := if b != [] && (b[0] == '+' || b[0] == '-') then b[1..] else b;
    match ParseUnsigned(u)
    case Some(p) => Some(Decimal(negative, p.0, p.1))
    case None => None
  }

  /** `is_numeric($s)` for a string (PHP 8: leading and trailing whitespace allowed). */
  predicate IsNumeric(s: string)
  {
    ParseNumber(s).Some?
  }

  function Pow10(n: nat): (r: nat)
    ensures r >= 1
  {
    if n == 0 then 1 else 10 * Pow10(n - 1)
  }

  /** The value of d as an integer multiple of 10^base (base must not exceed d's exponent). */
  function Scaled(d: Decimal, base: int): int
    requires base <= d.exponent
  {
    var m := d.mantissa * Pow10(d.exponent - base);
    if d.negative then -m else m
  }

  predicate SameValue(a: Decimal, b: Decimal)
  {
    var base := if a.exponent <= b.exponent then a.exponent else b.exponent;
    Scaled(a, base) == Scaled(b, base)
  }

  /**
   * PHP 8's `$a == $b` between two strings: when both are numeric strings they
   * are compared as numbers, otherwise byte for byte. This is what a `switch`
   * over string cases uses.
   */
  predicate LooseEquals(a: string, b: string)
  {
    a == b ||
    (ParseNumber(a).Some? && ParseNumber(b).Some? && SameValue(ParseNumber(a).value, ParseNumber(b).value))
  }

  /** A string of one or more digits is numeric and its value is its digits' value. */
  lemma DigitStringIsNumeric(s: string)
    requires |s| > 0 && AllDigits(s)
    ensures ParseNumber(s) == Some(Decimal(false, DigitsValue(s), 0))
  {
    TrimLeadingDigits(s);
    TrimTrailingDigits(s);
    assert LeadingDigits(s) == |s| by { LeadingDigitsAll(s); }
    assert s[..|s|] == s;
    assert s + "" == s;
  }

  lemma TrimLeadingDigits(s: string)
    requires |s| > 0 && AllDigits(s)
    ensures TrimLeading(s) == s
  {
  }

  lemma TrimTrailingDigits(s: string)
    requires |s| > 0 && AllDigits(s)
    ensures TrimTrailing(s) == s
  {
  }

  lemma {:induction false} LeadingDigitsAll(s: string)
    requires AllDigits(s)
    ensures LeadingDigits(s) == |s|
  {
    if s != [] {
      LeadingDigitsAll(s[1..]);
    }
  }

  /**
   * Between digit strings, PHP's loose equality is equality of the numbers
   * written: "00" == "0" holds although the strings differ.
   */
  lemma LooseEqualsDigits(a: string, b: string)
    requires |a| > 0 && AllDigits(a) && |b| > 0 && AllDigits(b)
    ensures LooseEquals(a, b) <==> DigitsValue(a) == DigitsValue(b)
  {
    DigitStringIsNumeric(a);
    DigitStringIsNumeric(b);
    if a == b { }
  }
}
