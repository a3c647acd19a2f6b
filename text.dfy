/** The JavaScript string operations the list views and forms rely on:
    `String.prototype.trim`, `toLowerCase`, `includes`, `Number.prototype.toString`
    on integers, and `parseInt` in base 10. */
module Text {
  import opened Wrappers

  // ---------------------------------------------------------------------------
  // Whitespace and trim

  /** ECMAScript WhiteSpace and LineTerminator code points (what `trim` and `parseInt` skip). */
  predicate IsWhitespace(c: char)
  {
    c == ' ' || c == '\t' || c == '\n' || c == '\r' || c == '\U{000B}' || c == '\U{000C}'
    || c == '\U{00A0}' || c == '\U{1680}' || ('\U{2000}' <= c <= '\U{200A}')
    || c == '\U{2028}' || c == '\U{2029}' || c == '\U{202F}' || c == '\U{205F}'
    || c == '\U{3000}' || c == '\U{FEFF}'
  }

  /** `s` without its leading whitespace. */
  function TrimStart(s: string): (r: string)
    ensures |r| <= |s| && r == s[|s| - |r|..]
    ensures r == [] || !IsWhitespace(r[0])
    ensures forall i :: 0 <= i < |s| - |r| ==> IsWhitespace(s[i])
  {
    if s == [] || !IsWhitespace(s[0]) then s else TrimStart(s[1..])
  }

  /** `s` without its trailing whitespace. */
  function TrimEnd(s: string): (r: string)
    ensures |r| <= |s| && r == s[..|r|]
    ensures r == [] || !IsWhitespace(r[|r| - 1])
    ensures forall i :: |r| <= i < |s| ==> IsWhitespace(s[i])
  {
    if s == [] || !IsWhitespace(s[|s| - 1]) then s else TrimEnd(s[..|s| - 1])
  }

  /** `String.prototype.trim`. */
  function Trim(s: string): string
  {
    TrimEnd(TrimStart(s))
  }

  /** A string trims to the empty string (is falsy after `trim()`) exactly when every
      character of it is whitespace. */
  lemma TrimEmptyIffBlank(s: string)
    ensures Trim(s) == [] <==> forall i :: 0 <= i < |s| ==> IsWhitespace(s[i])
  {
    var t := TrimStart(s);
    if Trim(s) == [] {
      // TrimEnd dropped all of t, so t is blank; but t does not start with whitespace.
      assert t == [];
    }
  }

  // ---------------------------------------------------------------------------
  // Lower-casing and substring search

  /** `toLowerCase` on one character, for the ASCII letters. */
  function LowerChar(c: char): (r: char)
    ensures 'A' <= c <= 'Z' ==> r as int == c as int + 32
    ensures !('A' <= c <= 'Z') ==> r == c
  {
    if 'A' <= c <= 'Z' then (c as int + 32) as char else c
  }

  /** `String.prototype.toLowerCase`, character by character. */
  function ToLower(s: string): (r: string)
    ensures |r| == |s|
    ensures forall i :: 0 <= i < |s| ==> r[i] == LowerChar(s[i])
  {
    seq(|s|, i requires 0 <= i < |s| => LowerChar(s[i]))
  }

  /** Lower-casing is idempotent. */
  lemma ToLowerIdempotent(s: string)
    ensures ToLower(ToLower(s)) == ToLower(s)
  {
    var t := ToLower(s);
    forall i | 0 <= i < |t| ensures ToLower(t)[i] == t[i] {
      assert LowerChar(LowerChar(s[i])) == LowerChar(s[i]);
    }
  }

  /** Lower-casing commutes with taking a slice. */
  lemma ToLowerSlice(s: string, i: nat, j: nat)
    requires i <= j <= |s|
    ensures ToLower(s)[i..j] == ToLower(s[i..j])
  {
    var a, b := ToLower(s)[i..j], ToLower(s[i..j]);
    forall k | 0 <= k < |a| ensures a[k] == b[k] {
      assert a[k] == ToLower(s)[i + k] && s[i..j][k] == s[i + k];
    }
  }

  /** `needle` occurs in `hay` starting at position `i`. */
  predicate OccursAt(hay: string, needle: string, i: int)
  {
    0 <= i && i + |needle| <= |hay| && hay[i..i + |needle|] == needle
  }

  /** `hay.includes(needle)`: `needle` occurs in `hay` as a contiguous block. */
  predicate Includes(hay: string, needle: string)
  {
    exists i | 0 <= i <= |hay| - |needle| :: OccursAt(hay, needle, i)
  }

  /** The empty search string matches everything, and every string matches itself. */
  lemma IncludesEmptyAndSelf(hay: string)
    ensures Includes(hay, [])
    ensures Includes(hay, hay)
  {
    assert OccursAt(hay, [], 0);
    assert OccursAt(hay, hay, 0);
  }

  /** Every contiguous piece of a string is found in it. */
  lemma IncludesSlice(hay: string, i: nat, j: nat)
    requires i <= j <= |hay|
    ensures Includes(hay, hay[i..j])
  {
    assert OccursAt(hay, hay[i..j], i);
  }

  /** A case-sensitive match is also a case-insensitive match. */
  lemma IncludesToLower(hay: string, needle: string)
    requires Includes(hay, needle)
    ensures Includes(ToLower(hay), ToLower(needle))
  {
    var i :| 0 <= i <= |hay| - |needle| && OccursAt(hay, needle, i);
    ToLowerSlice(hay, i, i + |needle|);
    assert OccursAt(ToLower(hay), ToLower(needle), i);
  }

  // ---------------------------------------------------------------------------
  // Integers as decimal strings

  predicate IsDigit(c: char)
  {
    '0' <= c <= '9'
  }

  function DigitChar(d: nat): (c: char)
    requires d < 10
    ensures IsDigit(c) && c as int - '0' as int == d
  {
    ('0' as int + d) as char
  }

  /** The decimal digits of `n`, most significant first, without leading zeros. */
  function NatToDecimal(n: nat): (r: string)
    ensures |r| > 0
    ensures forall i :: 0 <= i < |r| ==> IsDigit(r[i])
  {
    if n < 10 then [DigitChar(n)] else NatToDecimal(n / 10) + [DigitChar(n % 10)]
  }

  /** `n.toString()` for an integral JavaScript number. */
  function IntToDecimal(n: int): (r: string)
    ensures |r| > 0 && (r[0] == '-' || IsDigit(r[0]))
    decreases if n < 0 then 1 else 0
  {
    if n < 0 then "-" + IntToDecimal(-n) else NatToDecimal(n)
  }

  /** The value of a string of decimal digits. */
  function DigitsValue(d: string): (v: nat)
    requires forall i :: 0 <= i < |d| ==> IsDigit(d[i])
  {
    if d == [] then 0
    else
      assert IsDigit(d[|d| - 1]);
      DigitsValue(d[..|d| - 1]) * 10 + (d[|d| - 1] as int - '0' as int)
  }

  /** The longest prefix of `s` made of decimal digits. */
  function LeadingDigits(s: string): (d: string)
    ensures |d| <= |s| && d == s[..|d|]
    ensures forall i :: 0 <= i < |d| ==> IsDigit(d[i])
    ensures |d| == |s| || !IsDigit(s[|d|])
  {
    if s == [] || !IsDigit(s[0]) then [] else [s[0]] + LeadingDigits(s[1..])
  }

  /** `parseInt(s)` for strings without a `0x` prefix: skip leading whitespace, read an
      optional sign and then as many decimal digits as there are; `None` stands for `NaN`
      (no digit at all). Whatever follows the digits is ignored. */
  function ParseInt(s: string): (r: Option<int>)
    ensures r.None? <==> LeadingDigits(SignedPart(TrimStart(s)).1) == []
  {
    var (sign, rest) := SignedPart(TrimStart(s));
    var digits := LeadingDigits(rest);
    if digits == [] then None else Some(sign * DigitsValue(digits))
  }

  /** Splits off an optional leading sign character. */
  function SignedPart(t: string): (int, string)
  {
    if t != [] && t[0] == '-' then (-1, t[1..])
    else if t != [] && t[0] == '+' then (1, t[1..])
    else (1, t)
  }

  lemma {:induction false} NatToDecimalValue(n: nat)
    ensures DigitsValue(NatToDecimal(n)) == n
  {
    if n >= 10 {
      var d := NatToDecimal(n);
      NatToDecimalValue(n / 10);
      assert d[..|d| - 1] == NatToDecimal(n / 10);
    }
  }

  lemma {:induction false} LeadingDigitsOfDigits(s: string)
    requires forall i :: 0 <= i < |s| ==> IsDigit(s[i])
    ensures LeadingDigits(s) == s
  {
    if s != [] {
      LeadingDigitsOfDigits(s[1..]);
    }
  }

  /** The leading digits stop where the digits of `d` are followed by a non-digit. */
  lemma {:induction false} LeadingDigitsThen(d: string, rest: string)
    requires forall i :: 0 <= i < |d| ==> IsDigit(d[i])
    requires rest == [] || !IsDigit(rest[0])
    ensures LeadingDigits(d + rest) == d
  {
    if d != [] {
      assert (d + rest)[1..] == d[1..] + rest;
      LeadingDigitsThen(d[1..], rest);
    }
  }

  /** Leading whitespace is skipped: it does not change the result of `parseInt`. */
  lemma {:induction false} ParseIntSkipsWhitespace(w: string, s: string)
    requires forall i :: 0 <= i < |w| ==> IsWhitespace(w[i])
    ensures ParseInt(w + s) == ParseInt(s)
  {
    TrimStartWhitespace(w, s);
  }

  lemma {:induction false} TrimStartWhitespace(w: string, s: string)
    requires forall i :: 0 <= i < |w| ==> IsWhitespace(w[i])
    ensures TrimStart(w + s) == TrimStart(s)
  {
    if w == [] {
      assert w + s == s;
    } else {
      assert (w + s)[0] == w[0];
      assert (w + s)[1..] == w[1..] + s;
      TrimStartWhitespace(w[1..], s);
    }
  }

  /** Digits followed by anything that does not start with a digit parse to the digits'
      value: `parseInt("3abc")` is 3. */
  lemma ParseIntIgnoresSuffix(d: string, rest: string)
    requires |d| > 0 && forall i :: 0 <= i < |d| ==> IsDigit(d[i])
    requires rest == [] || !IsDigit(rest[0])
    ensures ParseInt(d + rest) == Some(DigitsValue(d))
  {
    assert (d + rest)[0] == d[0];
    LeadingDigitsThen(d, rest);
    ParseIntLeadingDigits(d + rest, d);
  }

  lemma ParseIntLeadingDigits(t: string, d: string)
    requires |t| > 0 && IsDigit(t[0]) && LeadingDigits(t) == d
    ensures forall i :: 0 <= i < |d| ==> IsDigit(d[i])
    ensures ParseInt(t) == Some(DigitsValue(d))
  {
    TrimStartSignOrDigit(t);
    assert SignedPart(t) == (1, t);
    ParseIntParts(t, 1, d);
  }

  /** A string that starts with a sign or a digit has no leading whitespace to skip. */
  lemma TrimStartSignOrDigit(t: string)
    requires |t| > 0 && (t[0] == '-' || IsDigit(t[0]))
    ensures TrimStart(t) == t
  {
    assert !IsWhitespace(t[0]);
  }

  /** `parseInt` of a non-empty digit string. */
  lemma ParseIntDigits(d: string)
    requires |d| > 0 && forall i :: 0 <= i < |d| ==> IsDigit(d[i])
    ensures ParseInt(d) == Some(DigitsValue(d))
  {
    TrimStartSignOrDigit(d);
    assert SignedPart(d) == (1, d);
    LeadingDigitsOfDigits(d);
  }

  lemma ParseIntNegatedDigits(t: string)
    requires |t| > 1 && t[0] == '-'
    requires forall i :: 1 <= i < |t| ==> IsDigit(t[i])
    ensures forall i :: 0 <= i < |t[1..]| ==> IsDigit(t[1..][i])
    ensures ParseInt(t) == Some(-(DigitsValue(t[1..]) as int))
  {
    var d := t[1..];
    forall i | 0 <= i < |d| ensures IsDigit(d[i]) { assert d[i] == t[i + 1]; }
    TrimStartSignOrDigit(t);
    SignedMinus(t);
    LeadingDigitsOfDigits(d);
    ParseIntParts(t, -1, d);
  }

  lemma SignedMinus(t: string)
    requires |t| > 0 && t[0] == '-'
    ensures SignedPart(t) == (-1, t[1..])
  {
  }

  lemma ParseIntParts(s: string, sign: int, digits: string)
    requires SignedPart(TrimStart(s)).0 == sign
    requires LeadingDigits(SignedPart(TrimStart(s)).1) == digits
    requires digits != []
    ensures forall i :: 0 <= i < |digits| ==> IsDigit(digits[i])
    ensures ParseInt(s) == Some(sign * DigitsValue(digits))
  {
  }

  /** Reading back the decimal string of any integer gives that integer. */
  lemma ParseIntDecimal(n: int)
    ensures ParseInt(IntToDecimal(n)) == Some(n)
  {
    if n < 0 {
      ParseIntNegativeDecimal(n);
    } else {
      ParseIntDigits(NatToDecimal(n));
      NatToDecimalValue(n);
    }
  }

  lemma ParseIntNegativeDecimal(n: int)
    requires n < 0
    ensures ParseInt(IntToDecimal(n)) == Some(n)
  {
    NegativeDecimalParts(n);
    ParseIntMinusDecimal(IntToDecimal(n), -n);
  }

  /** A minus sign followed by the decimal form of `m` parses to `-m`. */
  lemma ParseIntMinusDecimal(t: string, m: nat)
    requires |t| > 1 && t[0] == '-' && t[1..] == NatToDecimal(m)
    requires forall i :: 1 <= i < |t| ==> IsDigit(t[i])
    ensures ParseInt(t) == Some(-(m as int))
  {
    ParseIntNegatedDigits(t);
    NatToDecimalValue(m);
  }

  lemma NegativeDecimalParts(n: int)
    requires n < 0
    ensures var t := IntToDecimal(n);
      |t| > 1 && t[0] == '-' && t[1..] == NatToDecimal(-n) && forall i :: 1 <= i < |t| ==> IsDigit(t[i])
  {
    var t := IntToDecimal(n);
    var d := NatToDecimal(-n);
    assert IntToDecimal(-n) == d;
    assert t == "-" + d;
    forall i | 1 <= i < |t| ensures IsDigit(t[i]) { assert t[i] == d[i - 1]; }
  }

  /** Different integers have different decimal strings. */
  lemma IntToDecimalInjective(a: int, b: int)
    requires IntToDecimal(a) == IntToDecimal(b)
    ensures a == b
  {
    ParseIntDecimal(a);
    ParseIntDecimal(b);
  }
}
