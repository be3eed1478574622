/** The string primitives of the JavaScript runtime that the program relies on:
    decimal formatting of a number in a template literal, `toLowerCase`, the `\s`
    character class, `trim`, `parseInt(_, 10)` and `parseFloat`. Only the ASCII
    range is modelled. */
module Text {
  import opened Wrappers

  /** The ASCII members of the `\s` class and of `trim`'s whitespace:
      space, tab, line feed, vertical tab, form feed, carriage return. */
  predicate IsWhitespace(c: char) {
    c == ' ' || (9 <= c as int <= 13)
  }

  predicate IsDigit(c: char) {
    '0' <= c <= '9'
  }

  predicate IsUpper(c: char) {
    'A' <= c <= 'Z'
  }

  function ToLower(c: char): (r: char)
    ensures !IsUpper(r)
    ensures IsWhitespace(r) <==> IsWhitespace(c)
    ensures !IsUpper(c) ==> r == c
    ensures IsUpper(c) ==> r as int == c as int + 32
  {
    if IsUpper(c) then (c as int + 32) as char else c
  }

  function DigitChar(d: nat): (c: char)
    requires d < 10
    ensures IsDigit(c) && DigitValue(c) == d
  {
    (48 + d) as char
  }

  function DigitValue(c: char): (d: nat)
    requires IsDigit(c)
    ensures d < 10
  {
    c as int - 48
  }

  // ---------------------------------------------------------------------------
  // Decimal formatting of a non-negative integer (`${n}`)
  // ---------------------------------------------------------------------------

  /** The decimal text of `n`, most significant digit first, no leading zeros. */
  function NatToString(n: nat): (s: string)
    ensures |s| >= 1
    ensures forall i :: 0 <= i < |s| ==> IsDigit(s[i])
    ensures n < 10 <==> |s| == 1
    ensures DigitsValue(s) == n
    ensures |s| == 1 || s[0] != '0'
    decreases n
  {
    if n < 10 then [DigitChar(n)]
    else
      var prefix := NatToString(n / 10);
      DigitsValueSnoc(prefix, DigitChar(n % 10));
      assert |prefix| == 1 ==> DigitsValue(prefix) == DigitValue(prefix[0]) by {
        if |prefix| == 1 { assert prefix[..0] == []; }
      }
      prefix + [DigitChar(n % 10)]
  }

  /** The number a run of decimal digits denotes. */
  function DigitsValue(s: string): nat
    requires forall i :: 0 <= i < |s| ==> IsDigit(s[i])
  {
    if s == [] then 0 else 10 * DigitsValue(s[..|s| - 1]) + DigitValue(s[|s| - 1])
  }

  lemma DigitsValueSnoc(s: string, c: char)
    requires forall i :: 0 <= i < |s| ==> IsDigit(s[i])
    requires IsDigit(c)
    ensures DigitsValue(s + [c]) == 10 * DigitsValue(s) + DigitValue(c)
  {
    assert (s + [c])[..|s + [c]| - 1] == s;
  }

  /** Distinct numbers have distinct decimal texts. */
  lemma NatToStringInjective(a: nat, b: nat)
    requires NatToString(a) == NatToString(b)
    ensures a == b
  {
    // NatToString's contract gives DigitsValue(NatToString(n)) == n.
  }

  // ---------------------------------------------------------------------------
  // trim
  // ---------------------------------------------------------------------------

  /** The number of leading whitespace characters of `s`. */
  function LeadingWhitespace(s: string): (n: nat)
    ensures n <= |s|
    ensures forall i :: 0 <= i < n ==> IsWhitespace(s[i])
    ensures n < |s| ==> !IsWhitespace(s[n])
  {
    if s == [] || !IsWhitespace(s[0]) then 0 else 1 + LeadingWhitespace(s[1..])
  }

  /** The number of trailing whitespace characters of `s`. */
  function TrailingWhitespace(s: string): (n: nat)
    ensures n <= |s|
    ensures forall i :: |s| - n <= i < |s| ==> IsWhitespace(s[i])
    ensures n < |s| ==> !IsWhitespace(s[|s| - 1 - n])
  {
    if s == [] || !IsWhitespace(s[|s| - 1]) then 0 else 1 + TrailingWhitespace(s[..|s| - 1])
  }

  /** `s.trim()`: `s` without its leading and trailing whitespace. */
  function Trim(s: string): (r: string)
    ensures LeadingWhitespace(s) + |r| <= |s|
    ensures r == [] || (!IsWhitespace(r[0]) && !IsWhitespace(r[|r| - 1]))
    ensures r == s[LeadingWhitespace(s)..LeadingWhitespace(s) + |r|]
    ensures forall i :: LeadingWhitespace(s) + |r| <= i < |s| ==> IsWhitespace(s[i])
  {
    var rest := s[LeadingWhitespace(s)..];
    rest[..|rest| - TrailingWhitespace(rest)]
  }

  /** `trim` yields the empty string exactly when `s` has nothing but whitespace. */
  lemma TrimEmptyIff(s: string)
    ensures Trim(s) == [] <==> forall i :: 0 <= i < |s| ==> IsWhitespace(s[i])
  {
    var a := LeadingWhitespace(s);
    var rest := s[a..];
    assert a < |s| ==> |rest| > 0 && !IsWhitespace(rest[0]);
    assert a < |s| ==> TrailingWhitespace(rest) < |rest|;
  }

  /** Trimming twice is trimming once. */
  lemma TrimIdempotent(s: string)
    ensures Trim(Trim(s)) == Trim(s)
  {
    var t := Trim(s);
    assert LeadingWhitespace(t) == 0;
    assert TrailingWhitespace(t) == 0;
    assert t[0..] == t;
  }

  // ---------------------------------------------------------------------------
  // parseInt(s, 10) and parseFloat(s)
  // ---------------------------------------------------------------------------

  /** The length of the run of decimal digits that starts `s`. */
  function LeadingDigits(s: string): (n: nat)
    ensures n <= |s|
    ensures forall i :: 0 <= i < n ==> IsDigit(s[i])
    ensures n < |s| ==> !IsDigit(s[n])
  {
    if s == [] || !IsDigit(s[0]) then 0 else 1 + LeadingDigits(s[1..])
  }

  /** The sign that may follow the leading whitespace: its length (0 or 1) and its factor. */
  function SignLength(s: string): (n: nat)
    ensures n <= 1 && n <= |s|
  {
    if |s| > 0 && (s[0] == '+' || s[0] == '-') then 1 else 0
  }

  function SignFactor(s: string): int {
    if |s| > 0 && s[0] == '-' then -1 else 1
  }

  /** `parseInt(s, 10)`: skip leading whitespace, read an optional sign and the longest
      run of decimal digits; `None` (NaN) when that run is empty. Anything after the
      digits is ignored. */
  function ParseInt(s: string): (r: Option<int>)
    ensures r.Some? <==>
      var t := s[LeadingWhitespace(s)..];
      SignLength(t) < |t| && IsDigit(t[SignLength(t)])
  {
    var t := s[LeadingWhitespace(s)..];
    var u := t[SignLength(t)..];
    var k := LeadingDigits(u);
    if k == 0 then None else Some(SignFactor(t) * DigitsValue(u[..k]))
  }

  /** `parseFloat(s)` for plain decimal notation: skip leading whitespace, read an optional
      sign, then digits, optionally a point and more digits; at least one digit must be
      present on either side of the point, otherwise the result is `None` (NaN). */
  function ParseFloat(s: string): (r: Option<real>)
    ensures r.Some? <==>
      var t := s[LeadingWhitespace(s)..];
      var u := t[SignLength(t)..];
      LeadingDigits(u) > 0 ||
      (|u| >= 2 && u[0] == '.' && IsDigit(u[1]))
  {
    var t := s[LeadingWhitespace(s)..];
    var u := t[SignLength(t)..];
    var k := LeadingDigits(u);
    var f := FractionDigits(u, k);
    if k == 0 && f == [] then None
    else Some(SignFactor(t) as real * (DigitsValue(u[..k]) as real + FractionValue(f)))
  }

  /** The digits after a point that follows the first `k` characters of `u` (none without
      a point). */
  function FractionDigits(u: string, k: nat): (f: string)
    requires k <= |u|
    ensures forall i :: 0 <= i < |f| ==> IsDigit(f[i])
    ensures k == 0 ==> (f != [] <==> |u| >= 2 && u[0] == '.' && IsDigit(u[1]))
  {
    if k < |u| && u[k] == '.' then
      var v := u[k + 1..];
      assert |v| > 0 ==> v[0] == u[k + 1];
      v[..LeadingDigits(v)]
    else []
  }

  /** The value of the digits after the point: `0.d1d2…`. */
  function FractionValue(f: string): real
    requires forall i :: 0 <= i < |f| ==> IsDigit(f[i])
  {
    if f == [] then 0.0 else DigitsValue(f) as real / Pow10(|f|) as real
  }

  /** The decimal text of a number, with an optional `-` in front and followed by
      anything that is not a digit, parses back to that number. */
  lemma {:induction false} ParseIntOfDecimal(n: nat, negative: bool, rest: string)
    requires rest == [] || !IsDigit(rest[0])
    ensures ParseInt((if negative then "-" else "") + NatToString(n) + rest) ==
            Some(if negative then -(n as int) else n)
  {
    var digits := NatToString(n);
    var s := (if negative then "-" else "") + digits + rest;
    assert LeadingWhitespace(s) == 0 by {
      assert !IsWhitespace(s[0]) by {
        if !negative { assert s[0] == digits[0]; }
      }
    }
    assert s[0..] == s;
    var u := s[SignLength(s)..];
    assert u == digits + rest;
    DecimalDigitsLead(digits, rest);
    assert u[..|digits|] == digits;
  }

  /** The same for `parseFloat` when no point follows the digits. */
  lemma {:induction false} ParseFloatOfDecimal(n: nat, rest: string)
    requires rest == [] || (!IsDigit(rest[0]) && rest[0] != '.')
    ensures ParseFloat(NatToString(n) + rest) == Some(n as real)
  {
    var digits := NatToString(n);
    var s := digits + rest;
    assert s[0] == digits[0];
    assert s[0..] == s;
    DecimalDigitsLead(digits, rest);
    assert s[..|digits|] == digits;
  }

  /** Digits, a point and more digits: `parseFloat` adds the fraction scaled down by its
      number of digits. */
  lemma {:induction false} ParseFloatOfParts(whole: string, frac: string)
    requires |whole| > 0 && forall i :: 0 <= i < |whole| ==> IsDigit(whole[i])
    requires forall i :: 0 <= i < |frac| ==> IsDigit(frac[i])
    ensures ParseFloat(whole + "." + frac) == Some(DigitsValue(whole) as real + FractionValue(frac))
  {
    var s := whole + "." + frac;
    assert LeadingWhitespace(s) == 0 && SignLength(s) == 0 && SignFactor(s) == 1 by {
      assert s[0] == whole[0];
    }
    assert s[0..][0..] == s;
    assert LeadingDigits(s) == |whole| by {
      DecimalDigitsLead(whole, "." + frac);
      assert s == whole + ("." + frac);
    }
    assert s[..|whole|] == whole;
    assert FractionDigits(s, |whole|) == frac by {
      assert s[|whole|] == '.';
      assert s[|whole| + 1..] == frac;
      DecimalDigitsLead(frac, []);
      assert frac + [] == frac;
      assert frac[..|frac|] == frac;
    }
  }

  /** For instance `parseFloat` of `n.k` for one digit k is n + k/10. */
  lemma {:induction false} ParseFloatTenths(n: nat, k: nat)
    requires k < 10
    ensures ParseFloat(NatToString(n) + "." + [DigitChar(k)]) == Some(n as real + k as real / 10.0)
  {
    var frac := [DigitChar(k)];
    ParseFloatOfParts(NatToString(n), frac);
    assert DigitsValue(frac) == k by {
      assert frac[..0] == [];
    }
    assert Pow10(1) == 10;
  }

  /** A run of digits is as long as it is before anything that does not start with one. */
  lemma {:induction false} DecimalDigitsLead(digits: string, rest: string)
    requires forall i :: 0 <= i < |digits| ==> IsDigit(digits[i])
    requires rest == [] || !IsDigit(rest[0])
    ensures LeadingDigits(digits + rest) == |digits|
  {
    if digits != [] {
      assert (digits + rest)[1..] == digits[1..] + rest;
      DecimalDigitsLead(digits[1..], rest);
    } else {
      assert digits + rest == rest;
    }
  }

  function Pow10(n: nat): (p: nat)
    ensures p >= 1
  {
    if n == 0 then 1 else 10 * Pow10(n - 1)
  }
}
