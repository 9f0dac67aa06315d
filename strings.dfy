/**
 * The Python string operations the dashboard relies on: `str.strip()`,
 * `str.upper()` / `str.lower()`, substring search, decimal digits and the
 * text-to-number parse behind `pd.to_numeric`.
 */
module Strings {
  import opened Wrappers

  // ---------------------------------------------------------------- whitespace

  /** Python's `str.isspace` for one character (the set `str.strip()` removes). */
  predicate IsSpace(c: char) {
    || '\t' <= c <= '\r'
    || '\U{1C}' <= c <= ' '
    || c == '\U{85}' || c == '\U{A0}' || c == '\U{1680}'
    || '\U{2000}' <= c <= '\U{200A}'
    || c == '\U{2028}' || c == '\U{2029}' || c == '\U{202F}' || c == '\U{205F}' || c == '\U{3000}'
  }

  /** Number of whitespace characters at the start of `s`. */
  function Leading(s: string): (n: nat)
    ensures n <= |s|
    ensures forall k :: 0 <= k < n ==> IsSpace(s[k])
    ensures n < |s| ==> !IsSpace(s[n])
  {
    if s == [] || !IsSpace(s[0]) then 0 else 1 + Leading(s[1..])
  }

  /** Number of whitespace characters at the end of `s`. */
  function Trailing(s: string): (n: nat)
    ensures n <= |s|
    ensures forall k :: |s| - n <= k < |s| ==> IsSpace(s[k])
    ensures n < |s| ==> !IsSpace(s[|s| - n - 1])
  {
    if s == [] || !IsSpace(s[|s| - 1]) then 0 else 1 + Trailing(s[..|s| - 1])
  }

  /** Python's `str.strip()` with no argument. */
  function Strip(s: string): string {
    var t := s[Leading(s)..];
    t[..|t| - Trailing(t)]
  }

  /** `r` is `s` with `i` whitespace characters removed in front and only whitespace behind. */
  predicate StrippedAt(s: string, r: string, i: nat) {
    && i + |r| <= |s| && s[i..i + |r|] == r
    && (forall k :: 0 <= k < i ==> IsSpace(s[k]))
    && (forall k :: i + |r| <= k < |s| ==> IsSpace(s[k]))
  }

  /**
   * `Strip(s)` is the piece of `s` left after removing a whitespace prefix and
   * a whitespace suffix, and it neither starts nor ends with whitespace.
   */
  lemma StripSpec(s: string)
    ensures Strip(s) == [] || (!IsSpace(Strip(s)[0]) && !IsSpace(Strip(s)[|Strip(s)| - 1]))
    ensures exists i: nat :: StrippedAt(s, Strip(s), i)
  {
    var i := Leading(s);
    var t := s[i..];
    var r := Strip(s);
    assert r == s[i..i + |r|];
    assert forall k :: i + |r| <= k < |s| ==> s[k] == t[k - i];
    assert StrippedAt(s, r, i);
  }

  /** Stripping twice is stripping once. */
  lemma StripIdempotent(s: string)
    ensures Strip(Strip(s)) == Strip(s)
  {
    var r := Strip(s);
    StripSpec(s);
    if r != [] {
      assert Leading(r) == 0;
      assert Trailing(r) == 0;
    }
  }

  // ---------------------------------------------------------------- letter case

  /**
   * Python's `str.upper()` for one character, for ASCII, Latin-1 and the
   * letters of the Vietnamese alphabet; other characters are unchanged.
   * Two Latin-1 letters leave Latin-1: 'µ' becomes Greek 'Μ' and 'ÿ' becomes 'Ÿ'.
   */
  function UpperChar(c: char): char {
    if 'a' <= c <= 'z' || ('\U{E0}' <= c <= '\U{FE}' && c != '\U{F7}') then
      (c as int - 32) as char
    else if c == '\U{B5}' then '\U{39C}'
    else if c == '\U{FF}' then '\U{178}'
    else if c == '\U{103}' || c == '\U{111}' || c == '\U{129}' || c == '\U{169}'
         || c == '\U{1A1}' || c == '\U{1B0}'
         || ('\U{1EA1}' <= c <= '\U{1EF9}' && (c as int) % 2 == 1) then
      (c as int - 1) as char
    else c
  }

  /**
   * Python's `str.lower()` for one character, over the same letters as `UpperChar`
   * ('Ÿ' becomes 'ÿ'; Greek 'Μ' is outside these letters and unchanged).
   */
  function LowerChar(c: char): char {
    if 'A' <= c <= 'Z' || ('\U{C0}' <= c <= '\U{DE}' && c != '\U{D7}') then
      (c as int + 32) as char
    else if c == '\U{178}' then '\U{FF}'
    else if c == '\U{102}' || c == '\U{110}' || c == '\U{128}' || c == '\U{168}'
         || c == '\U{1A0}' || c == '\U{1AF}'
         || ('\U{1EA0}' <= c <= '\U{1EF8}' && (c as int) % 2 == 0) then
      (c as int + 1) as char
    else c
  }

  function Upper(s: string): string {
    seq(|s|, i requires 0 <= i < |s| => UpperChar(s[i]))
  }

  function Lower(s: string): string {
    seq(|s|, i requires 0 <= i < |s| => LowerChar(s[i]))
  }

  // ---------------------------------------------------------------- substrings

  /** `needle` occurs in `hay` starting at position `i`. */
  predicate OccursAt(hay: string, needle: string, i: nat) {
    i + |needle| <= |hay| && hay[i..i + |needle|] == needle
  }

  /** Python's `needle in hay`. */
  predicate Contains(hay: string, needle: string)
    decreases |hay|
  {
    (|needle| <= |hay| && hay[..|needle|] == needle)
    || (hay != [] && Contains(hay[1..], needle))
  }

  /** `Contains` holds exactly when the needle occurs at some position. */
  lemma {:induction false} ContainsSpec(hay: string, needle: string)
    ensures Contains(hay, needle) <==> exists i: nat :: OccursAt(hay, needle, i)
    decreases |hay|
  {
    if Contains(hay, needle) {
      if |needle| <= |hay| && hay[..|needle|] == needle {
        assert OccursAt(hay, needle, 0);
      } else {
        ContainsSpec(hay[1..], needle);
        var i: nat :| OccursAt(hay[1..], needle, i);
        assert hay[i + 1..i + 1 + |needle|] == hay[1..][i..i + |needle|];
        assert OccursAt(hay, needle, i + 1);
      }
    }
    if i: nat :| OccursAt(hay, needle, i) {
      if i == 0 {
        assert hay[..|needle|] == needle;
      } else {
        assert hay[1..][i - 1..i - 1 + |needle|] == hay[i..i + |needle|];
        assert OccursAt(hay[1..], needle, i - 1);
        ContainsSpec(hay[1..], needle);
      }
    }
  }

  // ---------------------------------------------------------------- digits

  predicate IsDigit(c: char) {
    '0' <= c <= '9'
  }

  predicate AllDigits(s: string) {
    forall k :: 0 <= k < |s| ==> IsDigit(s[k])
  }

  function DigitChar(d: nat): (c: char)
    requires d < 10
    ensures IsDigit(c)
  {
    (d + 48) as char
  }

  function DigitValue(c: char): nat
    requires IsDigit(c)
  {
    c as int - 48
  }

  function Pow10(n: nat): (p: nat)
    ensures p >= 1
  {
    if n == 0 then 1 else 10 * Pow10(n - 1)
  }

  /** The number a string of decimal digits denotes (the empty string denotes 0). */
  function ValueOf(s: string): nat
    requires AllDigits(s)
  {
    if s == [] then 0 else 10 * ValueOf(s[..|s| - 1]) + DigitValue(s[|s| - 1])
  }

  /** The shortest decimal spelling of `n`, as Python's `str(n)` for `n >= 0`. */
  function Digits(n: nat): (r: string)
    ensures |r| > 0 && AllDigits(r)
    ensures n > 0 ==> r[0] != '0'
  {
    if n < 10 then [DigitChar(n)] else Digits(n / 10) + [DigitChar(n % 10)]
  }

  lemma {:induction false} ValueOfAppend(a: string, b: string)
    requires AllDigits(a) && AllDigits(b)
    ensures AllDigits(a + b)
    ensures ValueOf(a + b) == ValueOf(a) * Pow10(|b|) + ValueOf(b)
    decreases |b|
  {
    assert AllDigits(a + b);
    if b == [] {
      assert a + b == a;
    } else {
      var init := b[..|b| - 1];
      var d := DigitValue(b[|b| - 1]);
      assert (a + b)[..|a + b| - 1] == a + init;
      ValueOfAppend(a, init);
      var va, vi, p := ValueOf(a), ValueOf(init), Pow10(|init|);
      assert ValueOf(a + b) == 10 * (va * p + vi) + d;
      assert ValueOf(b) == 10 * vi + d;
      assert Pow10(|b|) == 10 * p;
      Distribute(va, p, vi, d);
    }
  }

  lemma Distribute(va: nat, p: nat, vi: nat, d: nat)
    ensures 10 * (va * p + vi) + d == va * (10 * p) + (10 * vi + d)
  {
  }

  /** Reading back the digits of `n` gives `n`. */
  lemma {:induction false} DigitsRoundTrip(n: nat)
    ensures ValueOf(Digits(n)) == n
    decreases n
  {
    if n >= 10 {
      DigitsRoundTrip(n / 10);
      var d := Digits(n);
      assert d[..|d| - 1] == Digits(n / 10);
    }
  }

  // ---------------------------------------------------------------- numbers

  /** Position of the first '.' in `s`, or `|s|` when there is none. */
  function DotIndex(s: string): (k: nat)
    ensures k <= |s|
    ensures k < |s| ==> s[k] == '.'
    ensures forall i :: 0 <= i < k ==> s[i] != '.'
  {
    if s == [] || s[0] == '.' then 0 else 1 + DotIndex(s[1..])
  }

  /** An unsigned decimal: digits, optionally one '.' and more digits, at least one digit. */
  function ParseUnsigned(s: string): Option<real> {
    var k := DotIndex(s);
    var whole := s[..k];
    var frac := if k < |s| then s[k + 1..] else [];
    if AllDigits(whole) && AllDigits(frac) && |whole| + |frac| > 0 then Some(Decimal(whole, frac))
    else None
  }

  /** The value of the decimal numeral `whole.frac`. */
  function Decimal(whole: string, frac: string): real
    requires AllDigits(whole) && AllDigits(frac)
  {
    ValueOf(whole) as real + ValueOf(frac) as real / Pow10(|frac|) as real
  }

  /**
   * The text-to-number parse of `pd.to_numeric`: an optional sign followed by
   * an unsigned decimal; `None` is the NaN that `errors='coerce'` produces.
   */
  function ParseDecimal(s: string): Option<real> {
    if |s| > 0 && (s[0] == '-' || s[0] == '+') then
      match ParseUnsigned(s[1..])
      case None => None
      case Some(v) => Some(if s[0] == '-' then -v else v)
    else ParseUnsigned(s)
  }

  /** May appear in text that parses as a number. */
  predicate IsNumeral(c: char) {
    IsDigit(c) || c == '.' || c == '+' || c == '-'
  }

  /** Text containing any other character (a letter, a space, a comma) is not a number. */
  lemma ParsedTextIsNumeral(s: string)
    requires ParseDecimal(s).Some?
    ensures forall k :: 0 <= k < |s| ==> IsNumeral(s[k])
  {
    if |s| > 0 && (s[0] == '-' || s[0] == '+') {
      var t := s[1..];
      assert ParseUnsigned(t).Some?;
      UnsignedIsNumeral(t);
      assert forall k :: 1 <= k < |s| ==> s[k] == t[k - 1];
    } else {
      UnsignedIsNumeral(s);
    }
  }

  lemma UnsignedIsNumeral(t: string)
    requires ParseUnsigned(t).Some?
    ensures forall k :: 0 <= k < |t| ==> IsNumeral(t[k])
  {
    var k := DotIndex(t);
    var whole := t[..k];
    var frac := if k < |t| then t[k + 1..] else [];
    assert AllDigits(whole) && AllDigits(frac);
    assert forall i :: 0 <= i < k ==> t[i] == whole[i];
    assert forall i :: k < i < |t| ==> t[i] == frac[i - k - 1];
  }

  /** A digit string parses to the number it denotes. */
  lemma ParseDigits(ds: string)
    requires AllDigits(ds) && |ds| > 0
    ensures ParseDecimal(ds) == Some(ValueOf(ds) as real)
  {
    ParseUnsignedDigits(ds);
    assert IsDigit(ds[0]);
    ParseUnsignedOnly(ds);
  }

  /** A minus sign and a digit string parse to the negated number. */
  lemma ParseMinusDigits(m: string)
    requires |m| > 1 && m[0] == '-' && AllDigits(m[1..])
    ensures ParseDecimal(m) == Some(-(ValueOf(m[1..]) as real))
  {
    ParseUnsignedDigits(m[1..]);
    ParseNegative(m, ValueOf(m[1..]) as real);
  }

  lemma ParseUnsignedOnly(s: string)
    requires |s| > 0 && s[0] != '-' && s[0] != '+'
    ensures ParseDecimal(s) == ParseUnsigned(s)
  {
  }

  lemma ParseNegative(m: string, v: real)
    requires |m| > 0 && m[0] == '-' && ParseUnsigned(m[1..]) == Some(v)
    ensures ParseDecimal(m) == Some(-v)
  {
  }

  lemma ParseUnsignedDigits(ds: string)
    requires AllDigits(ds) && |ds| > 0
    ensures ParseUnsigned(ds) == Some(ValueOf(ds) as real)
  {
    NoDot(ds);
    assert ds[..|ds|] == ds;
    WholeDecimal(ds);
  }

  lemma NoDot(ds: string)
    requires AllDigits(ds)
    ensures DotIndex(ds) == |ds|
  {
    if DotIndex(ds) < |ds| {
      assert IsDigit(ds[DotIndex(ds)]);
    }
  }

  lemma WholeDecimal(ds: string)
    requires AllDigits(ds)
    ensures Decimal(ds, []) == ValueOf(ds) as real
  {
    assert ValueOf([]) == 0 && Pow10(0) == 1;
  }
}
