/**
 * The money and percentage formatters of the dashboard table (`format_vnd`,
 * `format_percent`). Python's `format` rounds a value to the nearest integer,
 * ties to even, prints a leading '-' for a negative value, and `format_vnd`
 * turns the ',' thousands separators into '.'.
 */
module Format {
  import opened Wrappers
  import opened Strings
  import Seqs

  /** The currency suffix appended to every formatted amount. */
  const Suffix: string := " VN\U{110}"

  /** Rounding to the nearest integer, ties to the even neighbour (as Python's fixed-point format with no decimals). */
  function RoundHalfEven(v: real): (n: int)
    ensures -0.5 <= n as real - v <= 0.5
    ensures (n as real - v == 0.5 || v - n as real == 0.5) ==> n % 2 == 0
    ensures v >= 0.0 ==> n >= 0
    ensures v <= 0.0 ==> n <= 0
  {
    var f := v.Floor;
    var d := v - f as real;
    if d < 0.5 then f else if d > 0.5 then f + 1 else if f % 2 == 0 then f else f + 1
  }

  function Abs(n: int): nat {
    if n < 0 then -n else n
  }

  /** The sign Python prints: '-' for every negative value, even one that rounds to 0. */
  function SignOf(v: real): string {
    if v < 0.0 then "-" else ""
  }

  /** The three digits of `k`, with leading zeros. */
  function Pad3(k: nat): (r: string)
    requires k < 1000
    ensures |r| == 3 && AllDigits(r)
  {
    [DigitChar(k / 100), DigitChar(k / 10 % 10), DigitChar(k % 10)]
  }

  /** `n` in decimal with '.' between groups of three digits (Python's comma grouping with '.' for ','). */
  function Grouped(n: nat): (r: string)
    ensures |r| > 0
  {
    if n < 1000 then Digits(n) else Grouped(n / 1000) + "." + Pad3(n % 1000)
  }

  /** `format_vnd`: "-" for a missing value or zero, otherwise the grouped amount and the suffix. */
  function FormatVnd(value: Option<real>): (r: string)
    ensures r == "-" <==> value.None? || value.value == 0.0
  {
    match value
    case None => "-"
    case Some(v) =>
      if v == 0.0 then "-"
      else
        var r := SignOf(v) + Grouped(Abs(RoundHalfEven(v))) + Suffix;
        assert r[|r| - 1] == '\U{110}';
        r
  }

  /** `format_percent`: "0%" for a missing value, otherwise the rounded percentage. */
  function FormatPercent(value: Option<real>): (r: string)
    ensures value.None? ==> r == "0%"
    ensures |r| > 0 && r[|r| - 1] == '%'
  {
    match value
    case None => "0%"
    case Some(v) => SignOf(v) + Digits(Abs(RoundHalfEven(v * 100.0))) + "%"
  }

  // ---------------------------------------------------------------- reading back

  predicate NotDot(c: char) {
    c != '.'
  }

  /** A formatted amount with its thousands separators removed. */
  function RemoveDots(s: string): string {
    Seqs.Filter(s, NotDot)
  }

  lemma DigitsShort(n: nat)
    requires n < 1000
    ensures |Digits(n)| <= 3
  {
    if n >= 10 {
      assert |Digits(n)| == |Digits(n / 10)| + 1;
      if n / 10 >= 10 {
        assert |Digits(n / 10)| == |Digits(n / 100)| + 1;
      }
    }
  }

  lemma Pad3Value(k: nat)
    requires k < 1000
    ensures ValueOf(Pad3(k)) == k
  {
    var r := Pad3(k);
    assert r[..2][..1] == r[..1];
    assert ValueOf(r[..1]) == k / 100;
    assert ValueOf(r[..2]) == 10 * (k / 100) + k / 10 % 10;
    assert r[..3] == r;
  }

  /** Without its separators, a grouped number is its plain digit string. */
  lemma {:induction false} GroupedValue(n: nat)
    ensures AllDigits(RemoveDots(Grouped(n)))
    ensures |RemoveDots(Grouped(n))| > 0
    ensures ValueOf(RemoveDots(Grouped(n))) == n
    decreases n
  {
    if n < 1000 {
      RemoveDotsDigits(Digits(n));
      DigitsRoundTrip(n);
    } else {
      var h, p := Grouped(n / 1000), Pad3(n % 1000);
      GroupedValue(n / 1000);
      assert Grouped(n) == h + ("." + p);
      DropSeparator(h, p);
      var dh := RemoveDots(h);
      ValueOfAppend(dh, p);
      Pad3Value(n % 1000);
      assert Pow10(3) == 1000;
      assert ValueOf(dh + p) == (n / 1000) * 1000 + n % 1000;
    }
  }

  lemma DropSeparator(h: string, p: string)
    requires AllDigits(p)
    ensures RemoveDots(h + ("." + p)) == RemoveDots(h) + p
  {
    RemoveDotsAppend(h, "." + p);
    DropDot(p);
  }

  lemma DropDot(p: string)
    requires AllDigits(p)
    ensures RemoveDots("." + p) == p
  {
    RemoveDotsAppend(".", p);
    RemoveDotsDigits(p);
    var dot := ".";
    assert dot[..0] == [];
  }

  lemma RemoveDotsAppend(a: string, b: string)
    ensures RemoveDots(a + b) == RemoveDots(a) + RemoveDots(b)
  {
    Seqs.FilterAppend(a, b, NotDot);
  }

  lemma RemoveDotsDigits(p: string)
    requires AllDigits(p)
    ensures RemoveDots(p) == p
  {
    assert forall k :: 0 <= k < |p| ==> NotDot(p[k]);
    Seqs.FilterAll(p, NotDot);
  }

  /** A sign and a digit string parse to the signed value they spell. */
  lemma SignedParse(v: real, n: int, ds: string)
    requires AllDigits(ds) && |ds| > 0 && ValueOf(ds) == Abs(n)
    requires v < 0.0 ==> n <= 0
    requires v >= 0.0 ==> n >= 0
    ensures ParseDecimal(SignOf(v) + ds) == Some(n as real)
  {
    if v < 0.0 {
      MinusParse(ds, n);
    } else {
      assert SignOf(v) + ds == ds;
      ParseDigits(ds);
    }
  }

  lemma MinusParse(ds: string, n: int)
    requires AllDigits(ds) && |ds| > 0 && ValueOf(ds) == Abs(n) && n <= 0
    ensures ParseDecimal("-" + ds) == Some(n as real)
  {
    var m := "-" + ds;
    assert m[0] == '-' && m[1..] == ds;
    ParseMinusDigits(m);
  }

  /** Counting from the right, every fourth character is '.' and every other one a digit. */
  predicate Shaped(g: string) {
    forall k :: 0 <= k < |g| ==> (g[k] == '.' <==> (|g| - k) % 4 == 0) && (g[k] != '.' ==> IsDigit(g[k]))
  }

  lemma ShortShaped(ds: string)
    requires AllDigits(ds) && |ds| <= 3
    ensures Shaped(ds)
  {
    forall k | 0 <= k < |ds| ensures ds[k] != '.' && (|ds| - k) % 4 != 0 {
      assert IsDigit(ds[k]);
    }
  }

  lemma JoinShaped(h: string, p: string)
    requires Shaped(h) && AllDigits(p) && |p| == 3
    ensures Shaped(h + "." + p)
  {
    var g := h + "." + p;
    forall k | 0 <= k < |g|
      ensures (g[k] == '.' <==> (|g| - k) % 4 == 0) && (g[k] != '.' ==> IsDigit(g[k]))
    {
      if k < |h| {
        assert g[k] == h[k];
        assert |g| - k == (|h| - k) + 4;
      } else if k > |h| {
        assert g[k] == p[k - |h| - 1];
        assert IsDigit(p[k - |h| - 1]);
      }
    }
  }

  /**
   * The layout of a grouped number: counting from the right, every fourth
   * character is '.', every other one a digit, and there is no leading zero.
   */
  lemma {:induction false} GroupedShape(n: nat)
    ensures forall k :: 0 <= k < |Grouped(n)| ==> (Grouped(n)[k] == '.' <==> (|Grouped(n)| - k) % 4 == 0)
    ensures forall k :: 0 <= k < |Grouped(n)| && Grouped(n)[k] != '.' ==> IsDigit(Grouped(n)[k])
    ensures IsDigit(Grouped(n)[0]) && (n > 0 ==> Grouped(n)[0] != '0')
    decreases n
  {
    GroupedShaped(n);
    GroupedFirst(n);
  }

  lemma {:induction false} GroupedShaped(n: nat)
    ensures Shaped(Grouped(n))
    decreases n
  {
    if n < 1000 {
      DigitsShort(n);
      ShortShaped(Digits(n));
    } else {
      GroupedShaped(n / 1000);
      JoinShaped(Grouped(n / 1000), Pad3(n % 1000));
    }
  }

  lemma {:induction false} GroupedFirst(n: nat)
    ensures IsDigit(Grouped(n)[0]) && (n > 0 ==> Grouped(n)[0] != '0')
    decreases n
  {
    if n >= 1000 {
      GroupedFirst(n / 1000);
      var h := Grouped(n / 1000);
      assert Grouped(n)[0] == h[0];
    }
  }

  /**
   * Removing the suffix and the separators from `FormatVnd(Some(v))` and
   * parsing the rest as `pd.to_numeric` would gives back `v` rounded; the
   * text starts with '-' exactly when `v` is negative, also when it rounds to 0.
   */
  lemma FormatVndRoundTrip(v: real)
    requires v != 0.0
    ensures var r := FormatVnd(Some(v));
      |r| > |Suffix| && r[|r| - |Suffix|..] == Suffix
      && ParseDecimal(RemoveDots(r[..|r| - |Suffix|])) == Some(RoundHalfEven(v) as real)
      && (r[0] == '-' <==> v < 0.0)
  {
    var n := RoundHalfEven(v);
    var g := Grouped(Abs(n));
    var r := FormatVnd(Some(v));
    assert r == SignOf(v) + g + Suffix;
    GroupedFirst(Abs(n));
    assert v >= 0.0 ==> r[0] == g[0];
    assert r[..|r| - |Suffix|] == SignOf(v) + g;
    assert r[|r| - |Suffix|..] == Suffix;
    GroupedValue(Abs(n));
    var ds := RemoveDots(g);
    RemoveDotsAppend(SignOf(v), g);
    assert RemoveDots(SignOf(v)) == SignOf(v);
    assert RemoveDots(SignOf(v) + g) == SignOf(v) + ds;
    SignedParse(v, n, ds);
  }

  /** Removing the '%' from `FormatPercent(Some(v))` and parsing gives back `100 * v` rounded. */
  lemma FormatPercentRoundTrip(v: real)
    ensures var r := FormatPercent(Some(v));
      ParseDecimal(r[..|r| - 1]) == Some(RoundHalfEven(v * 100.0) as real)
  {
    var n := RoundHalfEven(v * 100.0);
    var ds := Digits(Abs(n));
    var r := FormatPercent(Some(v));
    assert r[..|r| - 1] == SignOf(v) + ds;
    DigitsRoundTrip(Abs(n));
    assert v < 0.0 ==> v * 100.0 < 0.0;
    assert v >= 0.0 ==> v * 100.0 >= 0.0;
    SignedParse(v, n, ds);
  }
}
