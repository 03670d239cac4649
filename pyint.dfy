/** The two Python built-in conversions the editor relies on:
    `int(str)` for the font-size entry and `int(float)` for coordinates
    and scaled sizes. */
module PyInt {
  import opened Common

  /** The ASCII characters that `str.strip()` and `int()` treat as
      whitespace: tab, line feed, vertical tab, form feed, carriage return,
      the four separators 0x1C-0x1F and the space. */
  predicate IsSpace(c: char) {
    9 <= c as int <= 13 || 28 <= c as int <= 32
  }

  predicate IsDigit(c: char) {
    '0' <= c <= '9'
  }

  function DigitValue(c: char): nat
    requires IsDigit(c)
  {
    c as int - '0' as int
  }

  function TrimLeft(s: string): string
  {
    if s != [] && IsSpace(s[0]) then TrimLeft(s[1..]) else s
  }

  function TrimRight(s: string): string
  {
    if s != [] && IsSpace(s[|s| - 1]) then TrimRight(s[..|s| - 1]) else s
  }

  /** `s` without leading and trailing whitespace. */
  function Strip(s: string): string
  {
    TrimRight(TrimLeft(s))
  }

  /** A decimal literal as `int()` accepts it: digits, with single
      underscores allowed between two digits. Leading zeros are allowed. */
  predicate WellFormedDigits(s: string) {
    && |s| > 0
    && IsDigit(s[0])
    && IsDigit(s[|s| - 1])
    && (forall i :: 0 <= i < |s| ==> IsDigit(s[i]) || s[i] == '_')
    && (forall i :: 0 <= i < |s| - 1 ==> !(s[i] == '_' && s[i + 1] == '_'))
  }

  /** The value of a run of digits and underscores, underscores ignored. */
  function DigitsValue(s: string): nat
    requires forall i :: 0 <= i < |s| ==> IsDigit(s[i]) || s[i] == '_'
  {
    if s == [] then 0
    else
      var init, last := s[..|s| - 1], s[|s| - 1];
      assert forall i :: 0 <= i < |init| ==> init[i] == s[i];
      if last == '_' then DigitsValue(init) else DigitsValue(init) * 10 + DigitValue(last)
  }

  /** Python's `int(s)` on a string, in base 10: `None` stands for the
      `ValueError` it raises. Whatever it accepts is, once stripped, a
      run without whitespace ending in a digit, and only a leading minus
      makes it negative. */
  function ParseInt(s: string): (r: Option<int>)
    ensures r.Some? ==> |Strip(s)| > 0 && IsDigit(Strip(s)[|Strip(s)| - 1])
    ensures r.Some? ==> forall i :: 0 <= i < |Strip(s)| ==> !IsSpace(Strip(s)[i])
    ensures r.Some? && r.value < 0 ==> Strip(s)[0] == '-'
  {
    var t := Strip(s);
    if |t| > 0 && (t[0] == '+' || t[0] == '-') then
      var digits := t[1..];
      assert forall i :: 1 <= i < |t| ==> t[i] == digits[i - 1];
      if WellFormedDigits(digits) then
        var v: int := DigitsValue(digits);
        Some(if t[0] == '-' then -v else v)
      else None
    else if WellFormedDigits(t) then Some(DigitsValue(t))
    else None
  }

  /** The decimal digits of `n`, most significant first (Python's `str(n)`
      for `n >= 0`). */
  function ShowNat(n: nat): (s: string)
    ensures |s| > 0
    ensures forall i :: 0 <= i < |s| ==> IsDigit(s[i])
  {
    if n < 10 then [('0' as int + n) as char]
    else ShowNat(n / 10) + [('0' as int + n % 10) as char]
  }

  /** Python's `str(n)`. */
  function Show(n: int): string
  {
    if n < 0 then "-" + ShowNat(-n) else ShowNat(n)
  }

  lemma {:induction false} ShowNatValue(n: nat)
    ensures DigitsValue(ShowNat(n)) == n
  {
    if n >= 10 {
      var s := ShowNat(n);
      assert s[..|s| - 1] == ShowNat(n / 10);
      ShowNatValue(n / 10);
    }
  }

  lemma ShowNatStripped(n: nat)
    ensures Strip(ShowNat(n)) == ShowNat(n)
  {
    var s := ShowNat(n);
    assert TrimLeft(s) == s by { assert !IsSpace(s[0]); }
    assert TrimRight(s) == s by { assert !IsSpace(s[|s| - 1]); }
  }

  /** `int(str(n)) == n`: every integer's decimal form parses back. */
  lemma ParseShow(n: int)
    ensures ParseInt(Show(n)) == Some(n)
  {
    if n < 0 {
      assert Show(n) == "-" + ShowNat(-n);
      ParseNegative(-n);
    } else {
      assert Show(n) == ShowNat(n);
      ParseNonNegative(n);
    }
  }

  lemma ParseNonNegative(n: nat)
    ensures ParseInt(ShowNat(n)) == Some(n)
  {
    var d := ShowNat(n);
    ShowNatStripped(n);
    ShowNatValue(n);
    assert d[0] != '+' && d[0] != '-' by { assert IsDigit(d[0]); }
    assert WellFormedDigits(d);
  }

  lemma ParseNegative(m: nat)
    requires m > 0
    ensures ParseInt("-" + ShowNat(m)) == Some(-(m as int))
  {
    var d := ShowNat(m);
    var s := "-" + d;
    assert s[1..] == d;
    assert TrimLeft(s) == s;
    assert TrimRight(s) == s by { assert s[|s| - 1] == d[|d| - 1]; }
    assert Strip(s) == s;
    ShowNatValue(m);
    assert WellFormedDigits(d);
  }

  /** Whitespace around the entry's text does not change what `int()`
      makes of it. */
  lemma {:induction false} ParseIgnoresLeadingSpace(c: char, s: string)
    requires IsSpace(c)
    ensures ParseInt([c] + s) == ParseInt(s)
  {
    assert ([c] + s)[1..] == s;
  }

  /** A blank entry is never a number. */
  lemma {:induction false} ParseRejectsBlank(s: string)
    requires forall i :: 0 <= i < |s| ==> IsSpace(s[i])
    ensures ParseInt(s) == None
  {
    StripBlank(s);
  }

  lemma {:induction false} StripBlank(s: string)
    requires forall i :: 0 <= i < |s| ==> IsSpace(s[i])
    ensures Strip(s) == []
  {
    if s != [] {
      StripBlank(s[1..]);
    }
  }

  /** Python's `int(x)` on a float: truncation toward zero. */
  function Trunc(x: real): (t: int)
    ensures x >= 0.0 ==> t as real <= x < t as real + 1.0
    ensures x < 0.0 ==> t as real - 1.0 < x <= t as real
  {
    if x >= 0.0 then x.Floor else -((-x).Floor)
  }
}
