/**
 * The string operations the tools rely on, written out for ASCII text:
 * `str.strip()`, `str.ljust` (the `{s:<w}` format), `int(s)` and `str(n)`.
 */
module Text {
  import opened Wrappers

  /** The ASCII characters that `str.strip()` removes: tab, line feed, vertical tab,
      form feed, carriage return, the four separators 0x1C..0x1F, and space. */
  predicate IsSpace(c: char) {
    9 <= c as int <= 13 || 28 <= c as int <= 32
  }

  /** Every character of `s` is whitespace (true of the empty string). */
  predicate Blank(s: string) {
    forall i | 0 <= i < |s| :: IsSpace(s[i])
  }

  /** `s` has no whitespace at either end. */
  predicate Trimmed(s: string) {
    s == [] || (!IsSpace(s[0]) && !IsSpace(s[|s| - 1]))
  }

  /** Number of leading whitespace characters of `s`. */
  function StartIndex(s: string): (i: nat)
    ensures i <= |s|
    ensures forall j | 0 <= j < i :: IsSpace(s[j])
    ensures i < |s| ==> !IsSpace(s[i])
  {
    if s != [] && IsSpace(s[0]) then 1 + StartIndex(s[1..]) else 0
  }

  /** Length of `s` without its trailing whitespace. */
  function EndIndex(s: string): (i: nat)
    ensures i <= |s|
    ensures forall j | i <= j < |s| :: IsSpace(s[j])
    ensures i > 0 ==> !IsSpace(s[i - 1])
  {
    if s != [] && IsSpace(s[|s| - 1]) then EndIndex(s[..|s| - 1]) else |s|
  }

  /** `str.strip()`: the part of `s` between its leading and its trailing whitespace.
      The result is empty exactly when `s` is blank. */
  function Trim(s: string): (r: string)
    ensures |r| <= |s| && Trimmed(r)
    ensures r == [] <==> Blank(s)
  {
    var m := s[StartIndex(s)..];
    var r := m[..EndIndex(m)];
    assert Blank(s) ==> m == [] by {
      if m != [] { assert m[0] == s[StartIndex(s)]; }
    }
    r
  }

  lemma {:induction false} StartIndexPadded(a: string, m: string)
    requires Blank(a) && (m == [] || !IsSpace(m[0]))
    ensures StartIndex(a + m) == |a|
    decreases |a|
  {
    if a != [] {
      assert (a + m)[1..] == a[1..] + m;
      StartIndexPadded(a[1..], m);
    } else {
      assert a + m == m;
    }
  }

  lemma {:induction false} EndIndexPadded(m: string, b: string)
    requires Blank(b) && (m == [] || !IsSpace(m[|m| - 1]))
    ensures EndIndex(m + b) == |m|
    decreases |b|
  {
    if b != [] {
      assert (m + b)[..|m + b| - 1] == m + b[..|b| - 1];
      EndIndexPadded(m, b[..|b| - 1]);
    } else {
      assert m + b == m;
    }
  }

  /** Partner of `Trim`: a trimmed string surrounded by whitespace on both sides
      strips back to itself. */
  lemma {:induction false} TrimPadded(a: string, m: string, b: string)
    requires Blank(a) && Blank(b) && Trimmed(m)
    ensures Trim(a + m + b) == m
  {
    if m == [] {
      assert a + m + b == a + b;
      assert Blank(a + b) by {
        forall i | 0 <= i < |a + b| ensures IsSpace((a + b)[i]) {
          if i < |a| { assert (a + b)[i] == a[i]; } else { assert (a + b)[i] == b[i - |a|]; }
        }
      }
    } else {
      assert a + m + b == a + (m + b);
      StartIndexPadded(a, m + b);
      assert (a + m + b)[|a|..] == m + b;
      EndIndexPadded(m, b);
      assert (m + b)[..|m|] == m;
    }
  }

  /** The other direction: every string is its stripped form with whitespace on
      either side. */
  lemma TrimSplit(s: string)
    ensures var i := StartIndex(s); var j := i + |Trim(s)|;
      && j <= |s|
      && Blank(s[..i]) && Blank(s[j..])
      && s == s[..i] + Trim(s) + s[j..]
  {
    var i := StartIndex(s);
    var m := s[i..];
    var e := EndIndex(m);
    assert Trim(s) == m[..e];
    assert s[i + e..] == m[e..];
    assert s == s[..i] + m[..e] + m[e..];
  }

  /** Stripping twice is stripping once. */
  lemma TrimIdempotent(s: string)
    ensures Trim(Trim(s)) == Trim(s)
  {
    var m := Trim(s);
    assert [] + m + [] == m;
    TrimPadded([], m, []);
  }

  /** A run of `n` spaces. */
  function Spaces(n: nat): (r: string)
    ensures |r| == n && forall i | 0 <= i < n :: r[i] == ' '
  {
    seq(n, _ => ' ')
  }

  function Max(a: int, b: int): int {
    if a < b then b else a
  }

  /** `s.ljust(width)`, the `{s:<width}` format: `s` padded on the right with spaces
      up to `width` characters, never truncated. */
  function LeftJustify(s: string, width: nat): (r: string)
    ensures |r| == Max(|s|, width)
    ensures r[..|s|] == s
    ensures forall i | |s| <= i < |r| :: r[i] == ' '
  {
    if |s| < width then s + Spaces(width - |s|) else s
  }

  predicate IsDigit(c: char) {
    '0' <= c <= '9'
  }

  predicate AllDigits(s: string) {
    forall i | 0 <= i < |s| :: IsDigit(s[i])
  }

  function DigitValue(c: char): (d: nat)
    requires IsDigit(c)
    ensures d < 10
  {
    c as int - '0' as int
  }

  function DigitChar(d: nat): (c: char)
    requires d < 10
    ensures IsDigit(c) && DigitValue(c) == d
  {
    ('0' as int + d) as char
  }

  /** The value of a string of decimal digits, most significant first. */
  function DigitsValue(s: string): nat
    requires AllDigits(s)
  {
    if s == [] then 0 else DigitsValue(s[..|s| - 1]) * 10 + DigitValue(s[|s| - 1])
  }

  /** `str(n)` for a natural number: shortest decimal form, no leading zero. */
  function NatToDecimal(n: nat): (r: string)
    ensures r != [] && AllDigits(r)
    ensures |r| > 1 ==> r[0] != '0'
  {
    if n < 10 then [DigitChar(n)] else NatToDecimal(n / 10) + [DigitChar(n % 10)]
  }

  /** `str(n)` for any integer: a minus sign before the magnitude when negative. */
  function IntToDecimal(n: int): (r: string)
    ensures r != [] && Trimmed(r)
    ensures n >= 0 ==> AllDigits(r)
    ensures n < 0 ==> r[0] == '-' && AllDigits(r[1..])
  {
    if n < 0 then "-" + NatToDecimal(-n) else NatToDecimal(n)
  }

  /** The most decimal digits `int()` converts: past this, Python (3.11 on, and the
      security releases that backported the limit) raises `ValueError`. This is
      the default of `sys.set_int_max_str_digits`. */
  const MaxStrDigits: nat := 4300

  /** An integer literal without surrounding whitespace: an optional `+` or `-`
      followed by one or more decimal digits, and no more than `MaxStrDigits`
      of them (leading zeros included). */
  function ParseLiteral(t: string): Option<int> {
    if |t| >= 2 && (t[0] == '+' || t[0] == '-') && AllDigits(t[1..]) then
      if |t| - 1 > MaxStrDigits then None
      else
        var v: int := DigitsValue(t[1..]);
        Some(if t[0] == '-' then -v else v)
    else if |t| >= 1 && AllDigits(t) then
      if |t| > MaxStrDigits then None else Some(DigitsValue(t))
    else
      None
  }

  /** `int(s)` on ASCII input: surrounding whitespace is ignored and the rest must be
      an integer literal; anything else is a `ValueError` (`None`). */
  function ParseInt(s: string): Option<int> {
    ParseLiteral(Trim(s))
  }

  /** The number of digits in the decimal form of `n`, its sign left out. */
  function DecimalDigits(n: int): nat {
    |NatToDecimal(if n < 0 then -n else n)|
  }

  /** Reading back the digits `str` writes gives the number. */
  lemma {:induction false} DigitsValueOfDecimal(n: nat)
    ensures DigitsValue(NatToDecimal(n)) == n
  {
    if n >= 10 {
      var r := NatToDecimal(n);
      assert r[..|r| - 1] == NatToDecimal(n / 10);
      DigitsValueOfDecimal(n / 10);
    }
  }

  lemma LiteralOfDecimal(n: int)
    ensures ParseLiteral(IntToDecimal(n)) ==
              if DecimalDigits(n) <= MaxStrDigits then Some(n) else None
  {
    var r := IntToDecimal(n);
    if n < 0 {
      assert r[1..] == NatToDecimal(-n);
      DigitsValueOfDecimal(-n);
    } else {
      DigitsValueOfDecimal(n);
    }
  }

  /** Round trip: `int(str(n)) == n` for every integer of at most `MaxStrDigits`
      digits; the decimal form of a longer one is refused. */
  lemma ParseIntOfDecimal(n: int)
    ensures ParseInt(IntToDecimal(n)) ==
              if DecimalDigits(n) <= MaxStrDigits then Some(n) else None
  {
    var r := IntToDecimal(n);
    assert [] + r + [] == r;
    TrimPadded([], r, []);
    LiteralOfDecimal(n);
  }

  /** A literal of more than `MaxStrDigits` digits is refused, whatever its value. */
  lemma TooManyDigits(t: string)
    requires AllDigits(t) && |t| > MaxStrDigits
    ensures ParseInt(t) == None
  {
    assert [] + t + [] == t;
    TrimPadded([], t, []);
  }
}
