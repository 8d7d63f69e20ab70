/**
 * The Python string built-ins the readers rely on: `strip`, `upper`,
 * `startswith`, `endswith`, `split`, and `int()` / `float()` applied to text.
 */
module Strings {
  import opened Results

  /** The characters `str.strip()` removes that this model recognises. */
  predicate IsWhitespace(c: char) {
    c == ' ' || c == '\t' || c == '\n' || c == '\r' || c == '\U{B}' || c == '\U{C}' || '\U{1C}' <= c <= '\U{1F}'
  }

  function TrimLeft(s: string): (r: string)
    ensures |r| <= |s| && (r != [] ==> r[0] in s)
    ensures forall i :: 0 <= i < |s| - |r| ==> IsWhitespace(s[i])
    ensures r == [] || !IsWhitespace(r[0])
  {
    if s != [] && IsWhitespace(s[0]) then TrimLeft(s[1..]) else s
  }

  /** What `lstrip()` keeps is a suffix of its input. */
  lemma {:induction false} TrimLeftSuffix(s: string)
    ensures TrimLeft(s) == s[|s| - |TrimLeft(s)|..]
    decreases |s|
  {
    if s != [] && IsWhitespace(s[0]) {
      TrimLeftSuffix(s[1..]);
    }
  }

  function TrimRight(s: string): (r: string)
    ensures |r| <= |s| && r == s[..|r|]
    ensures forall i :: |r| <= i < |s| ==> IsWhitespace(s[i])
    ensures r == [] || !IsWhitespace(r[|r| - 1])
  {
    if s != [] && IsWhitespace(s[|s| - 1]) then TrimRight(s[..|s| - 1]) else s
  }

  /** No whitespace at either end: what `strip()` leaves alone. */
  predicate IsStripped(s: string) {
    s == [] || (!IsWhitespace(s[0]) && !IsWhitespace(s[|s| - 1]))
  }

  /** `r` is the run of `s` starting at `a` with only whitespace before and after it. */
  predicate StrippedAt(s: string, a: int, r: string) {
    && 0 <= a <= |s| - |r| && r == s[a..a + |r|]
    && (forall i :: 0 <= i < a ==> IsWhitespace(s[i]))
    && (forall i :: a + |r| <= i < |s| ==> IsWhitespace(s[i]))
  }

  /** `str.strip()`. */
  function Strip(s: string): (r: string)
    ensures IsStripped(r)
    ensures IsStripped(s) ==> r == s
    ensures r == [] <==> forall i :: 0 <= i < |s| ==> IsWhitespace(s[i])
  {
    var l := TrimLeft(s);
    var r := TrimRight(l);
    assert r != [] ==> r[0] == l[0];
    assert r == [] ==> l == [];
    r
  }

  /** `strip()` returns the input less its leading and trailing whitespace, and nothing else. */
  lemma StripRemovesSurroundings(s: string)
    ensures exists a :: StrippedAt(s, a, Strip(s))
  {
    var l := TrimLeft(s);
    var r := TrimRight(l);
    var a := |s| - |l|;
    TrimLeftSuffix(s);
    assert r == Strip(s);
    assert forall i :: a + |r| <= i < |s| ==> s[i] == l[i - a];
    assert StrippedAt(s, a, r);
  }

  lemma StripIdempotent(s: string)
    ensures Strip(Strip(s)) == Strip(s)
  {
  }

  function ToUpper(c: char): char {
    if 'a' <= c <= 'z' then (c as int - 32) as char else c
  }

  /** `str.upper()` on ASCII letters. */
  function Upper(s: string): string
  {
    seq(|s|, i requires 0 <= i < |s| => ToUpper(s[i]))
  }

  lemma UpperKeepsWhitespace(c: char)
    ensures IsWhitespace(ToUpper(c)) == IsWhitespace(c)
  {
  }

  lemma UpperSlice(s: string, i: nat, j: nat)
    requires i <= j <= |s|
    ensures Upper(s)[i..j] == Upper(s[i..j])
  {
  }

  lemma {:induction false} TrimLeftUpper(s: string)
    ensures TrimLeft(Upper(s)) == Upper(TrimLeft(s))
    decreases |s|
  {
    if s != [] {
      UpperKeepsWhitespace(s[0]);
      assert Upper(s)[0] == ToUpper(s[0]);
      if IsWhitespace(s[0]) {
        TrimLeftUpper(s[1..]);
        assert Upper(s)[1..] == Upper(s[1..]);
        calc {
          TrimLeft(Upper(s));
          TrimLeft(Upper(s)[1..]);
          TrimLeft(Upper(s[1..]));
          Upper(TrimLeft(s[1..]));
          Upper(TrimLeft(s));
        }
      }
    }
  }

  lemma {:induction false} TrimRightUpper(s: string)
    ensures TrimRight(Upper(s)) == Upper(TrimRight(s))
    decreases |s|
  {
    if s != [] {
      UpperKeepsWhitespace(s[|s| - 1]);
      UpperSlice(s, 0, |s| - 1);
      TrimRightUpper(s[..|s| - 1]);
    }
  }

  /** Stripping and upper-casing commute: neither moves a character across the other's boundary. */
  lemma StripUpper(s: string)
    ensures Strip(Upper(s)) == Upper(Strip(s))
  {
    TrimLeftUpper(s);
    TrimRightUpper(TrimLeft(s));
  }

  lemma UpperIdempotent(s: string)
    ensures Upper(Upper(s)) == Upper(s)
  {
  }

  predicate StartsWith(s: string, prefix: string) {
    prefix <= s
  }

  predicate EndsWith(s: string, suffix: string) {
    |suffix| <= |s| && s[|s| - |suffix|..] == suffix
  }

  /** The position of the first `c` in `s`. */
  function IndexOf(s: string, c: char): (i: nat)
    requires c in s
    ensures i < |s| && s[i] == c && c !in s[..i]
  {
    if s[0] == c then 0 else 1 + IndexOf(s[1..], c)
  }

  /** Glues fields back together with `sep` between them, the inverse of `Split`. */
  function Join(fields: seq<string>, sep: char): string
  {
    if |fields| == 0 then ""
    else if |fields| == 1 then fields[0]
    else fields[0] + [sep] + Join(fields[1..], sep)
  }

  /** `str.split(sep)` with a one-character separator: always at least one field. */
  function Split(s: string, sep: char): (r: seq<string>)
    ensures |r| >= 1
    ensures sep in s ==> |r| >= 2
    ensures forall i :: 0 <= i < |r| ==> sep !in r[i]
    ensures Join(r, sep) == s
    decreases |s|
  {
    if sep !in s then [s]
    else
      var i := IndexOf(s, sep);
      assert s == s[..i] + [sep] + s[i + 1..];
      [s[..i]] + Split(s[i + 1..], sep)
  }

  /** Splitting a joined line gives back its fields, provided no field holds the separator. */
  lemma {:induction false} SplitJoin(fields: seq<string>, sep: char)
    requires |fields| >= 1
    requires forall i :: 0 <= i < |fields| ==> sep !in fields[i]
    ensures Split(Join(fields, sep), sep) == fields
    decreases |fields|
  {
    if |fields| > 1 {
      var s := Join(fields, sep);
      var f := fields[0];
      assert s == f + [sep] + Join(fields[1..], sep);
      var i := IndexOf(s, sep);
      assert s[|f|] == sep;
      assert i == |f|;
      assert s[..i] == f;
      assert s[i + 1..] == Join(fields[1..], sep);
      SplitJoin(fields[1..], sep);
    }
  }

  predicate IsDigit(c: char) {
    '0' <= c <= '9'
  }

  predicate AllDigits(s: string) {
    forall i :: 0 <= i < |s| ==> IsDigit(s[i])
  }

  /** The number a string of decimal digits denotes. */
  function DigitsValue(s: string): nat
    requires AllDigits(s)
    decreases |s|
  {
    if s == [] then 0 else 10 * DigitsValue(s[..|s| - 1]) + (s[|s| - 1] as int - '0' as int)
  }

  /** An optional sign followed by at least one decimal digit, and nothing else. */
  function ParseSignedDigits(t: string): Option<int>
  {
    if t != [] && (t[0] == '+' || t[0] == '-') then
      var digits := t[1..];
      if digits != [] && AllDigits(digits) then
        var v: int := DigitsValue(digits);
        Some(if t[0] == '-' then -v else v)
      else None
    else if t != [] && AllDigits(t) then Some(DigitsValue(t))
    else None
  }

  /** Python's `int()` on a string: surrounding whitespace, an optional sign and decimal digits. */
  function ParseInt(s: string): Option<int>
  {
    ParseSignedDigits(Strip(s))
  }

  function DigitChar(d: nat): char
    requires d < 10
  {
    ('0' as int + d) as char
  }

  /** The decimal spelling of a natural number, without leading zeros. */
  function ShowNat(n: nat): (s: string)
    ensures s != [] && AllDigits(s)
    decreases n
  {
    if n < 10 then [DigitChar(n)] else ShowNat(n / 10) + [DigitChar(n % 10)]
  }

  /** The decimal spelling of an integer, as Python's `str()` writes it. */
  function ShowInt(n: int): (s: string)
    ensures s != [] && IsStripped(s) && ',' !in s
  {
    if n < 0 then "-" + ShowNat(-n) else ShowNat(n)
  }

  lemma {:induction false} ShowNatValue(n: nat)
    ensures DigitsValue(ShowNat(n)) == n
    decreases n
  {
    if n >= 10 {
      ShowNatValue(n / 10);
      var s := ShowNat(n);
      assert s[..|s| - 1] == ShowNat(n / 10);
    }
  }

  /** `int(str(n)) == n`. */
  lemma ParseShowInt(n: int)
    ensures ParseInt(ShowInt(n)) == Some(n)
  {
    var s := ShowInt(n);
    assert Strip(s) == s;
    if n < 0 {
      var d := ShowNat(-n);
      ShowNatValue(-n);
      assert s[0] == '-' && s[1..] == d;
    } else {
      ShowNatValue(n);
      assert s[0] != '+' && s[0] != '-' by {
        assert IsDigit(s[0]);
      }
    }
  }

  /** `v` times ten to the power `e`, one factor of ten at a time. */
  function Scaled(v: real, e: int): real
    decreases if e >= 0 then e else -e
  {
    if e == 0 then v
    else if e > 0 then Scaled(v * 10.0, e - 1)
    else Scaled(v / 10.0, e + 1)
  }

  /** The position of the first exponent marker `e` or `E`, or the length when there is none. */
  function ExponentIndex(s: string): (i: nat)
    ensures i <= |s|
    ensures i < |s| ==> s[i] == 'e' || s[i] == 'E'
    ensures forall k :: 0 <= k < i ==> s[k] != 'e' && s[k] != 'E'
  {
    if s == [] || s[0] == 'e' || s[0] == 'E' then 0 else 1 + ExponentIndex(s[1..])
  }

  /** Digits with an optional decimal point, as in `12`, `1.5`, `.5` or `3.`. */
  function ParseMantissa(m: string): Option<real>
  {
    if '.' in m then
      var k := IndexOf(m, '.');
      var whole, fraction := m[..k], m[k + 1..];
      if AllDigits(whole) && AllDigits(fraction) && |whole| + |fraction| > 0 then
        Some(DigitsValue(whole) as real + Scaled(DigitsValue(fraction) as real, -|fraction|))
      else None
    else if m != [] && AllDigits(m) then Some(DigitsValue(m) as real)
    else None
  }

  /** An unsigned number: a mantissa, then optionally `e` or `E` and a signed integer exponent. */
  function ParseUnsignedFloat(body: string): Option<real>
  {
    var e := ExponentIndex(body);
    var mantissa := ParseMantissa(body[..e]);
    var exponent := if e == |body| then Some(0) else ParseSignedDigits(body[e + 1..]);
    if mantissa.None? || exponent.None? then None
    else Some(Scaled(mantissa.value, exponent.value))
  }

  /**
   * Python's `float()` on a string written in decimal or scientific notation,
   * as its exact decimal value.
   */
  function ParseFloat(s: string): Option<real>
  {
    var t := Strip(s);
    if t != [] && (t[0] == '+' || t[0] == '-') then
      var v := ParseUnsignedFloat(t[1..]);
      if v.None? then None else Some(if t[0] == '-' then -v.value else v.value)
    else ParseUnsignedFloat(t)
  }

  lemma DigitsAsFloat(d: string)
    requires d != [] && AllDigits(d)
    ensures ParseUnsignedFloat(d) == Some(DigitsValue(d) as real)
  {
    assert ExponentIndex(d) == |d|;
    assert d[..|d|] == d;
    assert ParseMantissa(d) == Some(DigitsValue(d) as real);
  }

  /** A run of digits, with or without a minus sign, reads as a float with the value it spells. */
  lemma ParseFloatDigits(d: string, negative: bool)
    requires d != [] && AllDigits(d)
    ensures var v := DigitsValue(d) as real;
      ParseFloat((if negative then "-" else "") + d) == Some(if negative then -v else v)
  {
    var s := (if negative then "-" else "") + d;
    assert IsStripped(s) by {
      assert IsDigit(d[0]) && IsDigit(d[|d| - 1]) && s[|s| - 1] == d[|d| - 1];
    }
    assert Strip(s) == s;
    assert (s[0] == '+' || s[0] == '-') <==> negative by {
      assert IsDigit(d[0]);
    }
    DigitsAsFloat(d);
    if negative {
      assert s[1..] == d;
      assert ParseFloat(s) == Some(-(DigitsValue(d) as real));
    } else {
      assert s == d;
    }
  }

  /** `float(str(n)) == n` for an integer `n`. */
  lemma ParseFloatShowInt(n: int)
    ensures ParseFloat(ShowInt(n)) == Some(n as real)
  {
    var k: nat := if n < 0 then -n else n;
    ShowNatValue(k);
    assert ShowInt(n) == (if n < 0 then "-" else "") + ShowNat(k);
    ParseFloatDigits(ShowNat(k), n < 0);
  }
}
