/**
 * JavaScript's global `parseInt(string, radix)` (section 19.2.5 of
 * ECMAScript 2023, ECMA-262), for the two ways the dashboard calls it:
 * `parseInt(s, 10)` and `parseInt(s)` without a radix. The result is `None`
 * where JavaScript returns `NaN`. The value is the exact integer the digits
 * denote; `-0` is identified with `0`.
 */
module JsParseInt {
  import opened Wrappers

  /** The radix argument: `10`, or omitted (which means 10, or 16 after a `0x`/`0X` prefix). */
  datatype Radix = Decimal | Unspecified

  /** StrWhiteSpaceChar of ECMA-262: WhiteSpace (including every Zs space) and LineTerminator. */
  predicate IsStrWhiteSpace(c: char) {
    || c == '\t' || c == '\n' || c == '\U{B}' || c == '\U{C}' || c == '\r'
    || c == ' ' || c == '\U{A0}' || c == '\U{1680}' || '\U{2000}' <= c <= '\U{200A}'
    || c == '\U{2028}' || c == '\U{2029}' || c == '\U{202F}' || c == '\U{205F}'
    || c == '\U{3000}' || c == '\U{FEFF}'
  }

  /** Step 2 of the algorithm: drop leading white space. */
  function TrimStart(s: string): string {
    if s != [] && IsStrWhiteSpace(s[0]) then TrimStart(s[1..]) else s
  }

  /** `TrimStart` drops exactly the white space at the front: what remains is a suffix that starts with something else. */
  lemma {:induction false} TrimStartSpec(s: string)
    ensures var r := TrimStart(s);
      && |r| <= |s| && r == s[|s| - |r|..]
      && (r == [] || !IsStrWhiteSpace(r[0]))
      && forall i :: 0 <= i < |s| - |r| ==> IsStrWhiteSpace(s[i])
  {
    if s != [] && IsStrWhiteSpace(s[0]) {
      TrimStartSpec(s[1..]);
      var r := TrimStart(s[1..]);
      assert s[1..][|s| - 1 - |r|..] == s[|s| - |r|..];
      assert forall i :: 0 < i < |s| - |r| ==> s[i] == s[1..][i - 1];
    } else {
      assert s[0..] == s;
    }
  }

  /** The value of `c` as a digit in radices up to 36 (`0`-`9`, then letters of either case). */
  function DigitValue(c: char): (r: Option<nat>)
    ensures r.Some? ==> r.value < 36
    ensures r.Some? && r.value < 10 <==> '0' <= c <= '9'
  {
    if '0' <= c <= '9' then Some(c as int - '0' as int)
    else if 'a' <= c <= 'z' then Some(c as int - 'a' as int + 10)
    else if 'A' <= c <= 'Z' then Some(c as int - 'A' as int + 10)
    else None
  }

  predicate IsDigit(c: char, base: nat) {
    DigitValue(c).Some? && DigitValue(c).value < base
  }

  /** Steps 11-12: the longest prefix of `s` made of radix-`base` digits. */
  function LeadingDigits(s: string, base: nat): string {
    if s != [] && IsDigit(s[0], base) then [s[0]] + LeadingDigits(s[1..], base) else []
  }

  /** `LeadingDigits` is a prefix made of digits that stops at the first non-digit. */
  lemma {:induction false} LeadingDigitsSpec(s: string, base: nat)
    ensures var r := LeadingDigits(s, base);
      && |r| <= |s| && r == s[..|r|]
      && (forall i :: 0 <= i < |r| ==> IsDigit(r[i], base))
      && (|r| == |s| || !IsDigit(s[|r|], base))
  {
    if s != [] && IsDigit(s[0], base) {
      LeadingDigitsSpec(s[1..], base);
      var rest := LeadingDigits(s[1..], base);
      var r := [s[0]] + rest;
      assert forall i :: 0 < i < |r| ==> r[i] == rest[i - 1];
      assert s[..|r|] == [s[0]] + s[1..][..|rest|];
      assert |r| == |s| || s[|r|] == s[1..][|rest|];
    }
  }

  /** The number that a string of radix-`base` digits denotes, most significant first. */
  function DigitsValue(ds: string, base: nat): nat
    requires forall i :: 0 <= i < |ds| ==> IsDigit(ds[i], base)
  {
    if ds == [] then 0
    else
      var last := ds[|ds| - 1];
      assert IsDigit(last, base);
      assert forall i :: 0 <= i < |ds| - 1 ==> ds[..|ds| - 1][i] == ds[i];
      DigitsValue(ds[..|ds| - 1], base) * base + DigitValue(last).value
  }

  /** What steps 1-12 of the algorithm leave: the sign, the radix in force and the digits read. */
  datatype Scan = Scan(negative: bool, base: nat, digits: string)

  /** Steps 3-5: `t` without its leading sign, if it has one. */
  function Unsigned(t: string): (u: string)
    ensures |u| <= |t|
  {
    if t != [] && (t[0] == '-' || t[0] == '+') then t[1..] else t
  }

  /** Step 10: `u` starts with `0x` or `0X`. */
  predicate HexPrefixed(u: string) {
    |u| >= 2 && u[0] == '0' && (u[1] == 'x' || u[1] == 'X')
  }

  /** True when, after white space and sign, `s` starts with `0x` or `0X`. */
  predicate HasHexPrefix(s: string) {
    HexPrefixed(Unsigned(TrimStart(s)))
  }

  /** Steps 3-12 on the input `t` once white space is gone. */
  function ScanTrimmed(t: string, radix: Radix): (r: Scan)
    ensures r.base == (if radix == Unspecified && HexPrefixed(Unsigned(t)) then 16 else 10)
  {
    var u := Unsigned(t);
    var hex := radix == Unspecified && HexPrefixed(u);
    var base := if hex then 16 else 10;
    Scan(t != [] && t[0] == '-', base, LeadingDigits(if hex then u[2..] else u, base))
  }

  /** The scan reads only digits of the radix in force. */
  lemma ScanTrimmedDigits(t: string, radix: Radix)
    ensures var r := ScanTrimmed(t, radix);
      forall i :: 0 <= i < |r.digits| ==> IsDigit(r.digits[i], r.base)
  {
    var u := Unsigned(t);
    var hex := radix == Unspecified && HexPrefixed(u);
    LeadingDigitsSpec(if hex then u[2..] else u, if hex then 16 else 10);
  }

  /** Steps 13-16: `NaN` without digits, otherwise the signed value of the digits. */
  function ScanValue(sc: Scan): Option<int>
    requires forall i :: 0 <= i < |sc.digits| ==> IsDigit(sc.digits[i], sc.base)
  {
    if sc.digits == [] then None
    else
      var m: int := DigitsValue(sc.digits, sc.base);
      Some(if sc.negative then -m else m)
  }

  /** `parseInt(s, 10)` for `Decimal`, `parseInt(s)` for `Unspecified`; `None` is `NaN`. */
  function ParseInt(s: string, radix: Radix): (r: Option<int>)
    ensures r.None? <==> ScanTrimmed(TrimStart(s), radix).digits == []
    ensures r.Some? && !ScanTrimmed(TrimStart(s), radix).negative ==> r.value >= 0
  {
    ScanTrimmedDigits(TrimStart(s), radix);
    ScanValue(ScanTrimmed(TrimStart(s), radix))
  }

  /** The digit character for `d`. */
  function DigitChar(d: nat): (c: char)
    requires d < 10
    ensures DigitValue(c) == Some(d)
  {
    ('0' as int + d) as char
  }

  /** The decimal rendering of `n`, with no leading zeros. */
  function NatToDecimal(n: nat): (s: string)
    ensures |s| >= 1
  {
    if n < 10 then [DigitChar(n)] else NatToDecimal(n / 10) + [DigitChar(n % 10)]
  }

  /** The decimal rendering of `n`, with a leading `-` when it is negative. */
  function IntToDecimal(n: int): string {
    if n < 0 then "-" + NatToDecimal(-n) else NatToDecimal(n)
  }

  /** `NatToDecimal(n)` is a string of decimal digits that denotes `n` and starts with `0` only for `0`. */
  lemma {:induction false} NatToDecimalDenotes(n: nat)
    ensures forall i :: 0 <= i < |NatToDecimal(n)| ==> IsDigit(NatToDecimal(n)[i], 10)
    ensures DigitsValue(NatToDecimal(n), 10) == n
    ensures NatToDecimal(n)[0] == '0' ==> n == 0
  {
    if n >= 10 {
      NatToDecimalDenotes(n / 10);
      var p := NatToDecimal(n / 10);
      var s := p + [DigitChar(n % 10)];
      assert s[..|s| - 1] == p;
      assert s[0] == p[0];
    }
  }

  /** Reading digits from `ds + tail` stops exactly where the digits of `ds` end. */
  lemma {:induction false} LeadingDigitsStopAtTail(ds: string, tail: string, base: nat)
    requires forall i :: 0 <= i < |ds| ==> IsDigit(ds[i], base)
    requires tail == [] || !IsDigit(tail[0], base)
    ensures LeadingDigits(ds + tail, base) == ds
  {
    if ds != [] {
      assert (ds + tail)[0] == ds[0];
      assert (ds + tail)[1..] == ds[1..] + tail;
      LeadingDigitsStopAtTail(ds[1..], tail, base);
    }
  }

  /** White space in front of the input does not change the result. */
  lemma {:induction false} TrimStartSkipsWhiteSpace(w: string, s: string)
    requires forall i :: 0 <= i < |w| ==> IsStrWhiteSpace(w[i])
    ensures TrimStart(w + s) == TrimStart(s)
  {
    if w == [] {
      assert w + s == s;
    } else {
      assert IsStrWhiteSpace(w[0]);
      assert (w + s)[0] == w[0];
      assert (w + s)[1..] == w[1..] + s;
      TrimStartSkipsWhiteSpace(w[1..], s);
    }
  }

  lemma ParseIntSkipsWhiteSpace(w: string, s: string, radix: Radix)
    requires forall i :: 0 <= i < |w| ==> IsStrWhiteSpace(w[i])
    ensures ParseInt(w + s, radix) == ParseInt(s, radix)
  {
    TrimStartSkipsWhiteSpace(w, s);
  }

  /**
   * Parsing the decimal rendering of `n`, followed by anything that does not
   * continue the number, gives back `n`, with or without a radix. Without a
   * radix the rendering `0` followed by `x` or `X` would be read as a hex
   * prefix, so that one case is excluded.
   */
  lemma ParseIntReadsDecimal(n: int, tail: string, radix: Radix)
    requires tail == [] || !IsDigit(tail[0], 10)
    requires radix == Unspecified && n == 0 ==> tail == [] || (tail[0] != 'x' && tail[0] != 'X')
    ensures ParseInt(IntToDecimal(n) + tail, radix) == Some(n)
  {
    var m: nat := if n < 0 then -n else n;
    ScanOfDecimal(n, tail, radix);
    NatToDecimalDenotes(m);
  }

  /** The scan of a decimal rendering reads its sign and exactly its digits, in radix 10. */
  lemma ScanOfDecimal(n: int, tail: string, radix: Radix)
    requires tail == [] || !IsDigit(tail[0], 10)
    requires radix == Unspecified && n == 0 ==> tail == [] || (tail[0] != 'x' && tail[0] != 'X')
    ensures ScanTrimmed(TrimStart(IntToDecimal(n) + tail), radix)
         == Scan(n < 0, 10, NatToDecimal(if n < 0 then -n else n))
  {
    var m: nat := if n < 0 then -n else n;
    var d := NatToDecimal(m);
    assert forall i :: 0 <= i < |d| ==> IsDigit(d[i], 10) by {
      NatToDecimalDenotes(m);
    }
    assert !(radix == Unspecified && HexPrefixed(d + tail)) by {
      var u := d + tail;
      if |u| >= 2 && u[0] == '0' && radix == Unspecified {
        assert u[0] == d[0];
        NatToDecimalDenotes(m);
        assert m == 0 && |d| == 1;
        assert u[1] == tail[0];
      }
    }
    assert IntToDecimal(n) + tail == if n < 0 then ['-'] + (d + tail) else d + tail;
    ScanOfDigits(d, tail, n < 0, radix);
  }

  /** An optional `-`, decimal digits `ds` and a tail that does not continue them scan as `ds`. */
  lemma ScanOfDigits(ds: string, tail: string, negative: bool, radix: Radix)
    requires ds != [] && forall i :: 0 <= i < |ds| ==> IsDigit(ds[i], 10)
    requires tail == [] || !IsDigit(tail[0], 10)
    requires !(radix == Unspecified && HexPrefixed(ds + tail))
    ensures var t := if negative then ['-'] + (ds + tail) else ds + tail;
      ScanTrimmed(TrimStart(t), radix) == Scan(negative, 10, ds)
  {
    var u := ds + tail;
    assert u[0] == ds[0];
    LeadingDigitsStopAtTail(ds, tail, 10);
    DigitsAreNotSkipped(u, negative);
  }

  /** A sign followed by a digit, or a digit, is where the number starts. */
  lemma DigitsAreNotSkipped(u: string, negative: bool)
    requires u != [] && IsDigit(u[0], 10)
    ensures var t := if negative then ['-'] + u else u;
      TrimStart(t) == t && Unsigned(t) == u && (t[0] == '-') == negative
  {
    var t := if negative then ['-'] + u else u;
    assert t[0] == (if negative then '-' else u[0]);
    if negative {
      assert t[1..] == u;
    }
  }

  lemma ParseIntDecimalRoundTrip(n: int, radix: Radix)
    ensures ParseInt(IntToDecimal(n), radix) == Some(n)
  {
    ParseIntReadsDecimal(n, "", radix);
    assert IntToDecimal(n) + "" == IntToDecimal(n);
  }

  /** Omitting the radix makes a difference only when the input has a hex prefix. */
  lemma UnspecifiedRadixIsDecimal(s: string)
    requires !HasHexPrefix(s)
    ensures ParseInt(s, Unspecified) == ParseInt(s, Decimal)
  {
  }

  /** Without a radix, `0x` switches to hexadecimal; with no hex digit after it the result is `NaN`. */
  lemma ParseIntHexExamples()
    ensures ParseInt("0x1A", Unspecified) == Some(26)
    ensures ParseInt("0x", Unspecified) == None
  {
    assert !IsStrWhiteSpace('0');
    assert TrimStart("0x1A") == "0x1A" && Unsigned("0x1A") == "0x1A";
    assert "0x1A"[2..] == "1A";
    assert LeadingDigits("1A", 16) == "1A" by {
      assert "1A"[1..] == "A";
      assert LeadingDigits("A", 16) == "A";
    }
    assert "1A"[..1] == "1";
    assert DigitsValue("1A", 16) == 26;
    assert TrimStart("0x") == "0x" && Unsigned("0x") == "0x";
    assert "0x"[2..] == [];
  }

  /** Input with no decimal digit where the number should start (after white space and sign) is `NaN`; so is the empty string. */
  lemma ParseIntWithoutDigitsIsNaN(s: string, radix: Radix)
    requires var u := Unsigned(TrimStart(s)); u == [] || !('0' <= u[0] <= '9')
    ensures ParseInt(s, radix) == None
  {
    var u := Unsigned(TrimStart(s));
    assert !HexPrefixed(u);
    assert u == [] || !IsDigit(u[0], 10);
  }
}
