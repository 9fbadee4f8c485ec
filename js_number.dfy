/** The JavaScript number operations the core relies on, for integer values:
    `Number.prototype.toString()`, `padStart(2, '0')` and `parseInt`, whose
    failure value NaN is kept explicit. */
module JsNumber {
  import opened JsText

  /** The value of a JavaScript number that is an integer or NaN. */
  datatype Num = NaN | Int(value: int)

  /** `parseInt(s)` (radix left out: a "0x" prefix selects hexadecimal) or `parseInt(s, 10)`. */
  datatype Radix = Unspecified | Ten

  predicate IsDigit(c: char) {
    '0' <= c <= '9'
  }

  predicate IsHexLetter(c: char) {
    ('a' <= c <= 'f') || ('A' <= c <= 'F')
  }

  predicate IsRadixDigit(c: char, hex: bool) {
    IsDigit(c) || (hex && IsHexLetter(c))
  }

  function DigitValue(c: char, hex: bool): (v: nat)
    requires IsRadixDigit(c, hex)
    ensures v < (if hex then 16 else 10)
  {
    if IsDigit(c) then c as int - '0' as int
    else if 'a' <= c <= 'f' then c as int - 'a' as int + 10
    else c as int - 'A' as int + 10
  }

  function DigitChar(d: nat): (c: char)
    requires d < 10
    ensures IsDigit(c) && DigitValue(c, false) == d
  {
    ('0' as int + d) as char
  }

  /** `n.toString()`: the decimal digits of `n`, without leading zeros. */
  function NatToString(n: nat): (r: string)
    ensures |r| >= 1
    ensures forall k :: 0 <= k < |r| ==> IsDigit(r[k])
    ensures r[0] == '0' <==> n == 0
  {
    if n < 10 then [DigitChar(n)] else NatToString(n / 10) + [DigitChar(n % 10)]
  }

  /** `s.padStart(2, '0')`. */
  function PadStart2(s: string): (r: string)
    ensures |s| >= 2 ==> r == s
    ensures |s| < 2 ==> |r| == 2 && r[2 - |s|..] == s && forall k :: 0 <= k < 2 - |s| ==> r[k] == '0'
  {
    if |s| >= 2 then s else seq(2 - |s|, _ => '0') + s
  }

  /** Padding digits with zeros gives digits. */
  lemma PadStart2Digits(s: string)
    requires forall k :: 0 <= k < |s| ==> IsDigit(s[k])
    ensures forall k :: 0 <= k < |PadStart2(s)| ==> IsDigit(PadStart2(s)[k])
  {
    var r := PadStart2(s);
    if |s| < 2 {
      forall k | 2 - |s| <= k < 2 ensures IsDigit(r[k]) {
        assert r[k] == r[2 - |s|..][k - (2 - |s|)];
      }
    }
  }

  /** Two digit fields joined by ':' split back into the two fields. */
  lemma SplitDigitFields(x: string, y: string)
    requires forall k :: 0 <= k < |x| ==> IsDigit(x[k])
    requires forall k :: 0 <= k < |y| ==> IsDigit(y[k])
    ensures Split(x + ":" + y, ":") == [x, y]
  {
    assert ':' !in x;
    assert ':' !in y;
    SplitOnChar(x, ':', y);
    SplitWithoutSeparator(y, ":");
  }

  /** The longest prefix of `s` made of digits of the radix. */
  function DigitPrefix(s: string, hex: bool): (r: string)
    ensures |r| <= |s| && r == s[..|r|]
    ensures forall k :: 0 <= k < |r| ==> IsRadixDigit(r[k], hex)
    ensures |r| < |s| ==> !IsRadixDigit(s[|r|], hex)
  {
    if s != [] && IsRadixDigit(s[0], hex) then [s[0]] + DigitPrefix(s[1..], hex) else []
  }

  /** The value of a string of digits in base 10 or 16. */
  function DigitsValue(d: string, hex: bool): nat
    requires forall k :: 0 <= k < |d| ==> IsRadixDigit(d[k], hex)
  {
    if d == [] then 0
    else DigitsValue(d[..|d| - 1], hex) * (if hex then 16 else 10) + DigitValue(d[|d| - 1], hex)
  }

  /** `minutes * 60 + seconds` on numbers that may be NaN. */
  function MinutesAndSeconds(minutes: Num, seconds: Num): (r: Num)
    ensures r.Int? <==> minutes.Int? && seconds.Int?
    ensures r.Int? ==> r.value == minutes.value * 60 + seconds.value
  {
    if minutes.Int? && seconds.Int? then Int(minutes.value * 60 + seconds.value) else NaN
  }

  /** `parseInt(s)` or `parseInt(s, 10)`: skip leading white space, read an
      optional sign, with no radix a "0x"/"0X" prefix selects base 16, then
      the longest run of digits; NaN when that run is empty. */
  function ParseInt(s: string, radix: Radix): Num
  {
    var t := TrimStart(s);
    var negative := t != [] && t[0] == '-';
    var magnitude := ParseMagnitude(if t != [] && (t[0] == '-' || t[0] == '+') then t[1..] else t, radix);
    match magnitude
    case NaN => NaN
    case Int(v) => Int(if negative then -v else v)
  }

  /** The unsigned part of `parseInt`: optional "0x" prefix, then digits. */
  function ParseMagnitude(u: string, radix: Radix): (r: Num)
    ensures r.Int? ==> r.value >= 0
  {
    var hex := radix == Unspecified && |u| >= 2 && u[0] == '0' && (u[1] == 'x' || u[1] == 'X');
    var digits := DigitPrefix(if hex then u[2..] else u, hex);
    if digits == [] then NaN else Int(DigitsValue(digits, hex))
  }

  /** Decimal digits denote the number `toString` printed them from. */
  lemma {:induction false} DigitsValueOfNatToString(n: nat)
    ensures DigitsValue(NatToString(n), false) == n
  {
    if n >= 10 {
      var r := NatToString(n);
      DigitsValueOfNatToString(n / 10);
      assert r[..|r| - 1] == NatToString(n / 10);
    }
  }

  /** A leading zero does not change the value of a run of digits. */
  lemma {:induction false} DigitsValueLeadingZero(d: string, hex: bool)
    requires forall k :: 0 <= k < |d| ==> IsRadixDigit(d[k], hex)
    ensures DigitsValue("0" + d, hex) == DigitsValue(d, hex)
  {
    if d != [] {
      DigitsValueLeadingZero(d[..|d| - 1], hex);
      assert ("0" + d)[..|d|] == "0" + d[..|d| - 1];
    }
  }

  /** The digit run of a string that starts with the digits `d` and continues
      with something that is not a digit is `d`. */
  lemma {:induction false} DigitPrefixOfDigits(d: string, rest: string, hex: bool)
    requires forall k :: 0 <= k < |d| ==> IsRadixDigit(d[k], hex)
    requires rest == [] || !IsRadixDigit(rest[0], hex)
    ensures DigitPrefix(d + rest, hex) == d
  {
    if d != [] {
      DigitPrefixOfDigits(d[1..], rest, hex);
      assert (d + rest)[1..] == d[1..] + rest;
    }
  }

  /** A run of decimal digits with no sign and no "0x" prefix parses to its value. */
  lemma ParseIntOfDigits(d: string, radix: Radix)
    requires d != [] && forall k :: 0 <= k < |d| ==> IsDigit(d[k])
    ensures ParseInt(d, radix) == Int(DigitsValue(d, false))
  {
    DigitsUnsigned(d);
    ParseIntUnsigned(d, radix);
    DigitPrefixOfAllDigits(d);
    ParseMagnitudeOfDigits(d, radix);
  }

  /** A run of digits has no white space and no sign in front. */
  lemma DigitsUnsigned(d: string)
    requires d != [] && forall k :: 0 <= k < |d| ==> IsDigit(d[k])
    ensures TrimStart(d) == d && d[0] != '-' && d[0] != '+'
  {
    DigitNotSpace(d[0]);
    TrimStartOfVisible(d);
  }

  lemma DigitNotSpace(c: char)
    requires IsDigit(c)
    ensures !IsSpace(c)
  {
  }

  /** Without white space or a sign in front, `parseInt` reads the magnitude only. */
  lemma ParseIntUnsigned(u: string, radix: Radix)
    requires u != [] && TrimStart(u) == u && u[0] != '-' && u[0] != '+'
    ensures ParseInt(u, radix) == ParseMagnitude(u, radix)
  {
  }

  lemma ParseMagnitudeOfDigits(d: string, radix: Radix)
    requires d != [] && forall k :: 0 <= k < |d| ==> IsDigit(d[k])
    requires DigitPrefix(d, false) == d
    ensures ParseMagnitude(d, radix) == Int(DigitsValue(d, false))
  {
    var hex := radix == Unspecified && |d| >= 2 && d[0] == '0' && (d[1] == 'x' || d[1] == 'X');
    assert !hex by {
      if |d| >= 2 { assert IsDigit(d[1]); }
    }
  }

  lemma DigitPrefixOfAllDigits(d: string)
    requires forall k :: 0 <= k < |d| ==> IsDigit(d[k])
    ensures DigitPrefix(d, false) == d
  {
    DigitPrefixOfDigits(d, [], false);
    assert d + [] == d;
  }

  /** `parseInt(String(n)) == n`, in either radix form. */
  lemma ParseIntOfNatToString(n: nat, radix: Radix)
    ensures ParseInt(NatToString(n), radix) == Int(n)
  {
    ParseIntOfDigits(NatToString(n), radix);
    DigitsValueOfNatToString(n);
  }

  /** `parseInt(String(n).padStart(2, '0')) == n`: zero padding is harmless. */
  lemma ParseIntOfPadded(n: nat, radix: Radix)
    ensures ParseInt(PadStart2(NatToString(n)), radix) == Int(n)
  {
    var d := NatToString(n);
    DigitsValueOfNatToString(n);
    if |d| < 2 {
      assert PadStart2(d) == "0" + d;
      DigitsValueLeadingZero(d, false);
    }
    ParseIntOfDigits(PadStart2(d), radix);
  }

  /** A number below 100 prints as at most two digits. */
  lemma NatToStringBelow100(n: nat)
    requires n < 100
    ensures |NatToString(n)| <= 2
  {
    if n >= 10 {
      assert NatToString(n) == NatToString(n / 10) + [DigitChar(n % 10)];
    }
  }
}
