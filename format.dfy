/** Duration text of the playlist and liked-songs views: whole seconds to "M:SS" and back. */
module Format {
  import opened JsText
  import opened JsNumber

  /** `formatDuration`: minutes in decimal, ':', then the remaining seconds padded to two digits. */
  function FormatDuration(seconds: nat): string
  {
    NatToString(seconds / 60) + ":" + PadStart2(NatToString(seconds % 60))
  }

  /** `parseDuration`: with exactly one ':' the minutes times 60 plus the
      seconds (NaN when either field is not a number), otherwise 0. */
  function ParseDuration(s: string): (r: Num)
    ensures CountChar(s, ':') != 1 ==> r == Int(0)
  {
    SplitCharCount(s, ':');
    var parts := Split(s, ":");
    if |parts| == 2 then
      MinutesAndSeconds(ParseInt(parts[0], Unspecified), ParseInt(parts[1], Unspecified))
    else Int(0)
  }

  /** The seconds field of `formatDuration(n)`: exactly two digits that
      denote a value below 60. */
  lemma PaddedSecondsField(n: nat)
    ensures |PadStart2(NatToString(n % 60))| == 2
    ensures forall k :: 0 <= k < 2 ==> IsDigit(PadStart2(NatToString(n % 60))[k])
    ensures DigitsValue(PadStart2(NatToString(n % 60)), false) == n % 60 < 60
  {
    var d := NatToString(n % 60);
    NatToStringBelow100(n % 60);
    DigitsValueOfNatToString(n % 60);
    if |d| < 2 {
      assert PadStart2(d) == "0" + d;
      DigitsValueLeadingZero(d, false);
    }
  }

  /** The two fields of `formatDuration(n)`: the minutes, and a seconds field
      of exactly two digits that denotes a value below 60. */
  lemma FormatDurationFields(n: nat)
    ensures Split(FormatDuration(n), ":") == [NatToString(n / 60), PadStart2(NatToString(n % 60))]
    ensures |PadStart2(NatToString(n % 60))| == 2
    ensures forall k :: 0 <= k < 2 ==> IsDigit(PadStart2(NatToString(n % 60))[k])
    ensures DigitsValue(PadStart2(NatToString(n % 60)), false) == n % 60 < 60
  {
    var m, sec := NatToString(n / 60), PadStart2(NatToString(n % 60));
    PaddedSecondsField(n);
    SplitDigitFields(m, sec);
  }

  /** A text with exactly two fields parses field by field. */
  lemma ParseDurationOfParts(s: string, minutes: string, seconds: string)
    requires Split(s, ":") == [minutes, seconds]
    ensures ParseDuration(s) == MinutesAndSeconds(ParseInt(minutes, Unspecified), ParseInt(seconds, Unspecified))
  {
  }

  /** "a:b" for naturals a and b parses to a * 60 + b. */
  lemma ParseDurationOfFields(a: nat, b: nat)
    ensures ParseDuration(NatToString(a) + ":" + NatToString(b)) == Int(a * 60 + b)
  {
    var x, y := NatToString(a), NatToString(b);
    SplitDigitFields(x, y);
    ParseDurationOfParts(x + ":" + y, x, y);
    ParseIntOfNatToString(a, Unspecified);
    ParseIntOfNatToString(b, Unspecified);
  }

  /** Round trip: parsing a formatted duration gives the seconds back. */
  lemma ParseFormatDuration(n: nat)
    ensures ParseDuration(FormatDuration(n)) == Int(n)
  {
    var m, sec := NatToString(n / 60), PadStart2(NatToString(n % 60));
    FormatDurationFields(n);
    ParseDurationOfParts(FormatDuration(n), m, sec);
    ParseIntOfNatToString(n / 60, Unspecified);
    ParseIntOfPadded(n % 60, Unspecified);
    assert n / 60 * 60 + n % 60 == n;
  }
}
