/** The two helpers that the YouTube search route and the YouTube music route
    each carry an identical copy of: `parseDuration`, which turns the time part
    of an ISO 8601 duration ("PT1H2M3S", the format with designators of
    section 4.4.3.2 of ISO 8601:2004) into "H:MM:SS" or "M:SS", and the split
    of a video title "Artist - Title" into artist and song title. */
module YouTubeShaping {
  import opened Wrappers
  import opened JsText
  import opened JsNumber

  /** Hours, minutes and seconds read from an ISO 8601 duration. */
  datatype IsoParts = IsoParts(hours: nat, minutes: nat, seconds: nat)

  /** The optional group `(?:(\d+)X)?` at index `i`, for designator X: the
      number and the index after the designator when the run of digits there
      is followed by X, otherwise 0 and `i` (the group is skipped). */
  function IsoGroup(s: string, i: nat, designator: char): (r: (nat, nat))
    requires i <= |s|
    ensures i <= r.1 <= |s|
  {
    var d := DigitPrefix(s[i..], false);
    if d != [] && i + |d| < |s| && s[i + |d|] == designator then (DigitsValue(d, false), i + |d| + 1)
    else (0, i)
  }

  /** `isoDuration.match(/PT(?:(\d+)H)?(?:(\d+)M)?(?:(\d+)S)?/)`: the match
      starts at the first "PT"; absent groups read as 0. */
  function IsoMatch(iso: string): Option<IsoParts> {
    var p := IndexOf(iso, "PT");
    if p == -1 then None else Some(IsoGroups(iso, p + 2))
  }

  /** The three optional groups, read one after the other from index `i`. */
  function IsoGroups(iso: string, i: nat): IsoParts
    requires i <= |iso|
  {
    var (h, afterH) := IsoGroup(iso, i, 'H');
    var (m, afterM) := IsoGroup(iso, afterH, 'M');
    var (s, _) := IsoGroup(iso, afterM, 'S');
    IsoParts(h, m, s)
  }

  /** "H:MM:SS" when there are hours, else "M:SS"; padded fields have at least two digits. */
  function FormatIso(p: IsoParts): string {
    if p.hours > 0 then
      NatToString(p.hours) + ":" + PadStart2(NatToString(p.minutes)) + ":" + PadStart2(NatToString(p.seconds))
    else
      NatToString(p.minutes) + ":" + PadStart2(NatToString(p.seconds))
  }

  /** `parseDuration` of both routes. */
  function ParseIsoDuration(iso: string): (r: string)
    ensures !Contains(iso, "PT") ==> r == "0:00"
  {
    match IsoMatch(iso)
    case None => "0:00"
    case Some(p) => FormatIso(p)
  }

  /** The ISO 8601 text with the given optional hour, minute and second counts. */
  function IsoText(hours: Option<nat>, minutes: Option<nat>, seconds: Option<nat>): string {
    "PT" + Designated(hours, 'H') + Designated(minutes, 'M') + Designated(seconds, 'S')
  }

  function Designated(n: Option<nat>, designator: char): string {
    if n.Some? then NatToString(n.value) + [designator] else ""
  }

  /** Reading back an ISO 8601 duration built from counts gives those counts,
      with 0 for every count that is left out. */
  lemma IsoMatchOfText(hours: Option<nat>, minutes: Option<nat>, seconds: Option<nat>)
    ensures IsoMatch(IsoText(hours, minutes, seconds)) == Some(IsoParts(hours.GetOr(0), minutes.GetOr(0), seconds.GetOr(0)))
  {
    var iso := IsoText(hours, minutes, seconds);
    assert OccursAt(iso, "PT", 0) by { assert iso[0..2] == "PT"; }
    assert IndexOf(iso, "PT") == 0;
    IsoGroupsOfText(hours, minutes, seconds);
  }

  lemma IsoGroupsOfText(hours: Option<nat>, minutes: Option<nat>, seconds: Option<nat>)
    ensures |IsoText(hours, minutes, seconds)| >= 2
    ensures IsoGroups(IsoText(hours, minutes, seconds), 2) == IsoParts(hours.GetOr(0), minutes.GetOr(0), seconds.GetOr(0))
  {
    var iso := IsoText(hours, minutes, seconds);
    var afterH := 2 + |Designated(hours, 'H')|;
    var afterM := afterH + |Designated(minutes, 'M')|;
    HoursGroup(hours, minutes, seconds);
    MinutesGroup(hours, minutes, seconds);
    SecondsGroup(hours, minutes, seconds);
    GroupsInOrder(iso, 2, hours.GetOr(0), afterH, minutes.GetOr(0), afterM, seconds.GetOr(0));
  }

  lemma HoursGroup(hours: Option<nat>, minutes: Option<nat>, seconds: Option<nat>)
    ensures 2 + |Designated(hours, 'H')| <= |IsoText(hours, minutes, seconds)|
    ensures IsoGroup(IsoText(hours, minutes, seconds), 2, 'H').0 == hours.GetOr(0)
    ensures IsoGroup(IsoText(hours, minutes, seconds), 2, 'H').1 == 2 + |Designated(hours, 'H')|
  {
    var hText, mText, sText := Designated(hours, 'H'), Designated(minutes, 'M'), Designated(seconds, 'S');
    var iso := IsoText(hours, minutes, seconds);
    IsoTextSuffixes(hours, minutes, seconds);
    NextDesignator(seconds, 'S', "", 'H');
    assert sText + "" == sText;
    NextDesignator(minutes, 'M', sText, 'H');
    GroupStep(iso, 2, hours, 'H', mText + sText);
  }

  lemma MinutesGroup(hours: Option<nat>, minutes: Option<nat>, seconds: Option<nat>)
    ensures 2 + |Designated(hours, 'H')| + |Designated(minutes, 'M')| <= |IsoText(hours, minutes, seconds)|
    ensures IsoGroup(IsoText(hours, minutes, seconds), 2 + |Designated(hours, 'H')|, 'M').0 == minutes.GetOr(0)
    ensures IsoGroup(IsoText(hours, minutes, seconds), 2 + |Designated(hours, 'H')|, 'M').1
            == 2 + |Designated(hours, 'H')| + |Designated(minutes, 'M')|
  {
    var hText, mText, sText := Designated(hours, 'H'), Designated(minutes, 'M'), Designated(seconds, 'S');
    var iso := IsoText(hours, minutes, seconds);
    IsoTextSuffixes(hours, minutes, seconds);
    NextDesignator(seconds, 'S', "", 'M');
    assert sText + "" == sText;
    GroupStep(iso, 2 + |hText|, minutes, 'M', sText);
  }

  lemma SecondsGroup(hours: Option<nat>, minutes: Option<nat>, seconds: Option<nat>)
    ensures 2 + |Designated(hours, 'H')| + |Designated(minutes, 'M')| <= |IsoText(hours, minutes, seconds)|
    ensures IsoGroup(IsoText(hours, minutes, seconds), 2 + |Designated(hours, 'H')| + |Designated(minutes, 'M')|, 'S').0
            == seconds.GetOr(0)
  {
    var hText, mText, sText := Designated(hours, 'H'), Designated(minutes, 'M'), Designated(seconds, 'S');
    var iso := IsoText(hours, minutes, seconds);
    IsoTextSuffixes(hours, minutes, seconds);
    LastGroup(iso, 2 + |hText| + |mText|, seconds);
  }

  /** The seconds group at the end of the text. */
  lemma LastGroup(iso: string, i: nat, n: Option<nat>)
    requires i <= |iso| && iso[i..] == Designated(n, 'S')
    ensures IsoGroup(iso, i, 'S').0 == n.GetOr(0)
  {
    assert iso[i..] == Designated(n, 'S') + "";
    GroupStep(iso, i, n, 'S', "");
  }

  /** The text after "PT", after the hours group and after the minutes group. */
  lemma IsoTextSuffixes(hours: Option<nat>, minutes: Option<nat>, seconds: Option<nat>)
    ensures var hText, mText, sText := Designated(hours, 'H'), Designated(minutes, 'M'), Designated(seconds, 'S');
      var iso := IsoText(hours, minutes, seconds);
      2 + |hText| + |mText| + |sText| == |iso| &&
      iso[2..] == hText + (mText + sText) &&
      iso[2 + |hText|..] == mText + sText &&
      iso[2 + |hText| + |mText|..] == sText
  {
    DropPrefixes("PT", Designated(hours, 'H'), Designated(minutes, 'M'), Designated(seconds, 'S'));
  }

  lemma DropPrefixes(p: string, a: string, b: string, c: string)
    ensures |p + a + b + c| == |p| + |a| + |b| + |c|
    ensures (p + a + b + c)[|p|..] == a + (b + c)
    ensures (p + a + b + c)[|p| + |a|..] == b + c
    ensures (p + a + b + c)[|p| + |a| + |b|..] == c
  {
  }

  lemma GroupsInOrder(iso: string, i: nat, h: nat, afterH: nat, m: nat, afterM: nat, s: nat)
    requires i <= afterH <= afterM <= |iso|
    requires IsoGroup(iso, i, 'H').0 == h && IsoGroup(iso, i, 'H').1 == afterH
    requires IsoGroup(iso, afterH, 'M').0 == m && IsoGroup(iso, afterH, 'M').1 == afterM
    requires IsoGroup(iso, afterM, 'S').0 == s
    ensures IsoGroups(iso, i) == IsoParts(h, m, s)
  {
  }

  /** The run of digits at the start of `rest` is not followed by `designator`. */
  predicate NotFollowedBy(rest: string, designator: char) {
    var d := DigitPrefix(rest, false);
    |d| < |rest| ==> rest[|d|] != designator
  }

  lemma NextDesignator(n: Option<nat>, next: char, rest: string, designator: char)
    requires next != designator && !IsDigit(next)
    requires NotFollowedBy(rest, designator)
    ensures NotFollowedBy(Designated(n, next) + rest, designator)
  {
    if n.Some? {
      var d := NatToString(n.value);
      DigitPrefixOfDigits(d, [next] + rest, false);
      assert Designated(n, next) + rest == d + ([next] + rest);
    } else {
      assert Designated(n, next) + rest == rest;
    }
  }

  /** One group of `IsoMatch` on text built by `Designated`, followed by text
      whose leading digits are not followed by the same designator. */
  lemma GroupStep(iso: string, i: nat, n: Option<nat>, designator: char, rest: string)
    requires !IsDigit(designator)
    requires i <= |iso| && iso[i..] == Designated(n, designator) + rest
    requires NotFollowedBy(rest, designator)
    ensures IsoGroup(iso, i, designator).0 == n.GetOr(0)
    ensures IsoGroup(iso, i, designator).1 == i + |Designated(n, designator)|
  {
    if n.Some? {
      var d := NatToString(n.value);
      assert iso[i..] == d + ([designator] + rest);
      DigitPrefixOfDigits(d, [designator] + rest, false);
      assert iso[i + |d|] == iso[i..][|d|];
      DigitsValueOfNatToString(n.value);
    } else {
      assert iso[i..] == rest;
    }
  }

  /** With hours, the output has three ':'-separated fields: the hours, then
      minutes and seconds of at least two digits each, each reading back as its count. */
  lemma FormatIsoWithHours(p: IsoParts)
    requires p.hours > 0
    ensures Split(FormatIso(p), ":") == [NatToString(p.hours), PadStart2(NatToString(p.minutes)), PadStart2(NatToString(p.seconds))]
    ensures |PadStart2(NatToString(p.minutes))| >= 2 && |PadStart2(NatToString(p.seconds))| >= 2
    ensures ParseInt(NatToString(p.hours), Ten) == Int(p.hours)
    ensures ParseInt(PadStart2(NatToString(p.minutes)), Ten) == Int(p.minutes)
    ensures ParseInt(PadStart2(NatToString(p.seconds)), Ten) == Int(p.seconds)
  {
    var h, m, s := NatToString(p.hours), PadStart2(NatToString(p.minutes)), PadStart2(NatToString(p.seconds));
    NoColonInDigits(h);
    NoColonInPadded(p.minutes);
    NoColonInPadded(p.seconds);
    assert FormatIso(p) == h + [':'] + (m + [':'] + s);
    SplitOnChar(h, ':', m + [':'] + s);
    SplitOnChar(m, ':', s);
    SplitWithoutSeparator(s, ":");
    ParseIntOfNatToString(p.hours, Ten);
    ParseIntOfPadded(p.minutes, Ten);
    ParseIntOfPadded(p.seconds, Ten);
  }

  /** Without hours, the output is "M:SS": unpadded minutes, seconds of at
      least two digits, each reading back as its count. */
  lemma FormatIsoWithoutHours(p: IsoParts)
    requires p.hours == 0
    ensures Split(FormatIso(p), ":") == [NatToString(p.minutes), PadStart2(NatToString(p.seconds))]
    ensures |PadStart2(NatToString(p.seconds))| >= 2
    ensures ParseInt(NatToString(p.minutes), Ten) == Int(p.minutes)
    ensures ParseInt(PadStart2(NatToString(p.seconds)), Ten) == Int(p.seconds)
  {
    var m, s := NatToString(p.minutes), PadStart2(NatToString(p.seconds));
    NoColonInDigits(m);
    NoColonInPadded(p.seconds);
    SplitOnChar(m, ':', s);
    SplitWithoutSeparator(s, ":");
    ParseIntOfNatToString(p.minutes, Ten);
    ParseIntOfPadded(p.seconds, Ten);
  }

  lemma NoColonInDigits(d: string)
    requires forall k :: 0 <= k < |d| ==> IsDigit(d[k])
    ensures ':' !in d
  {
  }

  lemma NoColonInPadded(n: nat)
    ensures ':' !in PadStart2(NatToString(n))
  {
    var d := PadStart2(NatToString(n));
    assert forall k :: 0 <= k < |d| ==> IsDigit(d[k]);
    NoColonInDigits(d);
  }

  // ------------------------------------------------------------ artist/title

  /** Artist and song title as the routes report them. */
  datatype Credit = Credit(artist: string, title: string)

  const Separator := " - "

  /** A title "Artist - Song" gives the trimmed first piece as artist and the
      trimmed rest (re-joined with " - ") as title; otherwise the channel is the artist. */
  function SplitArtistTitle(title: string, channelTitle: string): Credit {
    if Contains(title, Separator) then
      var parts := Split(title, Separator);
      Credit(Trim(parts[0]), Trim(Join(parts[1..], Separator)))
    else
      Credit(channelTitle, title)
  }

  /** The split is at the first " - ": the artist is the trimmed text before
      it and the title the trimmed text after it, later " - " included. */
  lemma SplitAtFirstSeparator(title: string, channelTitle: string)
    requires Contains(title, Separator)
    ensures var i := IndexOf(title, Separator);
      0 <= i && i + 3 <= |title| &&
      SplitArtistTitle(title, channelTitle) == Credit(Trim(title[..i]), Trim(title[i + 3..]))
  {
    var i := IndexOf(title, Separator);
    var parts := Split(title, Separator);
    assert parts == [title[..i]] + Split(title[i + 3..], Separator);
    assert parts[1..] == Split(title[i + 3..], Separator);
  }

  /** A title without " - " is kept whole and the channel is the artist. */
  lemma SplitWithoutSeparatorKeepsTitle(title: string, channelTitle: string)
    requires !Contains(title, Separator)
    ensures SplitArtistTitle(title, channelTitle) == Credit(channelTitle, title)
  {
  }
}
