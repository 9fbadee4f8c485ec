/** Lyrics handling of the player: the LRC timestamp parser, the timestamps
    given to plain lyrics, the "M:SS" duration parser, the active-line search
    used for highlighting, the choice between instrumental, synced and plain
    lyrics, and the white-space clean-up of search terms. Times are whole
    centiseconds (hundredths of a second), so "[01:02.50]" is 6250. */
module Lyrics {
  import opened Wrappers
  import opened Seqs
  import opened JsText
  import opened JsNumber

  /** One lyric line: its start time in centiseconds and its text. */
  datatype LyricLine = LyricLine(time: int, text: string)

  datatype LyricsKind = Synced | Plain

  /** What `getLyrics` returns; `kind` None is the source's `type: null`. */
  datatype LyricsResult = LyricsResult(lines: seq<LyricLine>, kind: Option<LyricsKind>)

  // ---------------------------------------------------------------- parseLRC

  /** The characters the regular-expression `.` does not match. */
  predicate IsLineTerminator(c: char) {
    c == '\n' || c == '\r' || c == '\U{2028}' || c == '\U{2029}'
  }

  /** What `(.*)` captures: the text up to the first line terminator. */
  function RestOfLine(s: string): (r: string)
    ensures |r| <= |s| && r == s[..|r|]
    ensures forall k :: 0 <= k < |r| ==> !IsLineTerminator(r[k])
    ensures |r| < |s| ==> IsLineTerminator(s[|r|])
  {
    if s == [] || IsLineTerminator(s[0]) then [] else [s[0]] + RestOfLine(s[1..])
  }

  predicate IsTwoDigits(d: string) {
    |d| == 2 && IsDigit(d[0]) && IsDigit(d[1])
  }

  function TwoDigitsValue(d: string): (v: nat)
    requires IsTwoDigits(d)
    ensures v < 100
  {
    DigitValue(d[0], false) * 10 + DigitValue(d[1], false)
  }

  /** The match of `\[(\d{2}):(\d{2})\.?(\d{2})?\](.*)` that starts at index
      `i`, if any: the time in centiseconds and the captured text. The four
      alternatives are tried in the order the backtracking matcher tries them. */
  function TimestampAt(line: string, i: nat): Option<(int, string)>
  {
    if i + 6 <= |line| && line[i] == '[' && IsTwoDigits(line[i + 1..i + 3]) &&
       line[i + 3] == ':' && IsTwoDigits(line[i + 4..i + 6])
    then
      var whole := TwoDigitsValue(line[i + 1..i + 3]) * 6000 + TwoDigitsValue(line[i + 4..i + 6]) * 100;
      var t := line[i + 6..];
      if |t| >= 4 && t[0] == '.' && IsTwoDigits(t[1..3]) && t[3] == ']' then
        Some((whole + TwoDigitsValue(t[1..3]), RestOfLine(t[4..])))
      else if |t| >= 2 && t[0] == '.' && t[1] == ']' then
        Some((whole, RestOfLine(t[2..])))
      else if |t| >= 3 && IsTwoDigits(t[..2]) && t[2] == ']' then
        Some((whole + TwoDigitsValue(t[..2]), RestOfLine(t[3..])))
      else if |t| >= 1 && t[0] == ']' then
        Some((whole, RestOfLine(t[1..])))
      else None
    else None
  }

  /** `line.match(...)`: the leftmost match at or after index `i`. */
  function FirstTimestamp(line: string, i: nat): Option<(int, string)>
    decreases |line| - i
  {
    if i >= |line| then None
    else if TimestampAt(line, i).Some? then TimestampAt(line, i)
    else FirstTimestamp(line, i + 1)
  }

  /** What one line contributes to `parseLRC`: a timestamped line whose
      trimmed text is not empty. */
  function LrcLine(line: string): (r: Option<LyricLine>)
    ensures r.Some? ==> r.value.text != [] && !IsSpace(r.value.text[0]) && !IsSpace(r.value.text[|r.value.text| - 1])
  {
    match FirstTimestamp(line, 0)
    case None => None
    case Some((time, raw)) => if Trim(raw) == "" then None else Some(LyricLine(time, Trim(raw)))
  }

  /** The lines `parseLRC` emits for the lines of its input, in order. */
  function CollectLrc(lines: seq<string>): (r: seq<LyricLine>)
    ensures |r| <= |lines|
    ensures forall k :: 0 <= k < |r| ==> r[k].text != [] && !IsSpace(r[k].text[0])
  {
    FilterMapAll(lines, LrcLine, HasVisibleStart);
    FilterMap(lines, LrcLine)
  }

  predicate HasVisibleStart(l: LyricLine) {
    l.text != [] && !IsSpace(l.text[0])
  }

  /** `parseLRC`: split on '\n' and push each kept line. */
  method ParseLrc(lrc: string) returns (lines: seq<LyricLine>)
    ensures lines == CollectLrc(Split(lrc, "\n"))
  {
    var lrcLines := Split(lrc, "\n");
    lines := [];
    for k := 0 to |lrcLines|
      invariant lines == CollectLrc(lrcLines[..k])
    {
      assert lrcLines[..k + 1][..k] == lrcLines[..k];
      var m := LrcLine(lrcLines[k]);
      if m.Some? {
        lines := lines + [m.value];
      }
    }
    assert lrcLines[..|lrcLines|] == lrcLines;
  }

  /** Input order is kept: the lines of a concatenation are the lines of each part, in turn. */
  lemma CollectLrcAppend(a: seq<string>, b: seq<string>)
    ensures CollectLrc(a + b) == CollectLrc(a) + CollectLrc(b)
  {
    FilterMapAppend(a, b, LrcLine);
  }

  /** The LRC line with the given minutes, seconds, optional hundredths and text. */
  function LrcText(mm: string, ss: string, xx: string, text: string): string {
    "[" + mm + ":" + ss + (if xx == "" then "" else "." + xx) + "]" + text
  }

  /** The time of "[MM:SS.xx]" in centiseconds: MM * 6000 + SS * 100 + xx,
      with xx 0 when absent. */
  function LrcTime(mm: string, ss: string, xx: string): int
    requires IsTwoDigits(mm) && IsTwoDigits(ss) && (xx == "" || IsTwoDigits(xx))
  {
    TwoDigitsValue(mm) * 6000 + TwoDigitsValue(ss) * 100 + (if xx == "" then 0 else TwoDigitsValue(xx))
  }

  /** A line "[MM:SS.xx]text" or "[MM:SS]text" gives time MM*6000 + SS*100 + xx
      centiseconds (xx is 0 when absent) and the trimmed text. */
  lemma LrcLineTimestamp(mm: string, ss: string, xx: string, text: string)
    requires IsTwoDigits(mm) && IsTwoDigits(ss) && (xx == "" || IsTwoDigits(xx))
    requires forall k :: 0 <= k < |text| ==> !IsLineTerminator(text[k])
    requires Trim(text) != ""
    ensures LrcLine(LrcText(mm, ss, xx, text)) == Some(LyricLine(LrcTime(mm, ss, xx), Trim(text)))
  {
    TimestampAtStart(mm, ss, xx, text);
    LrcLineOfMatch(LrcText(mm, ss, xx, text), LrcTime(mm, ss, xx), text);
  }

  /** A line whose first character starts a timestamp gives that timestamp's line. */
  lemma LrcLineOfMatch(line: string, time: int, raw: string)
    requires TimestampAt(line, 0) == Some((time, raw)) && Trim(raw) != ""
    ensures LrcLine(line) == Some(LyricLine(time, Trim(raw)))
  {
    assert FirstTimestamp(line, 0) == Some((time, raw)) by {
      assert |line| > 0;
    }
  }

  lemma TimestampAtStart(mm: string, ss: string, xx: string, text: string)
    requires IsTwoDigits(mm) && IsTwoDigits(ss) && (xx == "" || IsTwoDigits(xx))
    requires forall k :: 0 <= k < |text| ==> !IsLineTerminator(text[k])
    ensures TimestampAt(LrcText(mm, ss, xx, text), 0) == Some((LrcTime(mm, ss, xx), text))
  {
    var line := LrcText(mm, ss, xx, text);
    var frac := if xx == "" then "" else "." + xx;
    assert line == "[" + mm + ":" + ss + frac + "]" + text;
    assert line[0] == '[' && line[1..3] == mm && line[3] == ':' && line[4..6] == ss;
    var t := line[6..];
    assert t == frac + "]" + text;
    assert RestOfLine(text) == text;
    if xx == "" {
      assert t[0] == ']' && t[1..] == text;
    } else {
      assert t[0] == '.' && t[1..3] == xx && t[3] == ']' && t[4..] == text;
    }
  }

  // ---------------------------------------------------------- parsePlainLyrics

  /** The lines that are not blank. */
  function NonBlank(lines: seq<string>): seq<string> {
    Filter(lines, IsNonBlank)
  }

  predicate IsNonBlank(line: string) {
    Trim(line) != ""
  }

  /** `parsePlainLyrics`: the i-th non-blank line, trimmed, at 3 * i seconds. */
  function ParsePlainLyrics(plain: string): (r: seq<LyricLine>)
    ensures |r| == |NonBlank(Split(plain, "\n"))|
    ensures forall i :: 0 <= i < |r| ==> r[i].time == 300 * i && r[i].text != []
  {
    var kept := NonBlank(Split(plain, "\n"));
    seq(|kept|, i requires 0 <= i < |kept| => LyricLine(300 * i, Trim(kept[i])))
  }

  /** Every non-blank input line appears, trimmed, and nothing else does. */
  lemma PlainLyricsText(plain: string, line: string)
    ensures (exists i :: 0 <= i < |ParsePlainLyrics(plain)| && ParsePlainLyrics(plain)[i].text == Trim(line) &&
               NonBlank(Split(plain, "\n"))[i] == line)
        <==> line in Split(plain, "\n") && Trim(line) != ""
  {
    var kept := NonBlank(Split(plain, "\n"));
    FilterMembership(Split(plain, "\n"), IsNonBlank, line);
    if line in kept {
      var i :| 0 <= i < |kept| && kept[i] == line;
      assert ParsePlainLyrics(plain)[i].text == Trim(line);
    }
  }

  // ------------------------------------------------------ parseDurationToSeconds

  /** `parseDurationToSeconds`: with exactly one ':' the minutes times 60 plus
      the seconds, both read by `parseInt(_, 10)`; otherwise 0. */
  function ParseDurationToSeconds(duration: string): (r: Num)
    ensures CountChar(duration, ':') != 1 ==> r == Int(0)
  {
    SplitCharCount(duration, ':');
    var parts := Split(duration, ":");
    if |parts| == 2 then MinutesAndSeconds(ParseInt(parts[0], Ten), ParseInt(parts[1], Ten))
    else Int(0)
  }

  /** "M:SS" for naturals M and SS gives M * 60 + SS. */
  lemma ParseDurationToSecondsOfFields(m: nat, s: nat)
    ensures ParseDurationToSeconds(NatToString(m) + ":" + PadStart2(NatToString(s))) == Int(m * 60 + s)
  {
    var x, y := NatToString(m), PadStart2(NatToString(s));
    PadStart2Digits(NatToString(s));
    SplitDigitFields(x, y);
    ParseIntOfNatToString(m, Ten);
    ParseIntOfPadded(s, Ten);
  }

  // -------------------------------------------------------- getActiveLyricIndex

  /** `r` is the last line whose time has been reached at `currentTime`, or -1. */
  predicate IsActiveIndex(currentTime: int, lyrics: seq<LyricLine>, r: int) {
    -1 <= r < |lyrics| &&
    (r >= 0 ==> lyrics[r].time <= currentTime) &&
    forall j :: r < j < |lyrics| ==> lyrics[j].time > currentTime
  }

  /** `getActiveLyricIndex`: scan from the last line down, return the first
      whose time has passed; -1 for no lines or when every line is later. */
  method ActiveLyricIndex(currentTime: int, lyrics: seq<LyricLine>) returns (r: int)
    ensures IsActiveIndex(currentTime, lyrics, r)
    ensures lyrics == [] ==> r == -1
  {
    if |lyrics| == 0 {
      return -1;
    }
    var i := |lyrics| - 1;
    while i >= 0
      invariant -1 <= i < |lyrics|
      invariant forall j :: i < j < |lyrics| ==> lyrics[j].time > currentTime
    {
      if currentTime >= lyrics[i].time {
        return i;
      }
      i := i - 1;
    }
    return -1;
  }

  /** At most one index is the active one. */
  lemma ActiveIndexUnique(currentTime: int, lyrics: seq<LyricLine>, r1: int, r2: int)
    requires IsActiveIndex(currentTime, lyrics, r1) && IsActiveIndex(currentTime, lyrics, r2)
    ensures r1 == r2
  {
  }

  /** On plain lyrics (a line every 3 seconds) the active line at time t >= 0 is
      line t / 3 s, capped at the last line. */
  lemma ActiveIndexOfPlainLyrics(currentTime: int, plain: string)
    requires ParsePlainLyrics(plain) != []
    ensures IsActiveIndex(currentTime, ParsePlainLyrics(plain),
      if currentTime < 0 then -1
      else if currentTime / 300 < |ParsePlainLyrics(plain)| then currentTime / 300
      else |ParsePlainLyrics(plain)| - 1)
  {
    var ls := ParsePlainLyrics(plain);
    if currentTime >= 0 {
      var r := if currentTime / 300 < |ls| then currentTime / 300 else |ls| - 1;
      assert ls[r].time == 300 * r;
      forall j | r < j < |ls| ensures ls[j].time > currentTime {
        assert ls[j].time == 300 * j;
      }
    }
  }

  // ----------------------------------------------------------------- getLyrics

  /** The lyrics service's answer: not found / failed, or the fields it reports. */
  datatype LyricsResponse =
    | NotFound
    | Found(instrumental: bool, syncedLyrics: Option<string>, plainLyrics: Option<string>)

  const InstrumentalLine := LyricLine(0, "\U{1F3B5} Instrumental Track \U{1F3B5}")

  /** The result-selection part of `getLyrics`: instrumental first, then synced
      lyrics, then plain lyrics, and no lyrics otherwise or on failure. */
  function SelectLyrics(response: LyricsResponse): (r: LyricsResult)
    ensures response.Found? && response.instrumental ==> r == LyricsResult([InstrumentalLine], None)
    ensures r.kind == Some(Synced) <==>
      response.Found? && !response.instrumental && Truthy(response.syncedLyrics)
    ensures r.kind == Some(Synced) ==> r.lines == CollectLrc(Split(response.syncedLyrics.value, "\n"))
    ensures r.kind == Some(Plain) <==>
      response.Found? && !response.instrumental && !Truthy(response.syncedLyrics) && Truthy(response.plainLyrics)
    ensures r.kind == Some(Plain) ==> r.lines == ParsePlainLyrics(response.plainLyrics.value)
    ensures response.NotFound? || (!response.instrumental && !Truthy(response.syncedLyrics) && !Truthy(response.plainLyrics))
      ==> r == LyricsResult([], None)
  {
    match response
    case NotFound => LyricsResult([], None)
    case Found(instrumental, synced, plain) =>
      if instrumental then LyricsResult([InstrumentalLine], None)
      else if Truthy(synced) then LyricsResult(CollectLrc(Split(synced.value, "\n")), Some(Synced))
      else if Truthy(plain) then LyricsResult(ParsePlainLyrics(plain.value), Some(Plain))
      else LyricsResult([], None)
  }

  // ----------------------------------------------------------- cleanString

  /** `.replace(/\s+/g, ' ')`: each maximal run of white space becomes one space. */
  function CollapseSpaces(s: string): (r: string)
    ensures r == [] <==> s == []
    ensures r != [] ==> (IsSpace(r[0]) <==> IsSpace(s[0]))
    ensures forall k :: 0 <= k < |r| && IsSpace(r[k]) ==> r[k] == ' '
    ensures forall j, k :: 0 <= j && k == j + 1 && k < |r| ==> !(IsSpace(r[j]) && IsSpace(r[k]))
    decreases |s|
  {
    if s == [] then []
    else if IsSpace(s[0]) then [' '] + CollapseSpaces(TrimStart(s))
    else [s[0]] + CollapseSpaces(s[1..])
  }

  /** A run of white space between two pieces becomes exactly one space:
      the pieces are neither joined nor pushed further apart. */
  lemma {:induction false} CollapseSpacesSeparates(w1: string, spaces: string, w2: string)
    requires w1 == [] || !IsSpace(w1[|w1| - 1])
    requires spaces != [] && forall k :: 0 <= k < |spaces| ==> IsSpace(spaces[k])
    requires w2 == [] || !IsSpace(w2[0])
    ensures CollapseSpaces(w1 + spaces + w2) == CollapseSpaces(w1) + " " + CollapseSpaces(w2)
    decreases |w1|, 1
  {
    if w1 == [] {
      assert w1 + spaces + w2 == spaces + w2;
      TrimStartOfSpaces(spaces, w2);
    } else if !IsSpace(w1[0]) {
      SeparatesAfterVisibleHead(w1, spaces, w2);
    } else {
      SeparatesAfterSpaceHead(w1, spaces, w2);
    }
  }

  lemma {:induction false} SeparatesAfterVisibleHead(w1: string, spaces: string, w2: string)
    requires w1 != [] && !IsSpace(w1[0]) && !IsSpace(w1[|w1| - 1])
    requires spaces != [] && forall k :: 0 <= k < |spaces| ==> IsSpace(spaces[k])
    requires w2 == [] || !IsSpace(w2[0])
    ensures CollapseSpaces(w1 + spaces + w2) == CollapseSpaces(w1) + " " + CollapseSpaces(w2)
    decreases |w1|, 0
  {
    var rest := w1[1..];
    assert rest == [] || rest[|rest| - 1] == w1[|w1| - 1];
    CollapseOfVisibleHead(w1, spaces, w2);
    CollapseSpacesSeparates(rest, spaces, w2);
    JoinAfterHead(CollapseSpaces(w1 + spaces + w2), [w1[0]], CollapseSpaces(rest + spaces + w2),
      CollapseSpaces(rest), CollapseSpaces(w2));
  }

  lemma {:induction false} SeparatesAfterSpaceHead(w1: string, spaces: string, w2: string)
    requires w1 != [] && IsSpace(w1[0]) && !IsSpace(w1[|w1| - 1])
    requires spaces != [] && forall k :: 0 <= k < |spaces| ==> IsSpace(spaces[k])
    requires w2 == [] || !IsSpace(w2[0])
    ensures CollapseSpaces(w1 + spaces + w2) == CollapseSpaces(w1) + " " + CollapseSpaces(w2)
    decreases |w1|, 0
  {
    var t := TrimStart(w1);
    CollapseOfSpaceHead(w1, spaces, w2);
    CollapseSpacesSeparates(t, spaces, w2);
    JoinAfterHead(CollapseSpaces(w1 + spaces + w2), [' '], CollapseSpaces(t + spaces + w2),
      CollapseSpaces(t), CollapseSpaces(w2));
  }

  lemma JoinAfterHead(whole: string, head: string, tail: string, a: string, b: string)
    requires whole == head + tail && tail == a + " " + b
    ensures whole == (head + a) + " " + b
  {
  }

  /** The collapse of `w + a + b`, where `w` starts with a character that is
      not white space, keeps that character in front. */
  lemma CollapseOfVisibleHead(w: string, a: string, b: string)
    requires w != [] && !IsSpace(w[0])
    ensures CollapseSpaces(w + a + b) == [w[0]] + CollapseSpaces(w[1..] + a + b)
    ensures CollapseSpaces(w) == [w[0]] + CollapseSpaces(w[1..])
  {
    assert (w + a + b)[1..] == w[1..] + a + b;
  }

  /** The collapse of `w + a + b`, where `w` starts with white space but does
      not end with it, is one space and the collapse of what follows the
      leading run of `w`. */
  lemma CollapseOfSpaceHead(w: string, a: string, b: string)
    requires w != [] && IsSpace(w[0]) && !IsSpace(w[|w| - 1])
    ensures TrimStart(w) != [] && |TrimStart(w)| < |w| && !IsSpace(TrimStart(w)[|TrimStart(w)| - 1])
    ensures CollapseSpaces(w + a + b) == [' '] + CollapseSpaces(TrimStart(w) + a + b)
    ensures CollapseSpaces(w) == [' '] + CollapseSpaces(TrimStart(w))
  {
    var t := TrimStart(w);
    var lead := w[..|w| - |t|];
    assert t != [];
    assert t[|t| - 1] == w[|w| - 1];
    assert w + a + b == lead + (t + a + b);
    TrimStartOfSpaces(lead, t + a + b);
  }

  /** Text without white space is left as it is by the collapse. */
  lemma {:induction false} CollapseSpacesOfWord(w: string)
    requires forall k :: 0 <= k < |w| ==> !IsSpace(w[k])
    ensures CollapseSpaces(w) == w
    decreases |w|
  {
    if w != [] {
      CollapseSpacesOfWord(w[1..]);
    }
  }

  /** The white-space step of `cleanString`: collapse runs, then trim. */
  function NormalizeSpaces(s: string): (r: string)
    ensures r == [] || (!IsSpace(r[0]) && !IsSpace(r[|r| - 1]))
    ensures forall k :: 0 <= k < |r| && IsSpace(r[k]) ==> r[k] == ' '
    ensures forall j, k :: 0 <= j && k == j + 1 && k < |r| ==> !(IsSpace(r[j]) && IsSpace(r[k]))
  {
    TrimSingleSpaced(CollapseSpaces(s));
    Trim(CollapseSpaces(s))
  }

  /** Two words with white space between them normalize to the two words
      with one space between them. */
  lemma NormalizeSpacesOfTwoWords(w1: string, spaces: string, w2: string)
    requires w1 != [] && forall k :: 0 <= k < |w1| ==> !IsSpace(w1[k])
    requires spaces != [] && forall k :: 0 <= k < |spaces| ==> IsSpace(spaces[k])
    requires w2 != [] && forall k :: 0 <= k < |w2| ==> !IsSpace(w2[k])
    ensures NormalizeSpaces(w1 + spaces + w2) == w1 + " " + w2
  {
    var c := w1 + " " + w2;
    CollapseTwoWords(w1, spaces, w2);
    assert c[0] == w1[0] && c[|c| - 1] == w2[|w2| - 1];
    TrimOfVisibleEnds(c);
  }

  lemma CollapseTwoWords(w1: string, spaces: string, w2: string)
    requires w1 != [] && forall k :: 0 <= k < |w1| ==> !IsSpace(w1[k])
    requires spaces != [] && forall k :: 0 <= k < |spaces| ==> IsSpace(spaces[k])
    requires w2 != [] && forall k :: 0 <= k < |w2| ==> !IsSpace(w2[k])
    ensures CollapseSpaces(w1 + spaces + w2) == w1 + " " + w2
  {
    CollapseSpacesSeparates(w1, spaces, w2);
    CollapseSpacesOfWord(w1);
    CollapseSpacesOfWord(w2);
  }

  /** Trimming single-spaced text gives single-spaced text with no white
      space at either end. */
  lemma TrimSingleSpaced(c: string)
    requires forall k :: 0 <= k < |c| && IsSpace(c[k]) ==> c[k] == ' '
    requires forall j, k :: 0 <= j && k == j + 1 && k < |c| ==> !(IsSpace(c[j]) && IsSpace(c[k]))
    ensures var r := Trim(c);
      r == [] || (!IsSpace(r[0]) && !IsSpace(r[|r| - 1]))
    ensures var r := Trim(c);
      forall k :: 0 <= k < |r| && IsSpace(r[k]) ==> r[k] == ' '
    ensures var r := Trim(c);
      forall j, k :: 0 <= j && k == j + 1 && k < |r| ==> !(IsSpace(r[j]) && IsSpace(r[k]))
  {
    var r, i := Trim(c), TrimmedFrom(c);
    SingleSpacedSlice(c, i, r);
  }

  /** A slice of single-spaced text is single-spaced. */
  lemma SingleSpacedSlice(c: string, i: nat, r: string)
    requires i + |r| <= |c|
    requires forall k :: 0 <= k < |r| ==> r[k] == c[i + k]
    requires forall k :: 0 <= k < |c| && IsSpace(c[k]) ==> c[k] == ' '
    requires forall j, k :: 0 <= j && k == j + 1 && k < |c| ==> !(IsSpace(c[j]) && IsSpace(c[k]))
    ensures forall k :: 0 <= k < |r| && IsSpace(r[k]) ==> r[k] == ' '
    ensures forall j, k :: 0 <= j && k == j + 1 && k < |r| ==> !(IsSpace(r[j]) && IsSpace(r[k]))
  {
    forall j, k | 0 <= j && k == j + 1 && k < |r| ensures !(IsSpace(r[j]) && IsSpace(r[k])) {
      assert r[j] == c[i + j] && r[k] == c[i + k];
    }
  }

  predicate NotSpace(c: char) {
    !IsSpace(c)
  }

  /** The characters that are not white space, in order. */
  function Visible(s: string): string {
    Filter(s, NotSpace)
  }

  /** Collapsing and trimming white space leaves every other character, in order. */
  lemma NormalizeSpacesKeepsVisible(s: string)
    ensures Visible(NormalizeSpaces(s)) == Visible(s)
  {
    CollapseSpacesKeepsVisible(s);
    TrimKeepsVisible(CollapseSpaces(s));
  }

  lemma TrimKeepsVisible(c: string)
    ensures Visible(Trim(c)) == Visible(c)
  {
    VisibleOfSlice(c, TrimmedFrom(c), Trim(c));
  }

  /** A slice of `c` with only white space around it has what `c` has visible. */
  lemma VisibleOfSlice(c: string, i: nat, r: string)
    requires i + |r| <= |c|
    requires forall k :: 0 <= k < |r| ==> r[k] == c[i + k]
    requires forall k :: 0 <= k < i ==> IsSpace(c[k])
    requires forall k :: i + |r| <= k < |c| ==> IsSpace(c[k])
    ensures Visible(r) == Visible(c)
  {
    var front, back := c[..i], c[i + |r|..];
    assert r == c[i..i + |r|];
    assert c == front + r + back;
    assert forall k :: 0 <= k < |back| ==> IsSpace(back[k]) by {
      forall k | 0 <= k < |back| ensures IsSpace(back[k]) {
        assert back[k] == c[i + |r| + k];
      }
    }
    VisibleBetweenSpaces(front, r, back);
  }

  lemma VisibleBetweenSpaces(front: string, r: string, back: string)
    requires forall k :: 0 <= k < |front| ==> IsSpace(front[k])
    requires forall k :: 0 <= k < |back| ==> IsSpace(back[k])
    ensures Visible(front + r + back) == Visible(r)
  {
    FilterAppend(front + r, back, NotSpace);
    FilterAppend(front, r, NotSpace);
    FilterNone(front, NotSpace);
    FilterNone(back, NotSpace);
  }

  lemma {:induction false} CollapseSpacesKeepsVisible(s: string)
    ensures Visible(CollapseSpaces(s)) == Visible(s)
    decreases |s|
  {
    if s != [] {
      if IsSpace(s[0]) {
        var t := TrimStart(s);
        var n := |s| - |t|;
        CollapseSpacesKeepsVisible(t);
        assert s == s[..n] + t;
        VisibleAfterSpaces(s[..n], t);
        assert CollapseSpaces(s) == [' '] + CollapseSpaces(t);
        VisibleAfterSpaces([' '], CollapseSpaces(t));
      } else {
        CollapseSpacesKeepsVisible(s[1..]);
        VisibleOfCons(s[0], s[1..]);
        VisibleOfCons(s[0], CollapseSpaces(s[1..]));
        assert s == [s[0]] + s[1..];
      }
    }
  }

  /** Leading white space contributes nothing visible. */
  lemma VisibleAfterSpaces(spaces: string, rest: string)
    requires forall k :: 0 <= k < |spaces| ==> IsSpace(spaces[k])
    ensures Visible(spaces + rest) == Visible(rest)
  {
    FilterAppend(spaces, rest, NotSpace);
    FilterNone(spaces, NotSpace);
  }

  /** A character that is not white space is kept in front. */
  lemma VisibleOfCons(c: char, rest: string)
    requires !IsSpace(c)
    ensures Visible([c] + rest) == [c] + Visible(rest)
  {
    assert ([c] + rest)[1..] == rest;
  }
}
