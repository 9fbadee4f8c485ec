/** The pure parts of the YouTube search route: the search URL built from the
    request's `q` and `type` parameters and the configured API key, the list of
    video ids passed to the details request, and the song built from each
    returned video. The two requests themselves are not modelled: the video
    details come in as values. */
module YouTubeSearch {
  import opened Wrappers
  import opened JsText
  import opened Songs
  import opened YouTubeShaping

  const YouTubeApiBase := "https://www.googleapis.com/youtube/v3"

  /** An error response: its HTTP status and the `error` text of its body. */
  datatype HttpError = HttpError(status: nat, message: string)

  // ------------------------------------------------------ encodeURIComponent

  /** The characters `encodeURIComponent` leaves as they are. */
  predicate IsUnreserved(c: char) {
    ('A' <= c <= 'Z') || ('a' <= c <= 'z') || ('0' <= c <= '9') ||
    c == '-' || c == '_' || c == '.' || c == '!' || c == '~' || c == '*' ||
    c == '\'' || c == '(' || c == ')'
  }

  /** The UTF-8 encoding of one code point (RFC 3629, section 3). */
  function Utf8(c: char): (bytes: seq<nat>)
    ensures 1 <= |bytes| <= 4
    ensures forall k :: 0 <= k < |bytes| ==> bytes[k] < 256
    ensures |bytes| == 1 <==> (c as int) < 0x80
    ensures |bytes| == 1 ==> bytes[0] == c as int
  {
    var n := c as int;
    if n < 0x80 then [n]
    else if n < 0x800 then [0xC0 + n / 64, 0x80 + n % 64]
    else if n < 0x1_0000 then [0xE0 + n / 4096, 0x80 + (n / 64) % 64, 0x80 + n % 64]
    else [0xF0 + n / 262144 % 8, 0x80 + (n / 4096) % 64, 0x80 + (n / 64) % 64, 0x80 + n % 64]
  }

  /** An upper-case hexadecimal digit. */
  function HexDigit(d: nat): (c: char)
    requires d < 16
    ensures IsUnreserved(c)
  {
    if d < 10 then (48 + d) as char else (55 + d) as char
  }

  /** A byte as "%XX" with upper-case hexadecimal digits. */
  function PercentByte(b: nat): (r: string)
    requires b < 256
    ensures |r| == 3 && r[0] == '%' && IsUnreserved(r[1]) && IsUnreserved(r[2])
  {
    ['%', HexDigit(b / 16), HexDigit(b % 16)]
  }

  function PercentBytes(bytes: seq<nat>): (r: string)
    requires forall k :: 0 <= k < |bytes| ==> bytes[k] < 256
    ensures |r| == 3 * |bytes|
    ensures forall k :: 0 <= k < |r| ==> IsUnreserved(r[k]) || r[k] == '%'
  {
    if bytes == [] then "" else PercentByte(bytes[0]) + PercentBytes(bytes[1..])
  }

  /** `encodeURIComponent(s)`: unreserved characters are kept, every other
      code point becomes its UTF-8 bytes, each written "%XX". The result holds
      only unreserved characters and '%', so it holds no '&', '=' or '#' and
      stays one query parameter. */
  function EncodeUriComponent(s: string): (r: string)
    ensures |r| >= |s|
    ensures forall k :: 0 <= k < |r| ==> IsUnreserved(r[k]) || r[k] == '%'
  {
    if s == [] then ""
    else
      var head := if IsUnreserved(s[0]) then [s[0]] else PercentBytes(Utf8(s[0]));
      head + EncodeUriComponent(s[1..])
  }

  /** A string of unreserved characters is left as it is. */
  lemma {:induction false} EncodeUnreserved(s: string)
    requires forall k :: 0 <= k < |s| ==> IsUnreserved(s[k])
    ensures EncodeUriComponent(s) == s
  {
    if s != [] {
      EncodeUnreserved(s[1..]);
    }
  }

  /** Every other character grows into at least one "%XX" triple; an ASCII
      character into exactly one, holding its code. */
  lemma EncodeReservedChar(c: char)
    requires !IsUnreserved(c)
    ensures |EncodeUriComponent([c])| >= 3 && EncodeUriComponent([c])[0] == '%'
    ensures (c as int) < 0x80 ==> EncodeUriComponent([c]) == PercentByte(c as int)
  {
    assert [c][1..] == [];
  }

  // --------------------------------------------------------------- search URL

  const SearchEndpoint := YouTubeApiBase + "/search?part=snippet"

  /** The URL before the type suffix, with the query encoded. */
  function BaseUrl(query: string, apiKey: string): string {
    SearchEndpoint + "&" + "maxResults=20" + "&" + ("q=" + EncodeUriComponent(query)) + "&" + ("key=" + apiKey)
  }

  /** The `type` parameter, "songs" when it is missing or empty. */
  function SearchKind(kind: Option<string>): (r: string)
    ensures r != ""
  {
    OrElse(kind, "songs")
  }

  /** The search URL of the route, or the error response it returns first:
      400 without a query, 500 without an API key. The type appends
      "&type=channel" for artists, "&type=playlist" for albums and
      "&type=video" for videos; songs and every other type append
      "&type=video" and, unless the lower-cased query contains "mix", the
      music category "&videoCategoryId=10". */
  method SearchUrl(query: Option<string>, kind: Option<string>, apiKey: Option<string>)
    returns (r: Result<string, HttpError>)
    ensures !Truthy(query) ==> r == Failure(HttpError(400, "Query parameter is required"))
    ensures Truthy(query) && !Truthy(apiKey) ==> r == Failure(HttpError(500, "YouTube API key not configured"))
    ensures Truthy(query) && Truthy(apiKey) ==> r.Success?
    ensures r.Success? ==>
      var base := BaseUrl(query.value, apiKey.value);
      var t := SearchKind(kind);
      (t == "artists" ==> r.value == base + "&type=channel") &&
      (t == "albums" ==> r.value == base + "&type=playlist") &&
      (t == "videos" ==> r.value == base + "&type=video") &&
      (t != "artists" && t != "albums" && t != "videos" ==>
        if Contains(ToLower(query.value), "mix") then r.value == base + "&type=video"
        else r.value == base + "&type=video&videoCategoryId=10")
  {
    var t := SearchKind(kind);
    if !Truthy(query) {
      return Failure(HttpError(400, "Query parameter is required"));
    }
    var q := query.value;
    if !Truthy(apiKey) {
      return Failure(HttpError(500, "YouTube API key not configured"));
    }
    var suffix := TypeParameters(t, q);
    return Success(BaseUrl(q, apiKey.value) + suffix);
  }

  /** The parameters the `switch` on the type appends to the base URL. */
  method TypeParameters(t: string, q: string) returns (suffix: string)
    ensures t == "artists" ==> suffix == "&type=channel"
    ensures t == "albums" ==> suffix == "&type=playlist"
    ensures t == "videos" ==> suffix == "&type=video"
    ensures t != "artists" && t != "albums" && t != "videos" ==>
      if Contains(ToLower(q), "mix") then suffix == "&type=video" else suffix == "&type=video&videoCategoryId=10"
  {
    if t == "artists" {
      return "&type=channel";
    } else if t == "albums" {
      return "&type=playlist";
    } else if t == "videos" {
      return "&type=video";
    }
    if IndexOf(ToLower(q), "mix") == -1 {
      return "&type=video&videoCategoryId=10";
    }
    return "&type=video";
  }

  /** With a key free of '&', the query string of the base URL splits on '&'
      into exactly its four parameters: the encoded query cannot add one. */
  lemma BaseUrlParameters(query: string, apiKey: string)
    requires '&' !in apiKey
    ensures Split(BaseUrl(query, apiKey), "&") ==
      [SearchEndpoint, "maxResults=20", "q=" + EncodeUriComponent(query), "key=" + apiKey]
  {
    var p0, p1, p2, p3 := SearchEndpoint, "maxResults=20", "q=" + EncodeUriComponent(query), "key=" + apiKey;
    NoCharInAppend("q=", EncodeUriComponent(query), '&');
    NoCharInAppend("key=", apiKey, '&');
    EndpointFreeOfAmpersand();
    JoinFour(p0, p1, p2, p3, '&');
    assert "&" == ['&'];
    assert BaseUrl(query, apiKey) == p0 + ['&'] + p1 + ['&'] + p2 + ['&'] + p3;
    SplitFour(p0, p1, p2, p3, '&');
  }

  lemma EndpointFreeOfAmpersand()
    ensures '&' !in SearchEndpoint && '&' !in "maxResults=20"
  {
  }

  lemma SplitFour(p0: string, p1: string, p2: string, p3: string, c: char)
    requires c !in p0 && c !in p1 && c !in p2 && c !in p3
    ensures Split(Join([p0, p1, p2, p3], [c]), [c]) == [p0, p1, p2, p3]
  {
    SplitJoinChar([p0, p1, p2, p3], c);
  }

  lemma NoCharInAppend(a: string, b: string, c: char)
    requires c !in a && c !in b
    ensures c !in a + b
  {
  }

  lemma JoinFour(p0: string, p1: string, p2: string, p3: string, c: char)
    ensures Join([p0, p1, p2, p3], [c]) == p0 + [c] + p1 + [c] + p2 + [c] + p3
  {
    assert [p0, p1, p2, p3][1..] == [p1, p2, p3];
    assert [p1, p2, p3][1..] == [p2, p3];
    assert [p2, p3][1..] == [p3];
    assert Join([p2, p3], [c]) == p2 + [c] + p3;
    assert Join([p1, p2, p3], [c]) == p1 + [c] + (p2 + [c] + p3);
    assert Join([p0, p1, p2, p3], [c]) == p0 + [c] + (p1 + [c] + (p2 + [c] + p3));
  }

  // ---------------------------------------------------------------- video ids

  /** `items.map(item => item.id?.videoId).filter(id => id)`: the ids that are
      present and non-empty, in order. */
  function PresentIds(ids: seq<Option<string>>): (r: seq<string>)
    ensures |r| <= |ids|
    ensures forall k :: 0 <= k < |r| ==> r[k] != ""
  {
    if ids == [] then []
    else if Truthy(ids[0]) then [ids[0].value] + PresentIds(ids[1..])
    else PresentIds(ids[1..])
  }

  /** The comma-separated id list of the details request. */
  function VideoIdList(ids: seq<Option<string>>): string {
    Join(PresentIds(ids), ",")
  }

  /** The id list is empty exactly when no item carries a video id, and then
      the route answers with no songs and makes no details request. */
  lemma {:induction false} VideoIdListEmpty(ids: seq<Option<string>>)
    ensures VideoIdList(ids) == "" <==> forall k :: 0 <= k < |ids| ==> !Truthy(ids[k])
  {
    PresentIdsEmpty(ids);
    var present := PresentIds(ids);
    if present != [] {
      assert |Join(present, ",")| >= |present[0]| > 0 by { JoinStartsWithFirst(present, ","); }
    }
  }

  lemma {:induction false} PresentIdsEmpty(ids: seq<Option<string>>)
    ensures PresentIds(ids) == [] <==> forall k :: 0 <= k < |ids| ==> !Truthy(ids[k])
  {
    if ids != [] {
      PresentIdsEmpty(ids[1..]);
      assert forall k :: 1 <= k < |ids| ==> ids[k] == ids[1..][k - 1];
    }
  }

  lemma JoinStartsWithFirst(parts: seq<string>, sep: string)
    requires parts != []
    ensures |Join(parts, sep)| >= |parts[0]|
  {
  }

  /** A present id appears in the list exactly when it is present among the items. */
  lemma {:induction false} PresentIdsMembership(ids: seq<Option<string>>, id: string)
    requires id != ""
    ensures id in PresentIds(ids) <==> Some(id) in ids
  {
    if ids != [] {
      PresentIdsMembership(ids[1..], id);
      assert ids == [ids[0]] + ids[1..];
    }
  }

  /** When no id holds a comma, the id list splits back into the present ids. */
  lemma VideoIdListSplits(ids: seq<Option<string>>)
    requires PresentIds(ids) != []
    requires forall k :: 0 <= k < |ids| && ids[k].Some? ==> ',' !in ids[k].value
    ensures Split(VideoIdList(ids), ",") == PresentIds(ids)
  {
    var present := PresentIds(ids);
    forall k | 0 <= k < |present| ensures ',' !in present[k] {
      PresentIdsMembership(ids, present[k]);
    }
    SplitJoinChar(present, ',');
  }

  // -------------------------------------------------------------------- songs

  /** The fields of one item of the details response the route reads;
      a missing field is `None`. */
  datatype VideoDetails = VideoDetails(
    id: string, title: Option<string>, channelTitle: Option<string>, duration: Option<string>,
    maxresUrl: Option<string>, highUrl: Option<string>, defaultUrl: Option<string>)

  /** The cover: the largest thumbnail present, else the video's "hqdefault" image. */
  function Cover(v: VideoDetails): (r: string)
    ensures r != ""
    ensures Truthy(v.maxresUrl) ==> r == v.maxresUrl.value
    ensures !Truthy(v.maxresUrl) && Truthy(v.highUrl) ==> r == v.highUrl.value
    ensures !Truthy(v.maxresUrl) && !Truthy(v.highUrl) && Truthy(v.defaultUrl) ==> r == v.defaultUrl.value
    ensures !Truthy(v.maxresUrl) && !Truthy(v.highUrl) && !Truthy(v.defaultUrl) ==>
              r == "https://img.youtube.com/vi/" + v.id + "/hqdefault.jpg"
  {
    OrElse(v.maxresUrl, OrElse(v.highUrl, OrElse(v.defaultUrl, "https://img.youtube.com/vi/" + v.id + "/hqdefault.jpg")))
  }

  /** One song of the search result. */
  function SearchSong(v: VideoDetails): (r: Song)
    ensures r.id == v.id && r.album == "YouTube Music" && r.cover != ""
    ensures r.title == SplitArtistTitle(OrElse(v.title, "Unknown Title"), OrElse(v.channelTitle, "Unknown Artist")).title
    ensures r.artist == SplitArtistTitle(OrElse(v.title, "Unknown Title"), OrElse(v.channelTitle, "Unknown Artist")).artist
    ensures !Truthy(v.duration) ==> r.duration == "0:00"
    ensures Truthy(v.duration) ==> r.duration == ParseIsoDuration(v.duration.value)
  {
    var credit := SplitArtistTitle(OrElse(v.title, "Unknown Title"), OrElse(v.channelTitle, "Unknown Artist"));
    var duration := if Truthy(v.duration) then ParseIsoDuration(v.duration.value) else "0:00";
    Song(v.id, credit.title, credit.artist, "YouTube Music", Cover(v), duration)
  }

  /** A video without title or channel gets "Unknown Title" by "Unknown Artist". */
  lemma UntitledVideo(v: VideoDetails)
    requires !Truthy(v.title) && !Truthy(v.channelTitle)
    ensures SearchSong(v).title == "Unknown Title" && SearchSong(v).artist == "Unknown Artist"
  {
    assert !Contains("Unknown Title", Separator) by { NoSeparatorInUnknownTitle(); }
  }

  lemma NoSeparatorInUnknownTitle()
    ensures !Contains("Unknown Title", Separator)
  {
    var s := "Unknown Title";
    forall k: nat ensures !OccursAt(s, Separator, k) {
      if k + 3 <= |s| {
        assert s[k..k + 3][1] == s[k + 1];
      }
    }
  }

  /** The songs of the search result, one per returned video, in order. */
  function SearchSongs(videos: seq<VideoDetails>): (r: seq<Song>)
    ensures |r| == |videos|
    ensures forall k :: 0 <= k < |r| ==> r[k] == SearchSong(videos[k])
  {
    seq(|videos|, k requires 0 <= k < |videos| => SearchSong(videos[k]))
  }
}
