/** The pure part of the YouTube popular-music route: the song built from each
    video of the details response. The two requests are not modelled: the
    videos come in as values. */
module YouTubeMusic {
  import opened JsText
  import opened JsNumber
  import opened Songs
  import opened YouTubeShaping
  import Format

  /** The fields of one item of the details response the route reads. The
      model takes every field as present. */
  datatype MusicVideo = MusicVideo(id: string, title: string, channelTitle: string, duration: string)

  /** The fixed thumbnail address of a video. */
  function ThumbnailUrl(id: string): string {
    "https://img.youtube.com/vi/" + id + "/hqdefault.jpg"
  }

  /** One song of the popular-music list: artist and title split from the
      video title, the ISO 8601 duration as display text. */
  function MusicSong(v: MusicVideo): (r: Song)
    ensures r.id == v.id && r.album == "YouTube Music" && r.cover == ThumbnailUrl(v.id)
    ensures Credit(r.artist, r.title) == SplitArtistTitle(v.title, v.channelTitle)
    ensures r.duration == ParseIsoDuration(v.duration)
  {
    var credit := SplitArtistTitle(v.title, v.channelTitle);
    Song(v.id, credit.title, credit.artist, "YouTube Music", ThumbnailUrl(v.id), ParseIsoDuration(v.duration))
  }

  /** `videosData.items.map(...)`: one song per video, in order. */
  function MusicSongs(videos: seq<MusicVideo>): (r: seq<Song>)
    ensures |r| == |videos|
    ensures forall k :: 0 <= k < |r| ==> r[k] == MusicSong(videos[k])
  {
    seq(|videos|, k requires 0 <= k < |videos| => MusicSong(videos[k]))
  }

  /** The "M:SS" text of a duration under an hour reads back, through the
      app's own `parseDuration`, as its length in seconds; a duration with
      hours has three fields and reads back as 0. */
  lemma AppReadsIsoDuration(p: IsoParts)
    ensures p.hours == 0 ==> Format.ParseDuration(FormatIso(p)) == Int(p.minutes * 60 + p.seconds)
    ensures p.hours > 0 ==> Format.ParseDuration(FormatIso(p)) == Int(0)
  {
    if p.hours == 0 {
      FormatIsoWithoutHours(p);
      ParseIntOfNatToString(p.minutes, Unspecified);
      ParseIntOfPadded(p.seconds, Unspecified);
    } else {
      FormatIsoWithHours(p);
      SplitCharCount(FormatIso(p), ':');
    }
  }

  /** A video of under an hour, given as "PT<m>M<s>S", gets a duration the
      app reads back as m * 60 + s seconds. */
  lemma SongDurationReadsBack(v: MusicVideo, minutes: nat, seconds: nat)
    requires v.duration == IsoText(Wrappers.None, Wrappers.Some(minutes), Wrappers.Some(seconds))
    ensures Format.ParseDuration(MusicSong(v).duration) == Int(minutes * 60 + seconds)
  {
    IsoMatchOfText(Wrappers.None, Wrappers.Some(minutes), Wrappers.Some(seconds));
    AppReadsIsoDuration(IsoParts(0, minutes, seconds));
  }
}
