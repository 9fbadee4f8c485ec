# Music player core in Dafny

This project models the logic core of a web music player and proves
properties about it. The player streams YouTube videos as songs.

- **Playback session** (`Playback`, `PlayerContext`). The player provider holds
  the current song, the play state, the manual queue, the context queue (the
  rest of the album or playlist being played), the history, the
  shuffle/repeat/autoplay settings, a one-shot seek request and the liked ids.
  - `Playback` describes each operation as a function from the session before
    the call to the session after it.
  - `PlayerContext.Player` is the provider as an object: one field per piece of
    state, one method per operation. Each method is proved to produce exactly
    the session the matching `Playback` function describes.
  - Each operation reads the state as it was when the call began. Where the
    source sets a field twice, the later value wins, as React's state setters
    behave.
  - The random numbers of `nextSong` are a parameter `choice`. Among `n`
    candidates the pick is `choice % n`, so every candidate can be picked.
- **Search history** (`SearchHistory`). The recent-searches list kept in the
  browser's local storage:
  - most recent first, at most ten entries;
  - re-adding a query moves it to the front, comparing without case;
  - removal is by exact text.

  The storage slot is a field of `SearchHistoryStore`.
- **Lyrics** (`Lyrics`). The pieces of lyrics handling:
  - the LRC timestamp parser;
  - the three-second timestamps given to plain lyrics;
  - the "M:SS" duration parser;
  - the active-line search used for highlighting;
  - the choice between instrumental, synced and plain lyrics;
  - the white-space clean-up of search terms.

  Times are whole centiseconds, so "[01:02.50]" is 6250.
- **Duration text** (`Format`). Whole seconds to "M:SS" and back, with the round trip proved.
- **YouTube routes** (`YouTubeShaping`, `YouTubeSearch`, `YouTubeMusic`). The pure parts:
  - the ISO 8601 duration reader: the time part "PTnHnMnS" of the format with
    designators, section 4.4.3.2 of ISO 8601:2004;
  - the "Artist - Title" split;
  - the search URL built from the query type;
  - the list of video ids;
  - the song built from each video.
- **JavaScript built-ins** (`JsText`, `JsNumber`). These model what the code
  relies on:
  - `trim` with JavaScript's white-space set;
  - `split`, `join`, `indexOf` and `toLowerCase`;
  - `padStart(2, '0')`;
  - number-to-string;
  - `parseInt` with and without radix 10, with NaN as a value.

  `Seqs` holds the `filter` lemmas, and `Songs` holds the song record of `data.ts`.

## Model

| member | source | states |
|---|---|---|
| Playback.Initial | src/contexts/PlayerContext.tsx:50-70 | The provider's initial state (nothing playing, autoplay on, repeat off, empty lists) satisfies the history bound. |
| PlayerContext.Player.constructor | src/contexts/PlayerContext.tsx:50-70 | A new provider holds exactly the initial session, which satisfies the history bound. |
| PlayerContext.Player.SetLibrary | src/contexts/PlayerContext.tsx:73-78 | The startup load replaces the library with the loaded songs and changes nothing else; the history bound is kept. |
| PlayerContext.Player.TogglePlay | src/contexts/PlayerContext.tsx:80-82 | Only `isPlaying` changes, to its negation; the history bound is kept. |
| PlayerContext.Player.SetIsPlaying | src/contexts/PlayerContext.tsx:51 | The exposed setter changes `isPlaying` only; the history bound is kept. |
| PlayerContext.Player.SetProgress | src/contexts/PlayerContext.tsx:53 | The exposed setter changes `progress` only; the history bound is kept. |
| PlayerContext.Player.SetDuration | src/contexts/PlayerContext.tsx:54 | The exposed setter changes `duration` only; the history bound is kept. |
| PlayerContext.Player.SetIsLoading | src/contexts/PlayerContext.tsx:55 | The exposed setter changes `isLoading` only; the history bound is kept. |
| Playback.TogglesAreInvolutions | src/contexts/PlayerContext.tsx:80-110 | Toggling play, autoplay or shuffle flips that one flag, and toggling twice restores the session. |
| Playback.PlaySongEffect | src/contexts/PlayerContext.tsx:87-98 | After `playSong`, a song with that id is current and playing. With the same id as the current song nothing else changes. Otherwise the song becomes current with progress 0, duration 0, loading on and a seek to 0 requested. Queues, history, settings, likes and library are untouched either way. |
| PlayerContext.Player.PlaySong | src/contexts/PlayerContext.tsx:87-98 | The object's fields after `playSong` are the session `Playback.PlaySong` gives for the fields before; the history bound is kept. |
| PlayerContext.Player.Start | src/contexts/PlayerContext.tsx:92-97 | The six setter calls of a fresh start produce `Playback.Started`. |
| PlayerContext.Player.Rewind | src/contexts/PlayerContext.tsx:94-97 | Progress and duration become 0, loading is on and a seek to 0 is requested; nothing else changes. |
| Playback.AddToQueue | src/contexts/PlayerContext.tsx:100-102 | The song is appended to the manual queue and the earlier entries keep their places. |
| PlayerContext.Player.AddToQueue | src/contexts/PlayerContext.tsx:100-102 | The object's fields after `addToQueue` are the session `Playback.AddToQueue` gives; the history bound is kept. |
| PlayerContext.Player.ToggleAutoplay | src/contexts/PlayerContext.tsx:104-106 | Only `autoplay` changes, to its negation; the history bound is kept. |
| PlayerContext.Player.ToggleShuffle | src/contexts/PlayerContext.tsx:108-110 | Only `shuffle` changes, to its negation; the history bound is kept. |
| Playback.CycleRepeatPeriod | src/contexts/PlayerContext.tsx:112-118 | Cycling visits off, all and one, and three cycles restore the session. |
| PlayerContext.Player.CycleRepeat | src/contexts/PlayerContext.tsx:112-118 | The repeat mode moves off to all, all to one, and one to off; nothing else changes; the history bound is kept. |
| PlayerContext.Player.NextSong | src/contexts/PlayerContext.tsx:120-200 | The object's fields after `nextSong` are the session `Playback.NextSong` gives for the fields at the call, with every choice made against that snapshot; the history bound is kept. |
| PlayerContext.Player.MoveOn | src/contexts/PlayerContext.tsx:130-199 | Past the repeat-one case, pushing the history and taking the first source that has a song (or stopping) gives `Playback.NextSong`. |
| PlayerContext.Player.PushHistory | src/contexts/PlayerContext.tsx:131-133 | With a current song, the history becomes its last nineteen entries followed by that song; nothing else changes. |
| PlayerContext.Player.PlayFromQueue | src/contexts/PlayerContext.tsx:136-141 | The head of the manual queue is removed and played. |
| PlayerContext.Player.PlayFromContext | src/contexts/PlayerContext.tsx:144-167 | The context pick chosen against the call-time snapshot is played and its remaining queue is stored. |
| PlayerContext.Player.RestartHistory | src/contexts/PlayerContext.tsx:170-175 | The history is emptied and the given first history song is played. |
| Playback.NextSongRepeatOne | src/contexts/PlayerContext.tsx:124-128 | Under repeat one with a current song, only `isPlaying` changes. The song, queues, history and progress stay, because `playSong` takes its same-id exit. |
| Playback.RepeatOneForever | src/contexts/PlayerContext.tsx:124-128 | Any non-empty run of `nextSong` calls under repeat one leaves everything but `isPlaying` as it was. |
| Playback.NextSongHistory | src/contexts/PlayerContext.tsx:131-175 | The history after `nextSong` is unchanged under repeat one and empty after a repeat-all restart. Otherwise it is the old history with the current song pushed, keeping the last nineteen older entries. |
| Playback.PushedHistory | src/contexts/PlayerContext.tsx:131-133 | With a current song the pushed history ends with it, is preceded by the last nineteen old entries, and holds at most twenty songs. Without one the history is unchanged. |
| Playback.Last | src/contexts/PlayerContext.tsx:132 | `slice(-n)` gives the last `min(n, length)` elements. |
| Playback.NextSongKeepsValid | src/contexts/PlayerContext.tsx:120-200 | `nextSong` keeps the history at twenty songs or fewer. |
| Playback.NextSongManualQueue | src/contexts/PlayerContext.tsx:136-141 | A non-empty manual queue wins. Its head is played and removed, and the context queue is left as it was. |
| Playback.NextSongContextInOrder | src/contexts/PlayerContext.tsx:161-164 | Without shuffle, the head of the context queue is played and removed. |
| Playback.RecentIdsMembership | src/contexts/PlayerContext.tsx:148 | An id is recent exactly when it is non-empty and is the current song's id or the id of one of the last three history songs. |
| Playback.ShuffleAvoidsRecent | src/contexts/PlayerContext.tsx:146-154 | With shuffle and some non-recent entry, the song played is a non-recent entry of the context queue. Every entry with its id leaves the queue, every other entry stays, the order is kept, and the queue shrinks. |
| Playback.ShuffleFromPool | src/contexts/PlayerContext.tsx:149-154 | A pick from the non-recent pool removes all copies of the picked id and keeps every other entry in order. |
| Playback.ShuffleReachesEveryCandidate | src/contexts/PlayerContext.tsx:151-153 | Every entry of the non-recent pool is the pick for some choice. |
| Playback.ShuffleAllRecent | src/contexts/PlayerContext.tsx:155-159 | When every id in the context queue is recent, one position is played and exactly that position is removed. |
| Playback.ShuffleAllRecentReachesEvery | src/contexts/PlayerContext.tsx:155-159 | When every id in the context queue is recent, every entry is the pick for some choice. |
| Playback.ContextPickShrinks | src/contexts/PlayerContext.tsx:144-166 | Any context-queue pick shortens the context queue. |
| Playback.NextSongRepeatAll | src/contexts/PlayerContext.tsx:170-175 | With both queues empty, repeat all and a non-empty history, the first history song is played and the history becomes empty. This later setter call overrides the push. |
| Playback.LibraryPickAvoidsRecent | src/contexts/PlayerContext.tsx:179-196 | The fallback plays a library song. It avoids recent ids when some library song allows that. If none does, it avoids the current song's id when possible. Otherwise it takes the first library song. |
| Playback.LibraryPickReachesEveryCandidate | src/contexts/PlayerContext.tsx:183-186 | Every library song whose id is not recent is the pick for some choice. |
| Playback.LibraryPickReachesEveryOther | src/contexts/PlayerContext.tsx:187-190 | When every library id is recent, every library song without the current song's id is the pick for some choice. |
| Playback.NextSongStops | src/contexts/PlayerContext.tsx:198-199 | With nothing left to play, playback stops and the current song stays; its history push still happens. |
| Playback.NextSongIgnoresAutoplay | src/contexts/PlayerContext.tsx:120-200 | Changing the autoplay setting never changes what `nextSong` does. |
| Playback.PrevSongCases | src/contexts/PlayerContext.tsx:202-218 | More than three seconds in, or with no history, the current song restarts and the history is kept. Otherwise the last history song is played and removed. |
| PlayerContext.Player.PrevSong | src/contexts/PlayerContext.tsx:202-218 | The object's fields after `prevSong` are the session `Playback.PrevSong` gives, and the history bound is kept. |
| Playback.NextThenPrev | src/contexts/PlayerContext.tsx:120-218 | Right after a `nextSong` from the manual queue, `prevSong` brings the previous song back and restores the history. |
| Playback.ToggleLike | src/contexts/PlayerContext.tsx:220-228 | A liked id is removed wherever it occurs; any other id is appended. |
| Playback.ToggleLikeFlips | src/contexts/PlayerContext.tsx:220-230 | Toggling flips whether the id is liked and leaves every other id's status unchanged. |
| Playback.ToggleLikeTwice | src/contexts/PlayerContext.tsx:220-228 | Liking and then unliking an id restores the list. |
| PlayerContext.Player.ToggleLike | src/contexts/PlayerContext.tsx:220-228 | The object's fields after `toggleLike` are the session `Playback.ToggleLike` gives; the history bound is kept. |
| Playback.Seek | src/contexts/PlayerContext.tsx:240-243 | `seek(x)` requests a jump to x and shows x as the progress. |
| Playback.ResetSeek | src/contexts/PlayerContext.tsx:245-247 | The seek request is cleared. |
| Playback.SeekThenReset | src/contexts/PlayerContext.tsx:238-247 | A seek followed by its reset leaves only the new progress behind. |
| PlayerContext.Player.Seek | src/contexts/PlayerContext.tsx:240-243 | The object's fields after `seek` are the session `Playback.Seek` gives; the history bound is kept. |
| PlayerContext.Player.ResetSeek | src/contexts/PlayerContext.tsx:245-247 | The object's fields after `resetSeek` are the session `Playback.ResetSeek` gives; the history bound is kept. |
| Playback.SongAt | src/contexts/PlayerContext.tsx:252 | `songs[i]` is a song exactly when i is in range, and then it is the i-th song. |
| Playback.SliceFrom | src/contexts/PlayerContext.tsx:267 | `slice(i)` is the songs from i on, or empty past the end. |
| Playback.PlayCollectionCases | src/contexts/PlayerContext.tsx:249-272 | An empty collection changes nothing. Otherwise the start song becomes current and playing from 0, the songs after it form the context queue, and the manual queue and history are empty. |
| Playback.PlayCollectionThenNext | src/contexts/PlayerContext.tsx:120-272 | Without shuffle, after starting a collection, `nextSong` plays the next song of the collection and records the first in the history. |
| PlayerContext.Player.PlayCollection | src/contexts/PlayerContext.tsx:249-272 | The object's fields after `playCollection` are the session `Playback.PlayCollection` gives; the history bound is kept. |
| Playback.StepKeepsValid | src/contexts/PlayerContext.tsx:87-272 | Every operation of the provider keeps the history at twenty songs or fewer. |
| Playback.RunKeepsValid | src/contexts/PlayerContext.tsx:87-272 | Any sequence of operations keeps the history at twenty songs or fewer. |
| SearchHistory.SearchHistoryStore.constructor | src/lib/searchHistory.ts:1-2 | A store starts with the given window flag and stored slot. |
| SearchHistory.SearchHistoryStore.History | src/lib/searchHistory.ts:7-17 | `getSearchHistory` gives the stored list, or [] when nothing is stored or there is no window. |
| SearchHistory.SearchHistoryStore.Add | src/lib/searchHistory.ts:22-38 | A blank query, or no window, changes nothing. Otherwise the store holds the query followed by the earlier entries that differ from it ignoring case, cut to ten. The query is then first and there are at most ten entries. |
| SearchHistory.WithQueryFront | src/lib/searchHistory.ts:2-32 | After adding, the query is the first entry and there are at most ten. |
| SearchHistory.WithQueryNoDuplicate | src/lib/searchHistory.ts:29-32 | No entry after the first equals the query ignoring case. |
| SearchHistory.WithQueryKeepsOrder | src/lib/searchHistory.ts:29-32 | The other entries are earlier entries in their earlier relative order. |
| SearchHistory.WithQueryKeepsMostRecent | src/lib/searchHistory.ts:29-32 | The entries after the query are the first entries of the old list that differ from it, as many as fit: all of them when there are fewer than ten, else the first nine. |
| SearchHistory.WithQueryKeepsOthers | src/lib/searchHistory.ts:29-32 | When fewer than ten other entries remain, none of them is lost. |
| SearchHistory.SearchHistoryStore.Remove | src/lib/searchHistory.ts:56-66 | The store holds the earlier list without the entries equal to the query; without a window nothing changes. |
| SearchHistory.WithoutQueryExact | src/lib/searchHistory.ts:60-62 | Removal deletes exactly the entries equal to the query, case-sensitively, counted by occurrence, and keeps the rest in order. |
| SearchHistory.SearchHistoryStore.Clear | src/lib/searchHistory.ts:43-51 | The key is removed, so the history then reads as empty. |
| Lyrics.NormalizeSpaces | Desktop/music_app/src/lib/lyrics.ts:41-42 | The result has no white space at either end. Every white-space character in it is a single space, and no two white-space characters are adjacent. |
| Lyrics.CollapseSpaces | Desktop/music_app/src/lib/lyrics.ts:41 | Every white-space character left is a single space, and no two are adjacent. The result is empty exactly when the input is, and starts with white space exactly when the input does. |
| Lyrics.CollapseSpacesSeparates | Desktop/music_app/src/lib/lyrics.ts:41 | A white-space run between two pieces becomes exactly one space: the collapse of the whole is the collapse of the first piece, one space, and the collapse of the second. |
| Lyrics.NormalizeSpacesOfTwoWords | Desktop/music_app/src/lib/lyrics.ts:41-42 | Two words with white space between them come out as the two words with one space between them. |
| Lyrics.NormalizeSpacesKeepsVisible | Desktop/music_app/src/lib/lyrics.ts:41-42 | The clean-up keeps every character that is not white space, in order. |
| Lyrics.CollapseSpacesKeepsVisible | Desktop/music_app/src/lib/lyrics.ts:41 | Collapsing runs keeps every character that is not white space, in order. |
| Lyrics.SelectLyrics | Desktop/music_app/src/lib/lyrics.ts:83-116 | Instrumental wins: one line at time 0, no type. Then synced lyrics give their LRC lines with type synced, then plain lyrics give their plain lines with type plain. Otherwise, or on failure, the result is no lines and no type. The synced and plain cases hold in both directions. |
| Lyrics.ParseLrc | Desktop/music_app/src/lib/lyrics.ts:123-146 | The loop's output is the line-by-line collection of the '\n'-separated input. |
| Lyrics.CollectLrc | Desktop/music_app/src/lib/lyrics.ts:127-145 | No more lines come out than go in, and every emitted text is non-empty and starts with a visible character. |
| Lyrics.CollectLrcAppend | Desktop/music_app/src/lib/lyrics.ts:127-145 | Input order is kept: the lines of a concatenation are the lines of each part in turn. |
| Lyrics.LrcLine | Desktop/music_app/src/lib/lyrics.ts:129-141 | An emitted line's text is trimmed and non-empty. |
| Lyrics.LrcLineTimestamp | Desktop/music_app/src/lib/lyrics.ts:129-141 | "[MM:SS.xx]text" and "[MM:SS]text" give time MM·6000 + SS·100 + xx centiseconds (xx is 0 when absent) and the trimmed text. |
| Lyrics.TimestampAtStart | Desktop/music_app/src/lib/lyrics.ts:129 | The pattern matches a well-formed timestamp at the start of a line, with the rest of the line as text. |
| Lyrics.LrcLineOfMatch | Desktop/music_app/src/lib/lyrics.ts:129-141 | A line whose first character starts a timestamp gives that timestamp with the trimmed text. |
| Lyrics.RestOfLine | Desktop/music_app/src/lib/lyrics.ts:129 | `(.*)` captures the longest prefix free of line terminators. |
| Lyrics.ParsePlainLyrics | Desktop/music_app/src/lib/lyrics.ts:152-162 | There is one line per non-blank input line. The i-th is at 3·i seconds (300·i centiseconds) with non-empty text. |
| Lyrics.PlainLyricsText | Desktop/music_app/src/lib/lyrics.ts:152-162 | An input line gives an output line with its trimmed text at its index exactly when it is not blank. |
| Lyrics.ParseDurationToSeconds | Desktop/music_app/src/lib/lyrics.ts:167-177 | Without exactly one ':' the result is 0. |
| Lyrics.ParseDurationToSecondsOfFields | Desktop/music_app/src/lib/lyrics.ts:167-177 | "M:SS" for naturals M and SS reads as M·60 + SS. |
| Lyrics.ActiveLyricIndex | Desktop/music_app/src/lib/lyrics.ts:182-196 | The result is the largest index whose time has been reached, or -1 when there is none; it lies in [-1, length), and is -1 for no lyrics. |
| Lyrics.ActiveIndexUnique | Desktop/music_app/src/lib/lyrics.ts:188-195 | At most one index satisfies that description. |
| Lyrics.ActiveIndexOfPlainLyrics | Desktop/music_app/src/lib/lyrics.ts:152-196 | On plain lyrics, the active line at time t ≥ 0 is line ⌊t / 3 s⌋, capped at the last line; before 0 it is -1. |
| Format.ParseDuration | Desktop/music_app/src/utils/format.ts:7-13 | Without exactly one ':' the result is 0. |
| Format.FormatDurationFields | Desktop/music_app/src/utils/format.ts:1-5 | `formatDuration(n)` is n / 60 in decimal, ':', and a seconds field of exactly two digits that denotes n % 60 < 60. |
| Format.PaddedSecondsField | Desktop/music_app/src/utils/format.ts:3-4 | The padded seconds field is two digits denoting a value below 60. |
| Format.ParseDurationOfFields | Desktop/music_app/src/utils/format.ts:7-11 | "a:b" for naturals a and b reads as a·60 + b. |
| Format.ParseFormatDuration | Desktop/music_app/src/utils/format.ts:1-13 | The round trip holds: parsing `formatDuration(n)` gives n for every natural n. |
| YouTubeShaping.ParseIsoDuration | Desktop/music_app/src/app/api/youtube/search/route.ts:195-209 | Text without "PT" gives "0:00". |
| YouTubeShaping.IsoMatchOfText | Desktop/music_app/src/app/api/youtube/search/route.ts:196-202 | For every choice of present or absent hour, minute and second groups, the pattern reads back the given counts, with 0 for each absent group. |
| YouTubeShaping.IsoGroupsOfText | Desktop/music_app/src/app/api/youtube/search/route.ts:196-202 | The three optional groups after "PT" read back their counts, 0 when absent. |
| YouTubeShaping.GroupStep | Desktop/music_app/src/app/api/youtube/search/route.ts:196 | One optional group `(?:(\d+)X)?` reads its count and moves past its designator, or reads 0 and stays put. |
| YouTubeShaping.FormatIsoWithHours | Desktop/music_app/src/app/api/youtube/search/route.ts:204-206 | With hours, the text is "H:MM:SS". Minutes and seconds have at least two digits, and each field reads back as its count. |
| YouTubeShaping.FormatIsoWithoutHours | Desktop/music_app/src/app/api/youtube/search/route.ts:208 | Without hours, the text is "M:SS": minutes unpadded, seconds of at least two digits, each reading back as its count. |
| YouTubeShaping.SplitAtFirstSeparator | Desktop/music_app/src/app/api/youtube/search/route.ts:157-161 | The split is at the first " - ". The artist is the trimmed text before it, and the title is the trimmed text after it, later " - " included. |
| YouTubeShaping.SplitWithoutSeparatorKeepsTitle | Desktop/music_app/src/app/api/youtube/search/route.ts:154-161 | A title without " - " is kept whole, and the channel is the artist. |
| YouTubeSearch.SearchKind | Desktop/music_app/src/app/api/youtube/search/route.ts:9 | A missing or empty type reads as "songs", so the type is never empty. |
| YouTubeSearch.SearchUrl | Desktop/music_app/src/app/api/youtube/search/route.ts:8-56 | A missing query gives the 400 error and a missing key the 500 error, checked in that order. Otherwise the URL is the base URL plus a suffix: "&type=channel" for artists, "&type=playlist" for albums, "&type=video" for videos. Any other type gets "&type=video", plus "&videoCategoryId=10" exactly when the lower-cased query lacks "mix". |
| YouTubeSearch.TypeParameters | Desktop/music_app/src/app/api/youtube/search/route.ts:35-56 | The type `switch` appends the suffixes listed above. |
| YouTubeSearch.EncodeUriComponent | Desktop/music_app/src/app/api/youtube/search/route.ts:31 | The encoded query holds only unreserved characters and '%', and is at least as long as the query. |
| YouTubeSearch.EncodeUnreserved | Desktop/music_app/src/app/api/youtube/search/route.ts:31 | Text made of unreserved characters is left as it is. |
| YouTubeSearch.EncodeReservedChar | Desktop/music_app/src/app/api/youtube/search/route.ts:31 | Any other character becomes at least one "%XX" triple; an ASCII one becomes exactly the triple of its code. |
| YouTubeSearch.BaseUrlParameters | Desktop/music_app/src/app/api/youtube/search/route.ts:31 | With a key free of '&', the base URL splits on '&' into exactly its four parameters, whatever the query. |
| YouTubeSearch.PresentIds | Desktop/music_app/src/app/api/youtube/search/route.ts:109-111 | Only present, non-empty ids are kept, never more than there are items. |
| YouTubeSearch.PresentIdsMembership | Desktop/music_app/src/app/api/youtube/search/route.ts:109-111 | A non-empty id is kept exactly when some item carries it. |
| YouTubeSearch.VideoIdListEmpty | Desktop/music_app/src/app/api/youtube/search/route.ts:109-116 | The id list is empty, so the route answers with no songs, exactly when no item carries a video id. |
| YouTubeSearch.VideoIdListSplits | Desktop/music_app/src/app/api/youtube/search/route.ts:109-112 | When no id holds a comma, the joined list splits back into the kept ids. |
| YouTubeSearch.Cover | Desktop/music_app/src/app/api/youtube/search/route.ts:172-175 | The cover is the first present thumbnail of maxres, high and default. Otherwise it is the video's "hqdefault" image address, so it is never empty. |
| YouTubeSearch.SearchSong | Desktop/music_app/src/app/api/youtube/search/route.ts:148-177 | The song keeps the video id, with album "YouTube Music" and a non-empty cover. Artist and title come from the split of the title, where a missing title reads as "Unknown Title" and a missing channel as "Unknown Artist". The duration is the ISO reading, or "0:00" when absent. |
| YouTubeSearch.UntitledVideo | Desktop/music_app/src/app/api/youtube/search/route.ts:150-161 | A video without title or channel is "Unknown Title" by "Unknown Artist". |
| YouTubeSearch.SearchSongs | Desktop/music_app/src/app/api/youtube/search/route.ts:148-182 | There is one song per returned video, in order. |
| YouTubeMusic.MusicSong | Desktop/music_app/src/app/api/youtube/music/route.ts:64-88 | The song keeps the video id, with album "YouTube Music" and cover `https://img.youtube.com/vi/<id>/hqdefault.jpg`. Artist and title come from the " - " split, and the duration is the ISO reading. |
| YouTubeMusic.MusicSongs | Desktop/music_app/src/app/api/youtube/music/route.ts:64-89 | There is one song per video, in order. |
| YouTubeMusic.AppReadsIsoDuration | Desktop/music_app/src/app/api/youtube/music/route.ts:107-121 | The app's own "M:SS" parser reads a duration under an hour back as minutes·60 + seconds. A duration with hours has three fields and reads as 0. |
| YouTubeMusic.SongDurationReadsBack | Desktop/music_app/src/app/api/youtube/music/route.ts:79-121 | A video of "PT<m>M<s>S" gets a duration text that reads back as m·60 + s seconds. |

## Left out

- `isExpanded` and `expandPlayer`/`collapsePlayer` are UI state for the
  player view, and `relatedQueue` is never set. None of them is modelled.
- The React context plumbing, `useCallback` dependency lists and the
  console logging are not modelled.
- `Math.random` is replaced by the parameter `choice`. The model shows every
  candidate reachable, but not the distribution.
- `progress`, `duration` and the seek position are reals. Only the `> 3`
  comparison in `prevSong` reads them.
- Playback.PlayCollection: the start index is a natural. A negative or
  fractional `startIndex` (JavaScript would read `undefined`) is not modelled.
  An index past the end is modelled: the current song becomes none while
  `isPlaying` is set.
- Network requests (`fetch`), the lyrics search's 404 retry, the fallback songs
  after a failed details request, the empty `items` answer, and the
  artist/album shaping of the search route are not modelled. The
  videos and lyrics responses come in as values.
- The API-key check of the popular-music route is not modelled; the search
  route's key check is (`YouTubeSearch.SearchUrl`).
- SearchHistory.SearchHistoryStore.Add: storage exceptions and JSON
  (de)serialisation are not modelled. The stored value is the list itself,
  and a failed read or write is not a case.
- Lyrics.NormalizeSpaces: only the white-space step of `cleanString` is
  modelled. The bracket, "feat." and keyword removal is not.
- JsText.ToLower: `toLowerCase` is modelled for ASCII letters only. Other
  letters compare as they are.
- Lyric times are modelled as exact whole centiseconds. The code computes
  `minutes * 60 + seconds + centiseconds / 100` in floating-point seconds
  (lyrics.ts line 136), whose rounding is not modelled. The current playback
  time given to `getActiveLyricIndex` is in centiseconds too.
- Format.FormatDurationFields: `formatDuration` is modelled for whole,
  non-negative seconds on unbounded integers. Fractional and negative inputs
  are not modelled, nor are JavaScript doubles: the field texts are exact
  only for n < 2^53, and from 10^21 minutes `toString` switches to exponent
  form ("1e+21").
- Format.ParseFormatDuration: the round trip is proved on unbounded
  integers. For the source's doubles it holds only for n < 2^53; beyond
  that `toString` and `parseInt` no longer give n back (for example
  "1e+21" reads back as 1).
- YouTubeShaping.IsoMatchOfText: the read-back is proved on unbounded
  naturals. The route reads each group with `parseInt` into a double, so a
  count is exact only below 2^53 ("9007199254740993" reads as
  9007199254740992).
- YouTubeShaping.FormatIsoWithHours: the fields are exact only for counts
  below 2^53. From 10^21 on, `${hours}` prints exponent form ("1e+21"),
  which the model does not produce.
- YouTubeShaping.FormatIsoWithoutHours: the same limit as for the hours
  form. Counts are exact only below 2^53, and from 10^21 on the minutes
  print in exponent form.
- YouTubeMusic.AppReadsIsoDuration: the read-back through `parseDuration` is
  proved on unbounded naturals. For the source's doubles it is exact only for
  counts below 2^53, and from 10^21 on `toString` prints exponent form.
- YouTubeMusic.SongDurationReadsBack: "PT<m>M<s>S" reading back as m·60 + s
  holds on unbounded naturals. With the source's doubles it holds only while
  the counts and the sum stay below 2^53, and only until the minutes reach
  10^21, where `toString` prints exponent form.
- Lyrics.ParseDurationToSecondsOfFields: "M:SS" reading back as M·60 + SS is
  proved on unbounded naturals (lyrics.ts lines 171-173). `parseInt` gives a
  double, so the result is exact only while M, SS and the sum stay below 2^53.
  The lemma writes M in plain decimal digits. A JavaScript `toString` of M
  from 10^21 on would give exponent form ("1e+21"), which `parseInt` reads
  as 1.
- YouTubeMusic.MusicSong: the route reads `video.snippet.title`,
  `title.includes` and `video.contentDetails.duration` with no guard. A video
  without its snippet, its title or its duration throws, and the route's
  `catch` then answers 500 "Internal server error" for the whole list. That
  case is not modelled: every field is taken as present. A missing channel
  title does not throw, and gives an undefined artist; that is not modelled
  either.
- YouTubeSearch.SearchSong: the `try`/`catch` that turns a failing item into
  `null` is not modelled. Every field the route reads is a present or missing
  value, so no item fails.
- YouTubeSearch.EncodeUriComponent: lone surrogate code points, which make
  `encodeURIComponent` throw, are not modelled.
- Three behaviours of the code that the model keeps as they are:
  - repeat one replays through `playSong`'s same-id exit, so the position is
    kept (PlayerContext.tsx lines 87-90 and 124-127);
  - `nextSong` pushes the current song to the history even when it then
    stops (lines 131-133 and 199);
  - `togglePlay` can set `isPlaying` with no current song (lines 80-82), so
    "no current song means not playing" is not an invariant of the model.
