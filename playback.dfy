/** The playback session of the player provider as a value, and each of its
    operations as a function from the session before the call to the session
    after it. Every operation reads the session as it was when the call began,
    and where the source sets one field twice the later value is the one kept,
    as React's state setters behave. The random choices of `nextSong` are an
    argument `choice`: the pick is `choice % n` among `n` candidates, so every
    candidate is reachable. */
module Playback {
  import opened Wrappers
  import opened Seqs
  import opened Songs

  datatype Repeat = Off | All | One

  /** The provider's state. Progress, duration and seek position are seconds. */
  datatype Session = Session(
    current: Option<Song>,
    isPlaying: bool,
    progress: real,
    duration: real,
    isLoading: bool,
    queue: seq<Song>,
    contextQueue: seq<Song>,
    history: seq<Song>,
    shuffle: bool,
    repeat: Repeat,
    autoplay: bool,
    seekTo: Option<real>,
    liked: seq<string>,
    library: seq<Song>)

  /** Twenty songs at most are kept as history. */
  const MaxHistory := 20

  /** The state of a new provider: nothing playing, autoplay on, repeat off. */
  function Initial(): (s: Session)
    ensures Valid(s)
  {
    Session(None, false, 0.0, 0.0, false, [], [], [], false, Off, true, None, [], [])
  }

  /** The invariant every operation keeps: the history holds at most twenty songs. */
  ghost predicate Valid(s: Session) {
    |s.history| <= MaxHistory
  }

  // ------------------------------------------------------------ playSong

  /** Whether `song` has the id of the current song. */
  predicate IsCurrent(s: Session, song: Song) {
    s.current.Some? && s.current.value.id == song.id
  }

  /** `playSong`: a song with the current song's id only resumes playback;
      any other song becomes current and starts from the beginning. */
  function PlaySong(s: Session, song: Song): Session {
    if IsCurrent(s, song) then s.(isPlaying := true)
    else Started(s, Some(song))
  }

  /** A song (or none) loaded from its start: playing, at position 0, loading,
      and the player asked to seek to 0. */
  function Started(s: Session, song: Option<Song>): Session {
    s.(current := song, isPlaying := true, progress := 0.0, duration := 0.0, isLoading := true, seekTo := Some(0.0))
  }

  /** After `playSong`, a song with that id is current and playing. The
      position is reset exactly when the id differs from the current one;
      queues, history, flags, likes and library are not touched. */
  lemma PlaySongEffect(s: Session, song: Song)
    ensures var r := PlaySong(s, song);
      r.current.Some? && r.current.value.id == song.id && r.isPlaying &&
      (IsCurrent(s, song) ==> r == s.(isPlaying := true)) &&
      (!IsCurrent(s, song) ==> r.current == Some(song) && r.progress == 0.0 && r.duration == 0.0 &&
                               r.isLoading && r.seekTo == Some(0.0)) &&
      SameLists(r, s) && SameFlags(r, s)
  {
  }

  /** The queues, history, likes and library are the same. */
  predicate SameLists(a: Session, b: Session) {
    a.queue == b.queue && a.contextQueue == b.contextQueue && a.history == b.history &&
    a.liked == b.liked && a.library == b.library
  }

  /** The shuffle, repeat and autoplay settings are the same. */
  predicate SameFlags(a: Session, b: Session) {
    a.shuffle == b.shuffle && a.repeat == b.repeat && a.autoplay == b.autoplay
  }

  // ------------------------------------------------------- simple setters

  /** `addToQueue`: the song goes to the back of the manual queue. */
  function AddToQueue(s: Session, song: Song): (r: Session)
    ensures r.queue == s.queue + [song] && r.queue[..|s.queue|] == s.queue
  {
    s.(queue := s.queue + [song])
  }

  function TogglePlay(s: Session): Session {
    s.(isPlaying := !s.isPlaying)
  }

  function SetIsPlaying(s: Session, playing: bool): Session {
    s.(isPlaying := playing)
  }

  function SetProgress(s: Session, progress: real): Session {
    s.(progress := progress)
  }

  function SetDuration(s: Session, duration: real): Session {
    s.(duration := duration)
  }

  function SetIsLoading(s: Session, loading: bool): Session {
    s.(isLoading := loading)
  }

  /** The songs of the startup load become the library. */
  function SetLibrary(s: Session, songs: seq<Song>): Session {
    s.(library := songs)
  }

  function ToggleAutoplay(s: Session): Session {
    s.(autoplay := !s.autoplay)
  }

  function ToggleShuffle(s: Session): Session {
    s.(shuffle := !s.shuffle)
  }

  /** The repeat mode after `cycleRepeat`: off, all, one, off again. */
  function NextRepeat(r: Repeat): Repeat {
    match r
    case Off => All
    case All => One
    case One => Off
  }

  function CycleRepeat(s: Session): Session {
    s.(repeat := NextRepeat(s.repeat))
  }

  /** Cycling the repeat mode visits all three modes and returns after three steps. */
  lemma CycleRepeatPeriod(s: Session)
    ensures CycleRepeat(CycleRepeat(CycleRepeat(s))) == s
    ensures {CycleRepeat(s).repeat, CycleRepeat(CycleRepeat(s)).repeat, s.repeat} == {Off, All, One}
  {
  }

  /** Each toggle undoes itself and changes only its own flag. */
  lemma TogglesAreInvolutions(s: Session)
    ensures TogglePlay(TogglePlay(s)) == s && TogglePlay(s).isPlaying != s.isPlaying
    ensures ToggleShuffle(ToggleShuffle(s)) == s && ToggleShuffle(s).shuffle != s.shuffle
    ensures ToggleAutoplay(ToggleAutoplay(s)) == s && ToggleAutoplay(s).autoplay != s.autoplay
  {
  }

  // ------------------------------------------------------------- nextSong

  /** `xs.slice(-n)`: the last `n` elements, or all of them when there are fewer. */
  function Last<T>(xs: seq<T>, n: nat): (r: seq<T>)
    ensures |r| == if |xs| < n then |xs| else n
    ensures r == xs[|xs| - |r|..]
  {
    if |xs| <= n then xs else xs[|xs| - n..]
  }

  function Ids(songs: seq<Song>): (r: seq<string>)
    ensures |r| == |songs| && forall k :: 0 <= k < |r| ==> r[k] == songs[k].id
  {
    seq(|songs|, k requires 0 <= k < |songs| => songs[k].id)
  }

  predicate IsTruthyId(id: string) {
    id != ""
  }

  /** The ids of the last three history songs and of the current song,
      without empty ids (`filter(Boolean)`). */
  function RecentIds(s: Session): seq<string> {
    var ids := Ids(Last(s.history, 3)) + (if s.current.Some? then [s.current.value.id] else []);
    Filter(ids, IsTruthyId)
  }

  /** An id is recent exactly when it is not empty and belongs to the current
      song or one of the last three history songs. */
  lemma RecentIdsMembership(s: Session, id: string)
    ensures id in RecentIds(s) <==>
      id != "" && ((s.current.Some? && s.current.value.id == id) ||
                   exists k :: 0 <= k < |Last(s.history, 3)| && Last(s.history, 3)[k].id == id)
  {
    var last := Last(s.history, 3);
    var extra := if s.current.Some? then [s.current.value.id] else [];
    FilterMembership(Ids(last) + extra, IsTruthyId, id);
    IdsMembership(last, id);
    assert id in Ids(last) + extra <==> id in Ids(last) || id in extra;
  }

  lemma IdsMembership(songs: seq<Song>, id: string)
    ensures id in Ids(songs) <==> exists k :: 0 <= k < |songs| && songs[k].id == id
  {
    if id in Ids(songs) {
      var k :| 0 <= k < |Ids(songs)| && Ids(songs)[k] == id;
      assert songs[k].id == id;
    }
    if exists k :: 0 <= k < |songs| && songs[k].id == id {
      var k :| 0 <= k < |songs| && songs[k].id == id;
      assert Ids(songs)[k] == id;
    }
  }

  function NotRecent(recent: seq<string>): Song -> bool {
    (t: Song) => t.id !in recent
  }

  function HasOtherId(id: string): Song -> bool {
    (t: Song) => t.id != id
  }

  /** The song `nextSong` takes from a non-empty context queue and the context queue it leaves. */
  datatype Pick = Pick(next: Song, rest: seq<Song>)

  /** Without shuffle the head. With shuffle a random entry whose id is not
      recent, removing every entry with that id; when every id is recent, a
      random position, removing that position only. */
  function ContextPick(s: Session, choice: nat): Pick
    requires s.contextQueue != []
  {
    var cq := s.contextQueue;
    if !s.shuffle then Pick(cq[0], cq[1..])
    else
      var pool := Filter(cq, NotRecent(RecentIds(s)));
      if |pool| > 0 then
        var next := pool[choice % |pool|];
        Pick(next, Filter(cq, HasOtherId(next.id)))
      else
        var i := choice % |cq|;
        Pick(cq[i], cq[..i] + cq[i + 1..])
  }

  /** The library song `nextSong` falls back to: a random one whose id is not
      recent; else a random one without the current song's id; else the first. */
  function LibraryPick(s: Session, choice: nat): Song
    requires s.library != []
  {
    var pool := Filter(s.library, NotRecent(RecentIds(s)));
    if |pool| > 0 then pool[choice % |pool|]
    else
      var notCurrent := if s.current.Some? then Filter(s.library, HasOtherId(s.current.value.id)) else s.library;
      if |notCurrent| > 0 then notCurrent[choice % |notCurrent|] else s.library[0]
  }

  /** The history after the current song is pushed: the last nineteen old
      entries and the current song. */
  function PushedHistory(s: Session): (h: seq<Song>)
    ensures s.current.Some? ==> 1 <= |h| <= MaxHistory && h[|h| - 1] == s.current.value
    ensures s.current.Some? ==> h[..|h| - 1] == Last(s.history, MaxHistory - 1)
    ensures s.current.None? ==> h == s.history
  {
    if s.current.Some? then Last(s.history, MaxHistory - 1) + [s.current.value] else s.history
  }

  /** Whether `nextSong` takes the repeat-one branch. */
  predicate RepeatsCurrent(s: Session) {
    s.repeat == One && s.current.Some?
  }

  /** Whether `nextSong` takes the repeat-all branch. */
  predicate RestartsHistory(s: Session) {
    !RepeatsCurrent(s) && s.queue == [] && s.contextQueue == [] && s.repeat == All && |s.history| > 0
  }

  /** `nextSong`: repeat one, else push the current song to history and take
      the manual queue, the context queue, the start of the history under
      repeat all, or the library, in that order; with none of them, stop. */
  function NextSong(s: Session, choice: nat): Session {
    if RepeatsCurrent(s) then PlaySong(s, s.current.value)
    else
      var pushed := s.(history := PushedHistory(s));
      if s.queue != [] then PlaySong(pushed.(queue := s.queue[1..]), s.queue[0])
      else if s.contextQueue != [] then
        var pick := ContextPick(s, choice);
        PlaySong(pushed.(contextQueue := pick.rest), pick.next)
      else if s.repeat == All && |s.history| > 0 then PlaySong(s.(history := []), s.history[0])
      else if s.library != [] then PlaySong(pushed, LibraryPick(s, choice))
      else pushed.(isPlaying := false)
  }

  /** Repeat one replays the current song: it keeps playing from where it
      is, and queues and history stay as they are. */
  lemma NextSongRepeatOne(s: Session, choice: nat)
    requires RepeatsCurrent(s)
    ensures NextSong(s, choice) == s.(isPlaying := true)
  {
  }

  /** Any number of `nextSong` calls under repeat one leave everything but
      `isPlaying` as it was. */
  lemma {:induction false} RepeatOneForever(s: Session, choices: seq<nat>)
    requires RepeatsCurrent(s) && choices != []
    ensures NextSongs(s, choices) == s.(isPlaying := true)
    decreases |choices|
  {
    NextSongRepeatOne(s, choices[0]);
    if |choices| > 1 {
      RepeatOneForever(s.(isPlaying := true), choices[1..]);
    }
  }

  /** `nextSong` called once per choice. */
  function NextSongs(s: Session, choices: seq<nat>): Session
    decreases |choices|
  {
    if choices == [] then s else NextSongs(NextSong(s, choices[0]), choices[1..])
  }

  /** The history after `nextSong`: unchanged under repeat one, emptied under
      repeat all, and otherwise the current song (when there is one) is
      pushed, keeping the last nineteen older entries. */
  lemma NextSongHistory(s: Session, choice: nat)
    ensures NextSong(s, choice).history ==
      if RepeatsCurrent(s) then s.history else if RestartsHistory(s) then [] else PushedHistory(s)
  {
    if !RepeatsCurrent(s) {
      var pushed := s.(history := PushedHistory(s));
      if s.queue != [] {
        PlaySongEffect(pushed.(queue := s.queue[1..]), s.queue[0]);
      } else if s.contextQueue != [] {
        var pick := ContextPick(s, choice);
        PlaySongEffect(pushed.(contextQueue := pick.rest), pick.next);
      } else if s.repeat == All && |s.history| > 0 {
        PlaySongEffect(s.(history := []), s.history[0]);
      } else if s.library != [] {
        PlaySongEffect(pushed, LibraryPick(s, choice));
      }
    }
  }

  /** `nextSong` keeps the history at twenty songs or fewer. */
  lemma NextSongKeepsValid(s: Session, choice: nat)
    requires Valid(s)
    ensures Valid(NextSong(s, choice))
  {
    NextSongHistory(s, choice);
  }

  /** A non-empty manual queue wins: its head is played and removed, and the
      context queue is not consulted. */
  lemma NextSongManualQueue(s: Session, choice: nat)
    requires !RepeatsCurrent(s) && s.queue != []
    ensures var r := NextSong(s, choice);
      r.queue == s.queue[1..] && r.contextQueue == s.contextQueue &&
      r.current.Some? && r.current.value.id == s.queue[0].id && r.isPlaying
  {
    PlaySongEffect(s.(history := PushedHistory(s), queue := s.queue[1..]), s.queue[0]);
  }

  /** Without shuffle the context queue is played in order. */
  lemma NextSongContextInOrder(s: Session, choice: nat)
    requires !RepeatsCurrent(s) && s.queue == [] && s.contextQueue != [] && !s.shuffle
    ensures var r := NextSong(s, choice);
      r.contextQueue == s.contextQueue[1..] && r.current.Some? && r.current.value.id == s.contextQueue[0].id
  {
    PlaySongEffect(s.(history := PushedHistory(s), contextQueue := s.contextQueue[1..]), s.contextQueue[0]);
  }

  /** With shuffle, when some entry's id is not recent, the song played is
      such an entry and every entry with its id leaves the context queue;
      the other entries stay in order. */
  lemma ShuffleAvoidsRecent(s: Session, choice: nat, j: nat)
    requires s.contextQueue != [] && s.shuffle
    requires j < |s.contextQueue| && s.contextQueue[j].id !in RecentIds(s)
    ensures var p := ContextPick(s, choice);
      p.next in s.contextQueue && p.next.id !in RecentIds(s) &&
      (forall k :: 0 <= k < |p.rest| ==> p.rest[k].id != p.next.id) &&
      (forall t :: t in s.contextQueue && t.id != p.next.id ==> t in p.rest) &&
      IsSubsequence(p.rest, s.contextQueue) && |p.rest| < |s.contextQueue|
  {
    ShuffleFromPool(s.contextQueue, RecentIds(s), choice, j);
  }

  /** The shuffle pick from a pool that holds at least the entry at `j`. */
  lemma ShuffleFromPool(cq: seq<Song>, recent: seq<string>, choice: nat, j: nat)
    requires j < |cq| && cq[j].id !in recent
    ensures var pool := Filter(cq, NotRecent(recent));
      |pool| > 0 &&
      var next := pool[choice % |pool|];
      var rest := Filter(cq, HasOtherId(next.id));
      next in cq && next.id !in recent &&
      (forall k :: 0 <= k < |rest| ==> rest[k].id != next.id) &&
      (forall t :: t in cq && t.id != next.id ==> t in rest) &&
      IsSubsequence(rest, cq) && |rest| < |cq|
  {
    var keep := NotRecent(recent);
    var pool := Filter(cq, keep);
    FilterMembership(cq, keep, cq[j]);
    var next := pool[choice % |pool|];
    assert next in pool;
    FilterMembership(cq, keep, next);
    var rest := Filter(cq, HasOtherId(next.id));
    forall t | t in cq && t.id != next.id ensures t in rest {
      FilterMembership(cq, HasOtherId(next.id), t);
    }
    FilterIsSubsequence(cq, HasOtherId(next.id));
    var i :| 0 <= i < |cq| && cq[i] == next;
    FilterDropsOne(cq, HasOtherId(next.id), i);
  }

  /** With shuffle, when every id in the context queue is recent, one random
      position is played and only that position is removed. */
  lemma ShuffleAllRecent(s: Session, choice: nat)
    requires s.contextQueue != [] && s.shuffle
    requires forall k :: 0 <= k < |s.contextQueue| ==> s.contextQueue[k].id in RecentIds(s)
    ensures var p := ContextPick(s, choice);
      var i := choice % |s.contextQueue|;
      p.next == s.contextQueue[i] && p.rest == s.contextQueue[..i] + s.contextQueue[i + 1..] &&
      |p.rest| == |s.contextQueue| - 1
  {
    FilterNone(s.contextQueue, NotRecent(RecentIds(s)));
  }

  /** Each choice in range picks its own candidate: every non-recent entry of
      the context queue can be the one played. */
  lemma ShuffleReachesEveryCandidate(s: Session, j: nat)
    requires s.contextQueue != [] && s.shuffle
    requires j < |Filter(s.contextQueue, NotRecent(RecentIds(s)))|
    ensures ContextPick(s, j).next == Filter(s.contextQueue, NotRecent(RecentIds(s)))[j]
  {
    var pool := Filter(s.contextQueue, NotRecent(RecentIds(s)));
    SmallRemainder(j, |pool|);
  }

  /** With shuffle and every id recent, each choice in range picks its own
      position: every entry of the context queue can be the one played. */
  lemma ShuffleAllRecentReachesEvery(s: Session, j: nat)
    requires s.contextQueue != [] && s.shuffle
    requires forall k :: 0 <= k < |s.contextQueue| ==> s.contextQueue[k].id in RecentIds(s)
    requires j < |s.contextQueue|
    ensures ContextPick(s, j).next == s.contextQueue[j]
  {
    ShuffleAllRecent(s, j);
    SmallRemainder(j, |s.contextQueue|);
  }

  /** Each choice in range picks its own library song among those whose id
      is not recent: every such song can be the one played. */
  lemma LibraryPickReachesEveryCandidate(s: Session, j: nat)
    requires s.library != []
    requires j < |Filter(s.library, NotRecent(RecentIds(s)))|
    ensures LibraryPick(s, j) == Filter(s.library, NotRecent(RecentIds(s)))[j]
  {
    SmallRemainder(j, |Filter(s.library, NotRecent(RecentIds(s)))|);
  }

  /** With every library id recent, each choice in range picks its own
      library song among those without the current song's id. */
  lemma LibraryPickReachesEveryOther(s: Session, j: nat)
    requires s.library != [] && s.current.Some?
    requires forall k :: 0 <= k < |s.library| ==> s.library[k].id in RecentIds(s)
    requires j < |Filter(s.library, HasOtherId(s.current.value.id))|
    ensures LibraryPick(s, j) == Filter(s.library, HasOtherId(s.current.value.id))[j]
  {
    FilterNone(s.library, NotRecent(RecentIds(s)));
    SmallRemainder(j, |Filter(s.library, HasOtherId(s.current.value.id))|);
  }

  lemma SmallRemainder(j: nat, n: nat)
    requires j < n
    ensures j % n == j
  {
  }

  /** Whichever branch, a context queue pick shortens the context queue. */
  lemma ContextPickShrinks(s: Session, choice: nat)
    requires s.contextQueue != []
    ensures |ContextPick(s, choice).rest| < |s.contextQueue|
  {
    if s.shuffle {
      var pool := Filter(s.contextQueue, NotRecent(RecentIds(s)));
      if |pool| > 0 {
        var next := pool[choice % |pool|];
        FilterMembership(s.contextQueue, NotRecent(RecentIds(s)), next);
        var i :| 0 <= i < |s.contextQueue| && s.contextQueue[i] == next;
        ShuffleAvoidsRecent(s, choice, i);
      }
    }
  }

  /** With both queues empty and repeat all, the first song of the old
      history is played and the history is emptied. */
  lemma NextSongRepeatAll(s: Session, choice: nat)
    requires RestartsHistory(s)
    ensures var r := NextSong(s, choice);
      r.history == [] && r.current.Some? && r.current.value.id == s.history[0].id && r.isPlaying
  {
    PlaySongEffect(s.(history := []), s.history[0]);
  }

  /** The library fallback picks a library song: one whose id is not recent
      when there is one; else one without the current song's id when there is
      one; else the first library song. */
  lemma LibraryPickAvoidsRecent(s: Session, choice: nat)
    requires s.library != []
    ensures LibraryPick(s, choice) in s.library
    ensures (exists k :: 0 <= k < |s.library| && s.library[k].id !in RecentIds(s)) ==>
              LibraryPick(s, choice).id !in RecentIds(s)
    ensures (forall k :: 0 <= k < |s.library| ==> s.library[k].id in RecentIds(s)) && s.current.Some? ==>
              if exists k :: 0 <= k < |s.library| && s.library[k].id != s.current.value.id
              then LibraryPick(s, choice).id != s.current.value.id
              else LibraryPick(s, choice) == s.library[0]
  {
    var lib := s.library;
    var pool := Filter(lib, NotRecent(RecentIds(s)));
    if |pool| > 0 {
      FilterMembership(lib, NotRecent(RecentIds(s)), pool[choice % |pool|]);
    } else {
      if exists k :: 0 <= k < |lib| && lib[k].id !in RecentIds(s) {
        var k :| 0 <= k < |lib| && lib[k].id !in RecentIds(s);
        FilterMembership(lib, NotRecent(RecentIds(s)), lib[k]);
      }
      if s.current.Some? {
        var id := s.current.value.id;
        var notCurrent := Filter(lib, HasOtherId(id));
        if |notCurrent| > 0 {
          FilterMembership(lib, HasOtherId(id), notCurrent[choice % |notCurrent|]);
        }
        if exists k :: 0 <= k < |lib| && lib[k].id != id {
          var k :| 0 <= k < |lib| && lib[k].id != id;
          FilterMembership(lib, HasOtherId(id), lib[k]);
        }
      }
    }
  }

  /** With nothing to play, playback stops; the current song stays and is
      still pushed to the history. */
  lemma NextSongStops(s: Session, choice: nat)
    requires !RepeatsCurrent(s) && !RestartsHistory(s)
    requires s.queue == [] && s.contextQueue == [] && s.library == []
    ensures NextSong(s, choice) == s.(history := PushedHistory(s), isPlaying := false)
  {
  }

  /** The autoplay setting never changes what `nextSong` does. */
  lemma NextSongIgnoresAutoplay(s: Session, choice: nat, autoplay: bool)
    ensures NextSong(s.(autoplay := autoplay), choice) == NextSong(s, choice).(autoplay := autoplay)
  {
    if RepeatsCurrent(s) {
      assert NextSong(s, choice) == PlaySong(s, s.current.value);
      assert NextSong(s.(autoplay := autoplay), choice) == PlaySong(s.(autoplay := autoplay), s.current.value);
      PlaySongIgnoresAutoplay(s, s.current.value, autoplay);
    } else if s.queue != [] || s.contextQueue != [] {
      QueuesIgnoreAutoplay(s, choice, autoplay);
    } else {
      FallbackIgnoresAutoplay(s, choice, autoplay);
    }
  }

  /** The choices `nextSong` makes do not read the autoplay setting. */
  lemma PicksIgnoreAutoplay(s: Session, choice: nat, autoplay: bool)
    ensures PushedHistory(s.(autoplay := autoplay)) == PushedHistory(s)
    ensures RecentIds(s.(autoplay := autoplay)) == RecentIds(s)
    ensures s.contextQueue != [] ==> ContextPick(s.(autoplay := autoplay), choice) == ContextPick(s, choice)
    ensures s.library != [] ==> LibraryPick(s.(autoplay := autoplay), choice) == LibraryPick(s, choice)
  {
    var t := s.(autoplay := autoplay);
    assert t.current == s.current && t.history == s.history;
    assert PushedHistory(t) == PushedHistory(s);
    assert RecentIds(t) == RecentIds(s);
    if s.contextQueue != [] {
      assert t.contextQueue == s.contextQueue && t.shuffle == s.shuffle;
      assert ContextPick(t, choice) == ContextPick(s, choice);
    }
    if s.library != [] {
      assert t.library == s.library;
      assert LibraryPick(t, choice) == LibraryPick(s, choice);
    }
  }

  lemma QueuesIgnoreAutoplay(s: Session, choice: nat, autoplay: bool)
    requires !RepeatsCurrent(s) && (s.queue != [] || s.contextQueue != [])
    ensures NextSong(s.(autoplay := autoplay), choice) == NextSong(s, choice).(autoplay := autoplay)
  {
    if s.queue != [] {
      QueueIgnoresAutoplay(s, choice, autoplay);
    } else {
      ContextIgnoresAutoplay(s, choice, autoplay);
    }
  }

  lemma QueueIgnoresAutoplay(s: Session, choice: nat, autoplay: bool)
    requires !RepeatsCurrent(s) && s.queue != []
    ensures NextSong(s.(autoplay := autoplay), choice) == NextSong(s, choice).(autoplay := autoplay)
  {
    var t := s.(autoplay := autoplay);
    var before := s.(history := PushedHistory(s), queue := s.queue[1..]);
    PicksIgnoreAutoplay(s, choice, autoplay);
    assert NextSong(s, choice) == PlaySong(before, s.queue[0]) by {
      NextSongQueueBranch(s, choice);
    }
    assert NextSong(t, choice) == PlaySong(before.(autoplay := autoplay), s.queue[0]) by {
      assert t.(history := PushedHistory(t), queue := t.queue[1..]) == before.(autoplay := autoplay);
      NextSongQueueBranch(t, choice);
    }
    PlaySongIgnoresAutoplay(before, s.queue[0], autoplay);
  }

  lemma ContextIgnoresAutoplay(s: Session, choice: nat, autoplay: bool)
    requires !RepeatsCurrent(s) && s.queue == [] && s.contextQueue != []
    ensures NextSong(s.(autoplay := autoplay), choice) == NextSong(s, choice).(autoplay := autoplay)
  {
    var t := s.(autoplay := autoplay);
    var pick := ContextPick(s, choice);
    var before := s.(history := PushedHistory(s), contextQueue := pick.rest);
    PicksIgnoreAutoplay(s, choice, autoplay);
    assert NextSong(s, choice) == PlaySong(before, pick.next) by {
      NextSongContextBranch(s, choice);
    }
    assert NextSong(t, choice) == PlaySong(before.(autoplay := autoplay), pick.next) by {
      assert t.(history := PushedHistory(t), contextQueue := ContextPick(t, choice).rest) == before.(autoplay := autoplay);
      NextSongContextBranch(t, choice);
    }
    PlaySongIgnoresAutoplay(before, pick.next, autoplay);
  }

  lemma FallbackIgnoresAutoplay(s: Session, choice: nat, autoplay: bool)
    requires !RepeatsCurrent(s) && s.queue == [] && s.contextQueue == []
    ensures NextSong(s.(autoplay := autoplay), choice) == NextSong(s, choice).(autoplay := autoplay)
  {
    var t := s.(autoplay := autoplay);
    PicksIgnoreAutoplay(s, choice, autoplay);
    if RestartsHistory(s) {
      NextSongRestartBranch(s, choice);
      NextSongRestartBranch(t, choice);
      PlaySongIgnoresAutoplay(s.(history := []), s.history[0], autoplay);
    } else if s.library != [] {
      LibraryIgnoresAutoplay(s, choice, autoplay);
    } else {
      NextSongStops(s, choice);
      NextSongStops(t, choice);
    }
  }

  lemma LibraryIgnoresAutoplay(s: Session, choice: nat, autoplay: bool)
    requires !RepeatsCurrent(s) && !RestartsHistory(s) && s.queue == [] && s.contextQueue == [] && s.library != []
    ensures NextSong(s.(autoplay := autoplay), choice) == NextSong(s, choice).(autoplay := autoplay)
  {
    var t := s.(autoplay := autoplay);
    var before := s.(history := PushedHistory(s));
    var next := LibraryPick(s, choice);
    PicksIgnoreAutoplay(s, choice, autoplay);
    assert NextSong(s, choice) == PlaySong(before, next) by {
      NextSongLibraryBranch(s, choice);
    }
    assert NextSong(t, choice) == PlaySong(before.(autoplay := autoplay), next) by {
      assert t.(history := PushedHistory(t)) == before.(autoplay := autoplay);
      NextSongLibraryBranch(t, choice);
    }
    PlaySongIgnoresAutoplay(before, next, autoplay);
  }

  lemma NextSongRepeatBranch(s: Session, choice: nat)
    requires RepeatsCurrent(s)
    ensures NextSong(s, choice) == PlaySong(s, s.current.value)
  {
  }

  lemma NextSongQueueBranch(s: Session, choice: nat)
    requires !RepeatsCurrent(s) && s.queue != []
    ensures NextSong(s, choice) == PlaySong(s.(history := PushedHistory(s), queue := s.queue[1..]), s.queue[0])
  {
  }

  lemma NextSongContextBranch(s: Session, choice: nat)
    requires !RepeatsCurrent(s) && s.queue == [] && s.contextQueue != []
    ensures NextSong(s, choice) ==
      PlaySong(s.(history := PushedHistory(s), contextQueue := ContextPick(s, choice).rest), ContextPick(s, choice).next)
  {
  }

  lemma NextSongRestartBranch(s: Session, choice: nat)
    requires RestartsHistory(s)
    ensures NextSong(s, choice) == PlaySong(s.(history := []), s.history[0])
  {
  }

  lemma NextSongLibraryBranch(s: Session, choice: nat)
    requires !RepeatsCurrent(s) && !RestartsHistory(s) && s.queue == [] && s.contextQueue == [] && s.library != []
    ensures NextSong(s, choice) == PlaySong(s.(history := PushedHistory(s)), LibraryPick(s, choice))
  {
  }

  lemma PlaySongIgnoresAutoplay(s: Session, song: Song, autoplay: bool)
    ensures PlaySong(s.(autoplay := autoplay), song) == PlaySong(s, song).(autoplay := autoplay)
  {
  }

  // ------------------------------------------------------------- prevSong

  /** `seek(x)`: the player is asked to jump to `x`, shown as the progress at once. */
  function Seek(s: Session, position: real): (r: Session)
    ensures r.seekTo == Some(position) && r.progress == position
  {
    s.(seekTo := Some(position), progress := position)
  }

  /** `resetSeek`: the player has taken the requested position. */
  function ResetSeek(s: Session): (r: Session)
    ensures r.seekTo.None?
  {
    s.(seekTo := None)
  }

  /** A seek followed by its reset leaves only the new progress behind. */
  lemma SeekThenReset(s: Session, position: real)
    ensures ResetSeek(Seek(s, position)) == s.(progress := position, seekTo := None)
  {
  }

  /** `prevSong`: more than three seconds in, or with no history, restart the
      current song; otherwise play the last history song and drop it. */
  function PrevSong(s: Session): Session {
    if s.progress > 3.0 || s.history == [] then Seek(s, 0.0)
    else PlaySong(s.(history := s.history[..|s.history| - 1]), s.history[|s.history| - 1])
  }

  lemma PrevSongCases(s: Session)
    ensures s.progress > 3.0 || s.history == [] ==>
      var r := PrevSong(s);
      r.seekTo == Some(0.0) && r.progress == 0.0 && r.history == s.history && r.current == s.current
    ensures s.progress <= 3.0 && s.history != [] ==>
      var r := PrevSong(s);
      r.history == s.history[..|s.history| - 1] && r.isPlaying &&
      r.current.Some? && r.current.value.id == s.history[|s.history| - 1].id
  {
    if s.progress <= 3.0 && s.history != [] {
      PlaySongEffect(s.(history := s.history[..|s.history| - 1]), s.history[|s.history| - 1]);
    }
  }

  /** Going forward and back: from a current song with the position at the
      start, `nextSong` from the manual queue then `prevSong` brings the
      previous song back and restores the history. */
  lemma NextThenPrev(s: Session, choice: nat)
    requires !RepeatsCurrent(s) && s.current.Some? && s.queue != []
    requires |s.history| < MaxHistory && s.queue[0].id != s.current.value.id
    ensures var r := PrevSong(NextSong(s, choice));
      r.current.Some? && r.current.value.id == s.current.value.id && r.history == s.history &&
      r.queue == s.queue[1..]
  {
    var n := NextSong(s, choice);
    assert PushedHistory(s) == s.history + [s.current.value];
    assert n.progress == 0.0;
    assert n.history[..|n.history| - 1] == s.history;
    PlaySongEffect(n.(history := s.history), s.current.value);
  }

  // ------------------------------------------------------------ likes

  /** `isLiked`. */
  predicate IsLiked(s: Session, id: string) {
    id in s.liked
  }

  function OtherThan(id: string): string -> bool {
    (x: string) => x != id
  }

  /** `toggleLike`: a liked id is removed wherever it occurs; any other id is appended. */
  function ToggleLike(s: Session, id: string): (r: Session)
    ensures IsLiked(s, id) ==> r.liked == Filter(s.liked, OtherThan(id))
    ensures !IsLiked(s, id) ==> r.liked == s.liked + [id]
  {
    if id in s.liked then s.(liked := Filter(s.liked, OtherThan(id))) else s.(liked := s.liked + [id])
  }

  /** Toggling flips whether the id is liked and leaves every other id as it was. */
  lemma ToggleLikeFlips(s: Session, id: string, other: string)
    requires other != id
    ensures IsLiked(ToggleLike(s, id), id) == !IsLiked(s, id)
    ensures IsLiked(ToggleLike(s, id), other) == IsLiked(s, other)
  {
    if id in s.liked {
      FilterMembership(s.liked, OtherThan(id), id);
      FilterMembership(s.liked, OtherThan(id), other);
    }
  }

  /** Liking and then unliking an id restores the list. */
  lemma ToggleLikeTwice(s: Session, id: string)
    requires !IsLiked(s, id)
    ensures ToggleLike(ToggleLike(s, id), id) == s
  {
    var t := ToggleLike(s, id);
    assert id in t.liked;
    FilterAppend(s.liked, [id], OtherThan(id));
    FilterAll(s.liked, OtherThan(id));
    assert Filter([id], OtherThan(id)) == [] by { assert !OtherThan(id)(id); }
  }

  // ------------------------------------------------------ playCollection

  /** `playCollection(songs, startIndex)`: nothing for an empty list;
      otherwise the song at the start index becomes current (none when the
      index is past the end), the songs after it become the context queue,
      and the manual queue and history are emptied. */
  function PlayCollection(s: Session, songs: seq<Song>, startIndex: nat): Session {
    if songs == [] then s
    else
      Started(s, SongAt(songs, startIndex)).(contextQueue := SliceFrom(songs, startIndex + 1), queue := [], history := [])
  }

  /** `songs[i]`: no song past the end. */
  function SongAt(songs: seq<Song>, i: nat): (r: Option<Song>)
    ensures r.Some? <==> i < |songs|
    ensures r.Some? ==> r.value == songs[i]
  {
    if i < |songs| then Some(songs[i]) else None
  }

  /** `songs.slice(i)`: empty past the end. */
  function SliceFrom(songs: seq<Song>, i: nat): (r: seq<Song>)
    ensures i <= |songs| ==> r == songs[i..]
    ensures i >= |songs| ==> r == []
  {
    if i <= |songs| then songs[i..] else []
  }

  lemma PlayCollectionCases(s: Session, songs: seq<Song>, startIndex: nat)
    ensures songs == [] ==> PlayCollection(s, songs, startIndex) == s
    ensures songs != [] && startIndex < |songs| ==>
      var r := PlayCollection(s, songs, startIndex);
      r.current == Some(songs[startIndex]) && [songs[startIndex]] + r.contextQueue == songs[startIndex..] &&
      r.queue == [] && r.history == [] && r.isPlaying && r.progress == 0.0
  {
  }

  /** Playing a collection and then moving on without shuffle plays the songs
      of the collection in order, recording each one in the history. */
  lemma PlayCollectionThenNext(s: Session, songs: seq<Song>, startIndex: nat, choice: nat)
    requires startIndex + 1 < |songs| && s.repeat != One && !s.shuffle
    requires songs[startIndex + 1].id != songs[startIndex].id
    ensures var r := NextSong(PlayCollection(s, songs, startIndex), choice);
      r.current == Some(songs[startIndex + 1]) && r.history == [songs[startIndex]] &&
      r.contextQueue == songs[startIndex + 2..] && r.progress == 0.0
  {
    var c := PlayCollection(s, songs, startIndex);
    assert c.contextQueue[0] == songs[startIndex + 1];
    assert c.contextQueue[1..] == songs[startIndex + 2..];
    assert PushedHistory(c) == [songs[startIndex]];
  }

  // ------------------------------------------------------- all operations

  /** One call of an operation of the provider. */
  datatype Action =
    | Play(song: Song)
    | Enqueue(song: Song)
    | TogglePlayback
    | SetPlaying(playing: bool)
    | SetPosition(progress: real)
    | SetLength(duration: real)
    | SetLoading(loading: bool)
    | LoadLibrary(songs: seq<Song>)
    | ToggleAutoplaySetting
    | ToggleShuffleSetting
    | CycleRepeatMode
    | Next(choice: nat)
    | Previous
    | SeekTo(position: real)
    | ClearSeek
    | ToggleLiked(id: string)
    | PlayAll(songs: seq<Song>, startIndex: nat)

  function Step(s: Session, a: Action): Session {
    match a
    case Play(song) => PlaySong(s, song)
    case Enqueue(song) => AddToQueue(s, song)
    case TogglePlayback => TogglePlay(s)
    case SetPlaying(playing) => SetIsPlaying(s, playing)
    case SetPosition(progress) => SetProgress(s, progress)
    case SetLength(duration) => SetDuration(s, duration)
    case SetLoading(loading) => SetIsLoading(s, loading)
    case LoadLibrary(songs) => SetLibrary(s, songs)
    case ToggleAutoplaySetting => ToggleAutoplay(s)
    case ToggleShuffleSetting => ToggleShuffle(s)
    case CycleRepeatMode => CycleRepeat(s)
    case Next(choice) => NextSong(s, choice)
    case Previous => PrevSong(s)
    case SeekTo(position) => Seek(s, position)
    case ClearSeek => ResetSeek(s)
    case ToggleLiked(id) => ToggleLike(s, id)
    case PlayAll(songs, startIndex) => PlayCollection(s, songs, startIndex)
  }

  function Run(s: Session, actions: seq<Action>): Session
    decreases |actions|
  {
    if actions == [] then s else Run(Step(s, actions[0]), actions[1..])
  }

  /** Every operation keeps the history at twenty songs or fewer. */
  lemma StepKeepsValid(s: Session, a: Action)
    requires Valid(s)
    ensures Valid(Step(s, a))
  {
    match a
    case Next(choice) => NextSongKeepsValid(s, choice);
    case Previous => PrevSongCases(s);
    case Play(song) => PlaySongEffect(s, song);
    case _ =>
  }

  /** From the initial state, the history never holds more than twenty songs. */
  lemma {:induction false} RunKeepsValid(s: Session, actions: seq<Action>)
    requires Valid(s)
    ensures Valid(Run(s, actions))
    decreases |actions|
  {
    if actions != [] {
      StepKeepsValid(s, actions[0]);
      RunKeepsValid(Step(s, actions[0]), actions[1..]);
    }
  }
}
