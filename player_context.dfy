/** The player provider as an object: one field per piece of React state,
    one method per operation it exposes. Each method reads the fields as they
    were when it was called and assigns the ones the source sets, and is
    proved to produce the session that the matching `Playback` function
    describes. */
module PlayerContext {
  import opened Wrappers
  import opened Songs
  import Seqs
  import Playback

  class Player {
    var current: Option<Song>
    var isPlaying: bool
    var progress: real
    var duration: real
    var isLoading: bool
    var queue: seq<Song>
    var contextQueue: seq<Song>
    var history: seq<Song>
    var shuffle: bool
    var repeat: Playback.Repeat
    var autoplay: bool
    var seekTo: Option<real>
    var liked: seq<string>
    /** `availableSongs`: the library loaded from YouTube at startup. */
    var library: seq<Song>

    /** The fields as one session value. */
    function State(): Playback.Session
      reads this
    {
      Playback.Session(current, isPlaying, progress, duration, isLoading, queue, contextQueue, history,
                       shuffle, repeat, autoplay, seekTo, liked, library)
    }

    ghost predicate Valid()
      reads this
    {
      Playback.Valid(State())
    }

    constructor()
      ensures State() == Playback.Initial() && Valid()
    {
      current := None;
      isPlaying := false;
      progress := 0.0;
      duration := 0.0;
      isLoading := false;
      queue := [];
      contextQueue := [];
      history := [];
      shuffle := false;
      repeat := Playback.Off;
      autoplay := true;
      seekTo := None;
      liked := [];
      library := [];
    }

    method TogglePlay()
      modifies this
      ensures State() == Playback.TogglePlay(old(State()))
      ensures old(Valid()) ==> Valid()
    {
      isPlaying := !isPlaying;
    }

    method SetIsPlaying(playing: bool)
      modifies this
      ensures State() == Playback.SetIsPlaying(old(State()), playing)
      ensures old(Valid()) ==> Valid()
    {
      isPlaying := playing;
    }

    method SetProgress(position: real)
      modifies this
      ensures State() == Playback.SetProgress(old(State()), position)
      ensures old(Valid()) ==> Valid()
    {
      progress := position;
    }

    method SetDuration(length: real)
      modifies this
      ensures State() == Playback.SetDuration(old(State()), length)
      ensures old(Valid()) ==> Valid()
    {
      duration := length;
    }

    method SetIsLoading(loading: bool)
      modifies this
      ensures State() == Playback.SetIsLoading(old(State()), loading)
      ensures old(Valid()) ==> Valid()
    {
      isLoading := loading;
    }

    /** The startup load delivering its songs. */
    method SetLibrary(songs: seq<Song>)
      modifies this
      ensures State() == Playback.SetLibrary(old(State()), songs)
      ensures old(Valid()) ==> Valid()
    {
      library := songs;
    }

    method PlaySong(song: Song)
      modifies this
      ensures State() == Playback.PlaySong(old(State()), song)
      ensures old(Valid()) ==> Valid()
    {
      if current.Some? && current.value.id == song.id {
        isPlaying := true;
        return;
      }
      Start(Some(song));
    }

    /** The state setters every fresh start calls, in the order the source calls them. */
    method Start(song: Option<Song>)
      modifies this
      ensures State() == Playback.Started(old(State()), song)
    {
      current := song;
      isPlaying := true;
      Rewind();
    }

    /** Position and duration back to 0, loading, and a seek to 0 requested. */
    method Rewind()
      modifies this
      ensures State() == old(State()).(progress := 0.0, duration := 0.0, isLoading := true, seekTo := Some(0.0))
    {
      progress := 0.0;
      duration := 0.0;
      isLoading := true;
      seekTo := Some(0.0);
    }

    method AddToQueue(song: Song)
      modifies this
      ensures State() == Playback.AddToQueue(old(State()), song)
      ensures old(Valid()) ==> Valid()
    {
      queue := queue + [song];
    }

    method ToggleAutoplay()
      modifies this
      ensures State() == Playback.ToggleAutoplay(old(State()))
      ensures old(Valid()) ==> Valid()
    {
      autoplay := !autoplay;
    }

    method ToggleShuffle()
      modifies this
      ensures State() == Playback.ToggleShuffle(old(State()))
      ensures old(Valid()) ==> Valid()
    {
      shuffle := !shuffle;
    }

    method CycleRepeat()
      modifies this
      ensures State() == Playback.CycleRepeat(old(State()))
      ensures old(Valid()) ==> Valid()
    {
      if repeat == Playback.Off {
        repeat := Playback.All;
      } else if repeat == Playback.All {
        repeat := Playback.One;
      } else {
        repeat := Playback.Off;
      }
    }

    /** `nextSong`: the choices are taken against `before`, the session at the
        time of the call; `choice` stands for the random numbers. */
    method NextSong(choice: nat)
      modifies this
      ensures State() == Playback.NextSong(old(State()), choice)
      ensures old(Valid()) ==> Valid()
    {
      var before := State();
      if Playback.RepeatsCurrent(before) {
        PlaySong(before.current.value);
        Playback.NextSongRepeatBranch(before, choice);
      } else {
        MoveOn(before, choice);
      }
      if Playback.Valid(before) {
        Playback.NextSongKeepsValid(before, choice);
      }
    }

    /** `nextSong` past the repeat-one case: the history is pushed, then the
        next song is taken from the manual queue, the context queue, the
        restarted history or the library, in that order, or playback stops. */
    method MoveOn(before: Playback.Session, choice: nat)
      requires State() == before && !Playback.RepeatsCurrent(before)
      modifies this
      ensures State() == Playback.NextSong(before, choice)
    {
      PushHistory();
      if before.queue != [] {
        PlayFromQueue();
        Playback.NextSongQueueBranch(before, choice);
      } else if before.contextQueue != [] {
        PlayFromContext(before, choice);
        Playback.NextSongContextBranch(before, choice);
      } else if before.repeat == Playback.All && |before.history| > 0 {
        RestartHistory(before.history[0]);
        Playback.NextSongRestartBranch(before, choice);
      } else if before.library != [] {
        PlaySong(Playback.LibraryPick(before, choice));
        Playback.NextSongLibraryBranch(before, choice);
      } else {
        isPlaying := false;
        Playback.NextSongStops(before, choice);
      }
    }

    /** The functional update of the history made before any song is chosen. */
    method PushHistory()
      modifies this
      ensures State() == old(State()).(history := Playback.PushedHistory(old(State())))
    {
      if current.Some? {
        history := Playback.Last(history, Playback.MaxHistory - 1) + [current.value];
      }
    }

    /** The head of the manual queue is taken off and played. */
    method PlayFromQueue()
      requires queue != []
      modifies this
      ensures State() == Playback.PlaySong(old(State()).(queue := old(queue)[1..]), old(queue)[0])
    {
      var next := queue[0];
      queue := queue[1..];
      PlaySong(next);
    }

    /** The pick from the context queue, chosen against `before`, is played
        and the rest of that queue kept. */
    method PlayFromContext(before: Playback.Session, choice: nat)
      requires before.contextQueue != []
      modifies this
      ensures State() == Playback.PlaySong(old(State()).(contextQueue := Playback.ContextPick(before, choice).rest),
                                           Playback.ContextPick(before, choice).next)
    {
      var pick := Playback.ContextPick(before, choice);
      contextQueue := pick.rest;
      PlaySong(pick.next);
    }

    /** Repeat-all: the history is cleared and its first song played. */
    method RestartHistory(first: Song)
      modifies this
      ensures State() == Playback.PlaySong(old(State()).(history := []), first)
    {
      history := [];
      PlaySong(first);
    }

    method Seek(position: real)
      modifies this
      ensures State() == Playback.Seek(old(State()), position)
      ensures old(Valid()) ==> Valid()
    {
      seekTo := Some(position);
      progress := position;
    }

    method ResetSeek()
      modifies this
      ensures State() == Playback.ResetSeek(old(State()))
      ensures old(Valid()) ==> Valid()
    {
      seekTo := None;
    }

    method PrevSong()
      modifies this
      ensures State() == Playback.PrevSong(old(State()))
      ensures old(Valid()) ==> Valid()
    {
      Playback.PrevSongCases(State());
      if progress > 3.0 {
        Seek(0.0);
        return;
      }
      if |history| > 0 {
        var prev := history[|history| - 1];
        history := history[..|history| - 1];
        PlaySong(prev);
      } else {
        Seek(0.0);
      }
    }

    method ToggleLike(id: string)
      modifies this
      ensures State() == Playback.ToggleLike(old(State()), id)
      ensures old(Valid()) ==> Valid()
    {
      if id in liked {
        liked := Seqs.Filter(liked, Playback.OtherThan(id));
      } else {
        liked := liked + [id];
      }
    }

    predicate IsLiked(id: string)
      reads this
    {
      id in liked
    }

    method PlayCollection(songs: seq<Song>, startIndex: nat)
      modifies this
      ensures State() == Playback.PlayCollection(old(State()), songs, startIndex)
      ensures old(Valid()) ==> Valid()
    {
      if |songs| == 0 {
        return;
      }
      Start(Playback.SongAt(songs, startIndex));
      contextQueue := Playback.SliceFrom(songs, startIndex + 1);
      queue := [];
      history := [];
    }
  }
}
