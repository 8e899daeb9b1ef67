/**
  `AudioPlayer` itself: an object whose four fields the public methods
  update in place. Each method's contract ties the new state, seen through
  `Model()`, to the `Controller` function for that operation applied to
  the old state, so every property proved there holds for the object.

  The directory walk arrives as the sequence of paths it yields, and
  `opens(p)` says whether the file `p` opens and decodes.
 */
module Player {
  import opened Wrappers
  import opened FilePaths
  import opened Library
  import opened AudioSink
  import Controller

  class AudioPlayer {
    var sink: Sink
    var songs: seq<Song>
    var currentIndex: Option<nat>
    var isPlaying: bool

    /** The object's state as a `Controller.State`. */
    ghost function Model(): Controller.State
      reads this
    {
      Controller.State(songs, currentIndex, isPlaying, sink)
    }

    /** The current index, when set, is a position in the playlist. */
    ghost predicate Valid()
      reads this
    {
      Controller.Inv(Model())
    }

    /** `new`: an empty playlist, nothing selected, not playing, a freshly connected sink. */
    constructor ()
      ensures Valid()
      ensures Model() == Controller.Init()
    {
      sink := Connect();
      songs := [];
      currentIndex := None;
      isPlaying := false;
    }

    /**
      `load_songs_from_dir`: clears the playlist and the selection, pushes
      every walked path whose extension is an audio one, numbered in walk
      order, then sorts by file name.
     */
    method LoadSongsFromDir(walk: seq<Path>)
      modifies this
      ensures Valid()
      ensures Model() == Controller.Load(old(Model()), walk)
    {
      songs := [];
      currentIndex := None;
      var index: nat := 0;
      for k := 0 to |walk|
        invariant songs == Collect(walk[..k])
        invariant index == |songs|
        invariant currentIndex == None
        invariant sink == old(sink) && isPlaying == old(isPlaying)
      {
        var path := walk[k];
        assert walk[..k + 1][..k] == walk[..k];
        match Extension(path.name)
        case Some(ext) =>
          var lower := ToLowerAscii(ext);
          if lower == "mp3" || lower == "wav" || lower == "flac" || lower == "ogg" {
            songs := songs + [Song(index, path)];
            index := index + 1;
          }
        case None =>
      }
      assert walk[..|walk|] == walk;
      songs := SortByName(songs);
    }

    /**
      `play_by_file`: when the file opens and decodes, the sink is stopped,
      given that one track and told to play; otherwise nothing changes.
     */
    method PlayByFile(path: Path, opens: Path -> bool)
      modifies this
      ensures Model() == old(Model()).(sink := Controller.PlayFile(old(sink), path, opens))
    {
      if opens(path) {
        sink := Stop(sink);
        sink := Append(sink, path);
        sink := AudioSink.Play(sink);
      }
    }

    /** `play_by_index`: plays and selects song `index` when it exists, and does nothing otherwise. */
    method PlayByIndex(index: nat, opens: Path -> bool)
      modifies this
      ensures old(Valid()) ==> Valid()
      ensures Model() == Controller.PlayByIndex(old(Model()), index, opens)
    {
      if index < |songs| {
        PlayByFile(songs[index].path, opens);
        currentIndex := Some(index);
        isPlaying := true;
      }
    }

    /** `toggle_play_pause`: resumes a paused sink, pauses any other, and records which. */
    method TogglePlayPause()
      modifies this
      ensures old(Valid()) ==> Valid()
      ensures Model() == Controller.TogglePlayPause(old(Model()))
    {
      if sink.paused {
        sink := AudioSink.Play(sink);
        isPlaying := true;
      } else {
        sink := Pause(sink);
        isPlaying := false;
      }
    }

    /** `next`: the song after the current one, wrapping to the first, or the first when none is selected. */
    method Next(opens: Path -> bool)
      requires Valid()
      modifies this
      ensures Valid()
      ensures Model() == Controller.Next(old(Model()), opens)
    {
      match currentIndex
      case Some(i) =>
        var index := (i + 1) % |songs|;
        PlayByIndex(index, opens);
      case None =>
        if |songs| > 0 {
          PlayByIndex(0, opens);
        }
    }

    /** `previous`: the song before the current one, wrapping to the last, or the first when none is selected. */
    method Previous(opens: Path -> bool)
      requires Valid()
      modifies this
      ensures Valid()
      ensures Model() == Controller.Previous(old(Model()), opens)
    {
      match currentIndex
      case Some(i) =>
        var index := if i == 0 then |songs| - 1 else i - 1;
        PlayByIndex(index, opens);
      case None =>
        if |songs| > 0 {
          PlayByIndex(0, opens);
        }
    }

    /** One iteration of the playback monitor's loop: `next` when the sink ran dry while playing. */
    method MonitorTick(opens: Path -> bool)
      requires Valid()
      modifies this
      ensures Valid()
      ensures Model() == Controller.Tick(old(Model()), opens)
    {
      var shouldPlayNext := Empty(sink) && isPlaying && |songs| > 0;
      if shouldPlayNext {
        Next(opens);
      }
    }

    /** `get_songs`: a copy of the playlist. */
    function GetSongs(): (r: seq<Song>)
      reads this
      ensures r == Model().songs
    {
      songs
    }

    /** `is_playing`: the recorded flag. */
    function IsPlaying(): (r: bool)
      reads this
      ensures r == Model().playing
    {
      isPlaying
    }

    /**
      `get_current_song`: the path of the selected song. It looks the index
      up defensively, but in a valid player the lookup never misses: there
      is a song exactly when there is a selection.
     */
    function GetCurrentSong(): (r: Option<Path>)
      reads this
      ensures currentIndex.None? ==> r.None?
      ensures currentIndex.Some? && currentIndex.value >= |songs| ==> r.None?
      ensures currentIndex.Some? && currentIndex.value < |songs| ==> r == Some(songs[currentIndex.value].path)
      ensures Valid() ==> (r.Some? <==> currentIndex.Some?)
      ensures Valid() && currentIndex.Some? ==> r == Some(songs[currentIndex.value].path)
    {
      match currentIndex
      case None => None
      case Some(i) => if i < |songs| then Some(songs[i].path) else None
    }
  }

  /**
    A caller's view of a directory load: a new player loaded with `walk`
    lists the kept paths in ascending file-name order, ties in walk order,
    each numbered by its position in the walk, and nothing is selected.
   */
  method LoadAndList(walk: seq<Path>) returns (listed: seq<Song>, selected: Option<Path>)
    ensures listed == Scan(walk)
    ensures StrictlySorted(listed)
    ensures multiset(listed) == multiset(Collect(walk))
    ensures forall p :: p in PathsOf(listed) <==> p in walk && IsAudio(p)
    ensures selected == None
  {
    var player := new AudioPlayer();
    player.LoadSongsFromDir(walk);
    listed := player.GetSongs();
    selected := player.GetCurrentSong();
    ScanCorrect(walk);
  }

  /**
    A caller that plays song `index` and then presses `next` as many times
    as there are songs comes back to the song it started with.
   */
  method PlayThroughPlaylist(player: AudioPlayer, index: nat, opens: Path -> bool) returns (start: Option<Path>, back: Option<Path>)
    requires player.Valid() && index < |player.songs|
    modifies player
    ensures player.Valid()
    ensures player.songs == old(player.songs)
    ensures start == Some(player.songs[index].path)
    ensures back == start
  {
    player.PlayByIndex(index, opens);
    start := player.GetCurrentSong();
    ghost var s := player.Model();
    var n := |player.songs|;
    for k := 0 to n
      invariant player.Valid() && player.songs == s.songs
      invariant player.Model() == Controller.NextTimes(s, k, opens)
    {
      player.Next(opens);
    }
    Controller.NextIsCircular(s, 1, opens);
    back := player.GetCurrentSong();
  }
}
