/**
  The playback controller of `AudioPlayer` as a state machine over its
  four pieces of state: the playlist, the current index, the is-playing
  flag and the sink. Each function is one public operation; the lemmas
  state what the operations promise, alone and in sequence.

  `opens(p)` says whether opening the file `p` and decoding it both
  succeed; the file system and the decoder are outside the model.
 */
module Controller {
  import opened Wrappers
  import opened FilePaths
  import opened Library
  import opened AudioSink

  datatype State = State(songs: seq<Song>, current: Option<nat>, playing: bool, sink: Sink)

  /** The current index, when there is one, names a song of the playlist. */
  predicate Inv(s: State) {
    s.current.Some? ==> s.current.value < |s.songs|
  }

  /** `AudioPlayer::new`: no songs, no selection, not playing, a fresh sink. */
  function Init(): (r: State)
    ensures Inv(r)
  {
    State([], None, false, Connect())
  }

  /** `load_songs_from_dir`: installs the scanned playlist and clears the selection. */
  function Load(s: State, walk: seq<Path>): (r: State)
    ensures Inv(r)
  {
    s.(songs := Scan(walk), current := None)
  }

  /** `play_by_file`: when the file opens and decodes, stop the sink, load that one track and play. */
  function PlayFile(sink: Sink, p: Path, opens: Path -> bool): (r: Sink)
    ensures opens(p) ==> r.loaded == Some(p) && !r.paused
    ensures !opens(p) ==> r == sink
  {
    if opens(p) then AudioSink.Play(Append(Stop(sink), p)) else sink
  }

  /**
    `play_by_index`: out of range it does nothing; in range it selects the
    song and marks playback active, whether or not the file could be played.
   */
  function PlayByIndex(s: State, index: nat, opens: Path -> bool): (r: State)
    ensures Inv(s) ==> Inv(r)
    ensures index < |s.songs| ==> Inv(r) && r.current == Some(index)
  {
    if index < |s.songs| then
      State(s.songs, Some(index), true, PlayFile(s.sink, s.songs[index].path, opens))
    else s
  }

  /** `toggle_play_pause`: resumes a paused sink, pauses any other, and records which. */
  function TogglePlayPause(s: State): (r: State)
    ensures Inv(s) ==> Inv(r)
  {
    if s.sink.paused then s.(sink := AudioSink.Play(s.sink), playing := true)
    else s.(sink := Pause(s.sink), playing := false)
  }

  /**
    The index `next` plays: one past the current one, wrapping with
    `% len`, or 0 when nothing is selected. There is one exactly when the
    playlist is not empty, and it is in range, so the modulus is never 0.
   */
  function NextTarget(s: State): (r: Option<nat>)
    requires Inv(s)
    ensures r.Some? <==> |s.songs| > 0
    ensures r.Some? ==> r.value < |s.songs|
  {
    match s.current
    case Some(i) => Some((i + 1) % |s.songs|)
    case None => if |s.songs| > 0 then Some(0) else None
  }

  /**
    The index `previous` plays: one before the current one, wrapping from
    0 to `len - 1`, or 0 when nothing is selected. The subtraction never
    goes below 0.
   */
  function PreviousTarget(s: State): (r: Option<nat>)
    requires Inv(s)
    ensures r.Some? <==> |s.songs| > 0
    ensures r.Some? ==> r.value < |s.songs|
  {
    match s.current
    case Some(i) => Some(if i == 0 then |s.songs| - 1 else i - 1)
    case None => if |s.songs| > 0 then Some(0) else None
  }

  /** `next`: plays the next target, if there is one. */
  function Next(s: State, opens: Path -> bool): (r: State)
    requires Inv(s)
    ensures Inv(r) && r.songs == s.songs
  {
    match NextTarget(s)
    case Some(j) => PlayByIndex(s, j, opens)
    case None => s
  }

  /** `previous`: plays the previous target, if there is one. */
  function Previous(s: State, opens: Path -> bool): (r: State)
    requires Inv(s)
    ensures Inv(r) && r.songs == s.songs
  {
    match PreviousTarget(s)
    case Some(j) => PlayByIndex(s, j, opens)
    case None => s
  }

  /** The condition the playback monitor checks on each tick. */
  predicate ShouldPlayNext(s: State) {
    Empty(s.sink) && s.playing && |s.songs| > 0
  }

  /** One tick of the playback monitor: `next` when the condition holds. */
  function Tick(s: State, opens: Path -> bool): (r: State)
    requires Inv(s)
    ensures Inv(r) && r.songs == s.songs
  {
    if ShouldPlayNext(s) then Next(s, opens) else s
  }

  /** The operations a caller or the monitor thread can perform. */
  datatype Op =
    | LoadDir(walk: seq<Path>)
    | PlayIndex(index: nat)
    | PlayPath(p: Path)
    | TogglePause
    | NextSong
    | PreviousSong
    | MonitorTick
    | TrackEnds

  /** One operation; `PlayPath` is a direct `play_by_file`, and `TrackEnds` is the audio backend finishing the loaded track. */
  function Step(s: State, op: Op, opens: Path -> bool): (r: State)
    requires Inv(s)
    ensures Inv(r)
  {
    match op
    case LoadDir(walk) => Load(s, walk)
    case PlayIndex(i) => PlayByIndex(s, i, opens)
    case PlayPath(p) => s.(sink := PlayFile(s.sink, p, opens))
    case TogglePause => TogglePlayPause(s)
    case NextSong => Next(s, opens)
    case PreviousSong => Previous(s, opens)
    case MonitorTick => Tick(s, opens)
    case TrackEnds => s.(sink := Finish(s.sink))
  }

  /** The state after a new player performs `ops` in order: every such state keeps the invariant. */
  function Run(ops: seq<Op>, opens: Path -> bool): (r: State)
    ensures Inv(r)
    decreases |ops|
  {
    if ops == [] then Init()
    else Step(Run(ops[..|ops| - 1], opens), ops[|ops| - 1], opens)
  }

  /** Along any run, `current_song`'s indexing is in range and `next`/`previous` never divide by 0 or underflow. */
  lemma {:induction false} RunKeepsSelectionInRange(ops: seq<Op>, opens: Path -> bool)
    ensures Run(ops, opens).current.Some? ==> Run(ops, opens).current.value < |Run(ops, opens).songs|
    ensures Run(ops, opens).current.Some? ==> |Run(ops, opens).songs| > 0
  {
  }

  /** Reloading clears the selection after any history, and leaves the flag and the sink alone. */
  lemma LoadResetsSelection(ops: seq<Op>, walk: seq<Path>, opens: Path -> bool)
    ensures Run(ops + [LoadDir(walk)], opens).current == None
    ensures Run(ops + [LoadDir(walk)], opens).playing == Run(ops, opens).playing
    ensures Run(ops + [LoadDir(walk)], opens).sink == Run(ops, opens).sink
    ensures Run(ops + [LoadDir(walk)], opens).songs == Scan(walk)
  {
    assert (ops + [LoadDir(walk)])[..|ops|] == ops;
  }

  /** An index past the end changes nothing at all. */
  lemma PlayByIndexOutOfRange(s: State, index: nat, opens: Path -> bool)
    requires index >= |s.songs|
    ensures PlayByIndex(s, index, opens) == s
  {
  }

  /**
    An index in range is selected and playback is marked active even when
    the file fails; the sink changes only when it opens and decodes, and
    then holds exactly that song, unpaused.
   */
  lemma PlayByIndexInRange(s: State, index: nat, opens: Path -> bool)
    requires index < |s.songs|
    ensures PlayByIndex(s, index, opens).songs == s.songs
    ensures PlayByIndex(s, index, opens).current == Some(index)
    ensures PlayByIndex(s, index, opens).playing
    ensures opens(s.songs[index].path) ==>
      PlayByIndex(s, index, opens).sink == Sink(Some(s.songs[index].path), false)
    ensures !opens(s.songs[index].path) ==> PlayByIndex(s, index, opens).sink == s.sink
  {
  }

  lemma ModUnique(x: int, n: int, q: int, r: int)
    requires n > 0 && 0 <= r < n && x == q * n + r
    ensures x % n == r
  {
    var d := q - x / n;
    assert d * n == x % n - r;
  }

  lemma ModSucc(x: int, n: int)
    requires n > 0
    ensures (x % n + 1) % n == (x + 1) % n
  {
    var q, r := x / n, x % n;
    if r + 1 < n {
      ModUnique(x + 1, n, q, r + 1);
      ModUnique(r + 1, n, 0, r + 1);
    } else {
      ModUnique(x + 1, n, q + 1, 0);
      ModUnique(r + 1, n, 1, 0);
    }
  }

  lemma ModPred(x: int, n: int)
    requires n > 0
    ensures (if x % n == 0 then n - 1 else x % n - 1) == (x - 1) % n
  {
    var q, r := x / n, x % n;
    if r == 0 {
      ModUnique(x - 1, n, q - 1, n - 1);
    } else {
      ModUnique(x - 1, n, q, r - 1);
    }
  }

  /** `next` performed `k` times. */
  function NextTimes(s: State, k: nat, opens: Path -> bool): (r: State)
    requires Inv(s)
    ensures Inv(r) && r.songs == s.songs
  {
    if k == 0 then s else Next(NextTimes(s, k - 1, opens), opens)
  }

  /** `previous` performed `k` times. */
  function PreviousTimes(s: State, k: nat, opens: Path -> bool): (r: State)
    requires Inv(s)
    ensures Inv(r) && r.songs == s.songs
  {
    if k == 0 then s else Previous(PreviousTimes(s, k - 1, opens), opens)
  }

  /** From song `i`, `k` steps forward land on song `(i + k) mod n`. */
  lemma {:induction false} NextTimesIndex(s: State, k: nat, opens: Path -> bool)
    requires Inv(s) && s.current.Some?
    ensures NextTimes(s, k, opens).current == Some((s.current.value + k) % |s.songs|)
  {
    var i, n := s.current.value, |s.songs|;
    if k == 0 {
      ModUnique(i, n, 0, i);
    } else {
      NextTimesIndex(s, k - 1, opens);
      ModSucc(i + k - 1, n);
    }
  }

  /** From song `i`, `k` steps back land on song `(i - k) mod n`. */
  lemma {:induction false} PreviousTimesIndex(s: State, k: nat, opens: Path -> bool)
    requires Inv(s) && s.current.Some?
    ensures PreviousTimes(s, k, opens).current == Some((s.current.value - k) % |s.songs|)
  {
    var i, n := s.current.value, |s.songs|;
    if k == 0 {
      ModUnique(i, n, 0, i);
    } else {
      PreviousTimesIndex(s, k - 1, opens);
      ModPred(i - k + 1, n);
    }
  }

  /** Going forward once per song, any whole number of rounds, returns to the song one started from. */
  lemma NextIsCircular(s: State, rounds: nat, opens: Path -> bool)
    requires Inv(s) && s.current.Some?
    ensures NextTimes(s, rounds * |s.songs|, opens).current == s.current
  {
    var i, n := s.current.value, |s.songs|;
    var k := rounds * n;
    NextTimesIndex(s, k, opens);
    ModUnique(i + k, n, rounds, i);
  }

  /** Going back once per song, any whole number of rounds, returns to the song one started from. */
  lemma PreviousIsCircular(s: State, rounds: nat, opens: Path -> bool)
    requires Inv(s) && s.current.Some?
    ensures PreviousTimes(s, rounds * |s.songs|, opens).current == s.current
  {
    var i, n := s.current.value, |s.songs|;
    var k := rounds * n;
    PreviousTimesIndex(s, k, opens);
    var q: int := -(rounds as int);
    assert i - k == q * n + i;
    ModUnique(i - k, n, q, i);
  }

  /** From song `i`, `next` plays song `i + 1`, and from the last song the first one. */
  lemma NextWrapsAtEnd(s: State, opens: Path -> bool)
    requires Inv(s) && s.current.Some?
    ensures NextTarget(s) == Some(if s.current.value + 1 == |s.songs| then 0 else s.current.value + 1)
    ensures Next(s, opens) == PlayByIndex(s, NextTarget(s).value, opens)
  {
    var i, n := s.current.value, |s.songs|;
    if i + 1 == n {
      ModUnique(i + 1, n, 1, 0);
    } else {
      ModUnique(i + 1, n, 0, i + 1);
    }
  }

  /** With a selection, `previous` undoes `next` and `next` undoes `previous`. */
  lemma NextAndPreviousAreInverse(s: State, opens: Path -> bool)
    requires Inv(s) && s.current.Some?
    ensures Previous(Next(s, opens), opens).current == s.current
    ensures Next(Previous(s, opens), opens).current == s.current
  {
    var i, n := s.current.value, |s.songs|;
    NextTimesIndex(s, 1, opens);
    ModUnique(i + 1, n, if i + 1 < n then 0 else 1, if i + 1 < n then i + 1 else 0);
    var p := Previous(s, opens);
    assert p.current == Some(if i == 0 then n - 1 else i - 1);
    ModUnique(p.current.value + 1, n, if i == 0 then 1 else 0, i);
  }

  /** Without a selection both directions start at the first song, on a non-empty playlist. */
  lemma NavigationWithoutSelection(s: State, opens: Path -> bool)
    requires Inv(s) && s.current.None? && |s.songs| > 0
    ensures Next(s, opens) == PlayByIndex(s, 0, opens)
    ensures Previous(s, opens) == PlayByIndex(s, 0, opens)
    ensures Next(s, opens).current == Some(0) && Previous(s, opens).current == Some(0)
  {
  }

  /** On an empty playlist, selecting, `next`, `previous` and a tick leave the state as it was. */
  lemma EmptyPlaylistIsInert(s: State, index: nat, opens: Path -> bool)
    requires Inv(s) && |s.songs| == 0
    ensures s.current == None
    ensures PlayByIndex(s, index, opens) == s
    ensures Next(s, opens) == s && Previous(s, opens) == s
    ensures Tick(s, opens) == s
  {
  }

  /** Toggling flips the pause flag, sets is-playing to its negation, and touches nothing else. */
  lemma ToggleFlipsPause(s: State)
    ensures TogglePlayPause(s).sink.paused == !s.sink.paused
    ensures TogglePlayPause(s).playing == !TogglePlayPause(s).sink.paused
    ensures TogglePlayPause(s).sink.loaded == s.sink.loaded
    ensures TogglePlayPause(s).songs == s.songs && TogglePlayPause(s).current == s.current
  {
  }

  /** Toggling twice restores the sink; is-playing then agrees with it. */
  lemma ToggleTwiceRestoresSink(s: State)
    ensures TogglePlayPause(TogglePlayPause(s)).sink == s.sink
    ensures TogglePlayPause(TogglePlayPause(s)).playing == !s.sink.paused
  {
  }

  /** Toggling acts even with nothing loaded: on a new player, two toggles leave is-playing set. */
  lemma ToggleOnNewPlayer()
    ensures TogglePlayPause(Init()).playing == false
    ensures TogglePlayPause(TogglePlayPause(Init())).playing == true
    ensures TogglePlayPause(TogglePlayPause(Init())).songs == []
  {
  }

  /** A tick performs `next` exactly when the condition holds, and otherwise changes nothing. */
  lemma TickIsNextExactlyWhenFinished(s: State, opens: Path -> bool)
    requires Inv(s)
    ensures ShouldPlayNext(s) ==> Tick(s, opens) == Next(s, opens)
    ensures !ShouldPlayNext(s) ==> Tick(s, opens) == s
    ensures Tick(s, opens) != s ==> Empty(s.sink) && s.playing && |s.songs| > 0
  {
  }

  /** A tick that fires moves the selection exactly one song forward, wrapping at the end. */
  lemma TickAdvancesByOne(s: State, opens: Path -> bool)
    requires Inv(s) && ShouldPlayNext(s)
    ensures s.current.Some? ==> Tick(s, opens).current == Some((s.current.value + 1) % |s.songs|)
    ensures s.current.None? ==> Tick(s, opens).current == Some(0)
    ensures Tick(s, opens).playing
  {
  }

  /** When the loaded track ends while playback is active, the next tick moves on. */
  lemma TrackEndTriggersNext(s: State, opens: Path -> bool)
    requires Inv(s) && s.playing && |s.songs| > 0
    ensures Tick(s.(sink := Finish(s.sink)), opens) == Next(s.(sink := Finish(s.sink)), opens)
  {
  }

  /** While a track is loaded, or when playback is paused by the user, ticks do nothing. */
  lemma TickIdle(s: State, opens: Path -> bool)
    requires Inv(s) && (!Empty(s.sink) || !s.playing)
    ensures Tick(s, opens) == s
  {
  }

  /**
    A song that fails to open leaves an empty sink empty while is-playing
    becomes true, so the next tick skips to the following song.
   */
  lemma FailedSongIsSkipped(s: State, index: nat, opens: Path -> bool)
    requires Inv(s) && Empty(s.sink) && index < |s.songs|
    requires !opens(s.songs[index].path)
    ensures ShouldPlayNext(PlayByIndex(s, index, opens))
    ensures Tick(PlayByIndex(s, index, opens), opens).current == Some((index + 1) % |s.songs|)
  {
  }
}
