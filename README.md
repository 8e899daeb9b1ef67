# lol_player: the `AudioPlayer` playback controller in Dafny

lol_player is a small GTK music player written in Rust. Its core is
`AudioPlayer` (src/player.rs). It keeps four pieces of state: a playlist of
`(ordinal, path)` pairs, an optional current index, an is-playing flag and a
rodio output sink. Its operations load a directory, play a song by index
or by file, toggle pause, step to the next or previous song, and check on
each tick of a monitor thread whether the track has run out.

The project models that controller:

- `wrappers.dfy`: module `Wrappers`, the `Option` type.
- `paths.dfy`: module `FilePaths`.
  - A path as its parent and file name.
  - The rule of Rust's `Path::extension`.
  - ASCII lower-casing.
  - The lexicographic order in which `OsStr` file names compare.
- `library.dfy`: module `Library`, the directory scan of `load_songs_from_dir`.
  - The case-insensitive extension filter.
  - Numbering of the kept entries in walk order.
  - The stable sort by file name.
  - Proofs that the playlist is the filtered walk, a permutation of the numbered entries, and strictly ordered by (file name, ordinal). They also prove it is the only such arrangement.
- `sink.dfy`: module `AudioSink`, the sink as the track it holds and a pause flag.
- `controller.dfy`: module `Controller`, the four-part state and one function per operation.
  - The invariant: a current index, when there is one, is inside the playlist.
  - Proofs that every operation and every run of operations keeps this invariant.
  - Navigation is circular.
  - The monitor advances exactly when the sink is empty, playback is marked active and the playlist is not empty.
- `player.dfy`: module `Player`, the class `AudioPlayer`.
  - Its fields are updated in place by methods whose contracts tie the new state to the `Controller` functions.
  - The loop of `load_songs_from_dir` is kept as a loop.
  - Two caller methods use the class.
- `scenarios.dfy`: module `Scenarios`, concrete runs.
  - File names the scan keeps and drops.
  - The load order of `b.mp3`, `a.mp3`, `c.wav`.
  - A play session over `song1.mp3` and `song2.mp3`.

Things the model takes as inputs:

- The directory walk is the sequence of paths it yields.
- Whether a file opens and decodes is an oracle `opens: Path -> bool`. It is one fixed function for a whole run of operations, so a file cannot start or stop opening between steps.

Three behaviours of the code the model keeps:

- Loading a directory resets only the playlist and the current index. It does not touch the is-playing flag or the sink (src/player.rs:35-59).
- `play_by_index` with an index in range sets the current index and the is-playing flag even when the file fails to open or decode (src/player.rs:83-90).
- `toggle_play_pause` acts on an empty sink too. Two toggles on a new player therefore leave is-playing set with an empty playlist (`Controller.ToggleOnNewPlayer`).

## Model

| member | source | states |
|---|---|---|
| FilePaths.LastDot | src/player.rs:49 | the position found is a '.', no '.' follows it, and None means the name has no '.' |
| FilePaths.LastDotSkipsSuffix | src/player.rs:49 | appending text without a '.' leaves the last '.' where it was |
| FilePaths.Extension | src/player.rs:49 | an extension holds no '.' and is shorter than the name by at least two characters |
| FilePaths.ExtensionIsSuffix | src/player.rs:49 | the name is a non-empty prefix, a '.', and the extension |
| FilePaths.ExtensionExists | src/player.rs:49 | a name has an extension if and only if it is not ".." and has a '.' after its first character |
| FilePaths.ExtensionOfName | src/player.rs:49 | a non-empty stem, '.', and a text without '.' has exactly that text as its extension |
| FilePaths.LowerChar | src/player.rs:50 | definition: ASCII lower-casing of one character; properties in `Library.LowerAsciiMatches` |
| FilePaths.ToLowerAscii | src/player.rs:50 | definition: character-wise ASCII lower-casing; properties in `Library.LowerAsciiMatches` and `Library.IsAudioExtensionIgnoresCase` |
| FilePaths.NameLess | src/player.rs:58 | definition: the lexicographic order of file names; properties in `FilePaths.NameLessIrreflexive`, `FilePaths.NameLessTransitive`, `FilePaths.NameLessTotal` |
| FilePaths.NameLessIrreflexive | src/player.rs:58 | no file name sorts before itself |
| FilePaths.NameLessTransitive | src/player.rs:58 | the file-name order is transitive |
| FilePaths.NameLessTotal | src/player.rs:58 | of two different file names one sorts before the other |
| FilePaths.NameLessAsymmetric | src/player.rs:58 | two file names never sort before each other |
| Library.LowerAsciiMatches | src/player.rs:50-51 | lower-casing a text gives an all-lower-case word if and only if the text equals that word ignoring case |
| Library.IsAudioExtensionIgnoresCase | src/player.rs:50-51 | an extension passes if and only if it equals mp3, wav, flac or ogg ignoring case |
| Library.IsAudioByExtension | src/player.rs:49-51 | a file `stem.ext` is kept if and only if `ext` is on the allow-list |
| Library.Filter | src/player.rs:43-56 | a path is kept if and only if the walk yields it and it has an allowed extension |
| Library.FilterCount | src/player.rs:43-56 | a kept path appears as often as the walk yields it, and a dropped one never |
| Library.FilterAppend | src/player.rs:43-56 | filtering a walk in two parts gives the two filtered parts in order |
| Library.FilterKeepsAll | src/player.rs:43-56 | a walk of audio files only is kept whole |
| Library.Collect | src/player.rs:42-56 | the pushed songs are the kept paths in walk order, the k-th with ordinal k |
| Library.IsAudioExtension | src/player.rs:50-51 | definition: the lower-cased extension is mp3, wav, flac or ogg; properties in `Library.IsAudioExtensionIgnoresCase` |
| Library.IsAudio | src/player.rs:49-51 | definition: the path has an extension and it is allowed; properties in `Library.IsAudioByExtension` and `FilePaths.ExtensionExists` |
| Library.Insert | src/player.rs:58 | inserting keeps every element and adds the new one once |
| Library.SortByName | src/player.rs:58 | sorting keeps the length and the multiset of songs |
| Library.KeyLessTransitive | src/player.rs:58 | the (file name, ordinal) order is transitive |
| Library.KeyLessIrreflexive | src/player.rs:58 | no song sorts before itself |
| Library.KeyLessAsymmetric | src/player.rs:58 | two songs never sort before each other |
| Library.InsertSortedByName | src/player.rs:58 | inserting into a list ascending by name keeps it ascending by name |
| Library.SortByNameSortsByName | src/player.rs:58 | the sorted list is ascending by file name |
| Library.InsertStrictlySorted | src/player.rs:58 | inserting a song whose ordinal is below every other one into a strictly ordered list keeps it strictly ordered |
| Library.SortByNameIsStable | src/player.rs:42-58 | when ordinals increase along the input, equal names keep their input order: the result is strictly ordered by (name, ordinal) |
| Library.StrictlySortedUnique | src/player.rs:58 | two strictly ordered lists with the same elements are equal |
| Library.InsertPaths | src/player.rs:58 | inserting a song adds its path once to the multiset of paths |
| Library.SortByNamePaths | src/player.rs:58 | sorting keeps the multiset of paths |
| Library.Scan | src/player.rs:42-58 | the playlist has one song per kept path and is a permutation of the numbered entries; full properties in `Library.ScanCorrect` and `Library.ScanUnique` |
| Library.ScanOrdinals | src/player.rs:42-58 | the loaded ordinals are distinct and below the playlist length, so they are a permutation of 0..n-1 |
| Library.ScanPaths | src/player.rs:42-58 | the loaded paths are the kept walked paths, each as often as walked |
| Library.ScanCorrect | src/player.rs:42-58 | the playlist is a permutation of the numbered kept entries, strictly ordered by name and then walk order, with exactly the kept paths |
| Library.ScanUnique | src/player.rs:42-58 | any strictly ordered permutation of the numbered kept entries is the loaded playlist |
| AudioSink.Empty | src/player.rs:73 | definition: the sink holds no track; properties in `Controller.TickIsNextExactlyWhenFinished` and `Controller.TickIdle` |
| AudioSink.Connect | src/player.rs:22 | a freshly connected sink is empty and not paused |
| AudioSink.Stop | src/player.rs:96 | stopping empties the sink and keeps its pause flag |
| AudioSink.Append | src/player.rs:97 | appending to an empty sink makes it hold exactly that track, non-empty, pause flag kept |
| AudioSink.Play | src/player.rs:98 | playing clears the pause flag and keeps the loaded track |
| AudioSink.Pause | src/player.rs:111 | pausing sets the pause flag and keeps the loaded track |
| Controller.Init | src/player.rs:19-33 | a new player satisfies the selection invariant |
| Controller.Load | src/player.rs:35-59 | after loading, the selection invariant holds |
| Controller.PlayFile | src/player.rs:92-101 | a file that opens leaves the sink holding just that file, unpaused; one that does not leaves the sink unchanged |
| Controller.PlayByIndex | src/player.rs:83-90 | the invariant is kept, and an index in range becomes the selection |
| Controller.TogglePlayPause | src/player.rs:103-114 | toggling keeps the invariant |
| Controller.NextTarget | src/player.rs:128-141 | `next` has a target exactly when the playlist is not empty, and the target is in range |
| Controller.PreviousTarget | src/player.rs:143-156 | `previous` has a target exactly when the playlist is not empty, and the target is in range |
| Controller.Next | src/player.rs:128-141 | the invariant is kept and the playlist is unchanged |
| Controller.Previous | src/player.rs:143-156 | the invariant is kept and the playlist is unchanged |
| Controller.ShouldPlayNext | src/player.rs:73 | definition: the sink is empty, is-playing is set and the playlist is not empty; properties in `Controller.TickIsNextExactlyWhenFinished` |
| Controller.Tick | src/player.rs:68-78 | a tick keeps the invariant and the playlist |
| Controller.Step | src/player.rs:35-156 | every operation, including a direct `play_by_file`, keeps the invariant |
| Controller.Run | src/player.rs:19-156 | every state reachable from a new player satisfies the invariant |
| Controller.RunKeepsSelectionInRange | src/player.rs:133 | along any run a selection indexes the playlist, so the playlist is then not empty and `% len` never divides by zero |
| Controller.LoadResetsSelection | src/player.rs:35-59 | after any history, a load installs the scanned playlist and clears the selection, leaving is-playing and the sink as they were |
| Controller.PlayByIndexOutOfRange | src/player.rs:83-90 | an index past the end changes nothing |
| Controller.PlayByIndexInRange | src/player.rs:83-101 | an index in range is selected and is-playing is set; the sink then holds the song unpaused if it opens, and is unchanged if it does not |
| Controller.NextTimes | src/player.rs:128-141 | repeated `next` keeps the invariant and the playlist |
| Controller.PreviousTimes | src/player.rs:143-156 | repeated `previous` keeps the invariant and the playlist |
| Controller.NextTimesIndex | src/player.rs:133 | `k` steps forward from song `i` land on song `(i + k) mod n` |
| Controller.PreviousTimesIndex | src/player.rs:148 | `k` steps back from song `i` land on song `(i - k) mod n` |
| Controller.NextIsCircular | src/player.rs:128-141 | `next` performed a whole number of times `n` returns to the starting song |
| Controller.PreviousIsCircular | src/player.rs:143-156 | `previous` performed a whole number of times `n` returns to the starting song |
| Controller.NextWrapsAtEnd | src/player.rs:132-136 | from song `i`, `next` plays `i + 1`, and from the last song the first |
| Controller.NextAndPreviousAreInverse | src/player.rs:128-156 | with a selection, `previous` after `next` and `next` after `previous` restore it |
| Controller.NavigationWithoutSelection | src/player.rs:137-140 | with no selection and a non-empty playlist, `next` and `previous` both play song 0 |
| Controller.EmptyPlaylistIsInert | src/player.rs:83-156 | on an empty playlist nothing is selected, and selecting, `next`, `previous` and a tick change nothing |
| Controller.ToggleFlipsPause | src/player.rs:103-114 | toggling flips the pause flag, sets is-playing to the sink's new playing state, and leaves the loaded track, playlist and selection alone |
| Controller.ToggleTwiceRestoresSink | src/player.rs:103-114 | toggling twice restores the sink, and is-playing then matches it |
| Controller.ToggleOnNewPlayer | src/player.rs:103-114 | on a new player one toggle clears is-playing and a second sets it, with no songs loaded |
| Controller.TickIsNextExactlyWhenFinished | src/player.rs:68-78 | a tick performs `next` when the sink is empty while playing on a non-empty playlist, and otherwise changes nothing |
| Controller.TickAdvancesByOne | src/player.rs:73-78 | a tick that fires moves the selection one song forward, wrapping, or to song 0 |
| Controller.TrackEndTriggersNext | src/player.rs:73-78 | when the track ends during playback, the next tick performs `next` |
| Controller.TickIdle | src/player.rs:73 | while a track is loaded, or after a pause, a tick does nothing |
| Controller.FailedSongIsSkipped | src/player.rs:83-101 | on an empty sink, a song that fails to open leaves the sink empty with is-playing set, so the next tick moves to the following song |
| Player.AudioPlayer.constructor | src/player.rs:19-33 | the new player is the initial state |
| Player.AudioPlayer.LoadSongsFromDir | src/player.rs:35-59 | the loop leaves the scanned playlist, with no selection and the flag and sink unchanged |
| Player.AudioPlayer.PlayByFile | src/player.rs:92-101 | only the sink changes, as `Controller.PlayFile` says |
| Player.AudioPlayer.PlayByIndex | src/player.rs:83-90 | the new state is `Controller.PlayByIndex` of the old, and validity is kept |
| Player.AudioPlayer.TogglePlayPause | src/player.rs:103-114 | the new state is `Controller.TogglePlayPause` of the old, and validity is kept |
| Player.AudioPlayer.Next | src/player.rs:128-141 | the new state is `Controller.Next` of the old, and validity is kept |
| Player.AudioPlayer.Previous | src/player.rs:143-156 | the new state is `Controller.Previous` of the old, and validity is kept |
| Player.AudioPlayer.MonitorTick | src/player.rs:68-78 | the new state is `Controller.Tick` of the old, and validity is kept |
| Player.AudioPlayer.GetSongs | src/player.rs:158-160 | the result is the playlist |
| Player.AudioPlayer.IsPlaying | src/player.rs:166-168 | the result is the is-playing flag |
| Player.AudioPlayer.GetCurrentSong | src/player.rs:170-175 | no selection, or a selected index past the end, gives None; an index in range gives that song's path; in a valid player there is a song exactly when there is a selection |
| Player.LoadAndList | src/player.rs:35-59 | a new player loaded with a walk lists the scanned playlist, strictly ordered and a permutation of the numbered kept entries, and selects nothing |
| Player.PlayThroughPlaylist | src/player.rs:83-90 | playing song `i` and then pressing `next` once per song comes back to song `i` |
| Scenarios.AllowedExtensions | src/player.rs:51 | mp3, MP3, wav, Flac and ogg pass the allow-list |
| Scenarios.RefusedExtensions | src/player.rs:51 | jpg, mp4 and the empty extension do not |
| Scenarios.KeepsUpperCase | src/player.rs:49-51 | `track.MP3` is kept |
| Scenarios.KeepsAfterLastDot | src/player.rs:49-51 | `a..ogg` is kept by the text after its last '.' |
| Scenarios.DropsOtherExtension | src/player.rs:49-51 | `cover.jpg` is dropped |
| Scenarios.DropsNamesWithoutExtension | src/player.rs:49 | `.ogg` and `mp3` have no extension and are dropped |
| Scenarios.KeepsIgnoringCase | src/player.rs:49-51 | any name made of a non-empty stem, '.', and an extension equal to mp3, wav, flac or ogg up to case is kept |
| Scenarios.ExampleWalkKept | src/player.rs:49-51 | `b.mp3`, `a.mp3` and `c.wav` are all kept |
| Scenarios.CollectThree | src/player.rs:42-56 | three kept entries are numbered 0, 1, 2 in walk order |
| Scenarios.ExampleOrder | src/player.rs:58 | `a.mp3` (1), `b.mp3` (0), `c.wav` (2) is strictly ordered |
| Scenarios.ScanExample | src/player.rs:35-59 | walking `b.mp3`, `a.mp3`, `c.wav` loads `a.mp3` with ordinal 1, `b.mp3` with 0, `c.wav` with 2 |
| Scenarios.TwoSongsKept | src/player.rs:49-51 | `song1.mp3` and `song2.mp3` are kept |
| Scenarios.CollectTwo | src/player.rs:42-56 | two kept entries are numbered 0 and 1 in walk order |
| Scenarios.TwoSongsOrder | src/player.rs:58 | `song1.mp3` sorts before `song2.mp3` |
| Scenarios.TwoSongLoad | src/player.rs:35-59 | walking `song1.mp3`, `song2.mp3` loads them in that order with ordinals 0 and 1 |
| Scenarios.TwoSongSession | src/player.rs:35-141 | load, play song 0, `next` plays song 1, and `next` again wraps to song 0, the sink each time holding that song |

## Left out

- Locking and threads: the `Arc<Mutex<…>>` wrappers, `thread::spawn` and the endless 500 ms sleep loop of `start_playback_monitor` are not modelled. A single iteration of the loop is `MonitorTick`, and the operations run one at a time.
- The output stream: `OutputStreamBuilder::open_default_stream` and its panic when no audio device exists are not modelled. The player starts from a connected, empty sink.
- rodio's decoding and audio output are not modelled. The sink is the track it holds and a pause flag, and `finishing` a track is the `TrackEnds` step.
- The sink's queue holds at most one track. The player only appends into a stopped sink, so nothing more is needed.
- File access: `File::open` and `Decoder::new` are folded into one oracle, `opens`. The model does not tell an open failure from a decode failure, since the code treats both alike.
- Directory walking: `WalkDir`, `follow_links` and the dropping of failed entries are not modelled. The walk is the sequence of paths it yields, with failed entries already dropped.
- The code does not check that an entry is a file. A directory named `x.mp3` is therefore kept, and so it is in the model.
- `Library.IsAudioExtension`: the extension is lower-cased with ASCII rules, not Unicode `to_lowercase`. Non-ASCII text is not lower-cased, and the lossy conversion of non-UTF-8 names is not modelled.
- `FilePaths.NameLess`: file names compare character by character. On UTF-8 names this agrees with the byte order of `OsStr`. Names that are not valid UTF-8 are not modelled.
- `Library.Collect`: ordinals are unbounded naturals. After 2^32 kept entries the `u32` counter `index += 1` would panic in a debug build and wrap to 0 in a release build; neither is modelled.
- `Library.SortByName`: the in-place `sort_by` is a function that produces the sorted sequence, and the field is reassigned. The model captures the result, not the in-place algorithm.
- The commented-out `play`, `pause` and `get_current_index` (src/player.rs:116-126, 162-164) are not modelled, since they are not compiled.
- src/ui.rs (GTK widgets and dialogs) and src/main.rs (application start-up) are not part of this model.
