/**
  Concrete runs of the scanner and the controller: the file names it keeps
  and drops, the order in which `b.mp3`, `a.mp3` and `c.wav` load, and a
  short play session over `song1.mp3` and `song2.mp3`.
 */
module Scenarios {
  import opened Wrappers
  import opened FilePaths
  import opened Library
  import opened AudioSink
  import opened Controller

  /** The allow-list ignores case. */
  lemma AllowedExtensions()
    ensures IsAudioExtension("mp3") && IsAudioExtension("MP3") && IsAudioExtension("wav")
    ensures IsAudioExtension("Flac") && IsAudioExtension("ogg")
  {
    assert ToLowerAscii("mp3") == "mp3" && ToLowerAscii("MP3") == "mp3";
    assert ToLowerAscii("wav") == "wav" && ToLowerAscii("Flac") == "flac";
    assert ToLowerAscii("ogg") == "ogg";
  }

  /** Nothing outside the allow-list passes. */
  lemma RefusedExtensions()
    ensures !IsAudioExtension("jpg") && !IsAudioExtension("mp4") && !IsAudioExtension("")
  {
    assert ToLowerAscii("jpg") == "jpg" && ToLowerAscii("mp4") == "mp4";
  }

  /** Extensions match in any case. */
  lemma KeepsUpperCase()
    ensures IsAudio(Path("music", "track.MP3"))
  {
    KeepsIgnoringCase("music", "track", "MP3", "mp3");
    assert "track.MP3" == "track" + "." + "MP3";
  }

  /** Only the text after the last '.' counts: `a..ogg` has the stem `a.`. */
  lemma KeepsAfterLastDot()
    ensures IsAudio(Path("music", "a..ogg"))
  {
    KeepsIgnoringCase("music", "a.", "ogg", "ogg");
    assert "a..ogg" == "a." + "." + "ogg";
  }

  lemma DropsOtherExtension()
    ensures !IsAudio(Path("music", "cover.jpg"))
  {
    assert !IsAudioExtension("jpg") by { assert ToLowerAscii("jpg") == "jpg"; }
    IsAudioByExtension("music", "cover", "jpg");
    assert "cover.jpg" == "cover" + "." + "jpg";
  }

  /** A hidden name such as ".ogg" has no extension, and neither has a name without '.'. */
  lemma DropsNamesWithoutExtension()
    ensures !IsAudio(Path("music", ".ogg"))
    ensures !IsAudio(Path("music", "mp3"))
  {
    assert Extension(".ogg") == None by { LastDotSkipsSuffix(".", "ogg"); assert ".ogg" == "." + "ogg"; }
    assert Extension("mp3") == None by { LastDotSkipsSuffix("", "mp3"); assert "mp3" == "" + "mp3"; }
  }

  /**
    Any name with a non-empty stem and an extension that equals mp3, wav,
    flac or ogg up to case is kept.
   */
  lemma KeepsIgnoringCase(parent: string, stem: string, ext: string, word: string)
    requires |stem| > 0
    requires word == "mp3" || word == "wav" || word == "flac" || word == "ogg"
    requires EqualIgnoringCase(ext, word)
    ensures IsAudio(Path(parent, stem + "." + ext))
  {
    IsAudioExtensionIgnoresCase(ext);
    forall i | 0 <= i < |ext|
      ensures ext[i] != '.'
    {
      assert LowerChar(ext[i]) == LowerChar(word[i]);
    }
    assert |stem + "." + ext| > 2;
    IsAudioByExtension(parent, stem, ext);
  }

  /** Files `b.mp3`, `a.mp3` and `c.wav` are all kept. */
  lemma ExampleWalkKept()
    ensures IsAudio(Path("d", "b.mp3")) && IsAudio(Path("d", "a.mp3")) && IsAudio(Path("d", "c.wav"))
  {
    KeepsIgnoringCase("d", "b", "mp3", "mp3");
    assert "b.mp3" == "b" + "." + "mp3";
    KeepsIgnoringCase("d", "a", "mp3", "mp3");
    assert "a.mp3" == "a" + "." + "mp3";
    KeepsIgnoringCase("d", "c", "wav", "wav");
    assert "c.wav" == "c" + "." + "wav";
  }

  /** Three kept entries are numbered 0, 1, 2 in the order the walk yields them. */
  lemma CollectThree(x: Path, y: Path, z: Path)
    requires IsAudio(x) && IsAudio(y) && IsAudio(z)
    ensures Collect([x, y, z]) == [Song(0, x), Song(1, y), Song(2, z)]
  {
    var walk := [x, y, z];
    assert walk[..2][..1] == [x] && walk[..2] == [x, y];
    assert Collect([x]) == [Song(0, x)];
    assert Collect([x, y]) == [Song(0, x), Song(1, y)];
  }

  lemma ExampleOrder(a: Path, b: Path, c: Path)
    requires a == Path("d", "a.mp3") && b == Path("d", "b.mp3") && c == Path("d", "c.wav")
    ensures StrictlySorted([Song(1, a), Song(0, b), Song(2, c)])
  {
    assert NameLess("a.mp3", "b.mp3") && NameLess("b.mp3", "c.wav") && NameLess("a.mp3", "c.wav");
  }

  /** Files `b.mp3`, `a.mp3`, `c.wav` walked in that order load as `a.mp3`, `b.mp3`, `c.wav`. */
  lemma ScanExample(a: Path, b: Path, c: Path)
    requires a == Path("d", "a.mp3") && b == Path("d", "b.mp3") && c == Path("d", "c.wav")
    ensures Scan([b, a, c]) == [Song(1, a), Song(0, b), Song(2, c)]
  {
    ExampleWalkKept();
    CollectThree(b, a, c);
    ExampleOrder(a, b, c);
    ScanUnique([b, a, c], [Song(1, a), Song(0, b), Song(2, c)]);
  }

  lemma TwoSongsKept()
    ensures IsAudio(Path("music", "song1.mp3")) && IsAudio(Path("music", "song2.mp3"))
  {
    KeepsIgnoringCase("music", "song1", "mp3", "mp3");
    assert "song1.mp3" == "song1" + "." + "mp3";
    KeepsIgnoringCase("music", "song2", "mp3", "mp3");
    assert "song2.mp3" == "song2" + "." + "mp3";
  }

  lemma CollectTwo(x: Path, y: Path)
    requires IsAudio(x) && IsAudio(y)
    ensures Collect([x, y]) == [Song(0, x), Song(1, y)]
  {
    assert [x, y][..1] == [x];
    assert Collect([x]) == [Song(0, x)];
  }

  lemma TwoSongsOrder(p1: Path, p2: Path)
    requires p1 == Path("music", "song1.mp3") && p2 == Path("music", "song2.mp3")
    ensures StrictlySorted([Song(0, p1), Song(1, p2)])
  {
    assert NameLess("song1.mp3", "song2.mp3");
  }

  /** A directory holding `song1.mp3` and `song2.mp3` loads them in that order. */
  lemma TwoSongLoad(p1: Path, p2: Path)
    requires p1 == Path("music", "song1.mp3") && p2 == Path("music", "song2.mp3")
    ensures Scan([p1, p2]) == [Song(0, p1), Song(1, p2)]
  {
    TwoSongsKept();
    CollectTwo(p1, p2);
    TwoSongsOrder(p1, p2);
    ScanUnique([p1, p2], [Song(0, p1), Song(1, p2)]);
  }

  /**
    The session of two songs on a new player: load, play the first, then
    `next` twice, which wraps back to the first.
   */
  lemma TwoSongSession(p1: Path, p2: Path, opens: Path -> bool)
    requires p1 == Path("music", "song1.mp3") && p2 == Path("music", "song2.mp3")
    requires opens(p1) && opens(p2)
    ensures Load(Init(), [p1, p2]).songs == [Song(0, p1), Song(1, p2)]
    ensures PlayByIndex(Load(Init(), [p1, p2]), 0, opens)
         == State([Song(0, p1), Song(1, p2)], Some(0), true, Sink(Some(p1), false))
    ensures Next(PlayByIndex(Load(Init(), [p1, p2]), 0, opens), opens)
         == State([Song(0, p1), Song(1, p2)], Some(1), true, Sink(Some(p2), false))
    ensures Next(Next(PlayByIndex(Load(Init(), [p1, p2]), 0, opens), opens), opens)
         == State([Song(0, p1), Song(1, p2)], Some(0), true, Sink(Some(p1), false))
  {
    TwoSongLoad(p1, p2);
    var t := [Song(0, p1), Song(1, p2)];
    var s1 := Load(Init(), [p1, p2]);
    assert s1 == State(t, None, false, Sink(None, false));
    var s2 := PlayByIndex(s1, 0, opens);
    assert s2 == State(t, Some(0), true, Sink(Some(p1), false));
    NextWrapsAtEnd(s2, opens);
    var s3 := Next(s2, opens);
    assert s3 == State(t, Some(1), true, Sink(Some(p2), false));
    NextWrapsAtEnd(s3, opens);
  }
}
