/**
  The library scanner inside `load_songs_from_dir`: keep the walked entries
  whose lower-cased extension is an audio one, number them in traversal
  order, and stable-sort them by file name.
 */
module Library {
  import opened Wrappers
  import opened FilePaths

  /** A playlist entry: its ordinal in traversal order and its path. */
  datatype Song = Song(ordinal: nat, path: Path)

  /** The allow-list of `matches!(ext, "mp3" | "wav" | "flac" | "ogg")`. */
  predicate IsAudioExtension(ext: string) {
    var lower := ToLowerAscii(ext);
    lower == "mp3" || lower == "wav" || lower == "flac" || lower == "ogg"
  }

  /** A walked entry the scanner keeps: it has an extension and that extension is allowed. */
  predicate IsAudio(p: Path) {
    match Extension(p.name)
    case None => false
    case Some(ext) => IsAudioExtension(ext)
  }

  lemma LowerAsciiMatches(ext: string, word: string)
    requires forall i :: 0 <= i < |word| ==> LowerChar(word[i]) == word[i]
    ensures ToLowerAscii(ext) == word <==> EqualIgnoringCase(ext, word)
  {
    if EqualIgnoringCase(ext, word) {
      assert forall i :: 0 <= i < |word| ==> ToLowerAscii(ext)[i] == word[i];
    }
  }

  /** The allow-list is matched case-insensitively, and only as a whole extension. */
  lemma IsAudioExtensionIgnoresCase(ext: string)
    ensures IsAudioExtension(ext) <==>
      EqualIgnoringCase(ext, "mp3") || EqualIgnoringCase(ext, "wav") ||
      EqualIgnoringCase(ext, "flac") || EqualIgnoringCase(ext, "ogg")
  {
    LowerAsciiMatches(ext, "mp3");
    LowerAsciiMatches(ext, "wav");
    LowerAsciiMatches(ext, "flac");
    LowerAsciiMatches(ext, "ogg");
  }

  /** A name `stem.ext` with a non-empty stem is kept exactly when `ext` is allowed. */
  lemma IsAudioByExtension(parent: string, stem: string, ext: string)
    requires |stem| > 0 && '.' !in ext && stem + "." + ext != ".."
    ensures IsAudio(Path(parent, stem + "." + ext)) <==> IsAudioExtension(ext)
  {
    ExtensionOfName(stem, ext);
  }

  /** The walked entries the scanner keeps, in traversal order. */
  function Filter(walk: seq<Path>): (r: seq<Path>)
    ensures forall p :: p in r <==> p in walk && IsAudio(p)
  {
    if walk == [] then []
    else
      var last := walk[|walk| - 1];
      assert walk == walk[..|walk| - 1] + [last];
      Filter(walk[..|walk| - 1]) + if IsAudio(last) then [last] else []
  }

  /** The filter keeps every audio entry as often as the walk yields it, and no other entry. */
  lemma {:induction false} FilterCount(walk: seq<Path>, p: Path)
    ensures multiset(Filter(walk))[p] == if IsAudio(p) then multiset(walk)[p] else 0
    decreases |walk|
  {
    if walk != [] {
      var last := walk[|walk| - 1];
      assert walk == walk[..|walk| - 1] + [last];
      FilterCount(walk[..|walk| - 1], p);
    }
  }

  /** Filtering a walk piece by piece filters the whole of it: the order of entries is kept. */
  lemma {:induction false} FilterAppend(a: seq<Path>, b: seq<Path>)
    ensures Filter(a + b) == Filter(a) + Filter(b)
    decreases |b|
  {
    if b == [] {
      assert a + b == a;
    } else {
      var b', last := b[..|b| - 1], b[|b| - 1];
      var x := if IsAudio(last) then [last] else [];
      assert (a + b)[..|a + b| - 1] == a + b';
      assert (a + b)[|a + b| - 1] == last;
      assert Filter(a + b) == Filter(a + b') + x;
      assert Filter(b) == Filter(b') + x;
      FilterAppend(a, b');
    }
  }

  /** A walk of audio entries only is kept whole. */
  lemma {:induction false} FilterKeepsAll(walk: seq<Path>)
    requires forall i :: 0 <= i < |walk| ==> IsAudio(walk[i])
    ensures Filter(walk) == walk
    decreases |walk|
  {
    if walk != [] {
      FilterKeepsAll(walk[..|walk| - 1]);
      assert walk == walk[..|walk| - 1] + [walk[|walk| - 1]];
    }
  }

  /**
    What the `for` loop over the walk pushes: every kept entry, numbered by
    the counter `index` that starts at 0 and grows by one per kept entry.
   */
  function Collect(walk: seq<Path>): (r: seq<Song>)
    ensures |r| == |Filter(walk)|
    ensures forall k :: 0 <= k < |r| ==> r[k] == Song(k, Filter(walk)[k])
  {
    if walk == [] then []
    else
      var prev := Collect(walk[..|walk| - 1]);
      var last := walk[|walk| - 1];
      if IsAudio(last) then prev + [Song(|prev|, last)] else prev
  }

  /** The comparison the sorted playlist satisfies: by file name, and among equal names by ordinal. */
  predicate KeyLess(a: Song, b: Song) {
    NameLess(a.path.name, b.path.name) || (a.path.name == b.path.name && a.ordinal < b.ordinal)
  }

  /** Every song comes strictly before every later one. */
  predicate StrictlySorted(s: seq<Song>) {
    forall i, j :: 0 <= i < j < |s| ==> KeyLess(s[i], s[j])
  }

  /** Ascending by file name, ties in any order. */
  predicate SortedByName(s: seq<Song>) {
    forall i, j :: 0 <= i < j < |s| ==> !NameLess(s[j].path.name, s[i].path.name)
  }

  /** Ordinals that strictly increase along the list, as they do in traversal order. */
  predicate OrdinalsIncrease(s: seq<Song>) {
    forall i, j :: 0 <= i < j < |s| ==> s[i].ordinal < s[j].ordinal
  }

  /** Places `x` before the first song whose name is not smaller than its own. */
  function Insert(x: Song, s: seq<Song>): (r: seq<Song>)
    ensures |r| == |s| + 1
    ensures multiset(r) == multiset(s) + multiset{x}
  {
    if s == [] then [x]
    else if !NameLess(s[0].path.name, x.path.name) then [x] + s
    else
      assert s == [s[0]] + s[1..];
      [s[0]] + Insert(x, s[1..])
  }

  /**
    `sort_by` comparing `file_name()`: a stable sort, here as insertion
    sort. (Every kept path has a file name, so the `Option` that Rust
    compares is `Some` on both sides.)
   */
  function SortByName(s: seq<Song>): (r: seq<Song>)
    ensures |r| == |s|
    ensures multiset(r) == multiset(s)
  {
    if s == [] then []
    else
      assert s == [s[0]] + s[1..];
      Insert(s[0], SortByName(s[1..]))
  }

  /** The playlist `load_songs_from_dir` leaves behind for a given walk. */
  function Scan(walk: seq<Path>): (r: seq<Song>)
    ensures |r| == |Filter(walk)|
    ensures multiset(r) == multiset(Collect(walk))
  {
    SortByName(Collect(walk))
  }

  /** The paths of a list of songs. */
  function PathsOf(s: seq<Song>): seq<Path> {
    seq(|s|, i requires 0 <= i < |s| => s[i].path)
  }

  lemma KeyLessTransitive(a: Song, b: Song, c: Song)
    requires KeyLess(a, b) && KeyLess(b, c)
    ensures KeyLess(a, c)
  {
    if NameLess(a.path.name, b.path.name) && NameLess(b.path.name, c.path.name) {
      NameLessTransitive(a.path.name, b.path.name, c.path.name);
    }
  }

  lemma KeyLessIrreflexive(a: Song)
    ensures !KeyLess(a, a)
  {
    NameLessIrreflexive(a.path.name);
  }

  lemma KeyLessAsymmetric(a: Song, b: Song)
    requires KeyLess(a, b)
    ensures !KeyLess(b, a)
  {
    if KeyLess(b, a) {
      KeyLessTransitive(a, b, a);
      KeyLessIrreflexive(a);
    }
  }

  lemma {:induction false} InsertSortedByName(x: Song, s: seq<Song>)
    requires SortedByName(s)
    ensures SortedByName(Insert(x, s))
    decreases |s|
  {
    if s != [] && NameLess(s[0].path.name, x.path.name) {
      InsertSortedByName(x, s[1..]);
      var r := Insert(x, s);
      var t := Insert(x, s[1..]);
      assert r == [s[0]] + t;
      forall j | 0 < j < |r|
        ensures !NameLess(r[j].path.name, s[0].path.name)
      {
        assert r[j] in multiset(t);
        assert r[j] in multiset(s[1..]) + multiset{x};
        if r[j] == x {
          NameLessAsymmetric(s[0].path.name, x.path.name);
        } else {
          assert r[j] in s[1..];
        }
      }
    } else if s != [] {
      var r := Insert(x, s);
      forall j | 0 < j < |r|
        ensures !NameLess(r[j].path.name, x.path.name)
      {
        assert r[j] == s[j - 1];
        if NameLess(r[j].path.name, x.path.name) {
          if j - 1 > 0 {
            assert !NameLess(s[j - 1].path.name, s[0].path.name);
            if s[0].path.name != s[j - 1].path.name {
              NameLessTotal(s[0].path.name, s[j - 1].path.name);
              NameLessTransitive(s[0].path.name, s[j - 1].path.name, x.path.name);
            }
          }
        }
      }
    }
  }

  /** The scanner's sort leaves the playlist ascending by file name, whatever the ordinals. */
  lemma {:induction false} SortByNameSortsByName(s: seq<Song>)
    ensures SortedByName(SortByName(s))
    decreases |s|
  {
    if s != [] {
      SortByNameSortsByName(s[1..]);
      InsertSortedByName(s[0], SortByName(s[1..]));
    }
  }

  lemma {:induction false} InsertStrictlySorted(x: Song, s: seq<Song>)
    requires StrictlySorted(s)
    requires forall y :: y in s ==> x.ordinal < y.ordinal
    ensures StrictlySorted(Insert(x, s))
    decreases |s|
  {
    if s == [] {
    } else if !NameLess(s[0].path.name, x.path.name) {
      var r := Insert(x, s);
      assert r == [x] + s;
      assert KeyLess(x, s[0]) by {
        if x.path.name != s[0].path.name {
          NameLessTotal(x.path.name, s[0].path.name);
        }
      }
      forall i, j | 0 <= i < j < |r|
        ensures KeyLess(r[i], r[j])
      {
        if i == 0 && j > 1 {
          KeyLessTransitive(x, s[0], s[j - 1]);
        } else if i > 0 {
          assert r[i] == s[i - 1] && r[j] == s[j - 1];
        }
      }
    } else {
      InsertStrictlySorted(x, s[1..]);
      var r := Insert(x, s);
      var t := Insert(x, s[1..]);
      assert r == [s[0]] + t;
      forall i, j | 0 <= i < j < |r|
        ensures KeyLess(r[i], r[j])
      {
        if i == 0 {
          assert r[j] in multiset(t);
          assert r[j] in multiset(s[1..]) + multiset{x};
          if r[j] != x {
            assert r[j] in s[1..];
            var k :| 0 <= k < |s[1..]| && s[1..][k] == r[j];
            assert s[k + 1] == r[j];
          }
        } else {
          assert r[i] == t[i - 1] && r[j] == t[j - 1];
        }
      }
    }
  }

  /**
    Stability: when the ordinals record traversal order, the sorted list is
    strictly increasing by (name, ordinal), so songs with equal file names
    keep their traversal order.
   */
  lemma {:induction false} SortByNameIsStable(s: seq<Song>)
    requires OrdinalsIncrease(s)
    ensures StrictlySorted(SortByName(s))
    decreases |s|
  {
    if s != [] {
      assert OrdinalsIncrease(s[1..]);
      SortByNameIsStable(s[1..]);
      forall y | y in SortByName(s[1..])
        ensures s[0].ordinal < y.ordinal
      {
        assert y in multiset(SortByName(s[1..]));
        assert y in s[1..];
      }
      InsertStrictlySorted(s[0], SortByName(s[1..]));
    }
  }

  lemma TailMultiset(s: seq<Song>)
    requires s != []
    ensures multiset(s[1..]) == multiset(s) - multiset{s[0]}
  {
    assert s == [s[0]] + s[1..];
  }

  /** In a strictly sorted list the first song comes before every other one. */
  lemma HeadIsLeast(s: seq<Song>, x: Song)
    requires StrictlySorted(s) && x in s && x != s[0]
    ensures KeyLess(s[0], x)
  {
    var k :| 0 <= k < |s| && s[k] == x;
  }

  /** There is only one strictly sorted arrangement of a collection of songs. */
  lemma {:induction false} StrictlySortedUnique(a: seq<Song>, b: seq<Song>)
    requires multiset(a) == multiset(b)
    requires StrictlySorted(a) && StrictlySorted(b)
    ensures a == b
    decreases |a|
  {
    assert |b| == |a| by {
      assert |multiset(a)| == |a| && |multiset(b)| == |b|;
    }
    if a != [] {
      assert a[0] in multiset(b) && b[0] in multiset(a);
      if a[0] != b[0] {
        HeadIsLeast(b, a[0]);
        HeadIsLeast(a, b[0]);
        KeyLessAsymmetric(a[0], b[0]);
      }
      TailMultiset(a);
      TailMultiset(b);
      assert StrictlySorted(a[1..]) && StrictlySorted(b[1..]);
      StrictlySortedUnique(a[1..], b[1..]);
      assert a == [a[0]] + a[1..] && b == [b[0]] + b[1..];
    }
  }

  lemma PathsOfConcat(a: seq<Song>, b: seq<Song>)
    ensures PathsOf(a + b) == PathsOf(a) + PathsOf(b)
  {
  }

  lemma {:induction false} InsertPaths(x: Song, s: seq<Song>)
    ensures multiset(PathsOf(Insert(x, s))) == multiset(PathsOf(s)) + multiset{x.path}
    decreases |s|
  {
    if s == [] {
      assert PathsOf([x]) == [x.path];
    } else {
      assert s == [s[0]] + s[1..];
      PathsOfConcat([s[0]], s[1..]);
      assert PathsOf([s[0]]) == [s[0].path];
      assert PathsOf([x]) == [x.path];
      if !NameLess(s[0].path.name, x.path.name) {
        PathsOfConcat([x], s);
      } else {
        InsertPaths(x, s[1..]);
        PathsOfConcat([s[0]], Insert(x, s[1..]));
      }
    }
  }

  /** Sorting moves songs, so the multiset of their paths stays as it was. */
  lemma {:induction false} SortByNamePaths(s: seq<Song>)
    ensures multiset(PathsOf(SortByName(s))) == multiset(PathsOf(s))
    decreases |s|
  {
    if s != [] {
      SortByNamePaths(s[1..]);
      InsertPaths(s[0], SortByName(s[1..]));
      assert s == [s[0]] + s[1..];
      PathsOfConcat([s[0]], s[1..]);
      assert PathsOf([s[0]]) == [s[0].path];
    }
  }

  /** Each loaded song is the pushed song with its ordinal, so ordinals are below the length and distinct. */
  lemma ScanOrdinals(walk: seq<Path>)
    ensures forall i :: 0 <= i < |Scan(walk)| ==> Scan(walk)[i].ordinal < |Scan(walk)|
    ensures forall i, j :: 0 <= i < j < |Scan(walk)| ==> Scan(walk)[i].ordinal != Scan(walk)[j].ordinal
  {
    var c := Collect(walk);
    var r := Scan(walk);
    SortByNameIsStable(c);
    forall i | 0 <= i < |r|
      ensures r[i].ordinal < |c| && r[i] == c[r[i].ordinal]
    {
      assert r[i] in multiset(c);
      assert r[i] in c;
    }
    forall i, j | 0 <= i < j < |r|
      ensures r[i].ordinal != r[j].ordinal
    {
      KeyLessIrreflexive(r[i]);
    }
  }

  /** The loaded paths are exactly the walked paths the filter keeps, each as often as the walk yields it. */
  lemma ScanPaths(walk: seq<Path>)
    ensures multiset(PathsOf(Scan(walk))) == multiset(Filter(walk))
    ensures forall p :: p in PathsOf(Scan(walk)) <==> p in walk && IsAudio(p)
  {
    var c := Collect(walk);
    SortByNamePaths(c);
    assert PathsOf(c) == Filter(walk);
    forall p
      ensures p in PathsOf(Scan(walk)) <==> p in walk && IsAudio(p)
    {
      assert p in PathsOf(Scan(walk)) <==> p in multiset(PathsOf(Scan(walk)));
      assert p in Filter(walk) <==> p in multiset(Filter(walk));
    }
  }

  /**
    What `load_songs_from_dir` installs: a permutation of what the loop
    pushed, ascending by file name with ties in traversal order, the kept
    paths and nothing else, ordinals 0..n-1 each once.
   */
  lemma ScanCorrect(walk: seq<Path>)
    ensures multiset(Scan(walk)) == multiset(Collect(walk))
    ensures StrictlySorted(Scan(walk))
    ensures multiset(PathsOf(Scan(walk))) == multiset(Filter(walk))
    ensures forall p :: p in PathsOf(Scan(walk)) <==> p in walk && IsAudio(p)
    ensures forall i :: 0 <= i < |Scan(walk)| ==> Scan(walk)[i].ordinal < |Scan(walk)|
    ensures forall i, j :: 0 <= i < j < |Scan(walk)| ==> Scan(walk)[i].ordinal != Scan(walk)[j].ordinal
  {
    SortByNameIsStable(Collect(walk));
    ScanPaths(walk);
    ScanOrdinals(walk);
  }

  /** The loaded playlist is the one strictly sorted arrangement of the pushed songs. */
  lemma ScanUnique(walk: seq<Path>, t: seq<Song>)
    requires multiset(t) == multiset(Collect(walk))
    requires StrictlySorted(t)
    ensures t == Scan(walk)
  {
    ScanCorrect(walk);
    StrictlySortedUnique(t, Scan(walk));
  }
}
