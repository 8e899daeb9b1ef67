/**
  File paths as the player sees them: the parent directory and the last
  component (`Path::file_name`), the extension rule of `Path::extension`,
  ASCII lower-casing, and the order in which file names compare.
 */
module FilePaths {
  import opened Wrappers

  /** A path produced by the directory walk. `name` is its last component. */
  datatype Path = Path(parent: string, name: string)

  /** The position of the last '.' in `s`, if there is one. */
  function LastDot(s: string): (r: Option<nat>)
    ensures r.Some? ==> r.value < |s| && s[r.value] == '.'
    ensures r.Some? ==> forall j :: r.value < j < |s| ==> s[j] != '.'
    ensures r.None? ==> forall j :: 0 <= j < |s| ==> s[j] != '.'
    decreases |s|
  {
    if |s| == 0 then None
    else if s[|s| - 1] == '.' then Some(|s| - 1)
    else LastDot(s[..|s| - 1])
  }

  /** Characters after the last '.' do not move it. */
  lemma {:induction false} LastDotSkipsSuffix(s: string, t: string)
    requires '.' !in t
    ensures LastDot(s + t) == LastDot(s)
    decreases |t|
  {
    if t != [] {
      assert (s + t)[..|s + t| - 1] == s + t[..|t| - 1];
      LastDotSkipsSuffix(s, t[..|t| - 1]);
    } else {
      assert s + t == s;
    }
  }

  /**
    The extension of a file name: the text after its last '.', provided
    that the text before that '.' is not empty. A name without a '.', a
    name whose only '.' is its first character (".ogg") and ".." have none.
   */
  function Extension(name: string): (r: Option<string>)
    ensures r.Some? ==> '.' !in r.value && |r.value| + 1 < |name|
  {
    if name == ".." then None
    else match LastDot(name)
      case None => None
      case Some(i) => if i == 0 then None else Some(name[i + 1..])
  }

  /** An extension is what follows the last '.', and something comes before that '.'. */
  lemma ExtensionIsSuffix(name: string)
    requires Extension(name).Some?
    ensures name == name[..|name| - |Extension(name).value| - 1] + "." + Extension(name).value
  {
    var i := LastDot(name).value;
    assert name == name[..i] + "." + name[i + 1..];
  }

  /** A name has an extension exactly when it is not ".." and has a '.' after its first character. */
  lemma ExtensionExists(name: string)
    ensures Extension(name).Some? <==> name != ".." && exists j :: 0 < j < |name| && name[j] == '.'
  {
    if name != ".." && LastDot(name).Some? && LastDot(name).value > 0 {
      assert name[LastDot(name).value] == '.';
    }
  }

  /** A name made of a non-empty stem, a '.' and a text without '.' has that text as its extension. */
  lemma ExtensionOfName(stem: string, ext: string)
    requires |stem| > 0 && '.' !in ext && stem + "." + ext != ".."
    ensures Extension(stem + "." + ext) == Some(ext)
  {
    var name := stem + "." + ext;
    LastDotSkipsSuffix(stem + ".", ext);
    assert name == (stem + ".") + ext;
    assert LastDot(stem + ".") == Some(|stem|);
    assert name[|stem| + 1..] == ext;
  }

  /** ASCII lower-casing of one character. */
  function LowerChar(c: char): char {
    if 'A' <= c <= 'Z' then (c as int - 'A' as int + 'a' as int) as char else c
  }

  /** ASCII lower-casing of a string, character by character. */
  function ToLowerAscii(s: string): string {
    seq(|s|, i requires 0 <= i < |s| => LowerChar(s[i]))
  }

  /** Two strings that differ at most in the case of ASCII letters. */
  predicate EqualIgnoringCase(a: string, b: string) {
    |a| == |b| && forall i :: 0 <= i < |a| ==> LowerChar(a[i]) == LowerChar(b[i])
  }

  /**
    The order of `OsStr` values: lexicographic, character by character, a
    proper prefix first. On UTF-8 text the byte order Rust uses and the
    order of code points agree.
   */
  predicate NameLess(a: string, b: string)
    decreases |a|
  {
    if |a| == 0 then |b| > 0
    else |b| > 0 && (a[0] < b[0] || (a[0] == b[0] && NameLess(a[1..], b[1..])))
  }

  lemma {:induction false} NameLessIrreflexive(a: string)
    ensures !NameLess(a, a)
    decreases |a|
  {
    if |a| > 0 {
      NameLessIrreflexive(a[1..]);
    }
  }

  lemma {:induction false} NameLessTransitive(a: string, b: string, c: string)
    requires NameLess(a, b) && NameLess(b, c)
    ensures NameLess(a, c)
    decreases |a|
  {
    if |a| > 0 && a[0] == b[0] && b[0] == c[0] {
      NameLessTransitive(a[1..], b[1..], c[1..]);
    }
  }

  lemma {:induction false} NameLessTotal(a: string, b: string)
    requires a != b
    ensures NameLess(a, b) || NameLess(b, a)
    decreases |a|
  {
    if |a| > 0 && |b| > 0 && a[0] == b[0] {
      assert a == [a[0]] + a[1..] && b == [b[0]] + b[1..];
      NameLessTotal(a[1..], b[1..]);
    }
  }

  lemma NameLessAsymmetric(a: string, b: string)
    requires NameLess(a, b)
    ensures !NameLess(b, a)
  {
    if NameLess(b, a) {
      NameLessTransitive(a, b, a);
      NameLessIrreflexive(a);
    }
  }
}
