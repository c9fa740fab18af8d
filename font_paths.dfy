/** File-name derivations of plugin/src/ios/withNativeFontsIOS.ts: Node's
    `path.basename` and `path.extname` on '/'-separated paths, and
    `getFontName`. */
module FontPaths {
  import opened Wrappers
  import opened Strings
  import opened FontOptions

  /** The position of the last `c` in `s`. */
  function LastIndexOf(s: string, c: char): (r: Option<nat>)
    ensures r.Some? ==> r.value < |s| && s[r.value] == c
    ensures r.Some? ==> forall k | r.value < k < |s| :: s[k] != c
    ensures r.None? ==> forall k | 0 <= k < |s| :: s[k] != c
  {
    if s == [] then None
    else if s[|s| - 1] == c then Some(|s| - 1)
    else LastIndexOf(s[..|s| - 1], c)
  }

  /** Pins down LastIndexOf from a known last position. */
  lemma LastIndexOfAt(s: string, c: char, k: nat)
    requires k < |s| && s[k] == c
    requires forall j | k < j < |s| :: s[j] != c
    ensures LastIndexOf(s, c) == Some(k)
  {
  }

  /** `path.basename(p)`: the part of `p` after its last '/'. */
  function Basename(p: string): (r: string)
    ensures |r| <= |p|
  {
    match LastIndexOf(p, '/')
    case None => p
    case Some(k) => p[k + 1..]
  }

  /** A path without '/' is its own basename. */
  lemma BasenameWithoutSlash(p: string)
    requires forall j | 0 <= j < |p| :: p[j] != '/'
    ensures Basename(p) == p
  {
  }

  /** The basename is the longest suffix without a '/'. */
  lemma BasenameIsLastSegment(p: string)
    ensures Basename(p) == p[|p| - |Basename(p)|..]
    ensures forall j | 0 <= j < |Basename(p)| :: Basename(p)[j] != '/'
    ensures |Basename(p)| < |p| ==> p[|p| - |Basename(p)| - 1] == '/'
  {
    match LastIndexOf(p, '/')
    case None =>
    case Some(k) =>
      var r := p[k + 1..];
      assert forall j | 0 <= j < |r| :: r[j] == p[k + 1 + j];
  }

  /** `path.extname(p)`: the basename from its last '.' on; empty when the
      basename has no '.', when that '.' is its first character, or when the
      basename is "..". */
  function Extname(p: string): (r: string)
    ensures |r| <= |Basename(p)|
  {
    var b := Basename(p);
    match LastIndexOf(b, '.')
    case None => ""
    case Some(k) => if k == 0 || (|b| == 2 && b[0] == '.') then "" else b[k..]
  }

  /** A non-empty extension is a proper suffix of the basename that starts
      with its only '.'; the extension is empty exactly when no '.' follows
      the basename's first character, or the basename is "..". */
  lemma ExtnameIsLastDotSuffix(p: string)
    ensures
      var b, e := Basename(p), Extname(p);
      && e == b[|b| - |e|..]
      && (e != [] ==> |e| < |b| && e[0] == '.' && forall j | 1 <= j < |e| :: e[j] != '.')
      && (e == [] <==> (forall j | 0 < j < |b| :: b[j] != '.') || (|b| == 2 && b[0] == '.' && b[1] == '.'))
  {
    var b := Basename(p);
    match LastIndexOf(b, '.')
    case None =>
    case Some(k) =>
      if k == 0 {
        assert forall j | 0 < j < |b| :: b[j] != '.';
      } else if |b| == 2 && b[0] == '.' {
        assert k == 1 && b[1] == '.';
      } else {
        var e := b[k..];
        assert e == Extname(p) && e != [];
        assert forall j | 0 <= j < |e| :: e[j] == b[k + j];
        assert !(forall j | 0 < j < |b| :: b[j] != '.');
      }
  }

  /** Extname when the last '.' of a '/'-free path is at `k > 0`. */
  lemma ExtnameAt(p: string, k: nat)
    requires forall j | 0 <= j < |p| :: p[j] != '/'
    requires 0 < k < |p| && p[k] == '.'
    requires forall j | k < j < |p| :: p[j] != '.'
    requires !(|p| == 2 && p[0] == '.')
    ensures Basename(p) == p
    ensures Extname(p) == p[k..]
  {
    LastIndexOfAt(p, '.', k);
  }

  /** `s.replace(pat, "")` with a string pattern: only the first occurrence
      of `pat` is removed. */
  function RemoveFirst(s: string, pat: string): string
  {
    match IndexOf(s, pat)
    case None => s
    case Some(i) => s[..i] + s[i + |pat|..]
  }

  /** getFontName: `name` when it is a non-empty string, otherwise the
      basename of `filePath` with the first occurrence of its extension
      removed. None where `path.extname(undefined)` throws a TypeError. */
  function GetFontName(font: Font): (r: Option<string>)
    ensures Truthy(font.name) ==> r == font.name
    ensures !Truthy(font.name) ==> (r.Some? <==> font.filePath.Some?)
    ensures !Truthy(font.name) && r.Some? ==>
      |r.value| + |Extname(font.filePath.value)| == |Basename(font.filePath.value)|
  {
    if Truthy(font.name) then font.name
    else
      match font.filePath
      case None => None
      case Some(p) =>
        var b, e := Basename(p), Extname(p);
        ExtnameIsLastDotSuffix(p);
        assert OccursAt(b, e, |b| - |e|);
        Some(RemoveFirst(b, e))
  }

  /** Removing the first occurrence of a pattern that does occur leaves the
      text around that occurrence. */
  lemma RemoveFirstSplits(s: string, pat: string, k: nat)
    requires OccursAt(s, pat, k)
    ensures
      var r := RemoveFirst(s, pat);
      exists i | 0 <= i <= |r| ::
        && s == r[..i] + pat + r[i..]
        && forall j: nat | j < i :: !OccursAt(s, pat, j)
  {
    var i := IndexOf(s, pat).value;
    var r := RemoveFirst(s, pat);
    assert r == s[..i] + s[i + |pat|..];
    assert r[..i] == s[..i] && r[i..] == s[i + |pat|..];
    assert s == r[..i] + pat + r[i..];
  }

  /** The default name is the basename with the extension cut out at the
      first place it occurs, which need not be the end. */
  lemma DefaultNameCutsFirstOccurrence(font: Font)
    requires !Truthy(font.name) && font.filePath.Some?
    ensures
      var b, e := Basename(font.filePath.value), Extname(font.filePath.value);
      var r := GetFontName(font).value;
      exists i | 0 <= i <= |r| ::
        && b == r[..i] + e + r[i..]
        && forall j: nat | j < i :: !OccursAt(b, e, j)
  {
    var b, e := Basename(font.filePath.value), Extname(font.filePath.value);
    ExtnameIsLastDotSuffix(font.filePath.value);
    assert OccursAt(b, e, |b| - |e|);
    assert GetFontName(font).value == RemoveFirst(b, e);
    RemoveFirstSplits(b, e, |b| - |e|);
  }

  /** The example that shows it: for "A.ttfB.ttf" the extension is ".ttf"
      and the name comes out as "AB.ttf", not "A.ttfB". */
  lemma FirstOccurrenceCounterexample(font: Font)
    requires font == Font(Some("A.ttfB.ttf"), Some(["App"]), None, Some("ios"))
    ensures GetFontName(font) == Some("AB.ttf")
  {
    var p := font.filePath.value;
    CounterexampleText(p);
    DefaultName(font, p, 1);
  }

  /** The default name of a font without a name, spelled out. */
  lemma DefaultName(font: Font, p: string, i: nat)
    requires !Truthy(font.name) && font.filePath == Some(p)
    requires IndexOf(Basename(p), Extname(p)) == Some(i)
    ensures i + |Extname(p)| <= |Basename(p)|
    ensures GetFontName(font) == Some(Basename(p)[..i] + Basename(p)[i + |Extname(p)|..])
  {
    var b, e := Basename(p), Extname(p);
    assert GetFontName(font) == Some(RemoveFirst(b, e));
    assert RemoveFirst(b, e) == b[..i] + b[i + |e|..];
  }

  /** The pieces of "A.ttfB.ttf": its own basename, extension ".ttf", which
      first occurs at position 1. */
  lemma CounterexampleText(p: string)
    requires p == "A.ttfB.ttf"
    ensures Basename(p) == p && Extname(p) == ".ttf"
    ensures IndexOf(p, ".ttf") == Some(1)
    ensures p[..1] + p[5..] == "AB.ttf" && p[..6] == "A.ttfB"
  {
    CounterexampleExtname(p);
    assert p[0] == 'A' && p[1..5] == ".ttf";
    assert OccursAt(p, ".ttf", 1);
    assert !OccursAt(p, ".ttf", 0);
    IndexOfIsFirst(p, ".ttf", 1);
  }

  lemma CounterexampleExtname(p: string)
    requires p == "A.ttfB.ttf"
    ensures Basename(p) == p && Extname(p) == ".ttf"
  {
    assert forall j | 0 <= j < |p| :: p[j] != '/';
    assert p[6] == '.' && p[7] != '.' && p[8] != '.' && p[9] != '.';
    ExtnameAt(p, 6);
    assert p[6..] == ".ttf";
  }

  /** The name `getFontName` evidently aims at with `replace(ext, "")`: the
      basename with its extension cut off the end. (The option's documentation
      at plugin/src/index.ts:14 speaks of "the file basename", which is
      `path.basename` with the extension, as updateInfoPlist writes it.) */
  function GetFontNameWithoutExtension(font: Font): (r: Option<string>)
    ensures Truthy(font.name) ==> r == font.name
    ensures !Truthy(font.name) ==> (r.Some? <==> font.filePath.Some?)
    ensures !Truthy(font.name) && r.Some? ==>
      r.value + Extname(font.filePath.value) == Basename(font.filePath.value)
  {
    if Truthy(font.name) then font.name
    else
      match font.filePath
      case None => None
      case Some(p) =>
        var b := Basename(p);
        ExtnameIsLastDotSuffix(p);
        Some(b[..|b| - |Extname(p)|])
  }

  /** On the counterexample the corrected name is "A.ttfB". */
  lemma WithoutExtensionOnCounterexample(font: Font)
    requires font == Font(Some("A.ttfB.ttf"), Some(["App"]), None, Some("ios"))
    ensures GetFontNameWithoutExtension(font) == Some("A.ttfB")
  {
    CounterexampleText(font.filePath.value);
  }
}
