/** The Info.plist text splice inside `updateInfoPlist`
    (plugin/src/ios/withNativeFontsIOS.ts), as a function of the file's
    contents and the target's fonts. */
module InfoPlist {
  import opened Wrappers
  import opened Strings
  import opened FontOptions
  import opened FontPaths

  const DictTag := "<dict>"

  /** The text around each font name, as the source's template literals lay it out. */
  const EntryOpen := "\n            <string>"
  const EntryClose := "</string>"
  const BlockOpen := "<key>UIAppFonts</key>\n        <array>\n        "
  const BlockClose := "\n        </array>"

  function Entry(name: string): string
  {
    EntryOpen + name + EntryClose
  }

  /** `insertionKeys`: the reduce from '' that appends one entry per font. */
  function InsertionKeys(names: seq<string>): string
  {
    if names == [] then "" else InsertionKeys(names[..|names| - 1]) + Entry(names[|names| - 1])
  }

  /** `insertionContents`: the UIAppFonts key and its array. */
  function InsertionContents(names: seq<string>): string
  {
    BlockOpen + InsertionKeys(names) + BlockClose
  }

  /** `path.basename(filePath)` of every font, in order; None where a
      filePath is undefined and `path.basename` throws a TypeError. */
  function FileNames(fonts: seq<Font>): (r: Option<seq<string>>)
    ensures r.Some? <==> forall i | 0 <= i < |fonts| :: fonts[i].filePath.Some?
    ensures r.Some? ==> |r.value| == |fonts|
    ensures r.Some? ==> forall i | 0 <= i < |fonts| :: r.value[i] == Basename(fonts[i].filePath.value)
  {
    if fonts == [] then Some([])
    else
      var n := |fonts| - 1;
      match FileNames(fonts[..n])
      case None => None
      case Some(names) =>
        match fonts[n].filePath
        case None => None
        case Some(p) => Some(names + [Basename(p)])
  }

  datatype SpliceError = NoDict | UndefinedPath

  /** The new Info.plist text: the block inserted right after the first
      `<dict>`. The missing `<dict>` is reported before any name is computed. */
  function SpliceFonts(contents: string, fonts: seq<Font>): Result<string, SpliceError>
  {
    match IndexOf(contents, DictTag)
    case None => Err(NoDict)
    case Some(i) =>
      match FileNames(fonts)
      case None => Err(UndefinedPath)
      case Some(names) =>
        var at := i + |DictTag|;
        Ok(contents[..at] + InsertionContents(names) + contents[at..])
  }

  /** The splice fails with NoDict exactly when the text has no `<dict>`, and
      otherwise fails only for an undefined filePath. */
  lemma SpliceFailure(contents: string, fonts: seq<Font>)
    ensures SpliceFonts(contents, fonts) == Err(NoDict) <==> forall j: nat :: !OccursAt(contents, DictTag, j)
    ensures SpliceFonts(contents, fonts) == Err(UndefinedPath) <==>
      (exists j: nat :: OccursAt(contents, DictTag, j)) && exists i | 0 <= i < |fonts| :: fonts[i].filePath.None?
  {
    if IndexOf(contents, DictTag).Some? {
      assert OccursAt(contents, DictTag, IndexOf(contents, DictTag).value);
    }
  }

  /** A successful splice keeps the text up to and including the first
      `<dict>` and everything after it, with the block in between: the
      length grows by exactly the block's length. */
  lemma SplicePreserves(contents: string, fonts: seq<Font>)
    requires SpliceFonts(contents, fonts).Ok?
    ensures
      var r := SpliceFonts(contents, fonts).value;
      var block := InsertionContents(FileNames(fonts).value);
      exists at | |DictTag| <= at <= |contents| ::
        && OccursAt(contents, DictTag, at - |DictTag|)
        && (forall j: nat | j < at - |DictTag| :: !OccursAt(contents, DictTag, j))
        && |r| == |contents| + |block|
        && r[..at] == contents[..at]
        && r[at..at + |block|] == block
        && r[at + |block|..] == contents[at..]
  {
    var i := IndexOf(contents, DictTag).value;
    var at := i + |DictTag|;
    var block := InsertionContents(FileNames(fonts).value);
    var r := SpliceFonts(contents, fonts).value;
    assert r == contents[..at] + block + contents[at..];
    assert r[..at] == contents[..at];
    assert r[at..at + |block|] == block;
    assert r[at + |block|..] == contents[at..];
  }

  /** The splice is not idempotent: applied to its own output it finds the
      same first `<dict>` and inserts a second UIAppFonts block in front of
      the first one, so the result always differs from its input. */
  lemma SpliceTwice(contents: string, fonts: seq<Font>)
    requires SpliceFonts(contents, fonts).Ok?
    ensures
      var r := SpliceFonts(contents, fonts).value;
      var block := InsertionContents(FileNames(fonts).value);
      var at := IndexOf(contents, DictTag).value + |DictTag|;
      && r != contents
      && SpliceFonts(r, fonts) == Ok(contents[..at] + block + block + contents[at..])
  {
    var i := IndexOf(contents, DictTag).value;
    var at := i + |DictTag|;
    var block := InsertionContents(FileNames(fonts).value);
    var r := SpliceFonts(contents, fonts).value;
    InsertAt(contents, at, block);
    IndexOfSharedPrefix(contents, r, DictTag, i);
  }

  /** Inserting a non-empty block at `at` keeps the text before `at` and
      puts the block in front of the rest. */
  lemma InsertAt(s: string, at: nat, block: string)
    requires at <= |s| && block != []
    ensures
      var r := s[..at] + block + s[at..];
      && |r| > |s| && r[..at] == s[..at] && r[at..] == block + s[at..]
      && r[..at] + block + r[at..] == s[..at] + block + block + s[at..]
  {
    var r := s[..at] + block + s[at..];
    assert r[..at] == s[..at];
    assert r[at..] == block + s[at..];
  }

  /** Reads the names back out of a run of `<string>` entries; a name ends at
      the first '<'. */
  function ParseEntries(s: string): Option<seq<string>>
    decreases |s|
  {
    if s == [] then Some([])
    else if |s| < |EntryOpen| || s[..|EntryOpen|] != EntryOpen then None
    else
      var rest := s[|EntryOpen|..];
      match IndexOf(rest, "<")
      case None => None
      case Some(k) =>
        var after := rest[k..];
        if |after| < |EntryClose| || after[..|EntryClose|] != EntryClose then None
        else
          match ParseEntries(after[|EntryClose|..])
          case None => None
          case Some(names) => Some([rest[..k]] + names)
  }

  /** Reads the names back out of a UIAppFonts block. */
  function ParseBlock(s: string): Option<seq<string>>
  {
    if |s| < |BlockOpen| + |BlockClose| || s[..|BlockOpen|] != BlockOpen
       || s[|s| - |BlockClose|..] != BlockClose then None
    else ParseEntries(s[|BlockOpen|..|s| - |BlockClose|])
  }

  lemma {:induction false} InsertionKeysCons(names: seq<string>)
    requires names != []
    ensures InsertionKeys(names) == Entry(names[0]) + InsertionKeys(names[1..])
  {
    var n := |names| - 1;
    if n > 0 {
      InsertionKeysCons(names[..n]);
      assert names[..n][1..] == names[1..][..n - 1];
      assert names[..n][0] == names[0];
    } else {
      assert names[1..] == [];
    }
  }

  predicate NoAngle(name: string)
  {
    '<' !in name
  }

  /** One entry is read back as its name, then parsing continues after it. */
  lemma ParseEntriesStep(name: string, tail: string)
    requires NoAngle(name)
    ensures ParseEntries(Entry(name) + tail) ==
      match ParseEntries(tail)
      case None => None
      case Some(names) => Some([name] + names)
  {
    var s := Entry(name) + tail;
    assert s == EntryOpen + (name + (EntryClose + tail));
    assert s[..|EntryOpen|] == EntryOpen;
    var rest := s[|EntryOpen|..];
    assert rest == name + (EntryClose + tail);
    assert OccursAt(rest, "<", |name|);
    forall j: nat | j < |name|
      ensures !OccursAt(rest, "<", j)
    {
      assert rest[j] == name[j];
    }
    IndexOfIsFirst(rest, "<", |name|);
    assert rest[..|name|] == name;
    var after := rest[|name|..];
    assert after == EntryClose + tail;
    assert after[..|EntryClose|] == EntryClose;
    assert after[|EntryClose|..] == tail;
  }

  lemma {:induction false} EntriesRoundTrip(names: seq<string>)
    requires forall k | 0 <= k < |names| :: NoAngle(names[k])
    ensures ParseEntries(InsertionKeys(names)) == Some(names)
  {
    if names != [] {
      var tail := names[1..];
      assert forall k | 0 <= k < |tail| :: tail[k] == names[k + 1];
      EntriesRoundTrip(tail);
      InsertionKeysCons(names);
      ParseEntriesStep(names[0], InsertionKeys(tail));
      assert [names[0]] + tail == names;
    }
  }

  /** The UIAppFonts block lists exactly the given names, in order, with
      duplicates, and nothing else (for names without '<'). */
  lemma BlockRoundTrip(names: seq<string>)
    requires forall k | 0 <= k < |names| :: NoAngle(names[k])
    ensures ParseBlock(InsertionContents(names)) == Some(names)
  {
    var s := InsertionContents(names);
    var keys := InsertionKeys(names);
    assert s[..|BlockOpen|] == BlockOpen;
    assert s[|s| - |BlockClose|..] == BlockClose;
    assert s[|BlockOpen|..|s| - |BlockClose|] == keys;
    EntriesRoundTrip(names);
  }

  /** What the splice inserts names each font of the target by the basename
      of its filePath, one entry per font in group order, duplicates kept;
      the optional `name` plays no part. */
  lemma SplicedNamesAreBasenames(contents: string, fonts: seq<Font>)
    requires SpliceFonts(contents, fonts).Ok?
    requires forall i | 0 <= i < |fonts| :: fonts[i].filePath.Some? ==> NoAngle(Basename(fonts[i].filePath.value))
    ensures
      var names := ParseBlock(InsertionContents(FileNames(fonts).value));
      && names.Some? && |names.value| == |fonts|
      && forall i | 0 <= i < |fonts| :: names.value[i] == Basename(fonts[i].filePath.value)
  {
    var names := FileNames(fonts).value;
    BlockRoundTrip(names);
  }

  /** The smallest document, "<dict></dict>", with one font "Inter.ttf":
      the array with its one string entry follows `<dict>` and the closing
      `</dict>` is kept. */
  lemma MinimalDocument(contents: string, font: Font)
    requires contents == "<dict></dict>"
    requires font == Font(Some("Inter.ttf"), Some(["MainApp"]), None, Some("ios"))
    ensures SpliceFonts(contents, [font]) == Ok("<dict>" + InsertionContents(["Inter.ttf"]) + "</dict>")
    ensures InsertionContents(["Inter.ttf"]) == BlockOpen + Entry("Inter.ttf") + BlockClose
  {
    assert contents[..6] == DictTag && contents[6..] == "</dict>";
    assert OccursAt(contents, DictTag, 0);
    IndexOfIsFirst(contents, DictTag, 0);
    var p := font.filePath.value;
    BasenameWithoutSlash(p);
    FileNamesSingle(font);
    InsertionKeysSingle(p);
  }

  /** One font: its basename. */
  lemma FileNamesSingle(font: Font)
    requires font.filePath.Some?
    ensures FileNames([font]) == Some([Basename(font.filePath.value)])
  {
    var fonts := [font];
    assert fonts[..0] == [];
    assert FileNames(fonts[..0]) == Some([]);
    var b := Basename(font.filePath.value);
    assert FileNames(fonts) == Some([] + [b]);
    assert [] + [b] == [b];
  }

  /** One name: one entry. */
  lemma InsertionKeysSingle(name: string)
    ensures InsertionKeys([name]) == Entry(name)
  {
    assert [name][..0] == [];
  }
}
