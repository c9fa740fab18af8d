/** The files of the native project that the plugin rewrites or fills:
    the per-target Info.plist files (`updateInfoPlist`) and the ios/Fonts
    directory (`copyFontFiles`), plugin/src/ios/withNativeFontsIOS.ts. */
module ProjectFiles {
  import opened Wrappers
  import opened Strings
  import opened FontOptions
  import opened IOSFonts
  import opened InfoPlist

  /** The copy destination, relative to the project root. */
  const FontsDir := "ios/Fonts"

  datatype DiskError =
    | MissingInfoPlist(target: string)
    | NoDictInInfoPlist(target: string)
    | UndefinedFilePath(target: string)
    | UndefinedSrcFolder
    | SourceNotDirectory(srcFolder: string)

  /** One iteration of updateInfoPlist's loop: the files afterwards and the error, if any. */
  function PatchPlist(files: map<string, string>, target: string, fonts: seq<Font>): (map<string, string>, Option<DiskError>)
  {
    if target !in files then (files, Some(MissingInfoPlist(target)))
    else
      match SpliceFonts(files[target], fonts)
      case Err(NoDict) => (files, Some(NoDictInInfoPlist(target)))
      case Err(UndefinedPath) => (files, Some(UndefinedFilePath(target)))
      case Ok(contents) => (files[target := contents], None)
  }

  /** updateInfoPlist over the grouped fonts: targets in key order, stopping
      at the first error with the earlier files already rewritten. */
  function PatchAll(files: map<string, string>, grouped: Groups): (map<string, string>, Option<DiskError>)
  {
    if grouped == [] then (files, None)
    else
      var n := |grouped| - 1;
      var before := PatchAll(files, grouped[..n]);
      if before.1.Some? then before else PatchPlist(before.0, grouped[n].0, grouped[n].1)
  }

  lemma {:induction false} PatchAllErrPersists(files: map<string, string>, grouped: Groups, k: nat)
    requires k <= |grouped| && PatchAll(files, grouped[..k]).1.Some?
    ensures PatchAll(files, grouped) == PatchAll(files, grouped[..k])
  {
    if k < |grouped| {
      var n := |grouped| - 1;
      assert grouped[..n][..k] == grouped[..k];
      PatchAllErrPersists(files, grouped[..n], k);
    } else {
      assert grouped[..k] == grouped;
    }
  }

  /** The last key of a duplicate-free key list occurs nowhere before it. */
  lemma LastKeyIsNew(grouped: Groups)
    requires grouped != [] && NoDuplicates(Keys(grouped))
    ensures NoDuplicates(Keys(grouped[..|grouped| - 1]))
    ensures forall k | 0 <= k < |grouped| - 1 :: grouped[k].0 != grouped[|grouped| - 1].0
    ensures grouped[|grouped| - 1].0 !in Keys(grouped[..|grouped| - 1])
  {
    var n := |grouped| - 1;
    assert Keys(grouped[..n]) == Keys(grouped)[..n];
    forall k | 0 <= k < n
      ensures grouped[k].0 != grouped[n].0
    {
      assert Keys(grouped)[k] != Keys(grouped)[n];
    }
  }

  /** A target outside the group list keeps its Info.plist (or its absence). */
  lemma {:induction false} PatchAllUntouched(files: map<string, string>, grouped: Groups, t: string)
    requires t !in Keys(grouped)
    ensures t in PatchAll(files, grouped).0 <==> t in files
    ensures t in files ==> PatchAll(files, grouped).0[t] == files[t]
  {
    if grouped != [] {
      var n := |grouped| - 1;
      assert Keys(grouped) == Keys(grouped[..n]) + [grouped[n].0];
      PatchAllUntouched(files, grouped[..n], t);
    }
  }

  /** No Info.plist appears or disappears. */
  lemma {:induction false} PatchAllDomain(files: map<string, string>, grouped: Groups)
    ensures forall t :: t in PatchAll(files, grouped).0 <==> t in files
  {
    if grouped != [] {
      PatchAllDomain(files, grouped[..|grouped| - 1]);
    }
  }

  /** When every target succeeds, target k's Info.plist holds the splice of
      its old text with that target's fonts. */
  lemma {:induction false} PatchAllPatched(files: map<string, string>, grouped: Groups, k: nat)
    requires NoDuplicates(Keys(grouped))
    requires PatchAll(files, grouped).1.None?
    requires k < |grouped|
    ensures grouped[k].0 in files && grouped[k].0 in PatchAll(files, grouped).0
    ensures SpliceFonts(files[grouped[k].0], grouped[k].1) == Ok(PatchAll(files, grouped).0[grouped[k].0])
  {
    var n := |grouped| - 1;
    var init := grouped[..n];
    LastKeyIsNew(grouped);
    var mid := PatchAll(files, init).0;
    var t := grouped[n].0;
    assert PatchAll(files, grouped) == PatchPlist(mid, t, grouped[n].1);
    PatchAllDomain(files, init);
    if k == n {
      PatchAllUntouched(files, init, t);
    } else {
      assert grouped[k] == init[k];
      PatchAllPatched(files, init, k);
    }
  }

  /** When every target succeeds, each target's Info.plist holds the splice
      of its old text with that target's fonts, every other file is as it
      was, and no file appears or disappears. */
  lemma PatchAllSuccess(files: map<string, string>, grouped: Groups)
    requires NoDuplicates(Keys(grouped))
    requires PatchAll(files, grouped).1.None?
    ensures forall t :: t in PatchAll(files, grouped).0 <==> t in files
    ensures forall k | 0 <= k < |grouped| ::
      && grouped[k].0 in files
      && SpliceFonts(files[grouped[k].0], grouped[k].1) == Ok(PatchAll(files, grouped).0[grouped[k].0])
    ensures forall t | t in files && t !in Keys(grouped) :: PatchAll(files, grouped).0[t] == files[t]
  {
    PatchAllDomain(files, grouped);
    forall k | 0 <= k < |grouped|
      ensures grouped[k].0 in files
      ensures SpliceFonts(files[grouped[k].0], grouped[k].1) == Ok(PatchAll(files, grouped).0[grouped[k].0])
    {
      PatchAllPatched(files, grouped, k);
    }
    forall t | t in files && t !in Keys(grouped)
      ensures PatchAll(files, grouped).0[t] == files[t]
    {
      PatchAllUntouched(files, grouped, t);
    }
  }

  /** A failing run stops at some target k: the targets before it were all
      patched and the error is the one target k's patch raises, with the
      files left as the earlier targets made them. */
  lemma {:induction false} PatchAllFailure(files: map<string, string>, grouped: Groups)
    requires PatchAll(files, grouped).1.Some?
    ensures exists k | 0 <= k < |grouped| ::
      && PatchAll(files, grouped[..k]).1.None?
      && PatchPlist(PatchAll(files, grouped[..k]).0, grouped[k].0, grouped[k].1).1.Some?
      && PatchAll(files, grouped) == (PatchAll(files, grouped[..k]).0,
                                      PatchPlist(PatchAll(files, grouped[..k]).0, grouped[k].0, grouped[k].1).1)
  {
    var n := |grouped| - 1;
    var init := grouped[..n];
    if PatchAll(files, init).1.Some? {
      PatchAllFailure(files, init);
      var k :| 0 <= k < |init| && PatchAll(files, init[..k]).1.None?
        && PatchPlist(PatchAll(files, init[..k]).0, init[k].0, init[k].1).1.Some?
        && PatchAll(files, init) == (PatchAll(files, init[..k]).0,
                                     PatchPlist(PatchAll(files, init[..k]).0, init[k].0, init[k].1).1);
      assert init[..k] == grouped[..k];
    } else {
      assert grouped[..n] == init;
    }
  }

  /** After a successful pass every font of every group has a defined filePath. */
  lemma PatchAllDefinesPaths(files: map<string, string>, grouped: Groups)
    requires NoDuplicates(Keys(grouped))
    requires PatchAll(files, grouped).1.None?
    ensures forall k, i | 0 <= k < |grouped| && 0 <= i < |grouped[k].1| :: grouped[k].1[i].filePath.Some?
  {
    PatchAllSuccess(files, grouped);
    forall k | 0 <= k < |grouped|
      ensures FileNames(grouped[k].1).Some?
    {
      assert SpliceFonts(files[grouped[k].0], grouped[k].1).Ok?;
    }
  }

  /** updateInfoPlist only fails for a missing Info.plist, one without
      `<dict>` or an undefined filePath, and with every filePath defined
      only for the first two. */
  lemma {:induction false} PatchAllErrorKinds(files: map<string, string>, grouped: Groups)
    ensures PatchAll(files, grouped).1.Some? ==>
      var e := PatchAll(files, grouped).1.value;
      && (e.MissingInfoPlist? || e.NoDictInInfoPlist? || e.UndefinedFilePath?)
      && (AllPathsDefined(grouped) ==> e.MissingInfoPlist? || e.NoDictInInfoPlist?)
  {
    if grouped != [] {
      var n := |grouped| - 1;
      var init := grouped[..n];
      PatchAllErrorKinds(files, init);
      var before := PatchAll(files, init);
      if before.1.None? && grouped[n].0 in before.0 {
        SpliceFailure(before.0[grouped[n].0], grouped[n].1);
      }
    }
  }

  /** One more target on top of a clean prefix adds exactly that target's patch. */
  lemma PatchAllStep(files: map<string, string>, grouped: Groups, k: nat)
    requires k < |grouped| && PatchAll(files, grouped[..k]).1.None?
    ensures PatchAll(files, grouped[..k + 1]) ==
      PatchPlist(PatchAll(files, grouped[..k]).0, grouped[k].0, grouped[k].1)
  {
    assert grouped[..k + 1][..k] == grouped[..k];
  }

  /** PatchPlist case by case, in the order updateInfoPlist checks. */
  lemma PatchPlistCases(files: map<string, string>, target: string, fonts: seq<Font>)
    ensures target !in files ==> PatchPlist(files, target, fonts) == (files, Some(MissingInfoPlist(target)))
    ensures target in files && IndexOf(files[target], DictTag).None? ==>
      PatchPlist(files, target, fonts) == (files, Some(NoDictInInfoPlist(target)))
    ensures target in files && IndexOf(files[target], DictTag).Some? && FileNames(fonts).None? ==>
      PatchPlist(files, target, fonts) == (files, Some(UndefinedFilePath(target)))
    ensures target in files && IndexOf(files[target], DictTag).Some? && FileNames(fonts).Some? ==>
      var at := IndexOf(files[target], DictTag).value + |DictTag|;
      PatchPlist(files, target, fonts) ==
        (files[target := files[target][..at] + InsertionContents(FileNames(fonts).value) + files[target][at..]], None)
  {
  }

  /** What copyFontFiles throws, if anything: `path.join` rejects an
      undefined folder, and the source must be a directory. */
  function CopyOutcome(srcFolder: Option<string>, directories: set<string>): Option<DiskError>
  {
    match srcFolder
    case None => Some(UndefinedSrcFolder)
    case Some(folder) => if folder in directories then None else Some(SourceNotDirectory(folder))
  }

  /** The project's files as the plugin sees them. */
  class Disk {
    /** The Info.plist texts, ios/<target>/Info.plist, keyed by target name. */
    var infoPlists: map<string, string>
    /** The paths, relative to the project root, that are directories. */
    var directories: set<string>
    /** The source folders copied recursively into ios/Fonts, in order. */
    var fontCopies: seq<string>

    constructor (infoPlists: map<string, string>, directories: set<string>)
      ensures this.infoPlists == infoPlists && this.directories == directories
      ensures fontCopies == []
    {
      this.infoPlists := infoPlists;
      this.directories := directories;
      fontCopies := [];
    }

    /** updateInfoPlist: for each target in key order, read its Info.plist,
        find the first `<dict>`, splice the UIAppFonts block after it and
        write the file back. */
    method UpdateInfoPlist(grouped: Groups) returns (err: Option<DiskError>)
      modifies this
      ensures (infoPlists, err) == PatchAll(old(infoPlists), grouped)
      ensures directories == old(directories) && fontCopies == old(fontCopies)
    {
      for k := 0 to |grouped|
        invariant PatchAll(old(infoPlists), grouped[..k]) == (infoPlists, None)
        invariant directories == old(directories) && fontCopies == old(fontCopies)
      {
        PatchAllStep(old(infoPlists), grouped, k);
        err := PatchTarget(grouped[k].0, grouped[k].1);
        if err.Some? {
          PatchAllErrPersists(old(infoPlists), grouped, k + 1);
          return;
        }
      }
      assert grouped[..|grouped|] == grouped;
      err := None;
    }

    /** One iteration of updateInfoPlist's loop: the checks in the order the
        loop makes them, then the rewritten file. */
    method PatchTarget(targetName: string, targetFonts: seq<Font>) returns (err: Option<DiskError>)
      modifies this
      ensures (infoPlists, err) == PatchPlist(old(infoPlists), targetName, targetFonts)
      ensures directories == old(directories) && fontCopies == old(fontCopies)
    {
      PatchPlistCases(infoPlists, targetName, targetFonts);
      if targetName !in infoPlists {
        return Some(MissingInfoPlist(targetName));
      }
      var contents := infoPlists[targetName];
      var dictIndex := IndexOf(contents, DictTag);
      if dictIndex.None? {
        return Some(NoDictInInfoPlist(targetName));
      }
      var insertIndex := dictIndex.value + |DictTag|;
      var names := FileNames(targetFonts);
      if names.None? {
        return Some(UndefinedFilePath(targetName));
      }
      var insertionContents := InsertionContents(names.value);
      infoPlists := infoPlists[targetName := contents[..insertIndex] + insertionContents + contents[insertIndex..]];
      err := None;
    }

    /** copyFontFiles: the source folder must be a directory; ios/Fonts is
        created if missing and the folder is mirrored into it. */
    method CopyFontFiles(srcFolder: Option<string>) returns (err: Option<DiskError>)
      modifies this
      ensures infoPlists == old(infoPlists)
      ensures err == CopyOutcome(srcFolder, old(directories))
      ensures err.Some? ==> directories == old(directories) && fontCopies == old(fontCopies)
      ensures err.None? ==>
        && directories == old(directories) + {FontsDir}
        && fontCopies == old(fontCopies) + [srcFolder.value]
    {
      if srcFolder.None? {
        return Some(UndefinedSrcFolder);
      }
      var sourceDir := srcFolder.value;
      if sourceDir !in directories {
        return Some(SourceNotDirectory(sourceDir));
      }
      if FontsDir !in directories {
        directories := directories + {FontsDir};
      }
      fontCopies := fontCopies + [sourceDir];
      err := None;
    }
  }
}
