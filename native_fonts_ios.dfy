/** The iOS side of the plugin: injectExpoNativeFontsIOS and
    updateXcodeProject, plugin/src/ios/withNativeFontsIOS.ts. The run is
    specified on values (`World`, `Inject`) and the methods that drive the
    `Disk` and `PbxProject` objects are proved against that specification. */
module NativeFontsIOS {
  import opened Wrappers
  import opened FontOptions
  import opened IOSFonts
  import opened InfoPlist
  import opened ProjectFiles
  import opened XcodeProject

  /** What the iOS run can throw. `FontsUndefined` is the TypeError of
      `options.fonts.filter` when `fonts` is absent. */
  datatype IOSError =
    | FontsUndefined
    | GroupingFailed(groupError: GroupError)
    | DiskFailed(diskError: DiskError)
    | XcodeFailed(xcodeError: XcodeError)

  /** Everything the run reads or writes: the Info.plist files, the
      directories, the folders copied to ios/Fonts and the Xcode project. */
  datatype World = World(
    infoPlists: map<string, string>,
    directories: set<string>,
    fontCopies: seq<string>,
    project: ProjectState)

  /** updateXcodeProject: copy the font folder, then add every target's fonts. */
  function UpdateXcode(options: FontsOptions, w: World, section: seq<NativeTargetEntry>, grouped: Groups): (World, Option<IOSError>)
    requires AllPathsDefined(grouped)
  {
    match CopyOutcome(options.srcFolder, w.directories)
    case Some(e) => (w, Some(DiskFailed(e)))
    case None =>
      var (s, e) := AddAll(w.project, section, grouped);
      (w.(directories := w.directories + {FontsDir},
          fontCopies := w.fontCopies + [options.srcFolder.value],
          project := s),
       if e.Some? then Some(XcodeFailed(e.value)) else None)
  }

  /** injectExpoNativeFontsIOS: filter, group, rewrite every Info.plist,
      then update the Xcode project. */
  function Inject(options: FontsOptions, w: World, section: seq<NativeTargetEntry>): (World, Option<IOSError>)
  {
    match GetIOSFonts(options)
    case None => (w, Some(FontsUndefined))
    case Some(fonts) =>
      match Grouping(fonts)
      case Err(e) => (w, Some(GroupingFailed(e)))
      case Ok(grouped) =>
        var (files, pe) := PatchAll(w.infoPlists, grouped);
        if pe.Some? then (w.(infoPlists := files), Some(DiskFailed(pe.value)))
        else
          GroupingKeySet(fonts);
          PatchAllDefinesPaths(w.infoPlists, grouped);
          UpdateXcode(options, w.(infoPlists := files), section, grouped)
  }

  /** The stages run in order and each failure stops the run: nothing is
      written before grouping succeeds, nothing is copied and the project is
      untouched until every Info.plist has been rewritten, and the project is
      only touched once the copy has succeeded. */
  lemma StagesInOrder(options: FontsOptions, w: World, section: seq<NativeTargetEntry>)
    ensures
      var (after, err) := Inject(options, w, section);
      && (GetIOSFonts(options).None? ==> after == w && err == Some(FontsUndefined))
      && (GetIOSFonts(options).Some? && Grouping(GetIOSFonts(options).value).Err? ==>
            after == w && err == Some(GroupingFailed(Grouping(GetIOSFonts(options).value).error)))
      && (after.project != w.project || after.fontCopies != w.fontCopies ==>
            && Grouping(GetIOSFonts(options).value).Ok?
            && PatchAll(w.infoPlists, Grouping(GetIOSFonts(options).value).value) == (after.infoPlists, None)
            && CopyOutcome(options.srcFolder, w.directories).None?
            && after.fontCopies == w.fontCopies + [options.srcFolder.value])
  {
  }

  /** When the copy fails, every target's Info.plist exists, holds a
      `<dict>` and has been rewritten with its fonts, while the project is
      unchanged. */
  lemma CopyFailureAfterAllPlists(options: FontsOptions, w: World, section: seq<NativeTargetEntry>)
    requires Inject(options, w, section).1.Some? && Inject(options, w, section).1.value.DiskFailed?
    requires
      var e := Inject(options, w, section).1.value.diskError;
      e.UndefinedSrcFolder? || e.SourceNotDirectory?
    ensures GetIOSFonts(options).Some? && Grouping(GetIOSFonts(options).value).Ok?
    ensures
      var grouped := Grouping(GetIOSFonts(options).value).value;
      var after := Inject(options, w, section).0;
      && after.project == w.project && after.fontCopies == w.fontCopies
      && forall k | 0 <= k < |grouped| ::
           && grouped[k].0 in w.infoPlists && grouped[k].0 in after.infoPlists
           && SpliceFonts(w.infoPlists[grouped[k].0], grouped[k].1) == Ok(after.infoPlists[grouped[k].0])
  {
    var fonts := GetIOSFonts(options).value;
    var grouped := Grouping(fonts).value;
    GroupingKeySet(fonts);
    PatchAllErrorKinds(w.infoPlists, grouped);
    PatchAllSuccess(w.infoPlists, grouped);
  }

  /** No path of an Android-only font reaches the project: every file of
      every Fonts group the run adds is the filePath of a declaration whose
      platform is not 'android'. */
  lemma NewGroupsHoldIOSPaths(options: FontsOptions, w: World, section: seq<NativeTargetEntry>, j: nat, i: nat)
    requires
      var groups := Inject(options, w, section).0.project.groups;
      |w.project.groups| <= j < |groups| && i < |groups[j].files|
    ensures options.fonts.Some?
    ensures exists f | f in options.fonts.value ::
      && IsIOSFont(f)
      && f.filePath == Some(Inject(options, w, section).0.project.groups[j].files[i])
  {
    var fonts := GetIOSFonts(options).value;
    var grouped := Grouping(fonts).value;
    GroupingKeySet(fonts);
    PatchAllDefinesPaths(w.infoPlists, grouped);
    var files := PatchAll(w.infoPlists, grouped).0;
    AddAllGroups(w.project, section, grouped);
    var k := j - |w.project.groups|;
    var f := grouped[k].1[i];
    AndroidFontsNeverGrouped(options.fonts.value, k, i);
    assert Inject(options, w, section).0.project.groups[j] == FontsGroup(FilePaths(grouped[k].1));
    assert f in options.fonts.value && IsIOSFont(f);
  }

  /** The model's view of the two objects the run changes. */
  function WorldOf(disk: Disk, project: PbxProject): World
    reads disk, project
  {
    World(disk.infoPlists, disk.directories, disk.fontCopies, project.State())
  }

  /** updateXcodeProject on the objects. */
  method UpdateXcodeProject(disk: Disk, project: PbxProject, options: FontsOptions, grouped: Groups) returns (err: Option<IOSError>)
    requires project.Valid() && AllPathsDefined(grouped)
    modifies disk, project
    ensures project.Valid()
    ensures (WorldOf(disk, project), err) == UpdateXcode(options, old(WorldOf(disk, project)), project.nativeTargets, grouped)
  {
    var copyErr := disk.CopyFontFiles(options.srcFolder);
    if copyErr.Some? {
      return Some(DiskFailed(copyErr.value));
    }
    var xcodeErr := project.AddFontsToTargets(grouped);
    err := if xcodeErr.Some? then Some(XcodeFailed(xcodeErr.value)) else None;
  }

  /** injectExpoNativeFontsIOS on the objects. */
  method InjectExpoNativeFontsIOS(disk: Disk, project: PbxProject, options: FontsOptions) returns (err: Option<IOSError>)
    requires project.Valid()
    modifies disk, project
    ensures project.Valid()
    ensures (WorldOf(disk, project), err) == Inject(options, old(WorldOf(disk, project)), project.nativeTargets)
  {
    var iosFonts := GetIOSFonts(options);
    if iosFonts.None? {
      return Some(FontsUndefined);
    }
    var grouped := GroupByTarget(iosFonts.value);
    if grouped.Err? {
      return Some(GroupingFailed(grouped.error));
    }
    ghost var files0 := disk.infoPlists;
    var plistErr := disk.UpdateInfoPlist(grouped.value);
    if plistErr.Some? {
      return Some(DiskFailed(plistErr.value));
    }
    GroupingKeySet(iosFonts.value);
    PatchAllDefinesPaths(files0, grouped.value);
    err := UpdateXcodeProject(disk, project, options, grouped.value);
  }
}
