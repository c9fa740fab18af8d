/** The native project mutation of plugin/src/ios/withNativeFontsIOS.ts:
    `getPBXTargetByName`, `addFontToXcodeProj` and the per-target loop of
    `updateXcodeProject`. The `xcode` library's project object is replaced
    by an abstract state that records what the plugin asks of it. */
module XcodeProject {
  import opened Wrappers
  import opened Sequences
  import opened FontOptions
  import opened IOSFonts

  /** An entry of `pbxNativeTargetSection()`, in `for...in` order. The
      section also holds `<uuid>_comment` entries whose value is a string:
      their `name` is undefined, modelled as None. */
  datatype NativeTargetEntry = NativeTargetEntry(uuid: string, name: Option<string>)

  /** A group made by `addPbxGroup(files, name, path, sourceTree)`. */
  datatype PbxGroup = PbxGroup(files: seq<string>, name: string, path: string, sourceTree: string)

  /** A call `addResourceFile(path, {lastKnownFileType, sourceTree, target}, group)`. */
  datatype ResourceFile = ResourceFile(path: string, lastKnownFileType: string, sourceTree: string, target: string, group: string)

  /** The part of the project the plugin changes. A group's uuid is its
      position in `groups`; `mainGroupChildren` lists the groups attached to
      the first project's main group by `addToPbxGroup`. */
  datatype ProjectState = ProjectState(groups: seq<PbxGroup>, mainGroupChildren: seq<nat>, resources: seq<ResourceFile>)

  datatype XcodeError = TargetNotFound(target: string)

  const GroupName := "Fonts"
  const GroupPath := "Fonts"
  const GroupSourceTree := "\"<group>\""

  function FontsGroup(files: seq<string>): PbxGroup
  {
    PbxGroup(files, GroupName, GroupPath, GroupSourceTree)
  }

  function FontResource(file: string, targetUuid: string): ResourceFile
  {
    ResourceFile(file, "file", "<group>", targetUuid, "Resources")
  }

  predicate NamedAs(entry: NativeTargetEntry, name: string)
  {
    entry.name == Some(name)
  }

  /** getPBXTargetByName: the first entry of the section whose name is
      `name`, or None (the source's `{ target: null, uuid: null }`). */
  method GetPBXTargetByName(section: seq<NativeTargetEntry>, name: string) returns (r: Option<NativeTargetEntry>)
    ensures r.None? <==> forall j | 0 <= j < |section| :: !NamedAs(section[j], name)
    ensures r.Some? ==>
      exists i | 0 <= i < |section| ::
        && section[i] == r.value
        && NamedAs(section[i], name)
        && forall j | 0 <= j < i :: !NamedAs(section[j], name)
  {
    for i := 0 to |section|
      invariant forall j | 0 <= j < i :: !NamedAs(section[j], name)
    {
      if section[i].name == Some(name) {
        return Some(section[i]);
      }
    }
    return None;
  }

  /** The uuid addFontToXcodeProj goes on with: that of the first entry named
      `name`, provided it is a non-empty string (`!targetUuid` rejects ""). */
  function ResolvedUuid(section: seq<NativeTargetEntry>, name: string): Option<string>
  {
    match FirstWhere(section, (e: NativeTargetEntry) => NamedAs(e, name))
    case None => None
    case Some(i) => if section[i].uuid == "" then None else Some(section[i].uuid)
  }

  /** `fonts.map(font => font.filePath)`. */
  function FilePaths(fonts: seq<Font>): (r: seq<string>)
    requires PathsDefined(fonts)
    ensures |r| == |fonts|
  {
    seq(|fonts|, i requires 0 <= i < |fonts| => fonts[i].filePath.value)
  }

  /** The resources added for one target: one per file, in order. */
  function TargetResources(files: seq<string>, targetUuid: string): (r: seq<ResourceFile>)
    ensures |r| == |files|
  {
    seq(|files|, k requires 0 <= k < |files| => FontResource(files[k], targetUuid))
  }

  /** addFontToXcodeProj on the abstract state: the Fonts group is made and
      attached before the target is looked up, so a failed lookup leaves it
      in place; then one resource per file. */
  function AddFonts(s: ProjectState, section: seq<NativeTargetEntry>, targetName: string, fonts: seq<Font>): (ProjectState, Option<XcodeError>)
    requires PathsDefined(fonts)
  {
    var files := FilePaths(fonts);
    var attached := s.(groups := s.groups + [FontsGroup(files)],
                       mainGroupChildren := s.mainGroupChildren + [|s.groups|]);
    match ResolvedUuid(section, targetName)
    case None => (attached, Some(TargetNotFound(targetName)))
    case Some(uuid) => (attached.(resources := s.resources + TargetResources(files, uuid)), None)
  }

  /** The loop of updateXcodeProject: targets in key order, stopping at the
      first target that cannot be found. */
  function AddAll(s: ProjectState, section: seq<NativeTargetEntry>, grouped: Groups): (ProjectState, Option<XcodeError>)
    requires AllPathsDefined(grouped)
  {
    if grouped == [] then (s, None)
    else
      var n := |grouped| - 1;
      var before := AddAll(s, section, grouped[..n]);
      if before.1.Some? then before else AddFonts(before.0, section, grouped[n].0, grouped[n].1)
  }

  predicate Unresolved(section: seq<NativeTargetEntry>, entry: (string, seq<Font>))
  {
    ResolvedUuid(section, entry.0).None?
  }

  /** The index of the first target, in key order, that does not resolve. */
  function FirstUnresolved(section: seq<NativeTargetEntry>, grouped: Groups): Option<nat>
  {
    FirstWhere(grouped, (e: (string, seq<Font>)) => Unresolved(section, e))
  }

  /** How many targets get their Fonts group: all of them, or those up to and
      including the first one that cannot be found. */
  function Processed(section: seq<NativeTargetEntry>, grouped: Groups): nat
  {
    match FirstUnresolved(section, grouped)
    case None => |grouped|
    case Some(m) => m + 1
  }

  /** One target more: an earlier unresolved target stays the first one. */
  lemma FirstUnresolvedSnoc(section: seq<NativeTargetEntry>, grouped: Groups)
    requires grouped != []
    ensures FirstUnresolved(section, grouped) ==
      match FirstUnresolved(section, grouped[..|grouped| - 1])
      case Some(i) => Some(i)
      case None => if Unresolved(section, grouped[|grouped| - 1]) then Some(|grouped| - 1) else None
  {
    FirstWhereSnoc(grouped, (e: (string, seq<Font>)) => Unresolved(section, e));
  }

  /** The loop fails exactly at the first target that does not resolve, and
      names it. */
  lemma {:induction false} AddAllError(s: ProjectState, section: seq<NativeTargetEntry>, grouped: Groups)
    requires AllPathsDefined(grouped)
    ensures AddAll(s, section, grouped).1 ==
      match FirstUnresolved(section, grouped)
      case None => None
      case Some(m) => Some(TargetNotFound(grouped[m].0))
  {
    if grouped != [] {
      var n := |grouped| - 1;
      var init := grouped[..n];
      NewGroupsPrefix(grouped, n, 0);
      AddAllError(s, section, init);
      FirstUnresolvedSnoc(section, grouped);
      match FirstUnresolved(section, init)
      case Some(m) =>
        assert init[m] == grouped[m];
      case None =>
    }
  }

  /** The Fonts groups of the first `n` targets, in key order. */
  function NewGroups(grouped: Groups, n: nat): (r: seq<PbxGroup>)
    requires AllPathsDefined(grouped) && n <= |grouped|
    ensures |r| == n
    ensures forall k | 0 <= k < n :: r[k] == FontsGroup(FilePaths(grouped[k].1))
  {
    if n == 0 then [] else NewGroups(grouped, n - 1) + [FontsGroup(FilePaths(grouped[n - 1].1))]
  }

  /** The uuids `base`, `base + 1`, ... of `n` groups made one after another. */
  function NewChildren(base: nat, n: nat): (r: seq<nat>)
    ensures |r| == n
    ensures forall k | 0 <= k < n :: r[k] == base + k
  {
    if n == 0 then [] else NewChildren(base, n - 1) + [base + n - 1]
  }

  /** The number of targets processed so far stays put once one is not found. */
  lemma ProcessedStep(section: seq<NativeTargetEntry>, grouped: Groups)
    requires grouped != []
    ensures
      var init := grouped[..|grouped| - 1];
      match FirstUnresolved(section, init)
      case Some(m) => FirstUnresolved(section, grouped) == Some(m)
      case None => Processed(section, grouped) == |grouped| && Processed(section, init) == |init|
  {
    FirstUnresolvedSnoc(section, grouped);
  }

  /** One target more: its Fonts group is made and attached unless an
      earlier target already failed. */
  lemma AddAllSnoc(s: ProjectState, section: seq<NativeTargetEntry>, grouped: Groups)
    requires AllPathsDefined(grouped) && grouped != []
    ensures
      var last := |grouped| - 1;
      var before := AddAll(s, section, grouped[..last]);
      var after := AddAll(s, section, grouped);
      if before.1.Some? then after == before
      else
        && after.0.groups == before.0.groups + [FontsGroup(FilePaths(grouped[last].1))]
        && after.0.mainGroupChildren == before.0.mainGroupChildren + [|before.0.groups|]
  {
  }

  /** The first `n` groups do not depend on the targets after them. */
  lemma {:induction false} NewGroupsPrefix(grouped: Groups, j: nat, n: nat)
    requires AllPathsDefined(grouped) && n <= j <= |grouped|
    ensures AllPathsDefined(grouped[..j])
    ensures NewGroups(grouped[..j], n) == NewGroups(grouped, n)
  {
    assert forall k | 0 <= k < j :: grouped[..j][k] == grouped[k];
    if n > 0 {
      NewGroupsPrefix(grouped, j, n - 1);
    }
  }

  /** N processed targets yield N groups named Fonts, each holding its
      target's file paths, in key order; this holds as well when the run
      fails, the failing target's group included. */
  lemma {:induction false} AddAllGroups(s: ProjectState, section: seq<NativeTargetEntry>, grouped: Groups)
    requires AllPathsDefined(grouped)
    ensures Processed(section, grouped) <= |grouped|
    ensures AddAll(s, section, grouped).0.groups == s.groups + NewGroups(grouped, Processed(section, grouped))
  {
    if grouped != [] {
      var last := |grouped| - 1;
      var init := grouped[..last];
      NewGroupsPrefix(grouped, last, 0);
      AddAllGroups(s, section, init);
      AddAllError(s, section, init);
      ProcessedStep(section, grouped);
      AddAllSnoc(s, section, grouped);
      match FirstUnresolved(section, init)
      case Some(m) =>
        assert Processed(section, grouped) == m + 1 == Processed(section, init);
        NewGroupsPrefix(grouped, last, m + 1);
      case None =>
        NewGroupsPrefix(grouped, last, last);
    }
  }

  /** Each of those groups is attached to the main group, in the order made. */
  lemma {:induction false} AddAllChildren(s: ProjectState, section: seq<NativeTargetEntry>, grouped: Groups)
    requires AllPathsDefined(grouped)
    ensures AddAll(s, section, grouped).0.mainGroupChildren ==
      s.mainGroupChildren + NewChildren(|s.groups|, Processed(section, grouped))
  {
    if grouped != [] {
      var last := |grouped| - 1;
      var init := grouped[..last];
      NewGroupsPrefix(grouped, last, 0);
      AddAllChildren(s, section, init);
      AddAllError(s, section, init);
      ProcessedStep(section, grouped);
      AddAllSnoc(s, section, grouped);
      match FirstUnresolved(section, init)
      case Some(m) =>
        assert Processed(section, grouped) == m + 1 == Processed(section, init);
      case None =>
        ChildrenAfterCleanPrefix(s, section, grouped);
    }
  }

  /** The step of AddAllChildren when no earlier target failed: the new
      group's uuid is the number of groups so far. */
  lemma ChildrenAfterCleanPrefix(s: ProjectState, section: seq<NativeTargetEntry>, grouped: Groups)
    requires AllPathsDefined(grouped) && grouped != []
    requires AllPathsDefined(grouped[..|grouped| - 1])
    requires FirstUnresolved(section, grouped[..|grouped| - 1]).None?
    requires AddAll(s, section, grouped[..|grouped| - 1]).1.None?
    requires AddAll(s, section, grouped[..|grouped| - 1]).0.mainGroupChildren ==
      s.mainGroupChildren + NewChildren(|s.groups|, |grouped| - 1)
    requires Processed(section, grouped) == |grouped|
    ensures AddAll(s, section, grouped).0.mainGroupChildren ==
      s.mainGroupChildren + NewChildren(|s.groups|, |grouped|)
  {
    var last := |grouped| - 1;
    var init := grouped[..last];
    AddAllGroupCount(s, section, init);
    AddAllSnoc(s, section, grouped);
    var before := AddAll(s, section, init).0;
    assert |before.groups| == |s.groups| + last;
    assert NewChildren(|s.groups|, last + 1) == NewChildren(|s.groups|, last) + [|s.groups| + last];
  }

  /** One group per processed target. */
  lemma AddAllGroupCount(s: ProjectState, section: seq<NativeTargetEntry>, grouped: Groups)
    requires AllPathsDefined(grouped)
    ensures |AddAll(s, section, grouped).0.groups| == |s.groups| + Processed(section, grouped)
  {
    AddAllGroups(s, section, grouped);
  }

  /** A target that is not found still gets its Fonts group attached but no
      resources: the resources are those of the targets before it. */
  lemma LookupFailureKeepsGroup(s: ProjectState, section: seq<NativeTargetEntry>, grouped: Groups, m: nat)
    requires AllPathsDefined(grouped)
    requires FirstUnresolved(section, grouped) == Some(m)
    ensures AllPathsDefined(grouped[..m])
    ensures AddAll(s, section, grouped[..m]).1.None?
    ensures AddAll(s, section, grouped) == AddFonts(AddAll(s, section, grouped[..m]).0, section, grouped[m].0, grouped[m].1)
    ensures AddAll(s, section, grouped).0.resources == AddAll(s, section, grouped[..m]).0.resources
    ensures AddAll(s, section, grouped).0.groups[|AddAll(s, section, grouped).0.groups| - 1] == FontsGroup(FilePaths(grouped[m].1))
  {
    var init := grouped[..m];
    NewGroupsPrefix(grouped, m, 0);
    assert forall k | 0 <= k < m :: init[k] == grouped[k];
    assert FirstUnresolved(section, init).None?;
    AddAllError(s, section, init);
    AddAllStep(s, section, grouped, m);
    AddAllErrorPersists(s, section, grouped, m + 1);
  }

  /** One more target on top of a clean prefix runs addFontToXcodeProj for it. */
  lemma AddAllStep(s: ProjectState, section: seq<NativeTargetEntry>, grouped: Groups, k: nat)
    requires AllPathsDefined(grouped) && k < |grouped|
    ensures AllPathsDefined(grouped[..k]) && AllPathsDefined(grouped[..k + 1])
    ensures AddAll(s, section, grouped[..k]).1.None? ==>
      AddAll(s, section, grouped[..k + 1]) == AddFonts(AddAll(s, section, grouped[..k]).0, section, grouped[k].0, grouped[k].1)
  {
    NewGroupsPrefix(grouped, k, 0);
    NewGroupsPrefix(grouped, k + 1, 0);
    assert grouped[..k + 1][..k] == grouped[..k];
  }

  lemma {:induction false} AddAllErrorPersists(s: ProjectState, section: seq<NativeTargetEntry>, grouped: Groups, k: nat)
    requires AllPathsDefined(grouped)
    requires k <= |grouped|
    requires AllPathsDefined(grouped[..k]) && AddAll(s, section, grouped[..k]).1.Some?
    ensures AddAll(s, section, grouped) == AddAll(s, section, grouped[..k])
  {
    if k < |grouped| {
      var n := |grouped| - 1;
      NewGroupsPrefix(grouped, n, 0);
      assert grouped[..n][..k] == grouped[..k];
      AddAllErrorPersists(s, section, grouped[..n], k);
    } else {
      assert grouped[..k] == grouped;
    }
  }

  /** For a target that is found, each file path gets one resource for that
      target per occurrence in the target's list, in list order. */
  lemma ResourcesPerOccurrence(s: ProjectState, section: seq<NativeTargetEntry>, targetName: string, fonts: seq<Font>, path: string)
    requires PathsDefined(fonts) && ResolvedUuid(section, targetName).Some?
    ensures
      var uuid := ResolvedUuid(section, targetName).value;
      var after := AddFonts(s, section, targetName, fonts).0;
      && after.resources[..|s.resources|] == s.resources
      && Occurrences(after.resources[|s.resources|..], FontResource(path, uuid)) == Occurrences(FilePaths(fonts), path)
  {
    var uuid := ResolvedUuid(section, targetName).value;
    var files := FilePaths(fonts);
    TargetResourcesCount(files, uuid, path);
    var after := AddFonts(s, section, targetName, fonts).0;
    assert after.resources == s.resources + TargetResources(files, uuid);
    assert after.resources[|s.resources|..] == TargetResources(files, uuid);
  }

  lemma {:induction false} TargetResourcesCount(files: seq<string>, uuid: string, path: string)
    ensures Occurrences(TargetResources(files, uuid), FontResource(path, uuid)) == Occurrences(files, path)
  {
    if files != [] {
      var n := |files| - 1;
      TargetResourcesCount(files[..n], uuid, path);
      assert TargetResources(files, uuid) == TargetResources(files[..n], uuid) + [FontResource(files[n], uuid)];
      assert files == files[..n] + [files[n]];
    }
  }

  /** The entry getPBXTargetByName returns decides ResolvedUuid. */
  lemma LookupResolves(section: seq<NativeTargetEntry>, name: string, r: Option<NativeTargetEntry>)
    requires r.None? <==> forall j | 0 <= j < |section| :: !NamedAs(section[j], name)
    requires r.Some? ==>
      exists i | 0 <= i < |section| ::
        && section[i] == r.value
        && NamedAs(section[i], name)
        && forall j | 0 <= j < i :: !NamedAs(section[j], name)
    ensures ResolvedUuid(section, name) == if r.None? || r.value.uuid == "" then None else Some(r.value.uuid)
  {
    var first := FirstWhere(section, (e: NativeTargetEntry) => NamedAs(e, name));
    if r.Some? {
      var i :| 0 <= i < |section| && section[i] == r.value && NamedAs(section[i], name)
               && forall j | 0 <= j < i :: !NamedAs(section[j], name);
      assert first.Some?;
      assert first.value <= i;
      assert first.value == i;
    }
  }

  /** Every child of the main group is a group of the project. */
  predicate ChildrenInRange(s: ProjectState)
  {
    forall k | 0 <= k < |s.mainGroupChildren| :: s.mainGroupChildren[k] < |s.groups|
  }

  /** Every child the run attaches to the main group is a Fonts group of the
      project, holding the file paths of the target it was made for, and the
      main group never points outside the project's groups. */
  lemma AttachedChildrenAreFontsGroups(s: ProjectState, section: seq<NativeTargetEntry>, grouped: Groups)
    requires AllPathsDefined(grouped)
    ensures ChildrenInRange(s) ==> ChildrenInRange(AddAll(s, section, grouped).0)
    ensures
      var after := AddAll(s, section, grouped).0;
      forall k | |s.mainGroupChildren| <= k < |after.mainGroupChildren| ::
        && k - |s.mainGroupChildren| < |grouped|
        && after.mainGroupChildren[k] < |after.groups|
        && after.groups[after.mainGroupChildren[k]] == FontsGroup(FilePaths(grouped[k - |s.mainGroupChildren|].1))
  {
    var after := AddAll(s, section, grouped).0;
    var n := Processed(section, grouped);
    AddAllGroups(s, section, grouped);
    AddAllChildren(s, section, grouped);
    AttachedAfter(s, after, NewGroups(grouped, n));
  }

  /** Children numbered after the existing groups point into the groups
      appended after them. */
  lemma AttachedAfter(s: ProjectState, after: ProjectState, added: seq<PbxGroup>)
    requires after.groups == s.groups + added
    requires after.mainGroupChildren == s.mainGroupChildren + NewChildren(|s.groups|, |added|)
    ensures ChildrenInRange(s) ==> ChildrenInRange(after)
    ensures forall k | |s.mainGroupChildren| <= k < |after.mainGroupChildren| ::
      && k - |s.mainGroupChildren| < |added|
      && after.mainGroupChildren[k] < |after.groups|
      && after.groups[after.mainGroupChildren[k]] == added[k - |s.mainGroupChildren|]
  {
    var base := |s.mainGroupChildren|;
    forall k | base <= k < |after.mainGroupChildren|
      ensures after.mainGroupChildren[k] == |s.groups| + (k - base)
    {
    }
    if ChildrenInRange(s) {
      forall k | 0 <= k < base
        ensures after.mainGroupChildren[k] < |after.groups|
      {
        assert after.mainGroupChildren[k] == s.mainGroupChildren[k];
      }
    }
  }

  /** The project object handed to the plugin. */
  class PbxProject {
    var groups: seq<PbxGroup>
    var mainGroupChildren: seq<nat>
    var resources: seq<ResourceFile>
    /** `pbxNativeTargetSection()`, which the plugin only reads. */
    const nativeTargets: seq<NativeTargetEntry>

    ghost predicate Valid()
      reads this
    {
      ChildrenInRange(State())
    }

    function State(): ProjectState
      reads this
    {
      ProjectState(groups, mainGroupChildren, resources)
    }

    constructor (nativeTargets: seq<NativeTargetEntry>, groups: seq<PbxGroup>, mainGroupChildren: seq<nat>)
      requires forall k | 0 <= k < |mainGroupChildren| :: mainGroupChildren[k] < |groups|
      ensures Valid() && this.nativeTargets == nativeTargets
      ensures State() == ProjectState(groups, mainGroupChildren, [])
    {
      this.nativeTargets := nativeTargets;
      this.groups := groups;
      this.mainGroupChildren := mainGroupChildren;
      resources := [];
    }

    /** addFontToXcodeProj for one target. */
    method AddFontToXcodeProj(targetName: string, fonts: seq<Font>) returns (err: Option<XcodeError>)
      requires Valid() && PathsDefined(fonts)
      modifies this
      ensures Valid()
      ensures (State(), err) == AddFonts(old(State()), nativeTargets, targetName, fonts)
    {
      var fontFiles := FilePaths(fonts);
      // addPbxGroup, then addToPbxGroup under the main group
      var groupUuid := |groups|;
      groups := groups + [FontsGroup(fontFiles)];
      mainGroupChildren := mainGroupChildren + [groupUuid];
      assert Valid();
      var target := GetPBXTargetByName(nativeTargets, targetName);
      LookupResolves(nativeTargets, targetName, target);
      if target.None? || target.value.uuid == "" {
        err := Some(TargetNotFound(targetName));
        return;
      }
      var targetUuid := target.value.uuid;
      assert ResolvedUuid(nativeTargets, targetName) == Some(targetUuid);
      ghost var before := resources;
      ghost var groupsAfter, childrenAfter := groups, mainGroupChildren;
      for k := 0 to |fontFiles|
        invariant groups == groupsAfter && mainGroupChildren == childrenAfter
        invariant resources == before + TargetResources(fontFiles[..k], targetUuid)
      {
        assert TargetResources(fontFiles[..k + 1], targetUuid)
            == TargetResources(fontFiles[..k], targetUuid) + [FontResource(fontFiles[k], targetUuid)];
        resources := resources + [FontResource(fontFiles[k], targetUuid)];
      }
      assert fontFiles[..|fontFiles|] == fontFiles;
      err := None;
    }

    /** The per-target loop of updateXcodeProject. */
    method AddFontsToTargets(grouped: Groups) returns (err: Option<XcodeError>)
      requires Valid() && AllPathsDefined(grouped)
      modifies this
      ensures Valid()
      ensures (State(), err) == AddAll(old(State()), nativeTargets, grouped)
    {
      NewGroupsPrefix(grouped, 0, 0);
      for k := 0 to |grouped|
        invariant Valid()
        invariant AllPathsDefined(grouped[..k])
        invariant AddAll(old(State()), nativeTargets, grouped[..k]) == (State(), None)
      {
        AddAllStep(old(State()), nativeTargets, grouped, k);
        err := AddFontToXcodeProj(grouped[k].0, grouped[k].1);
        if err.Some? {
          AddAllErrorPersists(old(State()), nativeTargets, grouped, k + 1);
          return;
        }
      }
      assert grouped[..|grouped|] == grouped;
      err := None;
    }
  }
}
