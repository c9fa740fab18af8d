# expo-native-fonts, modelled in Dafny

expo-native-fonts is an Expo config plugin. It takes a `srcFolder` and a list of
font declarations (`filePath`, `targets`, optional `name`, `platform`). It
validates them. For iOS it then:

- rewrites each target's `Info.plist` so that a `UIAppFonts` array lists the font files;
- copies the font folder to `ios/Fonts`;
- adds a `Fonts` group and per-target resource entries to the Xcode project.

This project models that core and proves properties of it.

| file | module | models |
|---|---|---|
| `wrappers.dfy` | `Wrappers` | `Option`, `Result`, `Outcome` |
| `strings.dfy` | `Strings` | `String.prototype.indexOf`; decimal rendering of an index in a message |
| `sequences.dfy` | `Sequences` | first index satisfying a predicate; occurrence counts |
| `font_options.dfy` | `FontOptions` | the option records, `validateOptions` and `validateFonts`, with their messages |
| `ios_fonts.dfy` | `IOSFonts` | `getIOSFonts` and `groupByTarget`; the grouped map is an association list in first-insertion order |
| `font_paths.dfy` | `FontPaths` | `path.basename`, `path.extname` and `getFontName` |
| `info_plist.dfy` | `InfoPlist` | the `UIAppFonts` block and the splice after the first `<dict>` |
| `project_files.dfy` | `ProjectFiles` | `updateInfoPlist` over all targets and `copyFontFiles`, as a `Disk` object |
| `xcode_project.dfy` | `XcodeProject` | `getPBXTargetByName` and `addFontToXcodeProj` over an abstract project state, as a `PbxProject` object |
| `native_fonts_ios.dfy` | `NativeFontsIOS` | `updateXcodeProject` and `injectExpoNativeFontsIOS` |
| `plugin.dfy` | `Plugin` | `withExpoNativeFonts` |

JavaScript values that may be absent are `Option`s. A string is falsy when it is
absent or empty; this applies to `filePath`, `platform`, `name` and
`srcFolder`. An array is truthy when it is present. The declared type limits
`platform` to 'ios', 'android' or 'both', but the configuration is untyped, so
the model lets `platform` be any string: `""` fails validation
(plugin/src/index.ts:54), and any string other than 'android' is kept for iOS
(plugin/src/ios/withNativeFontsIOS.ts:9).
Every `throw` becomes an error value:

- `ValidationError`, `GroupError`, `DiskError` and `XcodeError` for the four stages;
- `IOSError.FontsUndefined` for the `TypeError` of `options.fonts.filter` when `fonts` is absent.

The stages that change state are methods of two classes:

- `ProjectFiles.Disk` holds the Info.plist files by target name, the existing directories and the folders copied to `ios/Fonts`.
- `XcodeProject.PbxProject` holds the groups, the main group's children, the resource entries and the native-target table.

Each method is proved equal to a function on values:

- `PatchAll` for the Info.plist stage;
- `CopyOutcome` for the copy;
- `AddFonts` and `AddAll` for the Xcode stage;
- `Inject` for the whole iOS run;
- `Run` for the plugin.

The lemmas are stated over those functions.

`groupByTarget` (plugin/src/ios/withNativeFontsIOS.ts:24) and `validateFonts`
(plugin/src/index.ts:58) only check that `targets` is present. An empty array
passes both, and such a font joins no group (`IOSFonts.EmptyTargetsIgnored`).

## Model

| member | source | states |
|---|---|---|
| FontOptions.ValidateFonts | plugin/src/index.ts:46-62 | Passes exactly when every font has a non-empty filePath, a non-empty platform and targets. On failure the error is the one for the first invalid index, with the checks in source order: filePath, then platform, then targets. |
| FontOptions.ValidateOptions | plugin/src/index.ts:34-44 | The result equals `Validation`: srcFolder first, then fonts, then the per-font scan. |
| FontOptions.ValidationPassesIff | plugin/src/index.ts:34-62 | Validation passes iff srcFolder is a non-empty string, fonts is present and every font is valid (non-empty filePath and platform, targets present). So an empty fonts array and an empty targets array pass. |
| FontOptions.FirstFailureWins | plugin/src/index.ts:47-61 | If font i is the first invalid font, validation reports font i's error. |
| FontOptions.MessageNamesIndex | plugin/src/index.ts:35-60 | Each per-font message names the failing index between `fonts[` and `]`. The srcFolder and fonts messages name no index. |
| FontOptions.FontMessageIndex | plugin/src/index.ts:51-59 | The index named in a per-font message parses back to that index. |
| Strings.IndexOf | plugin/src/ios/withNativeFontsIOS.ts:160 | Returns the first position where the pattern occurs, or None when it never occurs. |
| Strings.IndexOfSharedPrefix | plugin/src/ios/withNativeFontsIOS.ts:160 | Text that agrees with another up to the end of its first occurrence of a pattern has its first occurrence at the same place. |
| Strings.DecimalRoundTrip | plugin/src/index.ts:51 | The decimal rendering of an index reads back as the same number. |
| IOSFonts.FilterIOS | plugin/src/ios/withNativeFontsIOS.ts:9 | A font is in the result iff it is in the input and its platform is not 'android'. |
| IOSFonts.GetIOSFonts | plugin/src/ios/withNativeFontsIOS.ts:8-10 | Defined iff fonts is present. Then it holds exactly the fonts whose platform is not 'android'. |
| IOSFonts.FilterIOSAppend | plugin/src/ios/withNativeFontsIOS.ts:9 | Filtering distributes over concatenation, so input order is kept. |
| IOSFonts.FilterIOSCount | plugin/src/ios/withNativeFontsIOS.ts:9 | A kept font occurs as often as in the input. A dropped font occurs zero times. |
| IOSFonts.Append | plugin/src/ios/withNativeFontsIOS.ts:29-32 | Appending to a target adds its key at the end when it is new. The font goes at the end of that target's list, and other targets are unchanged. |
| IOSFonts.GroupByTarget | plugin/src/ios/withNativeFontsIOS.ts:16-37 | The nested loops compute `Grouping`. |
| IOSFonts.AddUnderTargets | plugin/src/ios/withNativeFontsIOS.ts:28-33 | The inner loop appends the font under each of its targets in order, as `AddToTargets` says. |
| IOSFonts.GroupingStep | plugin/src/ios/withNativeFontsIOS.ts:19-33 | One more font throws with its label when its targets are absent, and otherwise adds it under each of its targets. |
| IOSFonts.GroupFromAppend | plugin/src/ios/withNativeFontsIOS.ts:19-34 | Grouping a concatenation is grouping the second part on top of the first. |
| IOSFonts.GroupFromErr | plugin/src/ios/withNativeFontsIOS.ts:24-26 | After a throw, later fonts change nothing. |
| IOSFonts.GroupingErrPersists | plugin/src/ios/withNativeFontsIOS.ts:19-26 | If a prefix of the fonts throws, the whole list throws with the same error. |
| IOSFonts.AddToTargetsLookup | plugin/src/ios/withNativeFontsIOS.ts:28-33 | One font's inner loop appends it to t once per occurrence of t in its targets. |
| IOSFonts.GroupingLookup | plugin/src/ios/withNativeFontsIOS.ts:16-37 | `grouped[t]` is, in input order, each font repeated once per occurrence of t in its targets. Duplicates are kept. |
| IOSFonts.AddToTargetsKeys | plugin/src/ios/withNativeFontsIOS.ts:28-33 | One font adds its new target names to the keys in first-occurrence order. |
| IOSFonts.GroupingKeys | plugin/src/ios/withNativeFontsIOS.ts:16-37 | The keys are the target names in order of first appearance, each once. |
| IOSFonts.GroupingKeySet | plugin/src/ios/withNativeFontsIOS.ts:16-37 | The keys are distinct and are exactly the union of all targets. |
| IOSFonts.GroupingFailure | plugin/src/ios/withNativeFontsIOS.ts:19-26 | Grouping throws iff some font has no targets. The error carries the label (name, else filePath) of the first such font. |
| IOSFonts.EmptyTargetsIgnored | plugin/src/ios/withNativeFontsIOS.ts:24-33 | A font with an empty targets array affects nothing: removing it leaves the grouping unchanged. |
| IOSFonts.FanOutMembers | plugin/src/ios/withNativeFontsIOS.ts:28-33 | A font in t's fan-out is an input font that names t. |
| IOSFonts.LookupOfKey | plugin/src/ios/withNativeFontsIOS.ts:45 | With distinct keys, `grouped[key]` is that entry's list. |
| IOSFonts.GroupingEntriesFromInput | plugin/src/ios/withNativeFontsIOS.ts:16-37 | Every grouped font is an input font. |
| IOSFonts.AndroidFontsNeverGrouped | plugin/src/ios/withNativeFontsIOS.ts:8-37 | No font grouped from getIOSFonts' result has platform 'android'. |
| FontPaths.LastIndexOf | plugin/src/ios/withNativeFontsIOS.ts:57-58 | Returns the last position of the character, or None when it does not occur. |
| FontPaths.BasenameIsLastSegment | plugin/src/ios/withNativeFontsIOS.ts:58 | The basename is the suffix of the path after its last '/'. It holds no '/' and, when shorter than the path, follows a '/'. |
| FontPaths.ExtnameIsLastDotSuffix | plugin/src/ios/withNativeFontsIOS.ts:57 | The extension is the suffix of the basename from its last '.', and holds no other '.'. It is empty iff the basename has no '.' after its first character or is "..". |
| FontPaths.GetFontName | plugin/src/ios/withNativeFontsIOS.ts:52-59 | A non-empty name is returned as is. Otherwise the result is defined iff filePath is. It is the basename shortened by the extension's length. |
| FontPaths.RemoveFirstSplits | plugin/src/ios/withNativeFontsIOS.ts:58 | `replace` with a string cuts out the first occurrence of the pattern. |
| FontPaths.DefaultNameCutsFirstOccurrence | plugin/src/ios/withNativeFontsIOS.ts:52-59 | The default name is the basename with the FIRST occurrence of the extension removed. |
| FontPaths.FirstOccurrenceCounterexample | plugin/src/ios/withNativeFontsIOS.ts:57-58 | For "A.ttfB.ttf" the default name is "AB.ttf". |
| FontPaths.GetFontNameWithoutExtension | plugin/src/ios/withNativeFontsIOS.ts:52-59 | The corrected name: the name when non-empty, else a string that the extension completes to the basename. |
| FontPaths.WithoutExtensionOnCounterexample | plugin/src/ios/withNativeFontsIOS.ts:52-59 | For "A.ttfB.ttf" the corrected name is "A.ttfB". |
| InfoPlist.FileNames | plugin/src/ios/withNativeFontsIOS.ts:171-172 | Defined iff every filePath is. Then it lists the basename of each font's filePath, in group order, with duplicates (never `name`). |
| InfoPlist.SpliceFailure | plugin/src/ios/withNativeFontsIOS.ts:158-172 | The splice fails with NoDict iff there is no `<dict>`. It fails on an undefined path iff there is a `<dict>` and some filePath is absent. |
| InfoPlist.SplicePreserves | plugin/src/ios/withNativeFontsIOS.ts:158-183 | After the first `<dict>`, the result is the original prefix, then the block, then the original suffix. Its length grows by the block's length. |
| InfoPlist.SpliceTwice | plugin/src/ios/withNativeFontsIOS.ts:158-183 | The splice is not idempotent. Splicing the output again inserts a second block after the same first `<dict>`. |
| InfoPlist.EntriesRoundTrip | plugin/src/ios/withNativeFontsIOS.ts:171-176 | Parsing the reduced `<string>` entries gives back the names, in order. |
| InfoPlist.BlockRoundTrip | plugin/src/ios/withNativeFontsIOS.ts:171-181 | Parsing the `UIAppFonts` key and array gives back the names. |
| InfoPlist.SplicedNamesAreBasenames | plugin/src/ios/withNativeFontsIOS.ts:171-181 | For names without '<', the inserted block lists exactly one basename per font of the group, in order. |
| InfoPlist.MinimalDocument | plugin/src/ios/withNativeFontsIOS.ts:158-183 | "&lt;dict&gt;&lt;/dict&gt;" with one font becomes `<dict>`, the key and a one-entry array with the source's indentation, then `</dict>`. |
| ProjectFiles.PatchAllErrPersists | plugin/src/ios/withNativeFontsIOS.ts:149-185 | A throw at some target ends the loop. Later targets change nothing. |
| ProjectFiles.PatchAllUntouched | plugin/src/ios/withNativeFontsIOS.ts:149-185 | A file whose name is not a grouped target is never rewritten. |
| ProjectFiles.PatchAllDomain | plugin/src/ios/withNativeFontsIOS.ts:149-185 | No Info.plist is created or removed. |
| ProjectFiles.PatchAllPatched | plugin/src/ios/withNativeFontsIOS.ts:149-185 | After a clean pass, each target's file existed, and its new contents are the splice of its old contents with that target's fonts. |
| ProjectFiles.PatchAllSuccess | plugin/src/ios/withNativeFontsIOS.ts:149-185 | After a clean pass, every target's file is spliced once and every other file is unchanged. |
| ProjectFiles.PatchAllFailure | plugin/src/ios/withNativeFontsIOS.ts:149-185 | A failing pass stops at one target k. Targets before k stay rewritten, and the error is k's. |
| ProjectFiles.PatchAllDefinesPaths | plugin/src/ios/withNativeFontsIOS.ts:171-172 | After a clean pass, every grouped font has a filePath. |
| ProjectFiles.PatchAllErrorKinds | plugin/src/ios/withNativeFontsIOS.ts:149-185 | The only errors are a missing Info.plist, one without `<dict>`, or an undefined path. With every path defined, only the first two remain. |
| ProjectFiles.PatchPlistCases | plugin/src/ios/withNativeFontsIOS.ts:150-184 | One target: a missing file, then a missing `<dict>`, then an undefined path each throw and change nothing. Otherwise the file becomes its text up to the end of the first `<dict>`, the block, then the rest. |
| ProjectFiles.Disk.UpdateInfoPlist | plugin/src/ios/withNativeFontsIOS.ts:142-188 | The loop leaves the files and the error as `PatchAll` says, and touches nothing else. |
| ProjectFiles.Disk.PatchTarget | plugin/src/ios/withNativeFontsIOS.ts:150-184 | One iteration of the loop leaves the files and the error as `PatchPlist` says, and touches nothing else. |
| ProjectFiles.Disk.CopyFontFiles | plugin/src/ios/withNativeFontsIOS.ts:190-212 | An undefined or non-directory srcFolder throws and changes nothing. Otherwise `ios/Fonts` exists and the folder is recorded as copied. The Info.plist files are untouched. |
| XcodeProject.GetPBXTargetByName | plugin/src/ios/withNativeFontsIOS.ts:61-76 | Returns None iff no entry has that name, else the first entry in table order that has it. |
| XcodeProject.LookupResolves | plugin/src/ios/withNativeFontsIOS.ts:111-115 | The lookup resolves to the first match's uuid. An empty uuid counts as not found. |
| XcodeProject.AddAllError | plugin/src/ios/withNativeFontsIOS.ts:39-50 | Adding all targets fails iff some target is unresolved. It names the first such target in key order. |
| XcodeProject.AddAllGroups | plugin/src/ios/withNativeFontsIOS.ts:92-101 | One `Fonts` group is appended per processed target, holding that target's file paths, up to and including a failing target. |
| XcodeProject.AddAllChildren | plugin/src/ios/withNativeFontsIOS.ts:103-107 | Each new group is attached to the main group, in order. |
| XcodeProject.AttachedChildrenAreFontsGroups | plugin/src/ios/withNativeFontsIOS.ts:96-107 | Every child the run attaches to the main group is a `Fonts` group holding its target's file paths, and the main group never points outside the project's groups. |
| XcodeProject.LookupFailureKeepsGroup | plugin/src/ios/withNativeFontsIOS.ts:96-115 | When target m's lookup fails, its group is already attached and no resource is added for it. |
| XcodeProject.AddAllErrorPersists | plugin/src/ios/withNativeFontsIOS.ts:44-47 | After a failing target, the remaining targets change nothing. |
| XcodeProject.ResourcesPerOccurrence | plugin/src/ios/withNativeFontsIOS.ts:131-137 | Existing resources are kept. Each path is added for the target's uuid once per occurrence in the group. |
| XcodeProject.TargetResourcesCount | plugin/src/ios/withNativeFontsIOS.ts:131-137 | The resource list has one entry per file occurrence. |
| XcodeProject.PbxProject.AddFontToXcodeProj | plugin/src/ios/withNativeFontsIOS.ts:78-140 | The steps (add group, attach, look up, add resources) leave the project and the error as `AddFonts` says, and keep `Valid`. |
| XcodeProject.PbxProject.AddFontsToTargets | plugin/src/ios/withNativeFontsIOS.ts:44-47 | The per-target loop leaves the project and the error as `AddAll` says. |
| NativeFontsIOS.StagesInOrder | plugin/src/ios/withNativeFontsIOS.ts:232-240 | An absent fonts array or a failed grouping changes nothing. Copies and project changes happen only after every Info.plist was rewritten and the copy succeeded. |
| NativeFontsIOS.CopyFailureAfterAllPlists | plugin/src/ios/withNativeFontsIOS.ts:39-50 | When the copy throws, every target's Info.plist is already spliced, and the project and the copies are unchanged. |
| NativeFontsIOS.NewGroupsHoldIOSPaths | plugin/src/ios/withNativeFontsIOS.ts:232-240 | Every file in every added `Fonts` group is the filePath of a declared font whose platform is not 'android'. |
| NativeFontsIOS.UpdateXcodeProject | plugin/src/ios/withNativeFontsIOS.ts:39-50 | Copy first, then all targets. The resulting state and error are those of `UpdateXcode`. |
| NativeFontsIOS.InjectExpoNativeFontsIOS | plugin/src/ios/withNativeFontsIOS.ts:232-240 | Filter, group, patch the plists, then update the project. The resulting state and error are those of `Inject`. |
| Plugin.ValidatedOptionsGroup | plugin/src/index.ts:64-68 | Valid options make getIOSFonts defined and grouping succeed, and every grouped font has a filePath. |
| Plugin.ValidatedOptionsOnlyFailOnEnvironment | plugin/src/index.ts:64-68 | Invalid options leave everything unchanged and report the validation error. Valid options fail only for a missing Info.plist, a missing `<dict>`, a non-directory source or an unknown target. |
| Plugin.WithExpoNativeFonts | plugin/src/index.ts:64-68 | Validate, then inject. The resulting state and error are those of `Run`. |

## Left out

- Expo plumbing is not modelled: `withXcodeProject` deferring the mod, the returned config objects, and the unused imports.
- `console.log` output is not modelled.
- The file system is a map from target name to Info.plist text plus a set of directories.
  - `path.join` with the project root, and its normalisation, is not modelled.
  - Reading and writing a file are map reads and updates.
  - An `lstatSync` failure on a missing source folder is folded into the not-a-directory error.
  - The recursive copy is recorded as the copied folder name.
- ProjectFiles.Disk.CopyFontFiles: does not model the files the copy creates, because `fs-extra`'s copy is foreign code.
- `FontPaths.Basename` and `FontPaths.Extname` follow Node's rules for '/'-separated paths only. Trailing-slash stripping and Windows separators are not modelled.
- The grouped map enumerates keys in first-insertion order. JavaScript puts integer-like keys such as "0" first. Names inherited from `Object.prototype` (such as "constructor") would also change `groupedFonts[target] \|\| []`. Both cases are not modelled.
- The `xcode` library is replaced by an abstract project state:
  - a group's uuid is its index;
  - the first project's main group is the `mainGroupChildren` list;
  - `pbxResourcesBuildPhaseObj`, whose result is unused, is left out;
  - `addResourceFile`'s own deduplication is not modelled, so every file occurrence adds an entry.
- XcodeProject.PbxProject.AddFontToXcodeProj: requires every filePath to be defined. Its only caller runs after `updateInfoPlist`, which has already thrown on an undefined filePath. So what `addPbxGroup` would do with `undefined` is not modelled.
- Messages of the iOS-side errors are not modelled. Their content is carried by the error values: target, font label or folder.
- Android: the options accept 'android' and 'both', but the plugin has no Android code path.
- `getFontName` is defined but never called. It is modelled with its finding below and takes part in no stage.

## Findings

| source | as written | input that shows it | evidently intended | confidence | as-written member | corrected member |
|---|---|---|---|---|---|---|
| plugin/src/ios/withNativeFontsIOS.ts:58 | `basename.replace(ext, "")` removes the first occurrence of the extension string, wherever it is | filePath "A.ttfB.ttf" gives "AB.ttf" | strip the trailing extension: "A.ttfB" | medium (the function is never called); not executed | FontPaths.FirstOccurrenceCounterexample | FontPaths.GetFontNameWithoutExtension |
