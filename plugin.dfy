/** The plugin entry, withExpoNativeFonts, plugin/src/index.ts: validate the
    options, then run the iOS side. */
module Plugin {
  import opened Wrappers
  import opened FontOptions
  import opened IOSFonts
  import opened ProjectFiles
  import opened XcodeProject
  import opened NativeFontsIOS

  datatype PluginError =
    | Invalid(validationError: ValidationError)
    | IOSFailed(iosError: IOSError)

  /** withExpoNativeFonts on values. */
  function Run(options: FontsOptions, w: World, section: seq<NativeTargetEntry>): (World, Option<PluginError>)
  {
    match Validation(options)
    case Fail(e) => (w, Some(Invalid(e)))
    case Pass =>
      var (after, err) := Inject(options, w, section);
      (after, if err.Some? then Some(IOSFailed(err.value)) else None)
  }

  /** An error the environment causes rather than the options: a missing
      Info.plist or one without `<dict>`, a source folder that is not a
      directory, or a target the Xcode project does not have. */
  predicate EnvironmentError(e: IOSError)
  {
    || (e.DiskFailed? && (e.diskError.MissingInfoPlist? || e.diskError.NoDictInInfoPlist? || e.diskError.SourceNotDirectory?))
    || e.XcodeFailed?
  }

  /** Options that pass validation reach every stage with what it needs:
      `fonts` is present, every iOS font has targets, so grouping succeeds,
      and every grouped font has a filePath. */
  lemma ValidatedOptionsGroup(options: FontsOptions)
    requires Validation(options).Pass?
    ensures GetIOSFonts(options).Some?
    ensures Grouping(GetIOSFonts(options).value).Ok?
    ensures AllPathsDefined(Grouping(GetIOSFonts(options).value).value)
  {
    ValidationPassesIff(options);
    var fonts := GetIOSFonts(options).value;
    GroupingFailure(fonts);
    assert forall i | 0 <= i < |fonts| :: fonts[i] in options.fonts.value;
    var grouped := Grouping(fonts).value;
    forall k, i | 0 <= k < |grouped| && 0 <= i < |grouped[k].1|
      ensures grouped[k].1[i].filePath.Some?
    {
      GroupingEntriesFromInput(fonts, k, i);
    }
  }

  /** Validation runs first: invalid options leave everything as it was and
      report the validation error; valid options can only fail because of
      the environment, never with the TypeErrors or the grouping error the
      iOS side raises on malformed options. */
  lemma ValidatedOptionsOnlyFailOnEnvironment(options: FontsOptions, w: World, section: seq<NativeTargetEntry>)
    ensures Validation(options).Fail? ==>
      Run(options, w, section) == (w, Some(Invalid(Validation(options).error)))
    ensures Validation(options).Pass? && Run(options, w, section).1.Some? ==>
      && Run(options, w, section).1.value.IOSFailed?
      && EnvironmentError(Run(options, w, section).1.value.iosError)
  {
    if Validation(options).Pass? {
      ValidationPassesIff(options);
      ValidatedOptionsGroup(options);
      var grouped := Grouping(GetIOSFonts(options).value).value;
      PatchAllErrorKinds(w.infoPlists, grouped);
    }
  }

  /** withExpoNativeFonts on the objects. */
  method WithExpoNativeFonts(disk: Disk, project: PbxProject, options: FontsOptions) returns (err: Option<PluginError>)
    requires project.Valid()
    modifies disk, project
    ensures project.Valid()
    ensures (WorldOf(disk, project), err) == Run(options, old(WorldOf(disk, project)), project.nativeTargets)
  {
    var validation := ValidateOptions(options);
    if validation.Fail? {
      return Some(Invalid(validation.error));
    }
    var iosErr := InjectExpoNativeFontsIOS(disk, project, options);
    err := if iosErr.Some? then Some(IOSFailed(iosErr.value)) else None;
  }
}
