/** The option records of the plugin entry point (plugin/src/index.ts) and
    their validation, `validateOptions` and `validateFonts`. */
module FontOptions {
  import opened Wrappers
  import opened Strings
  import opened Sequences

  /** ExpoNativeFontOptions. The declared type makes every field but `name`
      mandatory and limits `platform` to 'ios', 'android' or 'both', but the
      plugin receives untyped configuration, so at run time each field may be
      absent and `platform` may be any string; validation exists to catch
      exactly that. */
  datatype Font = Font(
    filePath: Option<string>,
    targets: Option<seq<string>>,
    name: Option<string>,
    platform: Option<string>)

  /** ExpoNativeFontsOptions. */
  datatype FontsOptions = FontsOptions(srcFolder: Option<string>, fonts: Option<seq<Font>>)

  /** JavaScript truthiness of an optional string: absent and "" are falsy. */
  predicate Truthy(s: Option<string>)
  {
    s.Some? && s.value != ""
  }

  datatype ValidationError =
    | SrcFolderRequired
    | FontsRequired
    | FilePathRequired(index: nat)
    | PlatformRequired(index: nat)
    | TargetsRequired(index: nat)

  /** A font that passes all three checks of validateFonts. The two strings
      must be non-empty; an array is truthy whenever present, so only absence
      fails: an empty `targets` array passes. */
  predicate FontValid(font: Font)
  {
    Truthy(font.filePath) && Truthy(font.platform) && font.targets.Some?
  }

  /** The checks validateFonts applies to the font at index `i`, in their
      order: file path, then platform, then targets. */
  function FontError(font: Font, i: nat): Outcome<ValidationError>
  {
    if !Truthy(font.filePath) then Fail(FilePathRequired(i))
    else if !Truthy(font.platform) then Fail(PlatformRequired(i))
    else if font.targets.None? then Fail(TargetsRequired(i))
    else Pass
  }

  /** What validateOptions does with `options`: Pass, or the error it throws. */
  function Validation(options: FontsOptions): Outcome<ValidationError>
  {
    if !Truthy(options.srcFolder) then Fail(SrcFolderRequired)
    else if options.fonts.None? then Fail(FontsRequired)
    else
      match FirstWhere(options.fonts.value, (f: Font) => !FontValid(f))
      case None => Pass
      case Some(i) => FontError(options.fonts.value[i], i)
  }

  /** validateFonts: scans the fonts in index order and fails at the first
      font that misses a required field, with that field's error. */
  method ValidateFonts(fonts: seq<Font>) returns (r: Outcome<ValidationError>)
    ensures r.Pass? <==> forall i | 0 <= i < |fonts| :: FontValid(fonts[i])
    ensures r.Fail? ==>
      exists i | 0 <= i < |fonts| ::
        && (forall j | 0 <= j < i :: FontValid(fonts[j]))
        && !FontValid(fonts[i])
        && r == FontError(fonts[i], i)
  {
    for i := 0 to |fonts|
      invariant forall j | 0 <= j < i :: FontValid(fonts[j])
    {
      var font := fonts[i];
      if !Truthy(font.filePath) {
        return Fail(FilePathRequired(i));
      }
      if !Truthy(font.platform) {
        return Fail(PlatformRequired(i));
      }
      if font.targets.None? {
        return Fail(TargetsRequired(i));
      }
    }
    return Pass;
  }

  /** validateOptions: the two top-level guards, then validateFonts. */
  method ValidateOptions(options: FontsOptions) returns (r: Outcome<ValidationError>)
    ensures r == Validation(options)
  {
    if !Truthy(options.srcFolder) {
      return Fail(SrcFolderRequired);
    }
    if options.fonts.None? {
      return Fail(FontsRequired);
    }
    r := ValidateFonts(options.fonts.value);
    if r.Pass? {
      ValidationPassesIff(options);
    } else {
      ghost var fonts := options.fonts.value;
      ghost var i :| 0 <= i < |fonts| && (forall j | 0 <= j < i :: FontValid(fonts[j]))
                     && !FontValid(fonts[i]) && r == FontError(fonts[i], i);
      FirstFailureWins(options, i);
    }
  }

  /** Validation passes exactly when srcFolder is a non-empty string, fonts is
      present and every font has a non-empty filePath and platform and a targets
      array. In particular an empty fonts array, and fonts whose targets array
      is empty, pass. */
  lemma ValidationPassesIff(options: FontsOptions)
    ensures Validation(options).Pass? <==>
      && Truthy(options.srcFolder)
      && options.fonts.Some?
      && forall i | 0 <= i < |options.fonts.value| :: FontValid(options.fonts.value[i])
  {
    if Truthy(options.srcFolder) && options.fonts.Some? {
      var fonts := options.fonts.value;
      match FirstWhere(fonts, (f: Font) => !FontValid(f))
      case None =>
      case Some(i) =>
        assert !FontValid(fonts[i]);
    }
  }

  /** When srcFolder and fonts are present and font `i` is the first invalid
      font, validation fails with font i's first missing field: later fonts
      are never looked at. */
  lemma FirstFailureWins(options: FontsOptions, i: nat)
    requires Truthy(options.srcFolder) && options.fonts.Some?
    requires i < |options.fonts.value| && !FontValid(options.fonts.value[i])
    requires forall j | 0 <= j < i :: FontValid(options.fonts.value[j])
    ensures Validation(options) == FontError(options.fonts.value[i], i)
  {
    var fonts := options.fonts.value;
    var first := FirstWhere(fonts, (f: Font) => !FontValid(f));
    assert first.Some?;
    assert first.value <= i;
  }

  const Prefix := "expo-native-fonts:: "

  /** The text of the Error each validation failure throws. A missing filePath
      is reported under the name `srcFolder`, as the source words it. */
  function Message(e: ValidationError): string
  {
    match e
    case SrcFolderRequired => Prefix + "srcFolder is required."
    case FontsRequired => Prefix + "fonts[] is required."
    case FilePathRequired(i) => FontMessage(i, "srcFolder")
    case PlatformRequired(i) => FontMessage(i, "platform")
    case TargetsRequired(i) => FontMessage(i, "targets")
  }

  function FontMessage(i: nat, field: string): string
  {
    Prefix + "fonts[" + Decimal(i) + "]." + field + " is required."
  }

  /** The font index a message names between `fonts[` and `]`, if any. */
  function MessageIndex(m: string): Option<nat>
  {
    var head := Prefix + "fonts[";
    if |m| < |head| || m[..|head|] != head then None
    else
      var rest := m[|head|..];
      var n := DigitRun(rest);
      if n == 0 || n == |rest| || rest[n] != ']' then None
      else Some(DecimalValue(rest[..n]))
  }

  /** Every per-font message names the failing font's index, and the two
      top-level messages name none. */
  lemma MessageNamesIndex(e: ValidationError)
    ensures MessageIndex(Message(e)) ==
      match e
      case SrcFolderRequired => None
      case FontsRequired => None
      case FilePathRequired(i) => Some(i)
      case PlatformRequired(i) => Some(i)
      case TargetsRequired(i) => Some(i)
  {
    var head := Prefix + "fonts[";
    var m := Message(e);
    match e
    case SrcFolderRequired =>
      assert m[|head| - 6] != head[|head| - 6];
    case FontsRequired =>
      assert m[..|head|] == head;
      assert m[|head|..][0] == ']';
    case FilePathRequired(i) => FontMessageIndex(i, "srcFolder");
    case PlatformRequired(i) => FontMessageIndex(i, "platform");
    case TargetsRequired(i) => FontMessageIndex(i, "targets");
  }

  lemma FontMessageIndex(i: nat, field: string)
    ensures MessageIndex(FontMessage(i, field)) == Some(i)
  {
    var head := Prefix + "fonts[";
    var d := Decimal(i);
    var tail := "]." + field + " is required.";
    var m := FontMessage(i, field);
    assert m == head + (d + tail);
    assert m[..|head|] == head;
    var rest := m[|head|..];
    assert rest == d + tail;
    DigitRunOfDigits(d, tail);
    assert rest[..|d|] == d;
    DecimalRoundTrip(i);
  }
}
