/** Selecting the iOS fonts and grouping them by build target:
    `getIOSFonts` and `groupByTarget` of plugin/src/ios/withNativeFontsIOS.ts. */
module IOSFonts {
  import opened Wrappers
  import opened Sequences
  import opened FontOptions

  const AndroidPlatform := "android"

  /** The filter test of getIOSFonts, `platform !== 'android'`: 'ios', 'both',
      any other string and an absent platform are all kept. */
  predicate IsIOSFont(f: Font)
  {
    f.platform != Some(AndroidPlatform)
  }

  /** `fonts.filter(f => f.platform !== 'android')`. */
  function FilterIOS(fonts: seq<Font>): (r: seq<Font>)
    ensures forall f :: f in r <==> f in fonts && IsIOSFont(f)
  {
    if fonts == [] then []
    else
      var n := |fonts| - 1;
      if IsIOSFont(fonts[n]) then FilterIOS(fonts[..n]) + [fonts[n]] else FilterIOS(fonts[..n])
  }

  /** getIOSFonts: `options.fonts.filter(...)`; None where `options.fonts` is
      undefined and the call throws a TypeError. */
  function GetIOSFonts(options: FontsOptions): (r: Option<seq<Font>>)
    ensures r.Some? <==> options.fonts.Some?
    ensures r.Some? ==> forall f :: f in r.value <==> f in options.fonts.value && IsIOSFont(f)
  {
    match options.fonts
    case None => None
    case Some(fonts) => Some(FilterIOS(fonts))
  }

  /** The filter keeps the original order: filtering a concatenation is the
      concatenation of the filtered parts. */
  lemma {:induction false} FilterIOSAppend(a: seq<Font>, b: seq<Font>)
    ensures FilterIOS(a + b) == FilterIOS(a) + FilterIOS(b)
  {
    if b != [] {
      var n := |b| - 1;
      assert (a + b)[..|a + b| - 1] == a + b[..n];
      FilterIOSAppend(a, b[..n]);
    } else {
      assert a + b == a;
    }
  }

  /** The filter keeps every occurrence of a kept font and none of a dropped one. */
  lemma {:induction false} FilterIOSCount(fonts: seq<Font>, f: Font)
    ensures Occurrences(FilterIOS(fonts), f) == if IsIOSFont(f) then Occurrences(fonts, f) else 0
  {
    if fonts != [] {
      var n := |fonts| - 1;
      FilterIOSCount(fonts[..n], f);
      assert fonts == fonts[..n] + [fonts[n]];
    }
  }

  /** FontsGrouped as an association list from target name to fonts. Its keys
      come in the order they were first inserted, which is the order
      `Object.keys` and `for...in` enumerate non-numeric string keys. */
  type Groups = seq<(string, seq<Font>)>

  function Keys(g: Groups): seq<string>
  {
    seq(|g|, k requires 0 <= k < |g| => g[k].0)
  }

  /** `grouped[t] || []`. */
  function Lookup(g: Groups, t: string): seq<Font>
  {
    if g == [] then [] else if g[0].0 == t then g[0].1 else Lookup(g[1..], t)
  }

  /** `groupedFonts[t] = [...(groupedFonts[t] || []), f]`. */
  function Append(g: Groups, t: string, f: Font): (r: Groups)
    ensures Keys(r) == if t in Keys(g) then Keys(g) else Keys(g) + [t]
    ensures forall u :: Lookup(r, u) == if u == t then Lookup(g, t) + [f] else Lookup(g, u)
  {
    if g == [] then [(t, [f])]
    else
      assert g == [g[0]] + g[1..];
      KeysCons(g[0], g[1..]);
      LookupCons(g[0], g[1..]);
      if g[0].0 == t then
        var e := (t, g[0].1 + [f]);
        KeysCons(e, g[1..]);
        LookupCons(e, g[1..]);
        [e] + g[1..]
      else
        var rest := Append(g[1..], t, f);
        KeysCons(g[0], rest);
        LookupCons(g[0], rest);
        [g[0]] + rest
  }

  lemma KeysCons(e: (string, seq<Font>), rest: Groups)
    ensures Keys([e] + rest) == [e.0] + Keys(rest)
  {
  }

  /** Lookup finds the first entry with the key. */
  lemma LookupCons(e: (string, seq<Font>), rest: Groups)
    ensures forall u :: Lookup([e] + rest, u) == if u == e.0 then e.1 else Lookup(rest, u)
  {
    assert ([e] + rest)[1..] == rest;
  }

  /** The inner loop of groupByTarget: `f` appended under each of `ts`, in order. */
  function AddToTargets(g: Groups, f: Font, ts: seq<string>): Groups
  {
    if ts == [] then g else Append(AddToTargets(g, f, ts[..|ts| - 1]), ts[|ts| - 1], f)
  }

  datatype GroupError = MissingTargets(fontLabel: string)

  /** The font named in groupByTarget's error, `font.name || font.filePath`;
      an undefined path renders as "undefined". */
  function Label(f: Font): string
  {
    if Truthy(f.name) then f.name.value
    else if f.filePath.Some? then f.filePath.value
    else "undefined"
  }

  /** One iteration of groupByTarget's outer loop. */
  function Step(r: Result<Groups, GroupError>, f: Font): Result<Groups, GroupError>
  {
    match r
    case Err(e) => Err(e)
    case Ok(g) =>
      if f.targets.None? then Err(MissingTargets(Label(f)))
      else Ok(AddToTargets(g, f, f.targets.value))
  }

  function GroupFrom(r: Result<Groups, GroupError>, fonts: seq<Font>): Result<Groups, GroupError>
  {
    if fonts == [] then r else Step(GroupFrom(r, fonts[..|fonts| - 1]), fonts[|fonts| - 1])
  }

  /** What groupByTarget returns or throws for `fonts`. */
  function Grouping(fonts: seq<Font>): Result<Groups, GroupError>
  {
    GroupFrom(Ok([]), fonts)
  }

  /** groupByTarget. */
  method GroupByTarget(fonts: seq<Font>) returns (r: Result<Groups, GroupError>)
    ensures r == Grouping(fonts)
  {
    var grouped: Groups := [];
    for i := 0 to |fonts|
      invariant Grouping(fonts[..i]) == Ok(grouped)
    {
      var font := fonts[i];
      GroupingStep(fonts, i, grouped);
      if font.targets.None? {
        r := Err(MissingTargets(Label(font)));
        GroupingErrPersists(fonts, i + 1);
        return;
      }
      grouped := AddUnderTargets(grouped, font, font.targets.value);
    }
    assert fonts[..|fonts|] == fonts;
    return Ok(grouped);
  }

  /** groupByTarget's inner loop over one font's targets. */
  method AddUnderTargets(grouped: Groups, font: Font, targets: seq<string>) returns (r: Groups)
    ensures r == AddToTargets(grouped, font, targets)
  {
    r := grouped;
    for j := 0 to |targets|
      invariant r == AddToTargets(grouped, font, targets[..j])
    {
      assert targets[..j + 1][..j] == targets[..j];
      r := Append(r, targets[j], font);
    }
    assert targets[..|targets|] == targets;
  }

  /** One font more with targets adds it under each of them. */
  lemma GroupingStep(fonts: seq<Font>, i: nat, g: Groups)
    requires i < |fonts| && Grouping(fonts[..i]) == Ok(g)
    ensures fonts[i].targets.None? ==> Grouping(fonts[..i + 1]) == Err(MissingTargets(Label(fonts[i])))
    ensures fonts[i].targets.Some? ==> Grouping(fonts[..i + 1]) == Ok(AddToTargets(g, fonts[i], fonts[i].targets.value))
  {
    assert fonts[..i + 1][..i] == fonts[..i];
  }

  lemma {:induction false} GroupFromAppend(r: Result<Groups, GroupError>, a: seq<Font>, b: seq<Font>)
    ensures GroupFrom(r, a + b) == GroupFrom(GroupFrom(r, a), b)
  {
    if b == [] {
      assert a + b == a;
    } else {
      var n := |b| - 1;
      assert (a + b)[..|a + b| - 1] == a + b[..n];
      GroupFromAppend(r, a, b[..n]);
    }
  }

  lemma {:induction false} GroupFromErr(e: GroupError, b: seq<Font>)
    ensures GroupFrom(Err(e), b) == Err(e)
  {
    if b != [] {
      GroupFromErr(e, b[..|b| - 1]);
    }
  }

  /** Once groupByTarget has thrown, the remaining fonts change nothing. */
  lemma GroupingErrPersists(fonts: seq<Font>, i: nat)
    requires i <= |fonts| && Grouping(fonts[..i]).Err?
    ensures Grouping(fonts) == Grouping(fonts[..i])
  {
    assert fonts == fonts[..i] + fonts[i..];
    GroupFromAppend(Ok([]), fonts[..i], fonts[i..]);
    GroupFromErr(Grouping(fonts[..i]).error, fonts[i..]);
  }

  /** The target names of a font, none when `targets` is absent. */
  function TargetsOf(f: Font): seq<string>
  {
    if f.targets.Some? then f.targets.value else []
  }

  /** Reference definition of a group: every font, in input order, repeated
      once per occurrence of `t` among its targets. */
  function FanOut(fonts: seq<Font>, t: string): seq<Font>
  {
    if fonts == [] then []
    else
      var n := |fonts| - 1;
      FanOut(fonts[..n], t) + Repeat(fonts[n], Occurrences(TargetsOf(fonts[n]), t))
  }

  lemma {:induction false} AddToTargetsLookup(g: Groups, f: Font, ts: seq<string>, t: string)
    ensures Lookup(AddToTargets(g, f, ts), t) == Lookup(g, t) + Repeat(f, Occurrences(ts, t))
  {
    if ts != [] {
      var n := |ts| - 1;
      var k := Occurrences(ts[..n], t);
      AddToTargetsLookup(g, f, ts[..n], t);
      OccurrencesSnoc(ts, t);
      if ts[n] == t {
        assert Repeat(f, k + 1) == Repeat(f, k) + [f];
      }
    }
  }

  /** Fan-out: after groupByTarget, the group of every target name `t` lists,
      in input order, each font once per occurrence of `t` in its targets;
      duplicates are kept, and a font whose targets do not name `t` is absent. */
  lemma {:induction false} GroupingLookup(fonts: seq<Font>, t: string)
    requires Grouping(fonts).Ok?
    ensures Lookup(Grouping(fonts).value, t) == FanOut(fonts, t)
  {
    if fonts != [] {
      var n := |fonts| - 1;
      assert Grouping(fonts) == Step(Grouping(fonts[..n]), fonts[n]);
      if Grouping(fonts[..n]).Ok? {
        GroupingLookup(fonts[..n], t);
        AddToTargetsLookup(Grouping(fonts[..n]).value, fonts[n], fonts[n].targets.value, t);
      }
    }
  }

  /** `s` appended to `d`, skipping names already present: the order in
      which new keys enter a JavaScript object. */
  function AddNew(d: seq<string>, s: seq<string>): seq<string>
  {
    if s == [] then d
    else
      var e := AddNew(d, s[..|s| - 1]);
      if s[|s| - 1] in e then e else e + [s[|s| - 1]]
  }

  /** The distinct elements of `s` in order of first appearance. */
  function Distinct(s: seq<string>): seq<string>
  {
    AddNew([], s)
  }

  predicate NoDuplicates(s: seq<string>)
  {
    forall i, j | 0 <= i < j < |s| :: s[i] != s[j]
  }

  /** All target names, font by font, in input order, with repetitions. */
  function AllTargets(fonts: seq<Font>): seq<string>
  {
    if fonts == [] then [] else AllTargets(fonts[..|fonts| - 1]) + TargetsOf(fonts[|fonts| - 1])
  }

  lemma {:induction false} AddNewAppend(d: seq<string>, a: seq<string>, b: seq<string>)
    ensures AddNew(d, a + b) == AddNew(AddNew(d, a), b)
  {
    if b == [] {
      assert a + b == a;
    } else {
      var n := |b| - 1;
      assert (a + b)[..|a + b| - 1] == a + b[..n];
      AddNewAppend(d, a, b[..n]);
    }
  }

  /** AddNew keeps a duplicate-free sequence duplicate-free and adds exactly
      the names of `s`. */
  lemma {:induction false} AddNewProperties(d: seq<string>, s: seq<string>)
    requires NoDuplicates(d)
    ensures NoDuplicates(AddNew(d, s))
    ensures forall x :: x in AddNew(d, s) <==> x in d || x in s
  {
    if s != [] {
      var n := |s| - 1;
      AddNewProperties(d, s[..n]);
      assert s == s[..n] + [s[n]];
    }
  }

  lemma {:induction false} AddToTargetsKeys(g: Groups, f: Font, ts: seq<string>)
    ensures Keys(AddToTargets(g, f, ts)) == AddNew(Keys(g), ts)
  {
    if ts != [] {
      AddToTargetsKeys(g, f, ts[..|ts| - 1]);
    }
  }

  /** The keys of the grouped fonts are the target names of all fonts, each
      once, in order of first appearance. */
  lemma {:induction false} GroupingKeys(fonts: seq<Font>)
    requires Grouping(fonts).Ok?
    ensures Keys(Grouping(fonts).value) == Distinct(AllTargets(fonts))
  {
    if fonts != [] {
      var n := |fonts| - 1;
      assert Grouping(fonts) == Step(Grouping(fonts[..n]), fonts[n]);
      if Grouping(fonts[..n]).Ok? {
        GroupingKeys(fonts[..n]);
        AddToTargetsKeys(Grouping(fonts[..n]).value, fonts[n], fonts[n].targets.value);
        AddNewAppend([], AllTargets(fonts[..n]), TargetsOf(fonts[n]));
      }
    }
  }

  /** Hence the key set is exactly the union of all target names, without duplicates. */
  lemma GroupingKeySet(fonts: seq<Font>)
    requires Grouping(fonts).Ok?
    ensures NoDuplicates(Keys(Grouping(fonts).value))
    ensures forall t :: t in Keys(Grouping(fonts).value) <==> t in AllTargets(fonts)
  {
    GroupingKeys(fonts);
    AddNewProperties([], AllTargets(fonts));
  }

  predicate MissesTargets(f: Font)
  {
    f.targets.None?
  }

  /** groupByTarget throws exactly when some font has no targets array, and
      then names the first such font in input order. */
  lemma {:induction false} GroupingFailure(fonts: seq<Font>)
    ensures Grouping(fonts).Err? <==> exists i | 0 <= i < |fonts| :: MissesTargets(fonts[i])
    ensures Grouping(fonts).Err? ==>
      var i := FirstWhere(fonts, MissesTargets).value;
      Grouping(fonts).error == MissingTargets(Label(fonts[i]))
  {
    if fonts != [] {
      var n := |fonts| - 1;
      var init := fonts[..n];
      GroupingFailure(init);
      assert Grouping(fonts) == Step(Grouping(init), fonts[n]);
      assert forall i | 0 <= i < n :: init[i] == fonts[i];
      var first := FirstWhere(fonts, MissesTargets);
      var firstInit := FirstWhere(init, MissesTargets);
      if firstInit.Some? {
        assert MissesTargets(fonts[firstInit.value]);
        assert first.value == firstInit.value;
      } else if MissesTargets(fonts[n]) {
        assert first.value == n;
      }
    }
  }

  /** A font whose targets array is empty passes grouping without effect:
      removing it leaves the result unchanged. */
  lemma EmptyTargetsIgnored(fonts: seq<Font>, i: nat)
    requires i < |fonts| && fonts[i].targets == Some([])
    ensures Grouping(fonts[..i] + fonts[i + 1..]) == Grouping(fonts)
  {
    var a, b := fonts[..i], fonts[i + 1..];
    assert fonts == (a + [fonts[i]]) + b;
    GroupFromAppend(Ok([]), a + [fonts[i]], b);
    GroupFromAppend(Ok([]), a, [fonts[i]]);
    GroupFromAppend(Ok([]), a, b);
    assert GroupFrom(Grouping(a), [fonts[i]]) == Step(GroupFrom(Grouping(a), []), fonts[i]);
  }

  /** Every font of the list has a defined filePath. */
  predicate PathsDefined(fonts: seq<Font>)
  {
    forall i | 0 <= i < |fonts| :: fonts[i].filePath.Some?
  }

  predicate AllPathsDefined(grouped: Groups)
  {
    forall k | 0 <= k < |grouped| :: PathsDefined(grouped[k].1)
  }

  /** A group only holds fonts of the input that name its target. */
  lemma {:induction false} FanOutMembers(fonts: seq<Font>, t: string, f: Font)
    requires f in FanOut(fonts, t)
    ensures f in fonts && t in TargetsOf(f)
  {
    var n := |fonts| - 1;
    if f in FanOut(fonts[..n], t) {
      FanOutMembers(fonts[..n], t, f);
    } else {
      var c := Occurrences(TargetsOf(fonts[n]), t);
      assert f == fonts[n] && c > 0;
    }
  }

  /** With distinct keys, looking up an entry's key gives that entry's fonts. */
  lemma {:induction false} LookupOfKey(g: Groups, k: nat)
    requires NoDuplicates(Keys(g)) && k < |g|
    ensures Lookup(g, g[k].0) == g[k].1
  {
    if k > 0 {
      assert g[0].0 != g[k].0 by { assert Keys(g)[0] != Keys(g)[k]; }
      assert Keys(g[1..]) == Keys(g)[1..];
      LookupOfKey(g[1..], k - 1);
    }
  }

  /** Every font in every group of the grouping is one of the input fonts. */
  lemma GroupingEntriesFromInput(fonts: seq<Font>, k: nat, i: nat)
    requires Grouping(fonts).Ok?
    requires k < |Grouping(fonts).value| && i < |Grouping(fonts).value[k].1|
    ensures Grouping(fonts).value[k].1[i] in fonts
  {
    var g := Grouping(fonts).value;
    GroupingKeySet(fonts);
    LookupOfKey(g, k);
    GroupingLookup(fonts, g[k].0);
    FanOutMembers(fonts, g[k].0, g[k].1[i]);
  }

  /** An Android-only font never reaches a group: whatever groupByTarget
      returns for getIOSFonts' result holds only fonts whose platform is not
      'android'. */
  lemma AndroidFontsNeverGrouped(fonts: seq<Font>, k: nat, i: nat)
    requires Grouping(FilterIOS(fonts)).Ok?
    requires k < |Grouping(FilterIOS(fonts)).value| && i < |Grouping(FilterIOS(fonts)).value[k].1|
    ensures Grouping(FilterIOS(fonts)).value[k].1[i] in fonts
    ensures Grouping(FilterIOS(fonts)).value[k].1[i].platform != Some(AndroidPlatform)
  {
    GroupingEntriesFromInput(FilterIOS(fonts), k, i);
  }
}
