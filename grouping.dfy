/**
 * The directory grouping engine: plugins whose preferred locales share no
 * primary language with the requested ones go to a second group headed
 * "Plugins for other regions"; all others stay in the first, unlabelled
 * group. Also the parsing of the directory's `languages` parameter.
 */
module Grouping {
  import opened Wrappers
  import opened Text
  import opened Seqs

  /** locale.split('-')[0]: the primary language subtag. */
  function PrimarySubtag(locale: string): string
  {
    Split(locale, '-')[0]
  }

  /** The primary subtag is the part of the tag before its first "-". */
  lemma PrimarySubtagIsLeadingPart(locale: string)
    ensures PrimarySubtag(locale) <= locale
    ensures '-' !in PrimarySubtag(locale)
    ensures PrimarySubtag(locale) == locale || locale[|PrimarySubtag(locale)|] == '-'
  {
    SplitFirstPiece(locale, '-');
  }

  /** sum([1 for a in a1 if a in a2]): how many entries of a1 occur in a2. */
  function CommonCount(a1: seq<string>, a2: seq<string>): nat
  {
    if a1 == [] then 0 else (if a1[0] in a2 then 1 else 0) + CommonCount(a1[1..], a2)
  }

  /** arrays_overlap. */
  predicate ArraysOverlap(a1: seq<string>, a2: seq<string>)
  {
    CommonCount(a1, a2) > 0
  }

  /** The count is positive exactly when some entry of a1 occurs in a2. */
  lemma {:induction false} ArraysOverlapIff(a1: seq<string>, a2: seq<string>)
    ensures ArraysOverlap(a1, a2) <==> exists i :: 0 <= i < |a1| && a1[i] in a2
  {
    if a1 != [] {
      ArraysOverlapIff(a1[1..], a2);
      if exists i :: 0 <= i < |a1[1..]| && a1[1..][i] in a2 {
        var i :| 0 <= i < |a1[1..]| && a1[1..][i] in a2;
        assert a1[i + 1] in a2;
      }
      if exists i :: 0 <= i < |a1| && a1[i] in a2 {
        var i :| 0 <= i < |a1| && a1[i] in a2;
        if i > 0 {
          assert a1[1..][i - 1] in a2;
        }
      }
    }
  }

  function Primaries(locales: seq<string>): (r: seq<string>)
    ensures |r| == |locales|
  {
    seq(|locales|, i requires 0 <= i < |locales| => PrimarySubtag(locales[i]))
  }

  /** locales_overlap: the lists share a primary language subtag. */
  predicate LocalesOverlap(l1: seq<string>, l2: seq<string>)
  {
    ArraysOverlap(Primaries(l1), Primaries(l2))
  }

  /** Two locale lists overlap exactly when some tag of each has the same primary subtag. */
  lemma LocalesOverlapIff(l1: seq<string>, l2: seq<string>)
    ensures LocalesOverlap(l1, l2) <==>
            exists i, j :: 0 <= i < |l1| && 0 <= j < |l2| && PrimarySubtag(l1[i]) == PrimarySubtag(l2[j])
  {
    var p1, p2 := Primaries(l1), Primaries(l2);
    ArraysOverlapIff(p1, p2);
    if LocalesOverlap(l1, l2) {
      var i :| 0 <= i < |p1| && p1[i] in p2;
      var j :| 0 <= j < |p2| && p2[j] == p1[i];
      assert PrimarySubtag(l1[i]) == PrimarySubtag(l2[j]);
    }
    if exists i, j :: 0 <= i < |l1| && 0 <= j < |l2| && PrimarySubtag(l1[i]) == PrimarySubtag(l2[j]) {
      var i, j :| 0 <= i < |l1| && 0 <= j < |l2| && PrimarySubtag(l1[i]) == PrimarySubtag(l2[j]);
      assert p1[i] == p2[j];
      assert p1[i] in p2;
    }
  }

  /** The overlap test does not depend on the order of its arguments. */
  lemma LocalesOverlapSymmetric(l1: seq<string>, l2: seq<string>)
    ensures LocalesOverlap(l1, l2) == LocalesOverlap(l2, l1)
  {
    LocalesOverlapIff(l1, l2);
    LocalesOverlapIff(l2, l1);
  }

  /** The part of a directory entry the grouping looks at. */
  datatype PluginInfo = PluginInfo(name: string, preferredLocales: Option<seq<string>>)

  /** {"plugins": ..., "header": ..., "class": ...}; the first group has neither header nor class. */
  datatype Group = Group(plugins: seq<PluginInfo>, header: Option<string>, cssClass: Option<string>)

  const OtherRegionsHeader: string := "Plugins for other regions"
  const OtherRegionsClass: string := "other_locales"

  /** The plugin names preferred locales and none of them shares a language with the request. */
  predicate ForOtherRegions(p: PluginInfo, languages: seq<string>)
  {
    p.preferredLocales.Some? && !LocalesOverlap(p.preferredLocales.value, languages)
  }

  function OtherRegionPlugins(plugins: seq<PluginInfo>, languages: seq<string>): seq<PluginInfo>
  {
    Filter((p: PluginInfo) => ForOtherRegions(p, languages), plugins)
  }

  function OtherRegionNames(plugins: seq<PluginInfo>, languages: seq<string>): set<string>
  {
    set p | p in OtherRegionPlugins(plugins, languages) :: p.name
  }

  /** The plugins whose name is not the name of an other-regions plugin. */
  function NativePlugins(plugins: seq<PluginInfo>, languages: seq<string>): seq<PluginInfo>
  {
    var names := OtherRegionNames(plugins, languages);
    Filter((p: PluginInfo) => p.name !in names, plugins)
  }

  predicate HasPlugins(g: Group)
  {
    |g.plugins| > 0
  }

  function NonEmptyGroups(groups: seq<Group>): seq<Group>
  {
    Filter(HasPlugins, groups)
  }

  /** group_plugins. */
  function GroupPlugins(plugins: seq<PluginInfo>, languages: seq<string>, languagesWereSpecified: bool): seq<Group>
  {
    if languagesWereSpecified then
      NonEmptyGroups([Group(NativePlugins(plugins, languages), None, None),
                      Group(OtherRegionPlugins(plugins, languages), Some(OtherRegionsHeader), Some(OtherRegionsClass))])
    else
      NonEmptyGroups([Group(plugins, None, None)])
  }

  lemma NonEmptyGroupsOfTwo(a: Group, b: Group)
    ensures NonEmptyGroups([a, b]) ==
            (if |a.plugins| > 0 then [a] else []) + (if |b.plugins| > 0 then [b] else [])
  {
    assert [a, b][1..] == [b];
    assert [b][1..] == [];
    assert Filter(HasPlugins, [b]) == if HasPlugins(b) then [b] + Filter(HasPlugins, [b][1..]) else Filter(HasPlugins, [b][1..]);
    assert Filter(HasPlugins, [b]) == if HasPlugins(b) then [b] else [];
  }

  /** Without explicit languages, all plugins form one unlabelled group in their order, or none if there are none. */
  lemma GroupingUnspecified(plugins: seq<PluginInfo>, languages: seq<string>)
    ensures GroupPlugins(plugins, languages, false) == (if plugins == [] then [] else [Group(plugins, None, None)])
  {
    assert [Group(plugins, None, None)][1..] == [];
  }

  /**
   * With explicit languages there are at most two groups, none of them empty,
   * each keeping the input order; the unlabelled group comes first.
   */
  lemma GroupingSpecifiedShape(plugins: seq<PluginInfo>, languages: seq<string>)
    ensures var r := GroupPlugins(plugins, languages, true);
      && |r| <= 2
      && (forall k :: 0 <= k < |r| ==> |r[k].plugins| > 0 && IsSubsequence(r[k].plugins, plugins))
      && (forall k :: 0 <= k < |r| ==> (r[k].header.None? <==> r[k].plugins == NativePlugins(plugins, languages)))
      && (forall k :: 0 <= k < |r| && r[k].header.Some? ==>
            r[k] == Group(OtherRegionPlugins(plugins, languages), Some(OtherRegionsHeader), Some(OtherRegionsClass)))
      && (|r| == 2 ==> r[0].header.None? && r[1].header.Some?)
  {
    var native := Group(NativePlugins(plugins, languages), None, None);
    var other := Group(OtherRegionPlugins(plugins, languages), Some(OtherRegionsHeader), Some(OtherRegionsClass));
    NonEmptyGroupsOfTwo(native, other);
    if |other.plugins| > 0 {
      OtherRegionsNotNative(plugins, languages, other.plugins[0]);
    }
  }

  /**
   * With explicit languages the result is exactly the native group, then the
   * other-regions group, each present precisely when it has plugins.
   */
  lemma GroupingSpecifiedExact(plugins: seq<PluginInfo>, languages: seq<string>)
    ensures var native := NativePlugins(plugins, languages);
            var other := OtherRegionPlugins(plugins, languages);
            GroupPlugins(plugins, languages, true) ==
              (if |native| > 0 then [Group(native, None, None)] else []) +
              (if |other| > 0 then [Group(other, Some(OtherRegionsHeader), Some(OtherRegionsClass))] else [])
  {
    NonEmptyGroupsOfTwo(Group(NativePlugins(plugins, languages), None, None),
                        Group(OtherRegionPlugins(plugins, languages), Some(OtherRegionsHeader), Some(OtherRegionsClass)));
  }

  /** A plugin for other regions is never also listed among the native plugins. */
  lemma OtherRegionsNotNative(plugins: seq<PluginInfo>, languages: seq<string>, p: PluginInfo)
    requires p in OtherRegionPlugins(plugins, languages)
    ensures p !in NativePlugins(plugins, languages)
  {
    assert p.name in OtherRegionNames(plugins, languages);
  }

  /** The other-regions group holds exactly the plugins with preferred locales that miss every requested language. */
  lemma OtherRegionsGroupExact(plugins: seq<PluginInfo>, languages: seq<string>, g: Group)
    requires g in GroupPlugins(plugins, languages, true) && g.header.Some?
    ensures g.header == Some(OtherRegionsHeader) && g.cssClass == Some(OtherRegionsClass)
    ensures forall p :: p in g.plugins <==> p in plugins && ForOtherRegions(p, languages)
  {
    GroupingSpecifiedShape(plugins, languages);
    var other := OtherRegionPlugins(plugins, languages);
    forall p | p in plugins && ForOtherRegions(p, languages)
      ensures p in other
    {
      var i :| 0 <= i < |plugins| && plugins[i] == p;
    }
  }

  /** The other-regions list repeats a plugin for other regions as often as the input does, and lists no other plugin. */
  lemma OtherRegionsCount(plugins: seq<PluginInfo>, languages: seq<string>, p: PluginInfo)
    ensures multiset(OtherRegionPlugins(plugins, languages))[p] ==
            if ForOtherRegions(p, languages) then multiset(plugins)[p] else 0
  {
    FilterCount((q: PluginInfo) => ForOtherRegions(q, languages), plugins, p);
  }

  /** The native list repeats a plugin whose name no plugin for other regions has as often as the input does, and lists no other plugin. */
  lemma NativeCount(plugins: seq<PluginInfo>, languages: seq<string>, p: PluginInfo)
    ensures multiset(NativePlugins(plugins, languages))[p] ==
            if p.name !in OtherRegionNames(plugins, languages) then multiset(plugins)[p] else 0
  {
    var names := OtherRegionNames(plugins, languages);
    FilterCount((q: PluginInfo) => q.name !in names, plugins, p);
  }

  /** The other-regions group exists exactly when some plugin is for other regions. */
  lemma OtherRegionsGroupPresent(plugins: seq<PluginInfo>, languages: seq<string>)
    ensures (exists g :: g in GroupPlugins(plugins, languages, true) && g.header.Some?) <==>
            (exists p :: p in plugins && ForOtherRegions(p, languages))
  {
    var native := Group(NativePlugins(plugins, languages), None, None);
    var other := Group(OtherRegionPlugins(plugins, languages), Some(OtherRegionsHeader), Some(OtherRegionsClass));
    NonEmptyGroupsOfTwo(native, other);
    if exists p :: p in plugins && ForOtherRegions(p, languages) {
      var p :| p in plugins && ForOtherRegions(p, languages);
      var i :| 0 <= i < |plugins| && plugins[i] == p;
      assert p in other.plugins;
      assert other in GroupPlugins(plugins, languages, true);
    }
  }

  /** A plugin that names no preferred locales is never put in the other-regions group. */
  lemma NoLocalesNeverOtherRegions(plugins: seq<PluginInfo>, languages: seq<string>, p: PluginInfo, g: Group)
    requires p.preferredLocales.None?
    requires g in GroupPlugins(plugins, languages, true) && g.header.Some?
    ensures p !in g.plugins
  {
    OtherRegionsGroupExact(plugins, languages, g);
  }

  predicate UniqueNames(plugins: seq<PluginInfo>)
  {
    forall i, j :: 0 <= i < j < |plugins| ==> plugins[i].name != plugins[j].name
  }

  /**
   * When plugin names are unique, the native list holds exactly the plugins
   * that are not for other regions: every plugin lands in exactly one list.
   */
  lemma NativePluginsExact(plugins: seq<PluginInfo>, languages: seq<string>)
    requires UniqueNames(plugins)
    ensures forall p :: p in NativePlugins(plugins, languages) <==> p in plugins && !ForOtherRegions(p, languages)
  {
    var names := OtherRegionNames(plugins, languages);
    var other := OtherRegionPlugins(plugins, languages);
    var native := NativePlugins(plugins, languages);
    forall p | p in native
      ensures p in plugins && !ForOtherRegions(p, languages)
    {
      var k :| 0 <= k < |native| && native[k] == p;
      var i :| 0 <= i < |plugins| && plugins[i] == p;
      assert ForOtherRegions(p, languages) ==> p in other;
      assert p in other ==> p.name in names;
    }
    forall p | p in plugins && !ForOtherRegions(p, languages)
      ensures p in native
    {
      var i :| 0 <= i < |plugins| && plugins[i] == p;
      forall q | q in other
        ensures q.name != p.name
      {
        var k :| 0 <= k < |other| && other[k] == q;
        var j :| 0 <= j < |plugins| && plugins[j] == q;
        assert ForOtherRegions(q, languages);
        assert i != j;
      }
      assert p.name !in names;
    }
  }

  /** When plugin names are unique, the unlabelled group, if shown, holds exactly the plugins that are not for other regions. */
  lemma NativeGroupExact(plugins: seq<PluginInfo>, languages: seq<string>, g: Group)
    requires UniqueNames(plugins)
    requires g in GroupPlugins(plugins, languages, true) && g.header.None?
    ensures forall p :: p in g.plugins <==> p in plugins && !ForOtherRegions(p, languages)
  {
    GroupingSpecifiedShape(plugins, languages);
    NativePluginsExact(plugins, languages);
  }

  /** When plugin names are unique, a plugin that is not for other regions is shown in the unlabelled group. */
  lemma NativeGroupShown(plugins: seq<PluginInfo>, languages: seq<string>, p: PluginInfo)
    requires UniqueNames(plugins)
    requires p in plugins && !ForOtherRegions(p, languages)
    ensures exists g :: g in GroupPlugins(plugins, languages, true) && g.header.None? && p in g.plugins
  {
    NativePluginsExact(plugins, languages);
    GroupingSpecifiedExact(plugins, languages);
    var g := Group(NativePlugins(plugins, languages), None, None);
    assert g in GroupPlugins(plugins, languages, true);
  }

  /**
   * Names, not entries, decide the split: a plugin without preferred locales
   * that shares its name with an other-regions plugin appears in no group.
   */
  lemma SharedNameDropsPlugin()
    ensures var a := PluginInfo("x", None);
            var b := PluginInfo("x", Some(["ja"]));
            GroupPlugins([a, b], ["fr"], true) == [Group([b], Some(OtherRegionsHeader), Some(OtherRegionsClass))]
  {
    var a := PluginInfo("x", None);
    var b := PluginInfo("x", Some(["ja"]));
    assert PrimarySubtag("ja") == "ja" by { assert Split("ja", '-') == ["ja"] by { SplitFree("ja", '-'); } }
    assert PrimarySubtag("fr") == "fr" by { assert Split("fr", '-') == ["fr"] by { SplitFree("fr", '-'); } }
    LocalesOverlapIff(["ja"], ["fr"]);
    assert ForOtherRegions(b, ["fr"]);
    assert !ForOtherRegions(a, ["fr"]);
    assert [a, b][1..] == [b] && [b][1..] == [];
    var f := (p: PluginInfo) => ForOtherRegions(p, ["fr"]);
    assert Filter(f, [b]) == [b];
    assert Filter(f, [a, b]) == [b];
    assert OtherRegionPlugins([a, b], ["fr"]) == [b];
    assert OtherRegionNames([a, b], ["fr"]) == {"x"};
    assert NativePlugins([a, b], ["fr"]) == [];
    NonEmptyGroupsOfTwo(Group([], None, None), Group([b], Some(OtherRegionsHeader), Some(OtherRegionsClass)));
  }

  /** The directory's `languages` parameter: its comma-separated tags with "en" appended, or None when it is empty. */
  function ParseLanguages(param: string): Option<seq<string>>
  {
    if param == "" then None else Some(Split(param, ',') + ["en"])
  }

  /**
   * A non-empty parameter yields its pieces, in order and without commas, then
   * "en"; joining the pieces gives the parameter back. An empty one yields None.
   */
  lemma ParseLanguagesShape(param: string)
    ensures ParseLanguages(param).None? <==> param == ""
    ensures ParseLanguages(param).Some? ==>
      var tags := ParseLanguages(param).value;
      && |tags| == Count(param, ',') + 2
      && tags[|tags| - 1] == "en"
      && (forall i :: 0 <= i < |tags| ==> ',' !in tags[i])
      && Join(tags[..|tags| - 1], ',') == param
  {
    if param != "" {
      var tags := ParseLanguages(param).value;
      assert tags[..|tags| - 1] == Split(param, ',');
      JoinSplit(param, ',');
    }
  }

  /** Tags without commas, joined into a non-empty parameter, are parsed back in order with "en" appended. */
  lemma ParseJoinedLanguages(tags: seq<string>)
    requires |tags| >= 1 && forall i :: 0 <= i < |tags| ==> ',' !in tags[i]
    requires Join(tags, ',') != ""
    ensures ParseLanguages(Join(tags, ',')) == Some(tags + ["en"])
  {
    SplitJoin(tags, ',');
  }

  /** directory_html's defaulting: no parameter means ["en"] and languages not specified. */
  function DirectoryLanguages(parsed: Option<seq<string>>): (seq<string>, bool)
  {
    match parsed
    case None => (["en"], false)
    case Some(tags) => (tags, true)
  }

  /** The groups a directory request shows for a given `languages` parameter. */
  function DirectoryGroups(plugins: seq<PluginInfo>, param: string): seq<Group>
  {
    var (languages, specified) := DirectoryLanguages(ParseLanguages(param));
    GroupPlugins(plugins, languages, specified)
  }

  /** Because "en" is always appended, a plugin preferring any English locale is never sent to other regions. */
  lemma EnglishNeverOtherRegions(plugins: seq<PluginInfo>, param: string, p: PluginInfo, g: Group)
    requires p.preferredLocales.Some?
    requires exists i :: 0 <= i < |p.preferredLocales.value| && PrimarySubtag(p.preferredLocales.value[i]) == "en"
    requires g in DirectoryGroups(plugins, param) && g.header.Some?
    ensures p !in g.plugins
  {
    var (languages, specified) := DirectoryLanguages(ParseLanguages(param));
    if specified {
      var locales := p.preferredLocales.value;
      var i :| 0 <= i < |locales| && PrimarySubtag(locales[i]) == "en";
      assert languages[|languages| - 1] == "en";
      assert PrimarySubtag("en") == "en" by { assert Split("en", '-') == ["en"] by { SplitFree("en", '-'); } }
      LocalesOverlapIff(locales, languages);
      assert !ForOtherRegions(p, languages);
      OtherRegionsGroupExact(plugins, languages, g);
    } else {
      GroupingUnspecified(plugins, languages);
    }
  }

  /** Without a `languages` parameter the directory shows every plugin in one unlabelled group. */
  lemma DirectoryWithoutLanguages(plugins: seq<PluginInfo>)
    ensures DirectoryGroups(plugins, "") == (if plugins == [] then [] else [Group(plugins, None, None)])
  {
    GroupingUnspecified(plugins, ["en"]);
  }
}
