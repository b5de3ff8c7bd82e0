/**
 * The localization resolver: a field of a plugin's info.json may come in
 * several variants, "displayName", "displayName_fr", "displayName_en-GB", ...
 * The resolver turns the requested locale tags into an ordered list of key
 * suffixes and returns the value of the first key that is present.
 */
module Localization {
  import opened Wrappers
  import opened Text
  import opened Seqs

  /** The suffix one locale tag contributes to a key: none for "en", "_" + tag otherwise. */
  function Suffix(lang: string): (s: string)
    ensures s == "" <==> lang == "en"
  {
    if lang == "en" then "" else "_" + lang
  }

  /** lang[:lang.rfind('-')]: the tag without its last "-" segment. */
  function CutLast(lang: string): (r: string)
    requires '-' in lang
    ensures |r| < |lang| && r == lang[..|r|] && lang[|r|] == '-'
    ensures forall j :: |r| < j < |lang| ==> lang[j] != '-'
    ensures Count(r, '-') + 1 == Count(lang, '-')
  {
    var k := RFind(lang, '-');
    CountBeforeLast(lang, '-');
    assert forall j :: k < j < |lang| ==> lang[j] == lang[k + 1..][j - k - 1];
    lang[..k]
  }

  /** The tags tried for one requested tag: the tag, then the tag without its last "-" segment, and so on. */
  function Candidates(lang: string): (c: seq<string>)
    ensures |c| >= 1 && c[0] == lang
    decreases |lang|
  {
    [lang] + if '-' in lang then Candidates(CutLast(lang)) else []
  }

  /** The tags tried for all requested tags, in request order. */
  function AllCandidates(languages: seq<string>): seq<string>
  {
    if languages == [] then []
    else AllCandidates(languages[..|languages| - 1]) + Candidates(languages[|languages| - 1])
  }

  function Suffixes(tags: seq<string>): (r: seq<string>)
    ensures |r| == |tags|
  {
    if tags == [] then [] else [Suffix(tags[0])] + Suffixes(tags[1..])
  }

  /** Everything language_suffixes yields: the suffixes of all candidate tags, then the empty suffix. */
  function SuffixSequence(languages: seq<string>): seq<string>
  {
    Suffixes(AllCandidates(languages)) + [""]
  }

  lemma {:induction false} SuffixesAppend(a: seq<string>, b: seq<string>)
    ensures Suffixes(a + b) == Suffixes(a) + Suffixes(b)
  {
    if a != [] {
      assert (a + b)[1..] == a[1..] + b;
      SuffixesAppend(a[1..], b);
    } else {
      assert a + b == b;
    }
  }

  lemma {:induction false} SuffixesAt(tags: seq<string>, i: nat)
    requires i < |tags|
    ensures Suffixes(tags)[i] == Suffix(tags[i])
  {
    if i > 0 {
      SuffixesAt(tags[1..], i - 1);
    }
  }

  /** The candidate after the first ones is a candidate of the cut tag. */
  lemma CandidatesTail(lang: string, i: nat)
    requires 0 < i < |Candidates(lang)|
    ensures '-' in lang && i - 1 < |Candidates(CutLast(lang))| && Candidates(lang)[i] == Candidates(CutLast(lang))[i - 1]
  {
  }

  /** The i-th candidate is a prefix of the tag. */
  lemma {:induction false} CandidateIsPrefix(lang: string, i: nat)
    requires i < |Candidates(lang)|
    ensures |Candidates(lang)[i]| <= |lang| && Candidates(lang)[i] == lang[..|Candidates(lang)[i]|]
    decreases |lang|
  {
    if i > 0 {
      var shorter := CutLast(lang);
      CandidatesTail(lang, i);
      CandidateIsPrefix(shorter, i - 1);
      var t := Candidates(shorter)[i - 1];
      assert shorter == lang[..|shorter|] && |t| <= |shorter|;
      assert lang[..|shorter|][..|t|] == lang[..|t|];
    }
  }

  /** The i-th candidate, after the first, is shorter than the one before it and was cut just before a "-". */
  lemma {:induction false} CandidateShrinks(lang: string, i: nat)
    requires 0 < i < |Candidates(lang)|
    ensures |Candidates(lang)[i]| < |Candidates(lang)[i - 1]| <= |lang| && lang[|Candidates(lang)[i]|] == '-'
    decreases |lang|
  {
    var shorter := CutLast(lang);
    CandidatesTail(lang, i);
    CandidateIsPrefix(lang, i - 1);
    if i > 1 {
      CandidatesTail(lang, i - 1);
      CandidateShrinks(shorter, i - 1);
      CandidateIsPrefix(shorter, i - 2);
      var t := Candidates(shorter)[i - 1];
      assert lang[|t|] == shorter[|t|];
    }
  }

  /** The last candidate has no "-" left. */
  lemma {:induction false} LastCandidateIsPrimary(lang: string)
    ensures var c := Candidates(lang); '-' !in c[|c| - 1]
    decreases |lang|
  {
    if '-' in lang {
      var shorter := CutLast(lang);
      LastCandidateIsPrimary(shorter);
      var rest := Candidates(shorter);
      assert Candidates(lang) == [lang] + rest;
    }
  }

  /** There is one candidate per "-" in the tag, plus the tag itself. */
  lemma {:induction false} CandidateCount(lang: string)
    ensures |Candidates(lang)| == Count(lang, '-') + 1
    decreases |lang|
  {
    if '-' in lang {
      CandidateCount(CutLast(lang));
    }
  }

  /** Every cut just before a "-" of the tag is one of its candidates. */
  lemma {:induction false} CutIsCandidate(lang: string, j: nat)
    requires j < |lang| && lang[j] == '-'
    ensures lang[..j] in Candidates(lang)
    decreases |lang|
  {
    var shorter := CutLast(lang);
    assert Candidates(lang) == [lang] + Candidates(shorter);
    if j < |shorter| {
      assert shorter[j] == lang[j];
      CutIsCandidate(shorter, j);
      assert shorter[..j] == lang[..j];
    } else {
      assert lang[..j] == shorter;
    }
  }

  /**
   * For a single requested tag the suffixes are those of its candidates, one
   * per candidate and none for "en", followed by the final empty suffix.
   */
  lemma {:induction false} OneTagSuffixes(lang: string)
    ensures SuffixSequence([lang]) == Suffixes(Candidates(lang)) + [""]
    ensures |SuffixSequence([lang])| == Count(lang, '-') + 2
    ensures forall i :: 0 <= i < |Candidates(lang)| ==>
              SuffixSequence([lang])[i] == (if Candidates(lang)[i] == "en" then "" else "_" + Candidates(lang)[i])
  {
    assert [lang][..0] == [];
    assert AllCandidates([lang]) == [] + Candidates(lang) == Candidates(lang);
    CandidateCount(lang);
    forall i | 0 <= i < |Candidates(lang)|
      ensures SuffixSequence([lang])[i] == Suffix(Candidates(lang)[i])
    {
      SuffixesAt(Candidates(lang), i);
    }
  }

  /** The requested tags' suffixes come in request order, and the empty suffix comes last. */
  lemma {:induction false} SuffixSequenceSplits(languages: seq<string>, k: nat)
    requires k <= |languages|
    ensures AllCandidates(languages) == AllCandidates(languages[..k]) + AllCandidates(languages[k..])
    ensures SuffixSequence(languages)[|SuffixSequence(languages)| - 1] == ""
    decreases |languages|
  {
    if k < |languages| {
      var n := |languages|;
      SuffixSequenceSplits(languages[..n - 1], k);
      assert languages[..n - 1][..k] == languages[..k];
      assert languages[k..][..|languages[k..]| - 1] == languages[..n - 1][k..];
      assert languages[k..][|languages[k..]| - 1] == languages[n - 1];
    } else {
      assert languages[k..] == [];
      assert languages[..k] == languages;
    }
  }

  /** One turn of the generator's inner loop on a tag with a "-": yield its suffix, go on with the cut tag. */
  lemma YieldAndCut(lang: string)
    requires '-' in lang
    ensures Suffixes(Candidates(lang)) == [Suffix(lang)] + Suffixes(Candidates(CutLast(lang)))
  {
    var rest := Candidates(CutLast(lang));
    assert Candidates(lang) == [lang] + rest;
    assert ([lang] + rest)[1..] == rest;
  }

  /** The last turn, on a tag without "-": yield its suffix and stop. */
  lemma YieldAndStop(lang: string)
    requires '-' !in lang
    ensures Suffixes(Candidates(lang)) == [Suffix(lang)]
  {
    assert Candidates(lang) == [lang];
  }

  /**
   * language_suffixes: for each tag, yield its suffix and cut its last "-"
   * segment until no "-" is left; finally yield the empty suffix.
   */
  method LanguageSuffixes(languages: seq<string>) returns (suffixes: seq<string>)
    ensures suffixes == SuffixSequence(languages)
  {
    suffixes := [];
    for i := 0 to |languages|
      invariant suffixes == Suffixes(AllCandidates(languages[..i]))
    {
      var lang := languages[i];
      NextLanguage(languages, i);
      while true
        invariant suffixes + Suffixes(Candidates(lang)) == Suffixes(AllCandidates(languages[..i + 1]))
        decreases |lang|
      {
        if '-' in lang {
          YieldAndCut(lang);
          suffixes := suffixes + [Suffix(lang)];
          lang := CutLast(lang);
        } else {
          YieldAndStop(lang);
          suffixes := suffixes + [Suffix(lang)];
          break;
        }
      }
    }
    assert languages[..|languages|] == languages;
    suffixes := suffixes + [""];
  }

  lemma NextLanguage(languages: seq<string>, i: nat)
    requires i < |languages|
    ensures Suffixes(AllCandidates(languages[..i + 1])) ==
            Suffixes(AllCandidates(languages[..i])) + Suffixes(Candidates(languages[i]))
  {
    assert languages[..i + 1][..i] == languages[..i];
    SuffixesAppend(AllCandidates(languages[..i]), Candidates(languages[i]));
  }

  /** The index of the first suffix s for which name + s is a key of dict. */
  function FirstPresent<V>(dict: map<string, V>, name: string, suffixes: seq<string>): (r: Option<nat>)
    ensures r.Some? ==> r.value < |suffixes| && name + suffixes[r.value] in dict
    ensures r.Some? ==> forall j :: 0 <= j < r.value ==> name + suffixes[j] !in dict
    ensures r.None? ==> forall j :: 0 <= j < |suffixes| ==> name + suffixes[j] !in dict
  {
    FirstWhere(suffixes, s => name + s in dict)
  }

  /** The value get_localized_key returns. */
  function Localize<V>(dict: map<string, V>, name: string, languages: seq<string>, default: V): V
  {
    var suffixes := SuffixSequence(languages);
    match FirstPresent(dict, name, suffixes)
    case Some(i) => dict[name + suffixes[i]]
    case None => default
  }

  /**
   * get_localized_key: try name + suffix for each suffix in order and return
   * the value of the first key present, or the default when none is.
   */
  method GetLocalizedKey<V>(dict: map<string, V>, name: string, languages: seq<string>, default: V) returns (r: V)
    ensures r == Localize(dict, name, languages, default)
  {
    var suffixes := LanguageSuffixes(languages);
    var i := 0;
    while i < |suffixes|
      invariant 0 <= i <= |suffixes|
      invariant forall j :: 0 <= j < i ==> name + suffixes[j] !in dict
    {
      var key := name + suffixes[i];
      if key in dict {
        return dict[key];
      }
      i := i + 1;
    }
    return default;
  }

  /**
   * First match wins, default as last resort: the result is the value of the
   * earliest candidate key present, and the default only when no candidate
   * key is present at all.
   */
  lemma LocalizeFirstMatch<V>(dict: map<string, V>, name: string, languages: seq<string>, default: V)
    ensures var s := SuffixSequence(languages);
      || (exists i :: 0 <= i < |s| && name + s[i] in dict
           && (forall j :: 0 <= j < i ==> name + s[j] !in dict)
           && Localize(dict, name, languages, default) == dict[name + s[i]])
      || ((forall j :: 0 <= j < |s| ==> name + s[j] !in dict)
           && Localize(dict, name, languages, default) == default)
  {
    var s := SuffixSequence(languages);
    match FirstPresent(dict, name, s)
    case Some(i) =>
      assert name + s[i] in dict;
    case None =>
  }

  /** When the bare key is present, some candidate key is found, so the default is never used. */
  lemma {:induction false} BareKeyWins<V>(dict: map<string, V>, name: string, languages: seq<string>, default: V)
    requires name in dict
    ensures FirstPresent(dict, name, SuffixSequence(languages)).Some?
    ensures Localize(dict, name, languages, default) in dict.Values
  {
    var s := SuffixSequence(languages);
    assert s[|s| - 1] == "";
    assert name + s[|s| - 1] == name;
  }

  /** "en-GB" followed by "fr" tries "_en-GB", then no suffix (for "en"), then "_fr", then no suffix. */
  lemma SuffixSequenceExample()
    ensures SuffixSequence(["en-GB", "fr"]) == ["_en-GB", "", "_fr", ""]
  {
    var tags := ["en-GB", "en", "fr"];
    AllCandidatesExample();
    SuffixExamples();
    assert Suffixes(tags[2..]) == [Suffix("fr")];
    assert Suffixes(tags[1..]) == [Suffix("en")] + Suffixes(tags[2..]);
    assert Suffixes(tags) == [Suffix("en-GB")] + Suffixes(tags[1..]);
    assert Suffixes(tags) == ["_en-GB", "", "_fr"];
    assert SuffixSequence(["en-GB", "fr"]) == Suffixes(tags) + [""];
  }

  /** The tags tried for ["en-GB", "fr"]. */
  lemma AllCandidatesExample()
    ensures AllCandidates(["en-GB", "fr"]) == ["en-GB", "en", "fr"]
  {
    var l := ["en-GB", "fr"];
    assert l[..1] == ["en-GB"] && l[1] == "fr";
    assert AllCandidates(l) == AllCandidates(["en-GB"]) + Candidates("fr");
    assert ["en-GB"][..0] == [];
    assert AllCandidates(["en-GB"]) == AllCandidates([]) + Candidates("en-GB");
    EnGBCandidates();
    assert Candidates("fr") == ["fr"];
  }

  /** The suffixes of the three tags: "en" alone maps to the bare key. */
  lemma SuffixExamples()
    ensures Suffix("en-GB") == "_en-GB" && Suffix("en") == "" && Suffix("fr") == "_fr"
  {
    assert "en-GB" != "en" by { assert |"en-GB"| == 5; }
    assert "fr" != "en" by { assert "fr"[0] != "en"[0]; }
  }

  /** The candidates of "en-GB": the tag itself, then "en". */
  lemma EnGBCandidates()
    ensures Candidates("en-GB") == ["en-GB", "en"]
  {
    var lang := "en-GB";
    assert lang[4] != '-' && lang[3] != '-' && lang[2] == '-';
    assert RFind(lang[..4], '-') == RFind(lang[..3], '-') == 2;
    assert RFind(lang, '-') == 2;
    assert CutLast(lang) == "en";
    assert '-' !in "en";
  }

  /** For "en-GB" then "fr", a "displayName_en-GB" key is preferred to the bare "displayName". */
  lemma LocalizeRegionalExample()
    ensures Localize(map["displayName_en-GB" := "X", "displayName" := "Y"], "displayName", ["en-GB", "fr"], "") == "X"
  {
    SuffixSequenceExample();
    var s := SuffixSequence(["en-GB", "fr"]);
    var dict := map["displayName_en-GB" := "X", "displayName" := "Y"];
    assert "displayName" + s[0] == "displayName_en-GB";
    assert FirstPresent(dict, "displayName", s) == Some(0);
  }

  /** Without a regional key, the bare key serves the "en" fallback of "en-GB". */
  lemma LocalizeBareExample()
    ensures Localize(map["displayName" := "Y"], "displayName", ["en-GB", "fr"], "") == "Y"
  {
    SuffixSequenceExample();
    var s := SuffixSequence(["en-GB", "fr"]);
    assert "displayName" + s[0] == "displayName_en-GB";
    assert "displayName" + s[1] == "displayName";
    assert "displayName" + s[0] !in map["displayName" := "Y"];
    assert FirstPresent(map["displayName" := "Y"], "displayName", s) == Some(1);
  }

  /** With no variant of the key, the default is returned. */
  lemma LocalizeDefaultExample()
    ensures Localize<string>(map[], "displayName", ["en-GB", "fr"], "") == ""
  {
    assert FirstPresent<string>(map[], "displayName", SuffixSequence(["en-GB", "fr"])) == None;
  }
}
