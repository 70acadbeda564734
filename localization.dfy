/** Message lookup through the active catalog, then the fallback catalog,
    then the key itself; the choice of the active language; and the display
    names of the supported languages. */
module Localization {
  import opened Paths
  import opened JsonValues
  import opened Disk
  import opened Template

  /** DEFAULT_LANG: what an unsupported configured language becomes at start-up. */
  const DefaultLang := "pl_PL"
  /** FALLBACK_LANG: the catalog behind every lookup, and what set_language
      falls back to. */
  const FallbackLang := "en_US"
  /** available_languages, in order. */
  const AvailableLanguages: seq<string> := ["pl_PL", "en_US"]

  /** The two catalogs a lookup consults. */
  datatype Localizer = Localizer(active: Catalog, fallback: Catalog)

  /** A catalog entry that Python's `or` keeps: present and non-empty. */
  predicate Usable(c: Catalog, key: string)
  {
    key in c && c[key] != ""
  }

  /** The template `translations.get(key) or fallback.get(key) or key` picks. */
  function Lookup(loc: Localizer, key: string): (r: string)
    ensures Usable(loc.active, key) ==> r == loc.active[key]
    ensures r == key || (key in loc.active && r == loc.active[key]) || (key in loc.fallback && r == loc.fallback[key])
    ensures key != "" ==> r != ""
  {
    if Usable(loc.active, key) then loc.active[key]
    else if Usable(loc.fallback, key) then loc.fallback[key]
    else key
  }

  /** translate(key, **params): the filled template, or the template itself
      when filling it fails. */
  function Translate(loc: Localizer, key: string, params: map<string, string>): (r: string)
    ensures var t := ParseTemplate(Lookup(loc, key));
      t.Some? && FieldNames(t.value) <= params.Keys ==> Some(r) == Substitute(t.value, params)
    ensures var t := ParseTemplate(Lookup(loc, key));
      !(t.Some? && FieldNames(t.value) <= params.Keys) ==> r == Lookup(loc, key)
  {
    var template := Lookup(loc, key);
    var filled := Format(template, params);
    if filled.Some? then filled.value else template
  }

  /** An empty entry counts as missing: the lookup is the one the catalog
      would give without the key. */
  lemma EmptyEntryIsMissing(loc: Localizer, key: string)
    requires key in loc.active && loc.active[key] == ""
    ensures Lookup(loc, key) == Lookup(loc.(active := loc.active - {key}), key)
  {
  }

  /** Without a usable active entry the lookup is the fallback catalog's
      alone, as if it were the active one. */
  lemma LookupFallsBack(loc: Localizer, key: string)
    requires !Usable(loc.active, key)
    ensures Lookup(loc, key) == Lookup(Localizer(loc.fallback, map[]), key)
  {
  }

  /** A key found nowhere, and containing no braces, translates to itself. */
  lemma TranslateUnknownKey(loc: Localizer, key: string, params: map<string, string>)
    requires !Usable(loc.active, key) && !Usable(loc.fallback, key)
    requires '{' !in key && '}' !in key
    ensures Translate(loc, key, params) == key
  {
    PlainFormat(key, params);
  }

  /** The catalog entry wins over the fallback catalog: a brace-free active
      template comes back verbatim whatever the fallback holds. */
  lemma TranslateActiveFirst(loc: Localizer, key: string, params: map<string, string>)
    requires Usable(loc.active, key)
    requires '{' !in loc.active[key] && '}' !in loc.active[key]
    ensures Translate(loc, key, params) == loc.active[key]
  {
    PlainFormat(loc.active[key], params);
  }

  /** A template with one placeholder is filled when the parameter is given
      and returned unchanged when it is not. */
  lemma TranslatePlaceholder(loc: Localizer, key: string, pre: string, name: string, post: string, params: map<string, string>)
    requires Lookup(loc, key) == pre + "{" + name + "}" + post
    requires '{' !in pre && '}' !in pre && '{' !in post && '}' !in post
    requires GoodName(name)
    ensures name in params ==> Translate(loc, key, params) == pre + params[name] + post
    ensures name !in params ==> Translate(loc, key, params) == pre + "{" + name + "}" + post
  {
    OneField(pre, name, post, params);
  }

  /** set_language's first choice: the code itself if supported, else FALLBACK_LANG. */
  function Normalize(code: string): (r: string)
    ensures r in AvailableLanguages
    ensures r == code || r == FallbackLang
  {
    if code in AvailableLanguages then code else FallbackLang
  }

  /** The language set_language(code) leaves active: the requested code
      when it is supported and its catalog is non-empty, FALLBACK_LANG
      otherwise; FALLBACK_LANG itself is never replaced. */
  function ResolvedLanguage(fs: FileSystem, l: Layout, code: string): (r: string)
    ensures r in AvailableLanguages
    ensures r == code <==> (code in AvailableLanguages && LoadLanguageFile(fs, l, code) != map[]) || code == FallbackLang
    ensures r != code ==> r == FallbackLang
  {
    var n := Normalize(code);
    if LoadLanguageFile(fs, l, n) != map[] then n else FallbackLang
  }

  /** The codes whose catalog files set_language(code) reads, in order: the
      normalised code, then FALLBACK_LANG only if that catalog was empty.
      The last one read is the language that stays active. */
  function CatalogLoads(fs: FileSystem, l: Layout, code: string): (r: seq<string>)
    ensures 1 <= |r| <= 2
    ensures r[0] == Normalize(code)
    ensures |r| == 2 <==> LoadLanguageFile(fs, l, Normalize(code)) == map[]
    ensures |r| == 2 ==> r[1] == FallbackLang
    ensures r[|r| - 1] == ResolvedLanguage(fs, l, code)
  {
    var n := Normalize(code);
    if LoadLanguageFile(fs, l, n) != map[] then [n] else [n, FallbackLang]
  }

  /** The message key of a language's own name. */
  function DisplayKey(code: string): string
  {
    "settings.language." + code
  }

  /** The label shown for a language code. */
  function DisplayName(loc: Localizer, code: string): string
  {
    Translate(loc, DisplayKey(code), map[])
  }

  /** The labels of the given codes, in order. */
  function DisplayNames(loc: Localizer, codes: seq<string>): (r: seq<string>)
    ensures |r| == |codes|
  {
    if codes == [] then [] else DisplayNames(loc, codes[..|codes| - 1]) + [DisplayName(loc, codes[|codes| - 1])]
  }

  /** Each label is the translation of the code's own name key. */
  lemma {:induction false} DisplayNamesAt(loc: Localizer, codes: seq<string>, i: int)
    requires 0 <= i < |codes|
    ensures DisplayNames(loc, codes)[i] == DisplayName(loc, codes[i])
    decreases |codes|
  {
    if i < |codes| - 1 {
      DisplayNamesAt(loc, codes[..|codes| - 1], i);
    }
  }

  /** language_display_map after _refresh_language_maps has recorded each
      code with its label, in order. */
  function DisplayMapOf(codes: seq<string>, names: seq<string>): map<string, string>
    requires |names| == |codes|
  {
    if codes == [] then map[]
    else DisplayMapOf(codes[..|codes| - 1], names[..|names| - 1])[codes[|codes| - 1] := names[|names| - 1]]
  }

  /** language_display_lookup after _refresh_language_maps has mapped each
      label back to its code, in order. */
  function LookupOf(codes: seq<string>, names: seq<string>): map<string, string>
    requires |names| == |codes|
  {
    if codes == [] then map[]
    else LookupOf(codes[..|codes| - 1], names[..|names| - 1])[names[|names| - 1] := codes[|codes| - 1]]
  }

  /** Position i holds the last occurrence of its value in s. */
  ghost predicate IsLast(s: seq<string>, i: int)
  {
    0 <= i < |s| && forall k :: i < k < |s| ==> s[k] != s[i]
  }

  /** A display map holding exactly the codes, each with the label of its
      last occurrence. */
  ghost predicate DisplayMapFresh(codes: seq<string>, names: seq<string>, displayMap: map<string, string>)
  {
    && |names| == |codes|
    && (forall c :: c in displayMap <==> c in codes)
    && (forall i {:trigger IsLast(codes, i)} :: IsLast(codes, i) ==> codes[i] in displayMap && displayMap[codes[i]] == names[i])
  }

  /** A lookup holding exactly the labels, each mapped to the code of its
      last occurrence. */
  ghost predicate LookupFresh(codes: seq<string>, names: seq<string>, lookup: map<string, string>)
  {
    && |names| == |codes|
    && (forall d :: d in lookup ==> d in names)
    && (forall j {:trigger IsLast(names, j)} :: IsLast(names, j) ==> names[j] in lookup && lookup[names[j]] == codes[j])
  }

  /** Recording the codes in order yields the display map that keeps, for
      each code, the label recorded last. */
  lemma {:induction false} DisplayMapOfFresh(codes: seq<string>, names: seq<string>)
    requires |names| == |codes|
    ensures DisplayMapFresh(codes, names, DisplayMapOf(codes, names))
    decreases |codes|
  {
    if codes != [] {
      var p, q := codes[..|codes| - 1], names[..|names| - 1];
      DisplayMapOfFresh(p, q);
      DisplayMapStep(p, q, DisplayMapOf(p, q), codes[|codes| - 1], names[|names| - 1]);
      assert p + [codes[|codes| - 1]] == codes;
      assert q + [names[|names| - 1]] == names;
    }
  }

  /** Mapping the labels back in order yields the lookup that keeps, for each
      label, the code recorded last. */
  lemma {:induction false} LookupOfFresh(codes: seq<string>, names: seq<string>)
    requires |names| == |codes|
    ensures LookupFresh(codes, names, LookupOf(codes, names))
    decreases |codes|
  {
    if codes != [] {
      var p, q := codes[..|codes| - 1], names[..|names| - 1];
      LookupOfFresh(p, q);
      LookupStep(p, q, LookupOf(p, q), codes[|codes| - 1], names[|names| - 1]);
      assert p + [codes[|codes| - 1]] == codes;
      assert q + [names[|names| - 1]] == names;
    }
  }

  /** The display map holds exactly the supported codes, each shown with
      its own label. */
  lemma {:induction false} DisplayMapGives(loc: Localizer, codes: seq<string>, code: string)
    ensures code in DisplayMapOf(codes, DisplayNames(loc, codes)) <==> code in codes
    ensures code in codes ==> DisplayMapOf(codes, DisplayNames(loc, codes))[code] == DisplayName(loc, code)
    decreases |codes|
  {
    if codes != [] {
      var p := codes[..|codes| - 1];
      var names := DisplayNames(loc, codes);
      assert names[..|names| - 1] == DisplayNames(loc, p);
      DisplayMapGives(loc, p, code);
      assert codes == p + [codes[|codes| - 1]];
    }
  }

  /** The launcher's language state: the supported codes, an active one
      among them, and both display maps built from the catalogs in force. */
  ghost predicate LanguageState(codes: seq<string>, current: string, loc: Localizer,
                                displayMap: map<string, string>, lookup: map<string, string>)
  {
    && codes == AvailableLanguages
    && current in codes
    && displayMap == DisplayMapOf(codes, DisplayNames(loc, codes))
    && lookup == LookupOf(codes, DisplayNames(loc, codes))
  }

  /** The last position of x in s. */
  lemma LastOccurrence(s: seq<string>, x: string) returns (j: int)
    requires x in s
    ensures IsLast(s, j) && s[j] == x
  {
    j :| 0 <= j < |s| && s[j] == x;
    while exists k :: j < k < |s| && s[k] == x
      invariant 0 <= j < |s| && s[j] == x
      decreases |s| - j
    {
      var k :| j < k < |s| && s[k] == x;
      j := k;
    }
  }

  /** Without repeated values every position is the last of its value. */
  lemma DistinctIsLast(s: seq<string>, i: int)
    requires forall a, b :: 0 <= a < b < |s| ==> s[a] != s[b]
    requires 0 <= i < |s|
    ensures IsLast(s, i)
  {
  }

  /** With distinct codes and distinct labels the lookup inverts the display map. */
  lemma LookupInverts(codes: seq<string>, names: seq<string>, displayMap: map<string, string>, lookup: map<string, string>)
    requires DisplayMapFresh(codes, names, displayMap) && LookupFresh(codes, names, lookup)
    requires forall a, b :: 0 <= a < b < |codes| ==> codes[a] != codes[b]
    requires forall a, b :: 0 <= a < b < |names| ==> names[a] != names[b]
    ensures forall c :: c in displayMap ==> displayMap[c] in lookup && lookup[displayMap[c]] == c
    ensures forall d :: d in lookup ==> lookup[d] in displayMap && displayMap[lookup[d]] == d
  {
    forall c | c in displayMap
      ensures displayMap[c] in lookup && lookup[displayMap[c]] == c
    {
      var j := LastOccurrence(codes, c);
      DistinctIsLast(names, j);
    }
    forall d | d in lookup
      ensures lookup[d] in displayMap && displayMap[lookup[d]] == d
    {
      var j := LastOccurrence(names, d);
      DistinctIsLast(codes, j);
    }
  }

  /** Recording one more code keeps the display map in step with the codes,
      the new code taking the new label. */
  lemma DisplayMapStep(codes: seq<string>, names: seq<string>, displayMap: map<string, string>, c: string, n: string)
    requires DisplayMapFresh(codes, names, displayMap)
    ensures DisplayMapFresh(codes + [c], names + [n], displayMap[c := n])
  {
    var cs := codes + [c];
    var ns := names + [n];
    var m := displayMap[c := n];
    assert cs[|codes|] == c && ns[|names|] == n;
    forall x
      ensures x in m <==> x in cs
    {
      if x in codes {
        var i :| 0 <= i < |codes| && codes[i] == x;
        assert cs[i] == x;
      }
      if x in cs && x != c {
        var i :| 0 <= i < |cs| && cs[i] == x;
        assert codes[i] == x;
      }
    }
    forall i | IsLast(cs, i)
      ensures cs[i] in m && m[cs[i]] == ns[i]
    {
      if i < |codes| {
        assert cs[i] == codes[i] && ns[i] == names[i];
        assert codes[i] != c by { assert cs[|codes|] == c; }
        forall k | i < k < |codes|
          ensures codes[k] != codes[i]
        {
          assert cs[k] == codes[k];
        }
        assert IsLast(codes, i);
      }
    }
  }

  /** Recording one more code keeps the reverse lookup in step with the
      codes, the new code winning its label. */
  lemma LookupStep(codes: seq<string>, names: seq<string>, lookup: map<string, string>, c: string, n: string)
    requires LookupFresh(codes, names, lookup)
    ensures LookupFresh(codes + [c], names + [n], lookup[n := c])
  {
    var cs := codes + [c];
    var ns := names + [n];
    var m := lookup[n := c];
    forall x | x in m
      ensures x in ns
    {
      if x != n {
        var i :| 0 <= i < |names| && names[i] == x;
        assert ns[i] == x;
      } else {
        assert ns[|names|] == n;
      }
    }
    assert cs[|codes|] == c && ns[|names|] == n;
    forall j | IsLast(ns, j)
      ensures ns[j] in m && m[ns[j]] == cs[j]
    {
      if j < |names| {
        assert ns[j] == names[j] && cs[j] == codes[j];
        assert names[j] != n by { assert ns[|names|] == n; }
        forall k | j < k < |names|
          ensures names[k] != names[j]
        {
          assert ns[k] == names[k];
        }
        assert IsLast(names, j);
      }
    }
  }

  /** In the launcher's language state, with labels that differ from one
      another, choosing the label shown for a code selects that code, and
      every known label stands for the code it is shown for. */
  lemma LanguageMapsInvert(current: string, loc: Localizer, displayMap: map<string, string>, lookup: map<string, string>)
    requires LanguageState(AvailableLanguages, current, loc, displayMap, lookup)
    requires forall a, b :: 0 <= a < b < |AvailableLanguages| ==>
      DisplayNames(loc, AvailableLanguages)[a] != DisplayNames(loc, AvailableLanguages)[b]
    ensures forall c :: c in displayMap ==> displayMap[c] in lookup && lookup[displayMap[c]] == c
    ensures forall d :: d in lookup ==> lookup[d] in displayMap && displayMap[lookup[d]] == d
  {
    var names := DisplayNames(loc, AvailableLanguages);
    DisplayMapOfFresh(AvailableLanguages, names);
    LookupOfFresh(AvailableLanguages, names);
    LookupInverts(AvailableLanguages, names, displayMap, lookup);
  }
}
