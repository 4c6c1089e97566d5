/**
 * The language configuration of the translation subsystem
 * (apps/translation/_core/conf.py): the supported languages, the accessors the
 * rest of the subsystem reads them through, and the validator run at import.
 */
module TranslationConf {
  import opened Wrappers
  import opened Strings

  /**
   * One entry of `SUPPORTED_LANGUAGES`. `hasCode` says whether the entry has a "code"
   * key at all (`code` is then meaningless); a missing "name" is the empty string.
   */
  datatype LanguageEntry = LanguageEntry(code: string, hasCode: bool, name: string, visibleInUi: bool)

  datatype Config = Config(
    startup: string,
    reference: string,
    autoCopyReference: bool,
    excludedPrefixes: seq<string>,
    languages: seq<LanguageEntry>)

  /** `TRANSLATION_CACHE_TTL_SECONDS`. */
  const CacheTtlSeconds: int := 60 * 8

  /** The configuration as shipped. */
  const Shipped: Config := Config(
    "ru", "ru", true,
    ["/api", "/dj-admin"],
    [LanguageEntry("ru", true, "Русский", true),
     LanguageEntry("en", true, "English", true),
     LanguageEntry("kk", true, "Қазақша", true)])

  /** `get_supported_language_codes`: the codes, in declaration order. */
  function SupportedCodes(langs: seq<LanguageEntry>): (codes: seq<string>)
    ensures |codes| == |langs|
    ensures forall k :: 0 <= k < |langs| ==> codes[k] == langs[k].code
  {
    seq(|langs|, k requires 0 <= k < |langs| => langs[k].code)
  }

  datatype VisibleLanguage = VisibleLanguage(code: string, name: string)

  /** `get_visible_languages`: the entries flagged visible, in order, as code and name. */
  function VisibleLanguages(langs: seq<LanguageEntry>): (r: seq<VisibleLanguage>)
    ensures |r| <= |langs|
    ensures forall v :: v in r <==>
      exists k :: 0 <= k < |langs| && langs[k].visibleInUi && VisibleLanguage(langs[k].code, langs[k].name) == v
  {
    if langs == [] then []
    else
      var rest := VisibleLanguages(langs[1..]);
      assert forall k :: 1 <= k < |langs| ==> langs[k] == langs[1..][k - 1];
      assert forall k :: 0 <= k < |langs| - 1 ==> langs[1..][k] == langs[k + 1];
      if langs[0].visibleInUi then [VisibleLanguage(langs[0].code, langs[0].name)] + rest else rest
  }

  /** The positions, from `i` on, of the entries flagged visible, in increasing order. */
  function VisibleFrom(langs: seq<LanguageEntry>, i: nat): (idx: seq<nat>)
    requires i <= |langs|
    ensures forall m :: 0 <= m < |idx| ==> i <= idx[m] < |langs|
    ensures forall m, n :: 0 <= m < n < |idx| ==> idx[m] < idx[n]
    ensures forall k :: i <= k < |langs| ==> (k in idx <==> langs[k].visibleInUi)
    decreases |langs| - i
  {
    if i == |langs| then []
    else if langs[i].visibleInUi then [i] + VisibleFrom(langs, i + 1)
    else VisibleFrom(langs, i + 1)
  }

  /** `r` lists, position by position, the code and name of the entries at `idx`. */
  predicate ListsEntriesAt(r: seq<VisibleLanguage>, idx: seq<nat>, langs: seq<LanguageEntry>) {
    && |r| == |idx|
    && forall m :: 0 <= m < |r| ==>
         idx[m] < |langs| && r[m] == VisibleLanguage(langs[idx[m]].code, langs[idx[m]].name)
  }

  /**
   * The selector lists one item per visible entry, in declaration order: the m-th item
   * is the code and name of the m-th visible entry.
   */
  lemma {:induction false} VisibleLanguagesInOrder(langs: seq<LanguageEntry>, i: nat)
    requires i <= |langs|
    ensures ListsEntriesAt(VisibleLanguages(langs[i..]), VisibleFrom(langs, i), langs)
    decreases |langs| - i
  {
    if i < |langs| {
      var tail := langs[i..];
      assert tail[0] == langs[i];
      assert tail[1..] == langs[i + 1..];
      VisibleLanguagesInOrder(langs, i + 1);
      var rest, restIdx := VisibleLanguages(langs[i + 1..]), VisibleFrom(langs, i + 1);
      if langs[i].visibleInUi {
        assert VisibleLanguages(tail) == [VisibleLanguage(langs[i].code, langs[i].name)] + rest;
        assert VisibleFrom(langs, i) == [i] + restIdx;
        ListsEntriesAtCons(langs, i, rest, restIdx);
      } else {
        assert VisibleLanguages(tail) == rest;
        assert VisibleFrom(langs, i) == restIdx;
      }
    }
  }

  /** `get_visible_languages` in full: the visible entries, each once, in declaration order. */
  lemma VisibleSelector(langs: seq<LanguageEntry>)
    ensures ListsEntriesAt(VisibleLanguages(langs), VisibleFrom(langs, 0), langs)
  {
    assert langs[0..] == langs;
    VisibleLanguagesInOrder(langs, 0);
  }

  lemma ListsEntriesAtCons(langs: seq<LanguageEntry>, i: nat, rest: seq<VisibleLanguage>, restIdx: seq<nat>)
    requires i < |langs| && ListsEntriesAt(rest, restIdx, langs)
    ensures ListsEntriesAt([VisibleLanguage(langs[i].code, langs[i].name)] + rest, [i] + restIdx, langs)
  {
    var r := [VisibleLanguage(langs[i].code, langs[i].name)] + rest;
    var idx := [i] + restIdx;
    forall m | 1 <= m < |r|
      ensures idx[m] < |langs| && r[m] == VisibleLanguage(langs[idx[m]].code, langs[idx[m]].name)
    {
      assert r[m] == rest[m - 1] && idx[m] == restIdx[m - 1];
    }
  }

  /** The position of the first entry with the code, or |langs|. */
  function FindLanguage(langs: seq<LanguageEntry>, code: string): (i: nat)
    ensures i <= |langs|
    ensures i < |langs| ==> langs[i].code == code
    ensures forall k :: 0 <= k < i ==> langs[k].code != code
  {
    if langs == [] then 0 else if langs[0].code == code then 0 else 1 + FindLanguage(langs[1..], code)
  }

  /** `get_language_name`: the name of the first entry with the code, or the code itself. */
  function LanguageName(langs: seq<LanguageEntry>, code: string): (name: string)
    ensures code !in SupportedCodes(langs) ==> name == code
    ensures code in SupportedCodes(langs) ==> name == langs[FindLanguage(langs, code)].name
  {
    var i := FindLanguage(langs, code);
    if i < |langs| then langs[i].name else code
  }

  /** `get_language_dict`: code to name; with a repeated code the last entry wins. */
  function LanguageDict(langs: seq<LanguageEntry>): (d: map<string, string>)
    ensures d.Keys == set k | 0 <= k < |langs| :: langs[k].code
    ensures forall k :: (0 <= k < |langs| && (forall j :: k < j < |langs| ==> langs[j].code != langs[k].code)
                         ==> d[langs[k].code] == langs[k].name)
  {
    if langs == [] then map[]
    else
      var init := langs[..|langs| - 1];
      var last := langs[|langs| - 1];
      var d := LanguageDict(init);
      assert forall k :: 0 <= k < |init| ==> init[k] == langs[k];
      d[last.code := last.name]
  }

  /** `is_openai_enabled`: the key is not blank. */
  function IsOpenAiEnabled(openAiKey: string): bool {
    Trim(openAiKey, IsSpace) != ""
  }

  lemma OpenAiEnabledIff(openAiKey: string)
    ensures IsOpenAiEnabled(openAiKey) <==> exists i :: 0 <= i < |openAiKey| && !IsSpace(openAiKey[i])
  {
    TrimEmptyIff(openAiKey, IsSpace);
  }

  // ------------------------------------------------------------ validation

  ghost predicate DistinctCodes(langs: seq<LanguageEntry>) {
    forall i, j :: 0 <= i < j < |langs| ==> langs[i].code != langs[j].code
  }

  /** What `validate_translation_config` accepts. */
  ghost predicate WellFormed(cfg: Config) {
    && (forall k :: 0 <= k < |cfg.languages| ==> cfg.languages[k].hasCode)
    && cfg.startup in SupportedCodes(cfg.languages)
    && cfg.reference in SupportedCodes(cfg.languages)
    && (forall k :: 0 <= k < |cfg.languages| ==> cfg.languages[k].code != "" && cfg.languages[k].name != "")
    && DistinctCodes(cfg.languages)
    && (forall k :: 0 <= k < |cfg.excludedPrefixes| ==> StartsWith(cfg.excludedPrefixes[k], "/"))
  }

  /** What the validator raises: the KeyError of an entry without "code", or a `ValueError`. */
  datatype ConfigError =
    /** `lang["code"]` in `get_supported_language_codes` raises KeyError. */
    | CodeKeyMissing(entry: nat)
    | StartupUnsupported
    | ReferenceUnsupported
    | MissingCodeOrName(index: nat)
    | DuplicateCode(code: string)
    | BadExcludedPrefix(path: string)

  /** `validate_translation_config`: None when the configuration passes, else the first error found. */
  method Validate(cfg: Config) returns (err: Option<ConfigError>)
    ensures err.None? <==> WellFormed(cfg)
    ensures err.Some? && err.value.CodeKeyMissing? ==>
      && err.value.entry < |cfg.languages| && !cfg.languages[err.value.entry].hasCode
      && forall k :: 0 <= k < err.value.entry ==> cfg.languages[k].hasCode
    ensures err.Some? && !err.value.CodeKeyMissing? ==> forall k :: 0 <= k < |cfg.languages| ==> cfg.languages[k].hasCode
    ensures err == Some(StartupUnsupported) ==> cfg.startup !in SupportedCodes(cfg.languages)
    ensures err == Some(ReferenceUnsupported) ==> cfg.reference !in SupportedCodes(cfg.languages)
    ensures err.Some? && err.value.MissingCodeOrName? ==>
      err.value.index < |cfg.languages| && (cfg.languages[err.value.index].code == "" || cfg.languages[err.value.index].name == "")
    ensures err.Some? && err.value.DuplicateCode? ==>
      exists i, j :: 0 <= i < j < |cfg.languages| && cfg.languages[i].code == cfg.languages[j].code == err.value.code
    ensures err.Some? && err.value.BadExcludedPrefix? ==>
      err.value.path in cfg.excludedPrefixes && !StartsWith(err.value.path, "/")
  {
    var langs := cfg.languages;
    for i := 0 to |langs|
      invariant forall k :: 0 <= k < i ==> langs[k].hasCode
    {
      if !langs[i].hasCode {
        return Some(CodeKeyMissing(i));
      }
    }
    var codes := SupportedCodes(langs);
    if cfg.startup !in codes {
      return Some(StartupUnsupported);
    }
    if cfg.reference !in codes {
      return Some(ReferenceUnsupported);
    }
    var seen: set<string> := {};
    for i := 0 to |langs|
      invariant seen == set k | 0 <= k < i :: langs[k].code
      invariant forall k :: 0 <= k < i ==> langs[k].code != "" && langs[k].name != ""
      invariant DistinctCodes(langs[..i])
    {
      var code := langs[i].code;
      var name := langs[i].name;
      if code == "" || name == "" {
        return Some(MissingCodeOrName(i));
      }
      if code in seen {
        var k :| 0 <= k < i && langs[k].code == code;
        return Some(DuplicateCode(code));
      }
      seen := seen + {code};
      assert langs[..i + 1] == langs[..i] + [langs[i]];
    }
    assert langs[..|langs|] == langs;
    var prefixes := cfg.excludedPrefixes;
    for i := 0 to |prefixes|
      invariant forall k :: 0 <= k < i ==> StartsWith(prefixes[k], "/")
    {
      if !StartsWith(prefixes[i], "/") {
        return Some(BadExcludedPrefix(prefixes[i]));
      }
    }
    return None;
  }

  /** The shipped configuration passes its own validation. */
  lemma ShippedIsWellFormed()
    ensures WellFormed(Shipped)
    ensures SupportedCodes(Shipped.languages) == ["ru", "en", "kk"]
  {
    var codes := SupportedCodes(Shipped.languages);
    assert codes == ["ru", "en", "kk"];
    assert Shipped.startup == codes[0];
  }

  /** In a well-formed configuration the dictionary and the name lookup agree. */
  lemma LanguageDictAgreesWithName(langs: seq<LanguageEntry>, code: string)
    requires DistinctCodes(langs)
    requires code in SupportedCodes(langs)
    ensures code in LanguageDict(langs) && LanguageDict(langs)[code] == LanguageName(langs, code)
  {
    var i := FindLanguage(langs, code);
    assert langs[i].code == code;
  }

  /** Every shipped language is visible. */
  lemma ShippedAllVisible()
    ensures VisibleLanguages(Shipped.languages)
         == [VisibleLanguage("ru", "Русский"), VisibleLanguage("en", "English"), VisibleLanguage("kk", "Қазақша")]
  {
    var langs := Shipped.languages;
    assert langs[1..][1..][1..] == [];
  }
}
