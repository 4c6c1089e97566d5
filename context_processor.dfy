/**
 * The `current_language` template context processor
 * (apps/translation/context_processors.py): the current language, its name,
 * the visible languages, and the request path with its language prefix taken
 * off, which the templates use to build links to the same page in another
 * language.
 */
module ContextProcessor {
  import opened Strings
  import TranslationConf

  predicate IsSlash(c: char) {
    c == '/'
  }

  /** The path without its `/<lang>` prefix, before the query is added. */
  function PathWithoutLang(codes: seq<string>, path: string): (r: string)
    ensures var parts := Split(Trim(path, IsSlash), '/');
      parts[0] in codes ==> r == "/" + Join('/', parts[1..])
    ensures var parts := Split(Trim(path, IsSlash), '/');
      parts[0] !in codes ==> r == (if path == "" then "/" else path)
  {
    var parts := Split(Trim(path, IsSlash), '/');
    if parts[0] in codes then "/" + Join('/', parts[1..])
    else if path == "" then "/" else path
  }

  /** `current_path_without_lang`: the trimmed path, with "?" and the query string when there is one. */
  function CurrentPathWithoutLang(codes: seq<string>, path: string, queryString: string): (r: string)
    ensures queryString == "" ==> r == PathWithoutLang(codes, path)
    ensures queryString != "" ==> r == PathWithoutLang(codes, path) + "?" + queryString
  {
    var trimmed := PathWithoutLang(codes, path);
    if queryString != "" then trimmed + "?" + queryString else trimmed
  }

  /** The dictionary the processor returns. */
  datatype LanguageContext = LanguageContext(
    currentLangCode: string,
    currentLangName: string,
    currentPathWithoutLang: string,
    showLanguagesExtended: seq<TranslationConf.VisibleLanguage>)

  /** `current_language`, for the active language `langCode`. */
  function CurrentLanguage(langs: seq<TranslationConf.LanguageEntry>, langCode: string, path: string, queryString: string)
    : (ctx: LanguageContext)
    ensures ctx.currentLangCode == langCode
    ensures langCode in TranslationConf.SupportedCodes(langs) ==>
      ctx.currentLangName == langs[TranslationConf.FindLanguage(langs, langCode)].name
    ensures langCode !in TranslationConf.SupportedCodes(langs) ==> ctx.currentLangName == langCode
    ensures ctx.showLanguagesExtended == TranslationConf.VisibleLanguages(langs)
    ensures ctx.currentPathWithoutLang == CurrentPathWithoutLang(TranslationConf.SupportedCodes(langs), path, queryString)
  {
    LanguageContext(
      langCode,
      TranslationConf.LanguageName(langs, langCode),
      CurrentPathWithoutLang(TranslationConf.SupportedCodes(langs), path, queryString),
      TranslationConf.VisibleLanguages(langs))
  }

  /** Stripping a string that starts with one slash and has no slash at either end of the rest leaves the rest. */
  lemma StripLeadingSlash(t: string)
    requires t != [] && !IsSlash(t[0]) && !IsSlash(t[|t| - 1])
    ensures Trim(['/'] + t, IsSlash) == t
  {
    assert (['/'] + t)[1..] == t;
    assert TrimStart(['/'] + t, IsSlash) == TrimStart(t, IsSlash);
    TrimUnchanged(t, IsSlash);
  }

  /** Stripping one slash at each end of a string with no slash at its own ends leaves that string. */
  lemma StripBothSlashes(t: string)
    requires t != [] && !IsSlash(t[0]) && !IsSlash(t[|t| - 1])
    ensures Trim("/" + t + "/", IsSlash) == t
  {
    var s := "/" + t + "/";
    assert s[1..] == t + "/";
    assert TrimStart(s, IsSlash) == TrimStart(t + "/", IsSlash);
    assert (t + "/")[0] == t[0];
    assert TrimStart(t + "/", IsSlash) == t + "/";
    assert (t + "/")[..|t|] == t;
    assert TrimEnd(t + "/", IsSlash) == TrimEnd(t, IsSlash);
    TrimUnchanged(t, IsSlash);
  }

  /** Reading `PathWithoutLang` off a path whose stripped form splits into a known language and segments. */
  lemma TakeOffKnownSplit(codes: seq<string>, path: string, parts: seq<string>)
    requires |parts| >= 1 && parts[0] in codes
    requires Split(Trim(path, IsSlash), '/') == parts
    ensures PathWithoutLang(codes, path) == "/" + Join('/', parts[1..])
  {
  }

  /** The path under "/<lang>/" with no page segments trims to "/". */
  lemma RootPrefixIsTakenOff(codes: seq<string>, lang: string)
    requires lang in codes && lang != "" && '/' !in lang
    ensures PathWithoutLang(codes, "/" + lang + "/") == "/"
  {
    assert lang[0] in lang && lang[|lang| - 1] in lang;
    StripBothSlashes(lang);
    SplitJoin([lang], '/');
    TakeOffKnownSplit(codes, "/" + lang + "/", [lang]);
    assert [lang][1..] == [];
  }

  /** "/" + lang + "/" + page, read as the slash and the join of lang with the page segments. */
  lemma PrefixedPathShape(lang: string, segments: seq<string>)
    requires |segments| >= 1
    ensures "/" + lang + "/" + Join('/', segments) == ['/'] + Join('/', [lang] + segments)
  {
    JoinCons('/', lang, segments);
    LeadingSlash(lang, Join('/', segments), Join('/', [lang] + segments));
  }

  /** Re-bracketing "/" + lang + "/" + page as a slash before a joined string. */
  lemma LeadingSlash(lang: string, page: string, joined: string)
    requires joined == lang + ['/'] + page
    ensures "/" + lang + "/" + page == ['/'] + joined
  {
  }

  /**
   * Taking the prefix off undoes adding it: for a page path made of non-empty
   * segments, the path under "/<lang>" trims back to the page path.
   */
  lemma {:induction false} PrefixIsTakenOff(codes: seq<string>, lang: string, segments: seq<string>)
    requires lang in codes && lang != "" && '/' !in lang
    requires forall k :: 0 <= k < |segments| ==> segments[k] != "" && '/' !in segments[k]
    ensures PathWithoutLang(codes, "/" + lang + "/" + Join('/', segments)) == "/" + Join('/', segments)
  {
    if segments == [] {
      assert "/" + lang + "/" + Join('/', segments) == "/" + lang + "/";
      RootPrefixIsTakenOff(codes, lang);
    } else {
      var parts := [lang] + segments;
      forall k | 0 <= k < |parts|
        ensures '/' !in parts[k]
      {
        if k >= 1 { assert parts[k] == segments[k - 1]; }
      }
      PrefixedPathShape(lang, segments);
      var t := Join('/', parts);
      var page := Join('/', segments);
      assert t == lang + "/" + page by {
        assert parts[1..] == segments;
      }
      LastSegmentEndsJoin(segments);
      assert t[|t| - 1] == page[|page| - 1];
      assert lang[0] in lang;
      StripLeadingSlash(t);
      SplitJoin(parts, '/');
      TakeOffKnownSplit(codes, ['/'] + t, parts);
      assert parts[1..] == segments;
    }
  }

  /** A join of non-empty slash-free segments ends with a character other than '/'. */
  lemma {:induction false} LastSegmentEndsJoin(segments: seq<string>)
    requires |segments| >= 1
    requires forall k :: 0 <= k < |segments| ==> segments[k] != "" && '/' !in segments[k]
    ensures var page := Join('/', segments); page != "" && page[|page| - 1] != '/'
    decreases |segments|
  {
    if |segments| == 1 {
      assert segments[0][|segments[0]| - 1] in segments[0];
    } else {
      var rest := segments[1..];
      forall k | 0 <= k < |rest|
        ensures rest[k] != "" && '/' !in rest[k]
      {
        assert rest[k] == segments[k + 1];
      }
      LastSegmentEndsJoin(rest);
    }
  }

  /** "/" + lang + "/" + page + "/", read as the join of lang with the page segments between two slashes. */
  lemma TrailingPathShape(lang: string, segments: seq<string>)
    requires |segments| >= 1
    ensures "/" + lang + "/" + Join('/', segments) + "/" == "/" + Join('/', [lang] + segments) + "/"
  {
    JoinCons('/', lang, segments);
    Regroup(lang, Join('/', segments), Join('/', [lang] + segments));
  }

  /** Re-bracketing "/" + lang + "/" + page + "/" around a joined middle. */
  lemma Regroup(lang: string, page: string, joined: string)
    requires joined == lang + ['/'] + page
    ensures "/" + lang + "/" + page + "/" == "/" + joined + "/"
  {
  }

  /** A trailing slash is dropped with the prefix: "/<lang>/<page>/" trims to "/<page>". */
  lemma {:induction false} TrailingSlashIsDropped(codes: seq<string>, lang: string, segments: seq<string>)
    requires lang in codes && lang != "" && '/' !in lang
    requires |segments| >= 1
    requires forall k :: 0 <= k < |segments| ==> segments[k] != "" && '/' !in segments[k]
    ensures PathWithoutLang(codes, "/" + lang + "/" + Join('/', segments) + "/") == "/" + Join('/', segments)
  {
    var parts := [lang] + segments;
    assert parts[1..] == segments;
    forall k | 0 <= k < |parts|
      ensures '/' !in parts[k]
    {
      if k >= 1 { assert parts[k] == segments[k - 1]; }
    }
    var t := Join('/', parts);
    var page := Join('/', segments);
    assert t == lang + "/" + page;
    LastSegmentEndsJoin(segments);
    assert t[|t| - 1] == page[|page| - 1];
    assert lang[0] in lang;
    TrailingPathShape(lang, segments);
    var path := "/" + t + "/";
    assert Split(Trim(path, IsSlash), '/') == parts by {
      StripBothSlashes(t);
      SplitJoin(parts, '/');
    }
    TakeOffKnownSplit(codes, path, parts);
  }

  /** A path with no language prefix is kept as it is; an empty path becomes "/". */
  lemma UnprefixedPathKept(codes: seq<string>, path: string)
    requires Split(Trim(path, IsSlash), '/')[0] !in codes
    ensures PathWithoutLang(codes, path) == (if path == "" then "/" else path)
  {
  }
}
