/**
 * The URL language-prefix routing of `CustomLocaleMiddleware`
 * (apps/translation/middleware.py): a path whose first segment is a supported
 * code is served with that language and without the prefix; any other path
 * outside the excluded prefixes is redirected to the same path under the
 * session's (or the startup) language.
 *
 * The request's query is its url-encoded form, empty when there is no query.
 */
module LocaleMiddleware {
  import opened Wrappers
  import opened Strings

  /** The middleware's settings, fixed when it is constructed. */
  datatype Settings = Settings(supportedCodes: set<string>, excludedPrefixes: seq<string>, startup: string)

  /** The shipped settings. */
  const Shipped: Settings := Settings({"ru", "en", "kk"}, ["/api", "/dj-admin"], "ru")

  datatype Outcome =
    /** `HttpResponseRedirect` to the location. */
    | Redirect(location: string)
    /** The request goes on downstream with this language, `path_info` and session value. */
    | Serve(lang: string, pathInfo: string, session: Option<string>)

  /** `CustomLocaleMiddleware.__call__`, up to the downstream call. */
  function Route(cfg: Settings, path: string, query: string, session: Option<string>): (o: Outcome)
    ensures o.Serve? && cfg.startup in cfg.supportedCodes ==> o.lang in cfg.supportedCodes
  {
    var parts := Split(path, '/');
    if |parts| > 1 && parts[1] in cfg.supportedCodes then
      Serve(parts[1], "/" + Join('/', parts[2..]), Some(parts[1]))
    else
      var lang := session.GetOr(cfg.startup);
      if !StartsWithAny(path, cfg.excludedPrefixes) then
        Redirect("/" + lang + path + (if query == "" then "" else "?" + query))
      else
        Serve(if lang in cfg.supportedCodes then lang else cfg.startup, path, session)
  }

  /** A path under a supported prefix is served in that language, without the prefix, and the session remembers it. */
  lemma PrefixedPathIsServed(cfg: Settings, lang: string, rest: seq<string>, query: string, session: Option<string>)
    requires lang in cfg.supportedCodes
    requires '/' !in lang && forall k :: 0 <= k < |rest| ==> '/' !in rest[k]
    ensures Route(cfg, Join('/', ["", lang] + rest), query, session)
         == Serve(lang, "/" + Join('/', rest), Some(lang))
  {
    var parts := ["", lang] + rest;
    forall k | 0 <= k < |parts|
      ensures '/' !in parts[k]
    {
      if k >= 2 { assert parts[k] == rest[k - 2]; }
    }
    SplitJoin(parts, '/');
    var path := Join('/', parts);
    assert Split(path, '/') == parts;
    assert parts[1] == lang && parts[2..] == rest;
  }

  /** Outside the excluded prefixes a path without a language prefix is redirected under the remembered language. */
  lemma UnprefixedPathIsRedirected(cfg: Settings, path: string, query: string, session: Option<string>)
    requires var parts := Split(path, '/'); !(|parts| > 1 && parts[1] in cfg.supportedCodes)
    requires !StartsWithAny(path, cfg.excludedPrefixes)
    ensures Route(cfg, path, query, session).Redirect?
    ensures query == "" ==> Route(cfg, path, query, session).location == "/" + session.GetOr(cfg.startup) + path
    ensures query != "" ==> Route(cfg, path, query, session).location == "/" + session.GetOr(cfg.startup) + path + "?" + query
  {
  }

  /** A path under an excluded prefix is never redirected. */
  lemma ExcludedPathIsNotRedirected(cfg: Settings, path: string, query: string, session: Option<string>)
    requires StartsWithAny(path, cfg.excludedPrefixes)
    ensures Route(cfg, path, query, session).Serve?
  {
  }

  /** The exclusion is a plain prefix test: "/apix" is excluded as "/api" is. */
  lemma ApixIsExcluded()
    ensures Route(Shipped, "/apix", "", None) == Serve("ru", "/apix", None)
  {
    assert "/apix"[..4] == "/api";
    assert StartsWith("/apix", Shipped.excludedPrefixes[0]);
    SplitJoin(["", "apix"], '/');
    assert Join('/', ["", "apix"]) == "/apix";
  }

  /** A page path without a language prefix is redirected under the startup language. */
  lemma AboutIsRedirected()
    ensures Route(Shipped, "/about", "", None) == Redirect("/ru/about")
  {
    SplitJoin(["", "about"], '/');
    assert Join('/', ["", "about"]) == "/about";
    forall p | p in Shipped.excludedPrefixes
      ensures !StartsWith("/about", p)
    {
      assert p == "/api" || p == "/dj-admin";
      assert "/about"[1] == 'a';
    }
  }

  /**
   * A redirect lands on a path that the middleware serves: the second request
   * gets the remembered language and the original path as `path_info`.
   */
  lemma {:induction false} RedirectIsServedNext(cfg: Settings, path: string, session: Option<string>)
    requires StartsWith(path, "/")
    requires var lang := session.GetOr(cfg.startup); lang in cfg.supportedCodes && '/' !in lang
    requires var parts := Split(path, '/'); !(|parts| > 1 && parts[1] in cfg.supportedCodes)
    requires !StartsWithAny(path, cfg.excludedPrefixes)
    ensures var lang := session.GetOr(cfg.startup);
            Route(cfg, path, "", session) == Redirect("/" + lang + path)
            && Route(cfg, "/" + lang + path, "", session) == Serve(lang, path, Some(lang))
  {
    var lang := session.GetOr(cfg.startup);
    var rest := Split(path[1..], '/');
    JoinSplit(path[1..], '/');
    assert path == "/" + Join('/', rest) by {
      assert path == [path[0]] + path[1..];
    }
    assert |rest| >= 1;
    assert Join('/', ["", lang] + rest) == "" + ['/'] + Join('/', [lang] + rest) by {
      assert (["", lang] + rest)[1..] == [lang] + rest;
    }
    assert Join('/', [lang] + rest) == lang + ['/'] + Join('/', rest) by {
      assert ([lang] + rest)[1..] == rest;
    }
    assert "/" + lang + path == Join('/', ["", lang] + rest);
    PrefixedPathIsServed(cfg, lang, rest, "", session);
  }
}
