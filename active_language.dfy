/**
 * The active-language context of a request
 * (apps/translation/_core/active_language_context.py): one cell holding the
 * language code set for the current request, unset at first, with the startup
 * language as the fallback when it is read.
 */
module ActiveLanguage {
  import opened Wrappers
  import TranslationConf

  /** The `ValueError` raised for a code that is not supported. */
  datatype SetError = InvalidLanguageCode(code: string)

  class LanguageContext {
    /** The context variable; None until a language is set. */
    var current: Option<string>
    /** `_valid_codes`, taken from the configuration at import. */
    const validCodes: set<string>
    /** `DEFAULT_LANGUAGE_STARTUP`. */
    const fallback: string

    /** The fallback is supported (the configuration validator ensures it), and so is any set value. */
    ghost predicate Valid()
      reads this
    {
      && fallback in validCodes
      && (current.Some? ==> current.value in validCodes)
    }

    /** A fresh context for the shipped configuration. */
    constructor ()
      ensures Valid()
      ensures current == None
      ensures validCodes == {"ru", "en", "kk"} && fallback == "ru"
    {
      current := None;
      TranslationConf.ShippedIsWellFormed();
      var codes := TranslationConf.SupportedCodes(TranslationConf.Shipped.languages);
      validCodes := set c | c in codes;
      fallback := TranslationConf.Shipped.startup;
    }

    /** `set_language`: an unsupported code is refused and the context is left as it was. */
    method SetLanguage(code: string) returns (err: Option<SetError>)
      requires Valid()
      modifies this
      ensures Valid()
      ensures err.None? <==> code in validCodes
      ensures err.Some? ==> err.value == InvalidLanguageCode(code) && current == old(current)
      ensures err.None? ==> current == Some(code)
    {
      if code !in validCodes {
        return Some(InvalidLanguageCode(code));
      }
      current := Some(code);
      return None;
    }

    /** `get_language`: the language set for this request, or the startup language. */
    method GetLanguage() returns (code: string)
      requires Valid()
      ensures code in validCodes
      ensures code == (if current.Some? then current.value else fallback)
    {
      code := if current.Some? then current.value else fallback;
    }
  }

  /** A request that never sets a language reads "ru"; one that sets "kk" reads "kk". */
  method LanguageRoundTrip() returns (before: string, after: string)
    ensures before == "ru" && after == "kk"
  {
    var ctx := new LanguageContext();
    before := ctx.GetLanguage();
    var err := ctx.SetLanguage("kk");
    assert err.None?;
    after := ctx.GetLanguage();
  }

  /** An unsupported code leaves the language that was set before in place. */
  method RefusedCodeKeepsLanguage() returns (err: Option<SetError>, after: string)
    ensures err == Some(InvalidLanguageCode("de")) && after == "en"
  {
    var ctx := new LanguageContext();
    var ok := ctx.SetLanguage("en");
    assert ok.None?;
    err := ctx.SetLanguage("de");
    after := ctx.GetLanguage();
  }
}
