/**
 * Locale configuration: the supported locales, the default locale and the
 * fallback applied to the locale a request asks for. Translated texts are
 * kept opaque: a `Text` is either a literal string or a message key that the
 * translation library looks up.
 */
module I18n {
  import opened Wrappers

  const Locales: seq<string> := ["en", "ru"]
  const DefaultLocale: string := "en"

  /** What a component puts on screen: a literal string or a translated message key. */
  datatype Text = Literal(text: string) | Translated(key: string)

  /**
   * The locale of a request: the requested one when it is supported,
   * otherwise the default (a missing or empty request included).
   */
  function ResolveLocale(requested: Option<string>): (locale: string)
    ensures locale in Locales
    ensures requested.Some? && requested.value in Locales ==> locale == requested.value
    ensures requested.None? || requested.value !in Locales ==> locale == DefaultLocale
  {
    if requested.None? || requested.value == "" || requested.value !in Locales then DefaultLocale
    else requested.value
  }

  /** The message catalogue loaded for a request. */
  function CataloguePath(requested: Option<string>): (path: string)
    ensures path == "./messages/en.json" || path == "./messages/ru.json"
    ensures path == "./messages/ru.json" <==> ResolveLocale(requested) == "ru"
    ensures path == "./messages/en.json" <==> ResolveLocale(requested) == "en"
  {
    "./messages/" + ResolveLocale(requested) + ".json"
  }

  lemma EmptyLocaleFallsBack()
    ensures ResolveLocale(Some("")) == DefaultLocale && ResolveLocale(None) == DefaultLocale
  {
  }

  /** Resolving is idempotent: a resolved locale resolves to itself. */
  lemma ResolveIdempotent(requested: Option<string>)
    ensures ResolveLocale(Some(ResolveLocale(requested))) == ResolveLocale(requested)
  {
  }
}
