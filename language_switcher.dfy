/**
 * The language switcher button: which locale a click switches to, the path
 * it navigates to, and the language names it shows.
 */
module LanguageSwitcher {
  import opened Strings
  import I18n

  /** `xs.indexOf(x)`: the first index holding `x`, or -1. */
  function IndexOf(xs: seq<string>, x: string): (r: int)
    ensures -1 <= r < |xs|
    ensures r == -1 <==> x !in xs
    ensures r >= 0 ==> xs[r] == x && forall j :: 0 <= j < r ==> xs[j] != x
  {
    if xs == [] then -1
    else if xs[0] == x then 0
    else
      var i := IndexOf(xs[1..], x);
      if i == -1 then -1 else i + 1
  }

  /** The locale a click switches to: the one after the current one, cyclically. */
  function NextLocale(current: string): (next: string)
    ensures next in I18n.Locales
  {
    var i := IndexOf(I18n.Locales, current);
    I18n.Locales[(i + 1) % |I18n.Locales|]
  }

  lemma NextLocaleCycles()
    ensures NextLocale("en") == "ru" && NextLocale("ru") == "en"
  {
  }

  /** An unsupported current locale has index -1, so a click selects the first locale. */
  lemma NextLocaleOfUnknown(current: string)
    requires current !in I18n.Locales
    ensures NextLocale(current) == I18n.Locales[0]
  {
  }

  /** Two clicks come back to a supported locale. */
  lemma NextLocaleTwiceReturns(current: string)
    requires current in I18n.Locales
    ensures NextLocale(NextLocale(current)) == current
  {
    assert current == "en" || current == "ru";
    NextLocaleCycles();
  }

  /** The current path with the first occurrence of '/' + locale removed. */
  function PathWithoutLocale(pathname: string, locale: string): (path: string)
    ensures !Contains(pathname, "/" + locale) ==> path == pathname
    ensures Contains(pathname, "/" + locale) ==> |path| == |pathname| - |locale| - 1
  {
    RemoveFirst(pathname, "/" + locale)
  }

  /** The path `switchLocale` navigates to. */
  function SwitchTarget(pathname: string, locale: string, newLocale: string): (target: string)
    ensures OccursAt(target, "/" + newLocale, 0)
    ensures target[|newLocale| + 1..] == PathWithoutLocale(pathname, locale)
  {
    "/" + newLocale + PathWithoutLocale(pathname, locale)
  }

  /** For a path that begins with the current locale segment, only that segment is replaced. */
  lemma SwitchReplacesLeadingSegment(rest: string, locale: string, newLocale: string)
    ensures SwitchTarget("/" + locale + rest, locale, newLocale) == "/" + newLocale + rest
  {
    var pathname := "/" + locale + rest;
    assert pathname[..|"/" + locale|] == "/" + locale;
    RemoveFirstOfPrefix(pathname, "/" + locale);
    assert pathname[|"/" + locale|..] == rest;
  }

  /** The name shown for a language code; unknown codes are shown as themselves. */
  function LanguageName(code: string): (name: string)
    ensures code == "en" ==> name == "English"
    ensures code == "ru" ==> name == "Русский"
    ensures code != "en" && code != "ru" ==> name == code
  {
    if code == "en" then "English" else if code == "ru" then "Русский" else code
  }

  /** What a click does: navigate to the current path under the next locale. */
  function ClickTarget(pathname: string, locale: string): (target: string)
    ensures target == SwitchTarget(pathname, locale, NextLocale(locale))
    ensures OccursAt(target, "/" + NextLocale(locale), 0)
  {
    SwitchTarget(pathname, locale, I18n.Locales[(IndexOf(I18n.Locales, locale) + 1) % |I18n.Locales|])
  }

  /** The button's tooltip. */
  function Tooltip(locale: string): (tip: string)
    ensures tip == "Switch to " + LanguageName(NextLocale(locale))
  {
    "Switch to " + LanguageName(I18n.Locales[(IndexOf(I18n.Locales, locale) + 1) % |I18n.Locales|])
  }
}
