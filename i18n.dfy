/**
 * The locale helpers of ahpc-website/src/lib/i18n.ts: the supported locales
 * and the default, the text direction, and the translation loader with its
 * single fallback to the default locale. The dynamic import of a locale's
 * message file is a parameter `load`; `None` stands for an import that
 * rejects. Also here: the route check that accepts only supported locale
 * codes, and the header's language toggle.
 */
module I18n {

  import opened Wrappers
  import opened Content

  /** `locales`: the supported locales, in the order the site lists them. */
  const Locales: seq<Locale> := [Ar, En]

  /** `defaultLocale`. */
  const DefaultLocale: Locale := Ar

  lemma LocalesAreArAndEn()
    ensures Locales == [Ar, En] && Locales[0] != Locales[1]
    ensures DefaultLocale in Locales
    ensures forall l: Locale :: l in Locales
  {
    forall l: Locale ensures l in Locales {
      match l
      case Ar => assert Locales[0] == l;
      case En => assert Locales[1] == l;
    }
  }

  datatype Direction = Rtl | Ltr

  /** `getDirection`: Arabic is written right to left, English left to right. */
  function DirectionOf(l: Locale): (d: Direction)
    ensures d == Rtl <==> l == Ar
    ensures d == Ltr <==> l == En
  {
    match l
    case Ar => Rtl
    case En => Ltr
  }

  /** The first locale of `ls` whose code is `code`, if any. */
  function FindLocale(code: string, ls: seq<Locale>): (r: Option<Locale>)
    ensures r.Some? ==> r.value in ls && Code(r.value) == code
    ensures r.None? ==> forall i | 0 <= i < |ls| :: Code(ls[i]) != code
  {
    if ls == [] then None
    else if Code(ls[0]) == code then Some(ls[0])
    else FindLocale(code, ls[1..])
  }

  /**
   * The route check `locales.includes(locale)`: a route segment names a
   * locale exactly when it is the code of one of `Locales`; any other
   * segment yields the not-found page.
   */
  function ParseLocale(code: string): (r: Option<Locale>)
    ensures r.Some? ==> Code(r.value) == code
    ensures r.None? <==> code != "ar" && code != "en"
  {
    assert Code(Locales[0]) == "ar" && Code(Locales[1]) == "en";
    FindLocale(code, Locales)
  }

  /** Every locale's code is accepted by the route check, and names that locale again. */
  lemma ParseLocaleOfCode(l: Locale)
    ensures ParseLocale(Code(l)) == Some(l)
  {
  }

  /** The header's language switch: the locale that is not the current one. */
  function OtherLocale(l: Locale): (o: Locale)
    ensures o != l
    ensures DirectionOf(o) != DirectionOf(l)
  {
    match l
    case Ar => En
    case En => Ar
  }

  /** Switching language twice lands on the starting locale. */
  lemma OtherLocaleInvolution(l: Locale)
    ensures OtherLocale(OtherLocale(l)) == l
  {
  }

  /** What a translation load settles to: the dictionary, or the locale whose import rejected. */
  datatype Outcome<D> = Resolved(messages: D) | Rejected(failed: Locale)

  /** The outcome of `getTranslations`, with the locales whose imports it attempted, in order. */
  datatype Loading<D> = Loading(outcome: Outcome<D>, attempts: seq<Locale>)

  /** One dynamic import of a locale's message file. */
  function Import<D>(load: Locale -> Option<D>, l: Locale): (r: Outcome<D>)
    ensures r.Resolved? <==> load(l).Some?
    ensures r.Resolved? ==> r.messages == load(l).value
    ensures r.Rejected? ==> r.failed == l
  {
    match load(l)
    case Some(d) => Resolved(d)
    case None => Rejected(l)
  }

  /**
   * `getTranslations`: import the requested locale's messages; if that
   * rejects, import the default locale's messages instead. The second import
   * is not guarded, so its rejection is the outcome.
   */
  function GetTranslations<D>(locale: Locale, load: Locale -> Option<D>): (r: Loading<D>)
    ensures load(locale).Some? ==> r.outcome == Resolved(load(locale).value) && r.attempts == [locale]
    ensures load(locale).None? ==> r.outcome == Import(load, DefaultLocale) && r.attempts == [locale, DefaultLocale]
  {
    match Import(load, locale)
    case Resolved(d) => Loading(Resolved(d), [locale])
    case Rejected(_) => Loading(Import(load, DefaultLocale), [locale, DefaultLocale])
  }

  /**
   * The loader resolves exactly when the requested or the default dictionary
   * loads, and the dictionary it gives is the one of the last locale it tried;
   * it tries at most two imports, the requested locale first.
   */
  lemma GetTranslationsResolvesIff<D>(locale: Locale, load: Locale -> Option<D>)
    ensures var r := GetTranslations(locale, load);
      && (r.outcome.Resolved? <==> load(locale).Some? || load(DefaultLocale).Some?)
      && 1 <= |r.attempts| <= 2 && r.attempts[0] == locale
      && (r.outcome.Resolved? ==> load(r.attempts[|r.attempts| - 1]) == Some(r.outcome.messages))
  {
  }

  /** A rejected fallback import is the outcome: there is no second fallback. */
  lemma FallbackFailurePropagates<D>(locale: Locale, load: Locale -> Option<D>)
    requires load(locale).None? && load(DefaultLocale).None?
    ensures GetTranslations(locale, load).outcome == Rejected(DefaultLocale)
  {
  }

  /**
   * When the default locale itself is requested and its import rejects, the
   * same import is attempted exactly once more, and (imports being
   * deterministic here) rejects again.
   */
  lemma DefaultLocaleRetriedOnce<D>(load: Locale -> Option<D>)
    requires load(DefaultLocale).None?
    ensures GetTranslations(DefaultLocale, load) == Loading(Rejected(DefaultLocale), [DefaultLocale, DefaultLocale])
  {
  }
}
