/** The string table of poppy/localizer.py: a language per key table, the
    current language and the `language_changed` signal. */
module Localization {
  import opened Wrappers

  type Table = map<string, map<string, string>>

  datatype Localizer = Localizer(translations: Table, lang: string)

  /** The current language always has a table. */
  predicate Valid(l: Localizer) {
    l.lang in l.translations
  }

  /** The `ValueError`s the localizer raises. */
  datatype LocError = DefaultNotInTranslations(lang: string) | Unsupported(lang: string)

  /** `Localizer.__init__`. */
  function New(translations: Table, defaultLang: string): (r: Result<Localizer, LocError>)
    ensures r.Success? <==> defaultLang in translations
    ensures r.Failure? ==> r.error == DefaultNotInTranslations(defaultLang)
    ensures r.Success? ==> Valid(r.value) && CurrentLanguage(r.value) == defaultLang
    ensures r.Success? ==> r.value.translations == translations
  {
    if defaultLang !in translations then Failure(DefaultNotInTranslations(defaultLang))
    else Success(Localizer(translations, defaultLang))
  }

  /** The `current_language` property. */
  function CurrentLanguage(l: Localizer): string {
    l.lang
  }

  /** `set_language`: the new state and the languages emitted. */
  function SetLanguage(l: Localizer, lang: string): (r: Result<(Localizer, seq<string>), LocError>)
    ensures r.Failure? <==> lang !in l.translations
    ensures r.Failure? ==> r.error == Unsupported(lang)
    ensures r.Success? ==> CurrentLanguage(r.value.0) == lang && Valid(r.value.0)
    ensures r.Success? ==> r.value.0.translations == l.translations
    ensures r.Success? && lang == l.lang ==> r.value == (l, [])
    ensures r.Success? && lang != l.lang ==> r.value.1 == [lang]
  {
    if lang !in l.translations then Failure(Unsupported(lang))
    else if l.lang == lang then Success((l, []))
    else Success((l.(lang := lang), [lang]))
  }

  /** Choosing a language twice emits once: the second call is a no-op. */
  lemma SetLanguageIdempotent(l: Localizer, lang: string)
    requires lang in l.translations
    ensures var once := SetLanguage(l, lang).value.0;
      SetLanguage(once, lang) == Success((once, []))
  {
  }

  /** `tr`: the current language's entry, or the key in braces. */
  function Tr(l: Localizer, key: string): (s: string)
    requires Valid(l)
    ensures key in l.translations[l.lang] ==> s == l.translations[l.lang][key]
    ensures key !in l.translations[l.lang] ==> s == "{" + key + "}"
  {
    var table := l.translations[l.lang];
    if key in table then table[key] else "{" + key + "}"
  }

  /** A missing key shows up as itself, so it is never confused with an
      existing translation of another key that has no braces. */
  lemma FallbackShowsKey(l: Localizer, key: string)
    requires Valid(l) && key !in l.translations[l.lang]
    ensures |Tr(l, key)| == |key| + 2 && Tr(l, key)[1..|key| + 1] == key
    ensures Tr(l, key)[0] == '{' && Tr(l, key)[|key| + 1] == '}'
  {
  }

  /** After a switch, lookups read the new language's table. */
  lemma SwitchedLookup(l: Localizer, lang: string, key: string)
    requires Valid(l) && lang in l.translations
    ensures Tr(SetLanguage(l, lang).value.0, key) ==
      if key in l.translations[lang] then l.translations[lang][key] else "{" + key + "}"
  {
  }
}
