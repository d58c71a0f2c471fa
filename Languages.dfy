/** The language whitelist of src/lib/languages.ts. */
module Languages {

  datatype Language = Language(code: string, name: string)

  /** `TOP_LANGUAGES`, in the order the interface lists them. */
  const TopLanguages: seq<Language> := [
    Language("pt", "Portugu\U{EA}s"),
    Language("en", "English"),
    Language("es", "Espa\U{F1}ol"),
    Language("fr", "Fran\U{E7}ais"),
    Language("de", "Deutsch"),
    Language("it", "Italiano"),
    Language("ja", "\U{65E5}\U{672C}\U{8A9E}"),
    Language("zh", "\U{4E2D}\U{6587}"),
    Language("ru", "\U{0420}\U{0443}\U{0441}\U{0441}\U{043A}\U{0438}\U{0439}"),
    Language("ar", "\U{0627}\U{0644}\U{0639}\U{0631}\U{0628}\U{064A}\U{0629}")
  ]

  /** `LANGUAGE_CODES`: the code of each entry of `TopLanguages`, in the same order. */
  function LanguageCodes(): (codes: seq<string>)
    ensures |codes| == |TopLanguages|
    ensures forall i :: 0 <= i < |codes| ==> codes[i] == TopLanguages[i].code
  {
    seq(|TopLanguages|, i requires 0 <= i < |TopLanguages| => TopLanguages[i].code)
  }

  /** `isSupportedLanguage`: membership in the set of codes, case-sensitive. */
  predicate IsSupportedLanguage(code: string)
  {
    code in LanguageCodes()
  }

  /** The ten codes, in order. */
  lemma LanguageCodesAre()
    ensures LanguageCodes() == ["pt", "en", "es", "fr", "de", "it", "ja", "zh", "ru", "ar"]
  {
  }

  /** Exactly the ten listed codes are supported, and nothing else. */
  lemma SupportedExactly(code: string)
    ensures IsSupportedLanguage(code) <==>
              code in {"pt", "en", "es", "fr", "de", "it", "ja", "zh", "ru", "ar"}
  {
    LanguageCodesAre();
  }

  /** `"auto"` is not a language, and neither is an upper-case code. */
  lemma AutoAndUpperCaseRejected()
    ensures !IsSupportedLanguage("auto")
    ensures !IsSupportedLanguage("PT") && !IsSupportedLanguage("Pt")
  {
    LanguageCodesAre();
  }

  lemma CodesDistinct()
    ensures forall i, j :: 0 <= i < j < |LanguageCodes()| ==> LanguageCodes()[i] != LanguageCodes()[j]
  {
    LanguageCodesAre();
  }

  /** Every supported code is two letters with no `:`, which keeps cache keys unambiguous. */
  lemma SupportedHasNoColon(code: string)
    requires IsSupportedLanguage(code)
    ensures |code| == 2 && ':' !in code
  {
    SupportedExactly(code);
  }
}
