/**
 How the mobile client picks its display language at start-up: a language the
 user saved earlier wins; otherwise the device locale's prefix chooses one of
 the four bundled translations, and English covers everything else.
 */
module Localization {
  import opened Text
  import opened Js

  /** The languages that have a translation table. */
  const ResourceLanguages: seq<string> := ["en", "zu", "xh", "af"]

  /** The language i18next falls back to for a missing key. */
  const FallbackLanguage: string := "en"

  /**
   The language `initI18n` hands to i18next. `saved` is the stored
   'user-language' value (None when nothing is stored); an empty stored
   string is falsy in JavaScript and counts as nothing stored.
   */
  function ChooseLanguage(saved: Option<string>, deviceLocale: string): (lang: string)
    ensures StrTruthy(saved) ==> lang == saved.value
    ensures !StrTruthy(saved) ==> lang in ResourceLanguages
  {
    if StrTruthy(saved) then saved.value
    else if StartsWith(deviceLocale, "zu") then "zu"
    else if StartsWith(deviceLocale, "xh") then "xh"
    else if StartsWith(deviceLocale, "af") then "af"
    else "en"
  }

  /** With nothing saved, a locale that begins with a bundled non-English code selects that code. */
  lemma LocalePrefixSelects(deviceLocale: string, code: string)
    requires code in ["zu", "xh", "af"]
    requires StartsWith(deviceLocale, code)
    ensures ChooseLanguage(None, deviceLocale) == code
  {
  }

  /** With nothing saved, English is chosen exactly when the locale begins with none of the other codes. */
  lemma EnglishOtherwise(deviceLocale: string)
    ensures ChooseLanguage(None, deviceLocale) == "en" <==>
      !StartsWith(deviceLocale, "zu") && !StartsWith(deviceLocale, "xh") && !StartsWith(deviceLocale, "af")
  {
  }
}
