/** Language codes, the stored preference and the pure decisions of the
    language switcher: the initial language, the selector label, the check
    marks and the browser-language detection used on a first visit. */
module Language {

  /** A value that may be absent: `null` from `localStorage.getItem` or
      `getAttribute`, `undefined` from `navigator`. */
  datatype Option<T> = None | Some(value: T)

  /** The local-storage key under which the chosen language is kept. */
  const StorageKey: string := "28tools-language"

  const Japanese: string := "ja"
  const English: string := "en"

  /** The selector labels shown for each language. */
  const JapaneseLabel: string := "日本語"
  const EnglishLabel: string := "English"

  /** The two codes `setLanguage` accepts. */
  predicate IsSupported(lang: string) {
    lang == Japanese || lang == English
  }

  /** JavaScript truthiness of a possibly absent string: present and non-empty. */
  predicate Truthy(s: Option<string>) {
    s.Some? && s.value != ""
  }

  predicate StartsWith(s: string, prefix: string) {
    |prefix| <= |s| && s[..|prefix|] == prefix
  }

  /** The language the switcher starts with: the stored value when it is
      non-empty, whatever it is, and Japanese otherwise (`stored || 'ja'`). */
  function InitialLanguage(stored: Option<string>): (r: string)
    ensures Truthy(stored) ==> Some(r) == stored
    ensures !Truthy(stored) ==> r == Japanese
    ensures r != ""
  {
    if Truthy(stored) then stored.value else Japanese
  }

  /** The text of the language button: Japanese only for `ja`, English for
      every other value of the current language. */
  function Label(lang: string): (r: string)
    ensures r == JapaneseLabel <==> lang == Japanese
    ensures r == EnglishLabel <==> lang != Japanese
  {
    if lang == Japanese then JapaneseLabel else EnglishLabel
  }

  /** Visibility of the two check marks (`checkJa`, `checkEn`) for a language. */
  datatype CheckMarks = CheckMarks(ja: bool, en: bool)

  function Checks(lang: string): (r: CheckMarks)
    ensures r.ja <==> lang == Japanese
    ensures r.en <==> lang == English
    ensures !(r.ja && r.en)
  {
    CheckMarks(lang == Japanese, lang == English)
  }

  /** Exactly one check mark is visible for a supported language, and none
      for any other value. */
  lemma ExactlyOneCheckMark(lang: string)
    ensures IsSupported(lang) <==> (Checks(lang).ja != Checks(lang).en)
    ensures !IsSupported(lang) ==> !Checks(lang).ja && !Checks(lang).en
  {
  }

  /** An unrecognised non-empty stored value becomes the current language,
      and the selector then reads "English" with neither check mark. */
  lemma UnrecognisedStoredLanguage(stored: string)
    requires stored != "" && !IsSupported(stored)
    ensures InitialLanguage(Some(stored)) == stored
    ensures !IsSupported(InitialLanguage(Some(stored)))
    ensures Label(InitialLanguage(Some(stored))) == EnglishLabel
    ensures Checks(InitialLanguage(Some(stored))) == CheckMarks(false, false)
  {
  }

  /** `navigator.language || navigator.userLanguage`: the first when it is
      truthy, else the second, which may itself be absent. */
  function BrowserTag(language: Option<string>, userLanguage: Option<string>): (r: Option<string>)
    ensures Truthy(language) ==> r == language
    ensures !Truthy(language) ==> r == userLanguage
  {
    if Truthy(language) then language else userLanguage
  }

  /** First-visit detection. A non-empty saved value is returned as it is,
      unchecked. Otherwise the browser tag decides: `en` when it starts with
      "en", `ja` for anything else. `None` stands for the TypeError raised
      when both navigator properties are absent (`undefined.startsWith`). */
  function DetectBrowserLanguage(saved: Option<string>, language: Option<string>,
                                 userLanguage: Option<string>): (r: Option<string>)
    ensures Truthy(saved) ==> r == saved
    ensures !Truthy(saved) ==> (r.None? <==> BrowserTag(language, userLanguage).None?)
    ensures !Truthy(saved) && r.Some? ==> IsSupported(r.value)
    ensures !Truthy(saved) && r.Some? ==>
              (r.value == English <==> StartsWith(BrowserTag(language, userLanguage).value, "en"))
  {
    if Truthy(saved) then saved
    else
      match BrowserTag(language, userLanguage)
      case None => None
      case Some(tag) => Some(if StartsWith(tag, "en") then English else Japanese)
  }

  /** Without a saved value, and with a browser tag present, detection always
      yields one of the two supported codes, and `ja` exactly when the tag does
      not start with "en". */
  lemma DetectWithoutSavedValue(saved: Option<string>, tag: string, userLanguage: Option<string>)
    requires !Truthy(saved) && tag != ""
    ensures DetectBrowserLanguage(saved, Some(tag), userLanguage).Some?
    ensures IsSupported(DetectBrowserLanguage(saved, Some(tag), userLanguage).value)
    ensures DetectBrowserLanguage(saved, Some(tag), userLanguage).value == Japanese <==> !StartsWith(tag, "en")
  {
  }
}
