/** The navigation bar's locale switch: the current locale, the copy kept
    in `localStorage` under "locale", and the language i18n renders. */
module NavbarLocale {
  import opened Common

  /** `currentLocale === "zh" ? "en" : "zh"`. */
  function Toggle(locale: string): (next: string)
    ensures next == "en" <==> locale == "zh"
    ensures next == "zh" || next == "en"
  {
    if locale == "zh" then "en" else "zh"
  }

  /** The translation key of the button's label. */
  function Label(locale: string): (key: string)
    ensures key == "english" <==> locale == "zh"
    ensures key == "english" || key == "chinese"
  {
    if locale == "zh" then "english" else "chinese"
  }

  /** Two toggles give the start value back exactly when it is one of the
      two locales; any other value ends on "en". */
  lemma ToggleTwice(locale: string)
    ensures Toggle(Toggle(locale)) == locale <==> locale == "zh" || locale == "en"
    ensures Toggle(Toggle(locale)) != locale ==> Toggle(Toggle(locale)) == "en"
  {
  }

  /** The label names the language a click switches to. */
  lemma LabelNamesTarget(locale: string)
    ensures Label(locale) == if Toggle(locale) == "en" then "english" else "chinese"
  {
  }

  class Navbar {
    var currentLocale: string
    var language: string
    var saved: Option<string>

    /** The first render: the locale state starts at "zh"; storage and the
        i18n language are whatever they already are. */
    constructor (stored: Option<string>, language: string)
      ensures currentLocale == "zh" && saved == stored && this.language == language
    {
      currentLocale := "zh";
      saved := stored;
      this.language := language;
    }

    /** The effect on the client: a saved locale (a non-empty string)
        replaces the current one and the i18n language; otherwise nothing
        changes. */
    method LoadSaved()
      modifies this`currentLocale, this`language
      ensures IsTruthy(saved) ==> currentLocale == saved.value && language == saved.value
      ensures !IsTruthy(saved) ==> currentLocale == old(currentLocale) && language == old(language)
    {
      if IsTruthy(saved) {
        currentLocale := saved.value;
        language := saved.value;
      }
    }

    /** `switchLanguage`: toggle the locale, persist it and switch i18n. */
    method SwitchLanguage()
      modifies this
      ensures currentLocale == Toggle(old(currentLocale))
      ensures saved == Some(currentLocale) && language == currentLocale
    {
      var newLocale := Toggle(currentLocale);
      currentLocale := newLocale;
      saved := Some(newLocale);
      language := newLocale;
    }
  }
}
