// The theme and language context (ThemeContext.jsx): dark mode and the
// interface language, both read from storage at start and written back with
// the document's class, direction and language after every change, and the
// lookup `t` of interface texts.

module Theme {
  import opened Common
  import opened Text

  /** The value stored for a theme. */
  function ThemeName(dark: bool): string
  {
    if dark then "dark" else "light"
  }

  /** The start value of dark mode: a stored theme (current key, then the
      legacy one) decides if there is one, else the system preference. */
  function InitialDark(saved: Option<string>, legacy: Option<string>, prefersDark: bool): (dark: bool)
    ensures StoredPreference(saved, legacy, "") != "" ==> (dark <==> StoredPreference(saved, legacy, "") == "dark")
    ensures StoredPreference(saved, legacy, "") == "" ==> dark == prefersDark
  {
    var stored := StoredPreference(saved, legacy, "");
    if stored != "" then stored == "dark" else prefersDark
  }

  /** The start language: a stored language, else English. */
  function InitialLanguage(saved: Option<string>, legacy: Option<string>): (language: string)
    ensures language != ""
  {
    StoredPreference(saved, legacy, "en")
  }

  /** The written theme is read back as it was, whatever the system prefers. */
  lemma ThemeRoundTrip(dark: bool, legacy: Option<string>, prefersDark: bool)
    ensures InitialDark(Some(ThemeName(dark)), legacy, prefersDark) == dark
  {
  }

  /** The written language is read back as it was. */
  lemma LanguageRoundTrip(language: string, legacy: Option<string>)
    requires language != ""
    ensures InitialLanguage(Some(language), legacy) == language
  {
  }

  /** `toggleLanguage`: English becomes Arabic, anything else English. */
  function NextLanguage(language: string): (next: string)
    ensures next == "en" || next == "ar"
    ensures next == "ar" <==> language == "en"
  {
    if language == "en" then "ar" else "en"
  }

  /** Toggling twice restores English or Arabic; any other stored language
      is replaced by English on the first toggle. */
  lemma ToggleTwice(language: string)
    ensures language == "en" || language == "ar" ==> NextLanguage(NextLanguage(language)) == language
    ensures language != "en" && language != "ar" ==> NextLanguage(NextLanguage(language)) == "ar"
  {
  }

  /** `t(key)`: the text of the current language, or the key itself when the
      language has no such text or the text is empty. A language the table
      does not have makes the lookup throw: `None`. */
  function Translate(table: map<string, map<string, string>>, language: string, key: string): (r: Option<string>)
    ensures r.None? <==> language !in table
    ensures r.Some? ==> r.value == key || (key in table[language] && r.value == table[language][key] != "")
  {
    if language !in table then None
    else if key in table[language] && table[language][key] != "" then Some(table[language][key])
    else Some(key)
  }

  /** A text deliberately left empty is shown as its key: the Arabic `s`
      (the plural suffix of the result count) comes out as the letter `s`. */
  lemma EmptyTextShowsKey(table: map<string, map<string, string>>, language: string, key: string)
    requires language in table && key in table[language] && table[language][key] == ""
    ensures Translate(table, language, key) == Some(key)
  {
  }

  /** The count of search results as the sidebar writes it, with the texts
      of `result` and `s`. */
  function ResultsLabel(count: nat, result: string, plural: string): string
  {
    IntToString(count) + " " + result + (if count != 1 then plural else "")
  }

  /** So in Arabic, with the table's empty `s`, a count other than one gets
      a Latin `s` after the Arabic word. */
  lemma ArabicCountSuffix(table: map<string, map<string, string>>, count: nat)
    requires "ar" in table && "s" in table["ar"] && table["ar"]["s"] == ""
    requires "result" in table["ar"] && table["ar"]["result"] != ""
    requires count != 1
    ensures Translate(table, "ar", "s") == Some("s") && Translate(table, "ar", "result") == Some(table["ar"]["result"])
    ensures ResultsLabel(count, table["ar"]["result"], "s")[|ResultsLabel(count, table["ar"]["result"], "s")| - 1] == 's'
  {
    EmptyTextShowsKey(table, "ar", "s");
  }

  class ThemeState {
    var isDarkMode: bool
    var language: string
    /** What storage holds under both the current and the legacy keys. */
    var storedTheme: string
    var storedLanguage: string
    /** The document root: the `dark` class, `dir` and `lang`. */
    var darkClass: bool
    var dir: string
    var lang: string

    /** The effects have run: storage and the document follow the state. */
    predicate Synced()
      reads this
    {
      storedTheme == ThemeName(isDarkMode) && darkClass == isDarkMode
      && storedLanguage == language
      && dir == (if language == "ar" then "rtl" else "ltr")
      && lang == (if language == "ar" then "ar" else "en")
    }

    /** `isRTL`. */
    predicate IsRTL()
      reads this
    {
      language == "ar"
    }

    /** Writing the theme back, and the document's class. */
    method ThemeEffect()
      modifies this
      ensures storedTheme == ThemeName(isDarkMode) && darkClass == isDarkMode
      ensures isDarkMode == old(isDarkMode) && language == old(language)
      ensures storedLanguage == old(storedLanguage) && dir == old(dir) && lang == old(lang)
    {
      storedTheme := ThemeName(isDarkMode);
      darkClass := isDarkMode;
    }

    /** Writing the language back, and the document's direction and language. */
    method LanguageEffect()
      modifies this
      ensures storedLanguage == language
      ensures dir == (if language == "ar" then "rtl" else "ltr") && lang == (if language == "ar" then "ar" else "en")
      ensures isDarkMode == old(isDarkMode) && language == old(language)
      ensures storedTheme == old(storedTheme) && darkClass == old(darkClass)
    {
      storedLanguage := language;
      if language == "ar" {
        dir := "rtl";
        lang := "ar";
      } else {
        dir := "ltr";
        lang := "en";
      }
    }

    /** The provider at start: the stored values or their defaults, then both
        effects. */
    constructor (savedTheme: Option<string>, legacyTheme: Option<string>, prefersDark: bool,
                 savedLanguage: Option<string>, legacyLanguage: Option<string>)
      ensures isDarkMode == InitialDark(savedTheme, legacyTheme, prefersDark)
      ensures language == InitialLanguage(savedLanguage, legacyLanguage)
      ensures Synced()
    {
      var dark := InitialDark(savedTheme, legacyTheme, prefersDark);
      var chosen := InitialLanguage(savedLanguage, legacyLanguage);
      isDarkMode := dark;
      language := chosen;
      storedTheme := ThemeName(dark);
      darkClass := dark;
      storedLanguage := chosen;
      dir := if chosen == "ar" then "rtl" else "ltr";
      lang := if chosen == "ar" then "ar" else "en";
    }

    method ToggleTheme()
      modifies this
      requires Synced()
      ensures Synced()
      ensures isDarkMode == !old(isDarkMode) && language == old(language)
    {
      isDarkMode := !isDarkMode;
      ThemeEffect();
    }

    method ToggleLanguage()
      modifies this
      requires Synced()
      ensures Synced()
      ensures language == NextLanguage(old(language)) && isDarkMode == old(isDarkMode)
      ensures IsRTL() <==> old(language) == "en"
    {
      language := NextLanguage(language);
      LanguageEffect();
    }

    /** `t` with the context's language. */
    function T(table: map<string, map<string, string>>, key: string): (r: Option<string>)
      reads this
      ensures ("en" in table && "ar" in table && (language == "en" || language == "ar")) ==> r.Some?
    {
      Translate(table, language, key)
    }
  }
}
