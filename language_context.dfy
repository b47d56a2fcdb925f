/**
 * The language selection of src/context/LanguageContext.tsx: the stored
 * language, normalised to English or Chinese, and the lookup `t`.
 */
module LanguageContext {
  import opened Wrappers
  import opened Storage

  datatype Language = Zh | En

  const LanguageKey: string := "language"

  function Code(l: Language): string
  {
    match l
    case Zh => "zh"
    case En => "en"
  }

  /** The language `loadLanguage` settles on for what is stored: `"en"` and `"zh"` are kept, anything else is English. */
  function Normalize(stored: Option<string>): (l: Language)
    ensures stored == Some("zh") <==> l == Zh
    ensures stored != Some("en") && stored != Some("zh") ==> l == En
  {
    if stored == Some("zh") then Zh else En
  }

  /** A stored language code reads back as that language. */
  lemma NormalizeCode(l: Language)
    ensures Normalize(Some(Code(l))) == l
  {
  }

  /**
   * `loadLanguage`: a valid stored code is returned and left in place;
   * otherwise `"en"` is written and English returned. Afterwards the key
   * always holds the code of the returned language.
   */
  method LoadLanguage(store: Store) returns (lang: Language)
    modifies store
    ensures lang == Normalize(old(store.GetItem(LanguageKey)))
    ensures store.GetItem(LanguageKey) == Some(Code(lang))
    ensures old(store.GetItem(LanguageKey)) in {Some("en"), Some("zh")} ==> store.items == old(store.items)
    ensures old(store.GetItem(LanguageKey)) !in {Some("en"), Some("zh")} ==> store.items == old(store.items)[LanguageKey := "en"]
  {
    var stored := store.GetItem(LanguageKey);
    if stored == Some("en") || stored == Some("zh") {
      lang := if stored == Some("zh") then Zh else En;
      return;
    }
    store.SetItem(LanguageKey, "en");
    lang := En;
  }

  /** `setLanguage`: the current language becomes `l` and its code is stored. */
  method SetLanguage(store: Store, l: Language) returns (language: Language)
    modifies store
    ensures language == l
    ensures store.items == old(store.items)[LanguageKey := Code(l)]
    ensures Normalize(store.GetItem(LanguageKey)) == l
  {
    language := l;
    store.SetItem(LanguageKey, Code(l));
    NormalizeCode(l);
  }

  /** One translation table: key to displayed text. */
  type Table = map<string, string>

  datatype Translations = Translations(zh: Table, en: Table)

  function TableFor(tr: Translations, l: Language): Table
  {
    match l
    case Zh => tr.zh
    case En => tr.en
  }

  /** `t`: the current table's entry when it is present and not empty, the key itself otherwise. */
  function T(tr: Translations, language: Language, key: string): (text: string)
    ensures key in TableFor(tr, language) && TableFor(tr, language)[key] != "" ==> text == TableFor(tr, language)[key]
    ensures key !in TableFor(tr, language) || TableFor(tr, language)[key] == "" ==> text == key
  {
    var table := TableFor(tr, language);
    if key in table && table[key] != "" then table[key] else key
  }

  /** A lookup never shows an empty text for a non-empty key. */
  lemma TNeverBlank(tr: Translations, language: Language, key: string)
    requires key != ""
    ensures T(tr, language, key) != ""
  {
  }
}
