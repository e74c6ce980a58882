/**
 * The language provider: the current interface language, its persistence
 * in local storage, and the lookup `t` with its fallback chain.
 */
module LanguageContext {
  import opened Wrappers
  import opened Text
  import opened Domain
  import opened Translations

  /** The language before anything is read from storage. */
  const DefaultLanguage: Lang := Da

  /** The code stored for a language. */
  function LangCode(l: Lang): (code: string)
    ensures |code| == 2
  {
    match l
    case Da => "da"
    case En => "en"
  }

  /** The language a stored value names, if it is exactly one of the two codes. */
  function ParseLang(saved: Option<string>): (r: Option<Lang>)
    ensures r.Some? ==> saved == Some(LangCode(r.value))
    ensures r.None? ==> forall l :: saved != Some(LangCode(l))
  {
    if saved == Some("en") then Some(En)
    else if saved == Some("da") then Some(Da)
    else None
  }

  /** The provider's state: the current language and the stored value. */
  datatype LangState = LangState(language: Lang, saved: Option<string>)

  /** Mounting the provider: start in Danish and adopt the stored language only when it is valid. */
  function Mount(saved: Option<string>): (st: LangState)
    ensures st.saved == saved
    ensures ParseLang(saved).Some? ==> st.language == ParseLang(saved).value
    ensures ParseLang(saved).None? ==> st.language == DefaultLanguage
  {
    LangState(ParseLang(saved).GetOr(DefaultLanguage), saved)
  }

  /** `setLanguage`: switch and persist the choice. */
  function SetLanguage(st: LangState, lang: Lang): (st': LangState)
    ensures st'.language == lang && ParseLang(st'.saved) == Some(lang)
  {
    LangState(lang, Some(LangCode(lang)))
  }

  /** A chosen language survives a reload: mounting again with the stored value restores it. */
  lemma SetLanguageSurvivesReload(st: LangState, lang: Lang)
    ensures Mount(SetLanguage(st, lang).saved).language == lang
  {
  }

  /** The fallback chain for a looked-up entry: the language's text, else English, else the key. */
  function Resolve(entry: Option<Entry>, lang: Lang, key: string): (r: string)
    ensures entry.None? ==> r == key
    ensures r == "" ==> key == ""
  {
    match entry
    case None => key
    case Some(e) =>
      if Pick(e, lang) != "" then Pick(e, lang)
      else if e.en != "" then e.en
      else key
  }

  /**
   * `t`: a key the table lacks comes back unchanged; a key it holds gives
   * the current language's text, since every entry has both texts and the
   * fallbacks are never taken.
   */
  function T(lang: Lang, key: string): (r: string)
    ensures TableEntry(key).None? ==> r == key
    ensures TableEntry(key).Some? ==> r == Pick(TableEntry(key).value, lang) && r != ""
  {
    Resolve(TableEntry(key), lang, key)
  }

  /** Every category label is translated: `t(getCategoryKey(c))` is never the raw key, and in English it is the label. */
  lemma CategoryLabelsTranslated(c: Category, lang: Lang)
    ensures T(lang, GetCategoryKey(CategoryName(c))) != ""
    ensures T(En, GetCategoryKey(CategoryName(c))) == CategoryLabel(c)
  {
    CategoryKeysCovered();
  }

  /** Every default checklist name comes back untranslated, as the raw `checklist.item.` key. */
  lemma DefaultNamesUntranslated(lang: Lang)
    ensures forall i :: 0 <= i < |DefaultChecklist| ==> T(lang, DefaultChecklist[i].name) == DefaultChecklist[i].name
  {
    DefaultChecklistShape();
    NoChecklistItemKeys();
  }
}
