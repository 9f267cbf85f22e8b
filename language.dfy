/** The interface language: every choice is narrowed to English or Swedish, applied to the
    translation library and remembered in browser storage. */
module Language {
  import opened Wrappers
  import opened Strings

  const English: string := "en"
  const Swedish: string := "sv"
  const StorageKey: string := "i18nextLng"

  /** `lang === 'sv' ? 'sv' : 'en'`: only the exact code `sv` selects Swedish. */
  function NormalizeChoice(lang: string): (r: string)
    ensures r == English || r == Swedish
    ensures r == Swedish <==> lang == Swedish
  {
    if lang == Swedish then Swedish else English
  }

  /** The start-up language: the saved code, else the library's detected code, else `en`
      (empty strings count as missing); Swedish exactly when that code starts with `sv`. */
  function NormalizeSaved(saved: Option<string>, detected: string): (r: string)
    ensures r == English || r == Swedish
    ensures saved.Some? && saved.value != [] ==> (r == Swedish <==> StartsWith(saved.value, Swedish))
    ensures (saved.None? || saved.value == []) ==> (r == Swedish <==> StartsWith(detected, Swedish))
  {
    var code := if saved.Some? && saved.value != [] then saved.value else if detected != [] then detected else English;
    assert English[0] != Swedish[0];
    if StartsWith(code, Swedish) then Swedish else English
  }

  /** Both narrowings leave an already narrowed code as it is. */
  lemma NormalizeIdempotent(lang: string, saved: Option<string>, detected: string)
    ensures NormalizeChoice(NormalizeChoice(lang)) == NormalizeChoice(lang)
    ensures NormalizeSaved(Some(NormalizeSaved(saved, detected)), detected) == NormalizeSaved(saved, detected)
    ensures NormalizeSaved(Some(NormalizeChoice(lang)), detected) == NormalizeChoice(lang)
  {
    assert English[0] != Swedish[0];
  }

  /** The language provider's state: the current code, the code the translation library uses,
      and browser storage. */
  class LanguageState {
    var currentLanguage: string
    var libraryLanguage: string
    var storage: map<string, string>

    /** The first render: `i18n.language || 'en'`, not yet narrowed. */
    constructor(detected: string, storage: map<string, string>)
      ensures currentLanguage == (if detected != [] then detected else English)
      ensures libraryLanguage == detected && this.storage == storage
    {
      currentLanguage := if detected != [] then detected else English;
      libraryLanguage := detected;
      this.storage := storage;
    }

    /** The mount effect: narrows the saved or detected code and applies it. */
    method Mount()
      modifies this
      ensures currentLanguage == NormalizeSaved(if StorageKey in old(storage) then Some(old(storage)[StorageKey]) else None, old(libraryLanguage))
      ensures libraryLanguage == currentLanguage && storage == old(storage)
    {
      var saved := if StorageKey in storage then Some(storage[StorageKey]) else None;
      var language := NormalizeSaved(saved, libraryLanguage);
      currentLanguage := language;
      libraryLanguage := language;
    }

    /** `changeLanguage`: the narrowed code becomes the library's, the current and the stored
        language. */
    method ChangeLanguage(lang: string)
      modifies this
      ensures currentLanguage == NormalizeChoice(lang) && libraryLanguage == currentLanguage
      ensures storage == old(storage)[StorageKey := currentLanguage]
    {
      var language := NormalizeChoice(lang);
      libraryLanguage := language;
      currentLanguage := language;
      storage := storage[StorageKey := language];
    }
  }

  /** A chosen language survives a reload: a new provider over the stored value starts, once
      mounted, in the language that was chosen. */
  method ChoiceSurvivesReload(detected: string, storage: map<string, string>, lang: string, detectedLater: string)
    returns (chosen: string, afterReload: string)
    ensures chosen == NormalizeChoice(lang) && afterReload == chosen
  {
    var before := new LanguageState(detected, storage);
    before.ChangeLanguage(lang);
    chosen := before.currentLanguage;
    var after := new LanguageState(detectedLater, before.storage);
    after.Mount();
    afterReload := after.currentLanguage;
    NormalizeIdempotent(lang, None, detectedLater);
  }
}
