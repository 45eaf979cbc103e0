/** The account's style as its pages change it, in place. */
module AccountStyles {
  import opened Wrappers
  import opened Text
  import opened Styles
  import opened Drafts

  class AccountStyle {
    var style: Style
    var localizations: map<string, LocalizedStyle>

    function Value(): Account
      reads this
    {
      Account(style, localizations)
    }

    constructor (a: Account)
      ensures Value() == a
    {
      style, localizations := a.style, a.localizations;
    }

    method SetStyle(s: Style, addresses: AddressRule) returns (refused: Option<Error>)
      modifies this`style
      ensures match old(Value()).SetStyle(s, addresses)
              case Ok(a) => refused == None && Value() == a
              case Err(e) => refused == Some(e) && Value() == old(Value())
    {
      var settled := s.(thanks := s.thanks.Settle());
      refused := settled.Validate(addresses);
      if refused.None? {
        style := settled;
      }
    }

    /** A translation made against a wording changed since is refused, and nothing is stored. */
    method SetTranslationOf(source: Option<StyleWords>, lang: string, words: StyleWords, reviewed: bool) returns (refused: Option<Error>)
      modifies this`localizations
      ensures match old(Value()).SetTranslationOf(source, lang, words, reviewed)
              case Ok(a) => refused == None && Value() == a
              case Err(e) => refused == Some(e) && Value() == old(Value())
    {
      if source.Some? && source.value != style.Words() {
        return Some(AccountWordsChanged);
      }
      if !ValidLang(lang) {
        return Some(LanguageInvalid);
      }
      match NewLocalizedStyle(style.Words(), words, reviewed)
      case Err(e) => return Some(e);
      case Ok(t) =>
        localizations := localizations[lang := t];
        return None;
    }

    method RemoveLanguage(lang: string)
      modifies this`localizations
      ensures Value() == old(Value()).RemoveLanguage(lang)
    {
      localizations := localizations - {lang};
    }
  }

  /** A translation saved as read, naming the wording it was made from, is of the account's words as
      they stand: a saved reading is never beside words that changed under it. */
  lemma TranslationsAreOfTheWordsTheyName(a: Account, source: StyleWords, lang: string, words: StyleWords)
    ensures var r := a.SetTranslationOf(Some(source), lang, words, true);
      r.Ok? ==>
        && r.value.localizations[lang].source == source && source == r.value.style.Words()
        && (r.value.localizations[lang].words.Covers(source) <==> !r.value.PendingFor(lang, ALL_PARTS) || source.IsZero())
  {
    var r := a.SetTranslationOf(Some(source), lang, words, true);
    if r.Ok? {
      AllPartsAreAll(r.value.localizations[lang].words);
      AllPartsAreAll(source);
      if source.IsZero() {
        assert r.value.localizations[lang].words.Fits(NO_WORDS);
      }
    }
  }

  lemma AllPartsAreAll(w: StyleWords)
    ensures w.Only(ALL_PARTS) == w
  {
  }
}
