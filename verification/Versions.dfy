/** What publishing freezes of a draft, how a frozen version becomes a draft again, and what comes of
    freezing that against the account as it is by then. */
module Versions {
  import opened Wrappers
  import opened Text
  import opened Styles
  import opened Questions
  import opened Drafts

  datatype Wording = Wording(text: string, options: seq<string>)

  datatype Version = Version(questions: seq<Question>, questionTranslations: map<string, map<string, Wording>>,
                             thanks: ThankYou, thanksTranslations: map<string, ThankYou>,
                             style: Style, styleTranslations: map<string, StyleWords>, follows: Parts) {

    function Languages(): set<string> {
      questionTranslations.Keys + thanksTranslations.Keys + styleTranslations.Keys
    }

    /** The version's own parts, with a header or a footer it neither shows nor follows turned off. */
    function OwnDraft(): Draft {
      var noHeader := !follows.header && style.header.IsZero();
      var noFooter := !follows.footer && style.footer.IsZero();
      Draft(questions, map[], thanks,
            Style(if follows.theme then "" else style.theme,
                  if follows.header || noHeader then NO_HEADER else style.header,
                  if follows.footer || noFooter then NO_FOOTER else style.footer,
                  if follows.thanks then OWL else style.thanks),
            StyleChoice(Parts(!follows.theme, !follows.header && !noHeader, !follows.footer && !noFooter, !follows.thanks),
                        noHeader, noFooter))
    }

    function WordingIn(lang: string, identity: string): Wording {
      if lang in questionTranslations && identity in questionTranslations[lang] then questionTranslations[lang][identity]
      else Wording("", [])
    }

    /** One language of the version as a draft's: everything read, and a page the version showed in
        the original given the original. */
    function LocalizationIn(own: Draft, lang: string): Localization {
      Localization(QuestionsIn(lang, questions),
                   if !own.HasThanksToTranslate() then None
                   else
                     var t := if lang in thanksTranslations then thanksTranslations[lang] else thanks;
                     Some(LocalizedThanks(t.message, t.linkLabel, true, thanks.message, thanks.linkLabel)),
                   if own.OwnStyleWords().IsZero() then None
                   else
                     var w := if lang in styleTranslations then styleTranslations[lang] else own.OwnStyleWords();
                     Some(LocalizedStyle(w.Only(own.OwnWordParts()), true, own.OwnStyleWords())))
    }

    function QuestionsIn(lang: string, among: seq<Question>): (m: map<string, LocalizedQuestion>)
      ensures m.Keys == set q | q in among :: q.identity
    {
      if among == [] then map[]
      else
        var q := among[|among| - 1];
        assert among == among[..|among| - 1] + [q];
        var w := WordingIn(lang, q.identity);
        QuestionsIn(lang, among[..|among| - 1])[q.identity := LocalizedQuestion(w.text, w.options, true, q.text)]
    }

    /** The draft a version comes back as. */
    function AsDraft(): Draft {
      var own := OwnDraft();
      own.(localizations := map lang | lang in Languages() :: LocalizationIn(own, lang))
    }
  }

  /** What a freeze stores of a style's words in one language, if anything. */
  function FrozenWords(d: Draft, account: Account, lang: string): Option<StyleWords> {
    match d.ResolvedStyleWords(account, lang)
    case None => None
    case Some(w) => if w.IsZero() then None else Some(w)
  }

  // --- the freeze -------------------------------------------------------------

  /** The wordings a version stores in one language: an empty one is not stored. */
  function StoredWordings(d: Draft, lang: string): map<string, Wording>
    requires lang in d.localizations
  {
    var known := d.localizations[lang].questions;
    map id | id in known && d.Knows(id) && known[id].text != "" :: Wording(known[id].text, known[id].options)
  }

  function FreezeQuestionTranslations(d: Draft): map<string, map<string, Wording>> {
    map lang | lang in d.localizations && StoredWordings(d, lang) != map[] :: StoredWordings(d, lang)
  }

  function FreezeThanksTranslations(d: Draft): map<string, ThankYou> {
    map lang | lang in d.localizations && d.LocalizedThanksIn(lang).Some? :: d.LocalizedThanksIn(lang).value
  }

  function FreezeStyleTranslations(d: Draft, account: Account): map<string, StyleWords> {
    map lang | lang in d.localizations && FrozenWords(d, account, lang).Some? :: FrozenWords(d, account, lang).value
  }

  function FrozenQuestions(questions: seq<Question>): (out: seq<Question>)
    ensures |out| == |questions|
  {
    seq(|questions|, i requires 0 <= i < |questions| => questions[i].Frozen())
  }

  /** A draft published against an account, as the version reads back. */
  function Freeze(d: Draft, account: Account): Version {
    var style, follows := d.ResolvedStyle(account.style), d.FollowedParts();
    var none := style.IsZero() && follows.IsZero();
    Version(FrozenQuestions(d.questions), FreezeQuestionTranslations(d), d.thanks, FreezeThanksTranslations(d),
            if none then NO_STYLE else style,
            if none then map[] else FreezeStyleTranslations(d, account),
            if none then NO_PARTS else follows)
  }

  // --- the refresh ------------------------------------------------------------

  datatype Refresh = Refresh(changes: bool, blockedIn: Option<string>)

  /** Freezing d against account would leave the style and its words as the version has them. */
  predicate DrawnAs(v: Version, d: Draft, account: Account) {
    && v.style.Draws(d.ResolvedStyle(account.style))
    && forall lang <- v.Languages() ::
         FrozenWords(d, account, lang) == if lang in v.styleTranslations then Some(v.styleTranslations[lang]) else None
  }

  function RefreshAgainst(v: Version, account: Account): Refresh {
    if v.follows.IsZero() then Refresh(false, None)
    else
      var d := v.AsDraft();
      Refresh(!DrawnAs(v, d, account),
              match d.ReadyToPublish(account)
              case Some(AccountStyleUnread(lang)) => Some(lang)
              case _ => None)
  }

  predicate ChangedBetween(v: Version, before: Account, after: Account) {
    !v.follows.IsZero() &&
    var d := v.AsDraft();
    !(d.ResolvedStyle(before.style).Draws(d.ResolvedStyle(after.style)) &&
      forall lang <- v.Languages() :: FrozenWords(d, before, lang) == FrozenWords(d, after, lang))
  }
}
