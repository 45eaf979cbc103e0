/** Un-freezing: the draft a version comes back as, when that passes the survey's own gates, and that
    freezing it once more is a fixpoint. */
module Refreeze {
  import opened Wrappers
  import opened Text
  import opened Styles
  import opened Questions
  import opened Drafts
  import opened StyleForm
  import opened Versions

  // --- un-freezing ------------------------------------------------------------

  /** A version read back follows exactly the parts it followed, and against any account draws its own
      parts as the version and the rest as the account. */
  lemma ReadBackFollowsTheSameParts(v: Version, account: Style)
    ensures v.AsDraft().FollowedParts() == v.follows
    ensures var s := v.AsDraft().ResolvedStyle(account);
      && s.theme == (if v.follows.theme then account.theme else v.style.theme)
      && s.header.Draws(if v.follows.header then account.header else v.style.header)
      && s.footer == (if v.follows.footer then account.footer else v.style.footer)
      && s.thanks == (if v.follows.thanks then account.thanks else v.style.thanks)
    ensures v.AsDraft().OwnStyleWords() == v.style.Words().Only(Not(v.follows))
    ensures v.AsDraft().OwnWordParts() == v.OwnDraft().OwnWordParts()
    ensures v.AsDraft().OwnStyleWords() == v.OwnDraft().OwnStyleWords()
    ensures v.AsDraft().localizations.Keys == v.Languages()
  {
    var d := v.OwnDraft();
    assert v.AsDraft().style == d.style && v.AsDraft().choice == d.choice;
    assert d.style.Words().Only(d.OwnWordParts()) == v.style.Words().Only(Not(v.follows));
  }

  /** Two questions of the version that share an identity say the same. */
  ghost predicate OneTextPerIdentity(questions: seq<Question>) {
    forall q, r :: q in questions && r in questions && q.identity == r.identity ==> q.text == r.text
  }

  predicate ThanksCover(t: ThankYou, source: ThankYou) {
    (source.message != "" ==> t.message != "") && (source.linkLabel != "" ==> t.linkLabel != "")
  }

  lemma QuestionsReadBack(v: Version, lang: string, among: seq<Question>, q: Question)
    requires q in among
    ensures q.identity in v.QuestionsIn(lang, among)
    ensures var t := v.QuestionsIn(lang, among)[q.identity];
      t.reviewed && t.text == v.WordingIn(lang, q.identity).text && t.options == v.WordingIn(lang, q.identity).options
      && exists r :: r in among && r.identity == q.identity && r.text == t.sourceText
  {
    var init, last := among[..|among| - 1], among[|among| - 1];
    assert among == init + [last];
    if last.identity != q.identity {
      QuestionsReadBack(v, lang, init, q);
      var r :| r in init && r.identity == q.identity && r.text == v.QuestionsIn(lang, init)[q.identity].sourceText;
      assert r in among;
    }
  }

  lemma NonEmptyHasOne<T>(s: seq<T>)
    requires s != []
    ensures exists x :: x in s
  {
    assert s[0] in s;
  }

  lemma PendingReadBack(v: Version, lang: string)
    requires lang in v.Languages() && OneTextPerIdentity(v.questions)
    ensures v.AsDraft().Pending(lang) == []
  {
    forall q | q in v.questions ensures !v.AsDraft().QuestionPending(lang, q) {
      QuestionsReadBack(v, lang, v.questions, q);
    }
    var pending := v.AsDraft().PendingAmong(lang, v.questions);
    if pending != [] {
      NonEmptyHasOne(pending);
      assert false;
    }
  }

  lemma NotPendingReadBack(v: Version, lang: string)
    requires lang in v.Languages() && v.AsDraft().Pending(lang) == []
    ensures OneTextPerIdentity(v.questions)
  {
    var d := v.AsDraft();
    forall q, r | q in v.questions && r in v.questions && q.identity == r.identity ensures q.text == r.text {
      assert d.PendingAmong(lang, v.questions) == [];
      assert q !in d.PendingAmong(lang, v.questions) && r !in d.PendingAmong(lang, v.questions);
      assert !d.QuestionPending(lang, q) && !d.QuestionPending(lang, r);
    }
  }

  /** What a version's own words are given in a language when it is read back. */
  function OwnWordsIn(v: Version, lang: string): StyleWords {
    if lang in v.styleTranslations then v.styleTranslations[lang].Only(v.OwnDraft().OwnWordParts()) else v.OwnDraft().OwnStyleWords()
  }

  ghost predicate ThanksGate(v: Version, lang: string) {
    v.OwnDraft().HasThanksToTranslate() && lang in v.thanksTranslations ==> ThanksCover(v.thanksTranslations[lang], v.thanks)
  }

  ghost predicate StyleGate(v: Version, lang: string) {
    !v.OwnDraft().OwnStyleWords().IsZero() ==> OwnWordsIn(v, lang).Covers(v.OwnDraft().OwnStyleWords())
  }

  lemma StyleReadBack(v: Version, lang: string)
    requires lang in v.Languages()
    ensures !v.AsDraft().StylePending(lang) <==> StyleGate(v, lang)
  {
    var d, own := v.AsDraft(), v.OwnDraft();
    ReadBackFollowsTheSameParts(v, NO_STYLE);
    assert d.localizations[lang].style == v.LocalizationIn(own, lang).style;
    OnlyTwice(own.style.Words(), own.OwnWordParts());
    if lang in v.styleTranslations {
      OnlyTwice(v.styleTranslations[lang], own.OwnWordParts());
    }
  }

  lemma ThanksReadBack(v: Version, lang: string)
    requires lang in v.Languages()
    ensures !v.AsDraft().ThanksPending(lang) <==> ThanksGate(v, lang)
  {
    assert v.AsDraft().localizations[lang].thanks == v.LocalizationIn(v.OwnDraft(), lang).thanks;
  }

  /** Exactly when a version read back passes the survey's own gates in one of its languages: its
      identities say one thing each, and what it carries there misses no word. */
  lemma ReadBackPassesTheGatesExactlyWhen(v: Version, lang: string)
    requires lang in v.Languages()
    ensures !v.AsDraft().SurveyPending(lang) <==>
      OneTextPerIdentity(v.questions) && ThanksGate(v, lang) && StyleGate(v, lang)
  {
    if OneTextPerIdentity(v.questions) {
      PendingReadBack(v, lang);
    } else if v.AsDraft().Pending(lang) == [] {
      NotPendingReadBack(v, lang);
    }
    StyleReadBack(v, lang);
    ThanksReadBack(v, lang);
  }

  lemma OnlyTwice(w: StyleWords, p: Parts)
    ensures w.Only(p).Only(p) == w.Only(p)
  {
  }

  // --- what a publish freezes -------------------------------------------------

  /** Resolved words are the disjoint union of own and followed words: every shown word
      belongs to exactly one of the two. */
  lemma ResolvedWordsAreADisjointUnion(d: Draft, account: Style)
    ensures d.ResolvedStyle(account).Words() == d.OwnStyleWords().With(account.Words(), d.FollowedWordParts())
    ensures Both(d.OwnWordParts(), d.FollowedWordParts()).IsZero()
    ensures d.ResolvedStyle(account).Words().Only(d.OwnWordParts()) == d.OwnStyleWords()
    ensures d.ResolvedStyle(account).Words().Only(d.FollowedWordParts()) == account.Words().Only(d.FollowedWordParts())
  {
  }

  /** The survey's own translated words where it has words of its own. */
  function OwnTranslated(d: Draft, lang: string): StyleWords
    requires lang in d.localizations && (!d.OwnStyleWords().IsZero() ==> d.localizations[lang].style.Some?)
  {
    if d.OwnStyleWords().IsZero() then NO_WORDS else d.localizations[lang].style.value.words.Only(d.OwnWordParts())
  }

  ghost predicate ReadyIn(d: Draft, account: Account, lang: string) {
    lang in d.localizations && !d.StylePending(lang) && !d.AccountStylePending(account, lang)
  }

  lemma FitsInParts(w: StyleWords, source: StyleWords, p: Parts)
    requires w.Fits(source)
    ensures w.Only(p).Fits(source.Only(p))
  {
  }

  /** In a language that is ready, the own words fit and cover the survey's, and the account's fit and
      cover the account's. */
  lemma ReadyWordsFit(d: Draft, account: Account, lang: string)
    requires ReadyIn(d, account, lang) && DraftFits(d) && AccountFits(account)
    ensures !d.OwnStyleWords().IsZero() ==> d.localizations[lang].style.Some?
    ensures OwnTranslated(d, lang).Covers(d.OwnStyleWords()) && OwnTranslated(d, lang).Fits(d.OwnStyleWords())
    ensures var f := d.FollowedWordParts(); var source := account.style.Words().Only(f);
      !source.IsZero() ==>
        && lang in account.localizations
        && account.localizations[lang].words.Only(f).Covers(source)
        && account.localizations[lang].words.Only(f).Fits(source)
  {
    if !d.OwnStyleWords().IsZero() {
      var t := d.localizations[lang].style.value;
      FitsInParts(t.words, t.source, d.OwnWordParts());
    }
    var f := d.FollowedWordParts();
    if !account.style.Words().Only(f).IsZero() {
      var t := account.localizations[lang];
      FitsInParts(t.words, t.source, f);
    }
  }

  /** Words laid together from two disjoint sides fit and cover what the sources laid together have. */
  lemma LaidTogether(own: StyleWords, ownSource: StyleWords, account: StyleWords, source: StyleWords, ownParts: Parts, followed: Parts)
    requires own.Covers(ownSource) && own.Fits(ownSource)
    requires own.Only(ownParts) == own && ownSource.Only(ownParts) == ownSource && Both(ownParts, followed).IsZero()
    requires account.Only(followed).Covers(source.Only(followed)) && account.Only(followed).Fits(source.Only(followed))
    ensures own.With(account, followed).Covers(ownSource.With(source, followed))
    ensures own.With(account, followed).Fits(ownSource.With(source, followed))
  {
  }

  /** In a ready language the resolved words cover and fit the resolved style's words, and there are
      none to freeze exactly when the style has none. */
  lemma ReadyWordsResolve(d: Draft, account: Account, lang: string)
    requires ReadyIn(d, account, lang) && DraftFits(d) && AccountFits(account)
    ensures var shown := d.ResolvedStyle(account.style).Words();
      && (d.ResolvedStyleWords(account, lang).Some? <==> !shown.IsZero())
      && FrozenWords(d, account, lang) == d.ResolvedStyleWords(account, lang)
      && (!shown.IsZero() ==>
            var w := d.ResolvedStyleWords(account, lang).value;
            w.Covers(shown) && w.Fits(shown))
  {
    ReadyWordsFit(d, account, lang);
    ResolvedWordsAreADisjointUnion(d, account.style);
    var own, f := d.OwnWordParts(), d.FollowedWordParts();
    var source := account.style.Words();
    OnlyTwice(d.style.Words(), own);
    if lang in account.localizations && !source.Only(f).IsZero() {
      if !d.OwnStyleWords().IsZero() {
        OnlyTwice(d.localizations[lang].style.value.words, own);
      }
      LaidTogether(OwnTranslated(d, lang), d.OwnStyleWords(), account.localizations[lang].words, source, own, f);
    }
  }

  /** When the gate is passed, in every language of the survey with words to translate the localized
      style exists, shows exactly the resolved words, has a word precisely where the original has one,
      and keeps the theme, the name, the pictures, the addresses and the number of links. */
  lemma ReadyLanguagesShowTheirWords(d: Draft, account: Account, lang: string)
    requires d.ReadyToPublish(account) == None && DraftFits(d) && AccountFits(account)
    requires lang in d.localizations && !d.ResolvedStyle(account.style).Words().IsZero()
    ensures d.ResolvedLocalizedStyle(account, lang).Some?
    ensures var s := d.ResolvedStyle(account.style); var t := d.ResolvedLocalizedStyle(account, lang).value;
      && d.ResolvedStyleWords(account, lang) == Some(t.Words())
      && t.Words().Covers(s.Words()) && t.Words().Fits(s.Words())
      && t.theme == s.theme && t.header.name == s.header.name
      && t.header.banner == s.header.banner && t.header.logo == s.header.logo
      && t.thanks.picture == s.thanks.picture && t.thanks.image == s.thanks.image
      && |t.header.links| == |s.header.links| && |t.footer.links| == |s.footer.links|
      && (forall i :: 0 <= i < |s.header.links| ==> t.header.links[i].url == s.header.links[i].url)
      && (forall i :: 0 <= i < |s.footer.links| ==> t.footer.links[i].url == s.footer.links[i].url)
  {
    assert !d.SurveyPending(lang);
    assert lang !in d.HeldLanguages(account);
    ReadyWordsResolve(d, account, lang);
    WordedStyleShowsTheTranslation(d.ResolvedStyle(account.style), d.ResolvedStyleWords(account, lang).value);
  }
}
