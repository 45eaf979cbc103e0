/** Publishing is a fixpoint: what a publish freezes is up to date with the account it was frozen
    against, and publishing it again changes only what it follows. */
module Fixpoint {
  import opened Wrappers
  import opened Text
  import opened Styles
  import opened Questions
  import opened Drafts
  import opened StyleForm
  import opened Versions
  import opened Refreeze

  /** What every version a publish makes satisfies, and what publishing it again needs. */
  ghost predicate WellFrozen(v: Version) {
    && OneTextPerIdentity(v.questions)
    && (forall q <- v.questions :: q.Frozen() == q)
    && (forall lang <- v.questionTranslations.Keys :: GoodWordings(v, v.questionTranslations[lang]))
    && (forall lang <- v.thanksTranslations.Keys ::
          v.OwnDraft().HasThanksToTranslate() && ThanksCover(v.thanksTranslations[lang], v.thanks)
          && v.thanksTranslations[lang].linkURL == v.thanks.linkURL)
    && (v.OwnDraft().HasThanksToTranslate() ==> v.Languages() <= v.thanksTranslations.Keys)
    && (forall lang <- v.styleTranslations.Keys :: v.styleTranslations[lang].Covers(v.style.Words()) && v.styleTranslations[lang].Fits(v.style.Words()))
    && (!v.style.Words().IsZero() ==> v.Languages() <= v.styleTranslations.Keys)
    && EveryLinkLabelled(v.style)
  }

  /** Wordings are stored only where there are some, of questions the version has. */
  ghost predicate GoodWordings(v: Version, wordings: map<string, Wording>) {
    wordings != map[] && forall id <- wordings.Keys :: wordings[id].text != "" && exists q :: q in v.questions && q.identity == id
  }

  // --- the freeze makes it so -------------------------------------------------

  /** The conditions a draft is published under, beyond its gate. */
  ghost predicate Publishable(d: Draft, account: Account) {
    && d.ReadyToPublish(account) == None && DraftFits(d) && AccountFits(account)
    && OneTextPerIdentity(d.questions) && EveryLinkLabelled(d.ResolvedStyle(account.style))
  }

  /** A style that shows nothing has no words. */
  lemma NoStyleNoWords(s: Style)
    requires s.IsZero()
    ensures s.Words() == NO_WORDS && NO_STYLE.Words() == NO_WORDS
  {
  }

  lemma FrozenStyleHasTheWords(d: Draft, account: Account)
    ensures Freeze(d, account).style.Words() == d.ResolvedStyle(account.style).Words()
    ensures Freeze(d, account).style.Draws(d.ResolvedStyle(account.style))
    ensures Freeze(d, account).follows == d.FollowedParts()
  {
    if d.ResolvedStyle(account.style).IsZero() {
      NoStyleNoWords(d.ResolvedStyle(account.style));
    }
  }

  /** Publishing a ready draft freezes, in each of its languages, exactly the resolved words, and none
      where the style has none. */
  lemma FrozenStyleTranslationsAre(d: Draft, account: Account, lang: string)
    requires Publishable(d, account) && lang in d.localizations
    ensures var v := Freeze(d, account);
      && (lang in v.styleTranslations <==> !v.style.Words().IsZero())
      && (lang in v.styleTranslations ==>
            && Some(v.styleTranslations[lang]) == FrozenWords(d, account, lang)
            && v.styleTranslations[lang].Covers(v.style.Words()) && v.styleTranslations[lang].Fits(v.style.Words()))
  {
    assert !d.SurveyPending(lang) && lang !in d.HeldLanguages(account);
    ReadyWordsResolve(d, account, lang);
    FrozenStyleHasTheWords(d, account);
    if d.ResolvedStyle(account.style).IsZero() {
      NoStyleNoWords(d.ResolvedStyle(account.style));
    }
  }

  lemma FrozenThanksAre(d: Draft, account: Account, lang: string)
    requires d.ReadyToPublish(account) == None && lang in d.localizations
    ensures var v := Freeze(d, account);
      && (lang in v.thanksTranslations <==> d.HasThanksToTranslate())
      && (lang in v.thanksTranslations ==> ThanksCover(v.thanksTranslations[lang], v.thanks) && v.thanksTranslations[lang].linkURL == v.thanks.linkURL)
  {
    assert !d.SurveyPending(lang);
  }

  lemma FrozenQuestionsAre(d: Draft, account: Account)
    ensures var v := Freeze(d, account);
      && (forall q :: q in v.questions <==> exists r :: r in d.questions && q == r.Frozen())
      && (OneTextPerIdentity(d.questions) ==> OneTextPerIdentity(v.questions))
      && (forall q <- v.questions :: q.Frozen() == q)
      && (forall lang <- v.questionTranslations.Keys :: GoodWordings(v, v.questionTranslations[lang]))
  {
    var v := Freeze(d, account);
    forall q ensures q in v.questions <==> exists r :: r in d.questions && q == r.Frozen() {
      if q in v.questions {
        var i :| 0 <= i < |v.questions| && v.questions[i] == q;
        assert d.questions[i] in d.questions && q == d.questions[i].Frozen();
      }
      if r :| r in d.questions && q == r.Frozen() {
        var i :| 0 <= i < |d.questions| && d.questions[i] == r;
        assert v.questions[i] == q;
      }
    }
    forall q <- v.questions ensures q.Frozen() == q {
      var r :| r in d.questions && q == r.Frozen();
      FrozenTwiceIsFrozen(r);
    }
    forall lang <- v.questionTranslations.Keys ensures GoodWordings(v, v.questionTranslations[lang]) {
      forall id <- v.questionTranslations[lang].Keys ensures exists q :: q in v.questions && q.identity == id {
        var r :| r in d.questions && r.identity == id;
        assert r.Frozen() in v.questions && r.Frozen().identity == id;
      }
    }
  }

  lemma PublishingFreezesWell(d: Draft, account: Account)
    requires Publishable(d, account)
    ensures WellFrozen(Freeze(d, account))
    ensures Freeze(d, account).Languages() <= d.localizations.Keys
  {
    FrozenQuestionsAre(d, account);
    FrozenStyleHasTheWords(d, account);
    FrozenLanguages(d, account);
    FrozenThanksTranslationsWell(d, account);
    FrozenStyleTranslationsWell(d, account);
  }

  lemma FrozenLanguages(d: Draft, account: Account)
    ensures Freeze(d, account).Languages() <= d.localizations.Keys
  {
    hide FrozenWords, StoredWordings, Draft.LocalizedThanksIn, Draft.ResolvedStyle, Draft.FollowedParts, Style.IsZero;
  }

  lemma FrozenThanksTranslationsWell(d: Draft, account: Account)
    requires Publishable(d, account)
    ensures var v := Freeze(d, account);
      && (forall lang <- v.thanksTranslations.Keys ::
            v.OwnDraft().HasThanksToTranslate() && ThanksCover(v.thanksTranslations[lang], v.thanks)
            && v.thanksTranslations[lang].linkURL == v.thanks.linkURL)
      && (v.OwnDraft().HasThanksToTranslate() ==> v.Languages() <= v.thanksTranslations.Keys)
  {
    var v := Freeze(d, account);
    FrozenLanguages(d, account);
    assert v.OwnDraft().HasThanksToTranslate() == d.HasThanksToTranslate();
    forall lang | lang in d.localizations
      ensures lang in v.thanksTranslations <==> d.HasThanksToTranslate()
      ensures lang in v.thanksTranslations ==> ThanksCover(v.thanksTranslations[lang], v.thanks) && v.thanksTranslations[lang].linkURL == v.thanks.linkURL
    {
      FrozenThanksAre(d, account, lang);
    }
  }

  lemma FrozenStyleTranslationsWell(d: Draft, account: Account)
    requires Publishable(d, account)
    ensures var v := Freeze(d, account);
      && (forall lang <- v.styleTranslations.Keys ::
            v.styleTranslations[lang].Covers(v.style.Words()) && v.styleTranslations[lang].Fits(v.style.Words()))
      && (!v.style.Words().IsZero() ==> v.Languages() <= v.styleTranslations.Keys)
      && EveryLinkLabelled(v.style)
  {
    var v := Freeze(d, account);
    FrozenLanguages(d, account);
    forall lang | lang in d.localizations
      ensures lang in v.styleTranslations <==> !v.style.Words().IsZero()
      ensures lang in v.styleTranslations ==> v.styleTranslations[lang].Covers(v.style.Words()) && v.styleTranslations[lang].Fits(v.style.Words())
    {
      FrozenStyleTranslationsAre(d, account, lang);
    }
  }

  // --- reading back -----------------------------------------------------------

  /** Whatever a publish made can be published again as far as the survey goes: no gate of the survey's
      own is ever shut, so only a language of the account's can hold a refresh back. */
  lemma WellFrozenReadsBackReady(v: Version)
    requires WellFrozen(v)
    ensures forall lang :: !v.AsDraft().SurveyPending(lang)
    ensures DraftFits(v.AsDraft())
    ensures forall account :: v.AsDraft().ReadyToPublish(account) != Some(UnreviewedTranslation)
  {
    var d, own := v.AsDraft(), v.OwnDraft();
    ReadBackFollowsTheSameParts(v, NO_STYLE);
    forall lang ensures !d.SurveyPending(lang)
      ensures lang in d.localizations && d.localizations[lang].style.Some? ==> ReadFits(d.localizations[lang].style.value)
    {
      if lang in v.Languages() {
        OwnWordsInFit(v, lang);
        ReadBackPassesTheGatesExactlyWhen(v, lang);
        assert d.localizations[lang] == v.LocalizationIn(own, lang);
      }
    }
  }

  /** The own words of a version in each of its languages fit and cover the original's. */
  lemma OwnWordsInFit(v: Version, lang: string)
    requires WellFrozen(v) && lang in v.Languages()
    ensures OwnWordsIn(v, lang).Covers(v.OwnDraft().OwnStyleWords()) && OwnWordsIn(v, lang).Fits(v.OwnDraft().OwnStyleWords())
    ensures OwnWordsIn(v, lang).Only(v.OwnDraft().OwnWordParts()) == OwnWordsIn(v, lang)
  {
    var own := v.OwnDraft();
    OnlyTwice(own.style.Words(), own.OwnWordParts());
    assert own.OwnStyleWords() == v.style.Words().Only(own.OwnWordParts());
    if lang in v.styleTranslations {
      OnlyTwice(v.styleTranslations[lang], own.OwnWordParts());
      FitsInParts(v.styleTranslations[lang], v.style.Words(), own.OwnWordParts());
    } else {
      LabelledWordsCoverThemselves(own.style, own.OwnWordParts());
    }
  }

  lemma LabelledWordsCoverThemselves(s: Style, p: Parts)
    requires EveryLinkLabelled(s)
    ensures s.Words().Only(p).Covers(s.Words().Only(p)) && s.Words().Only(p).Fits(s.Words().Only(p))
  {
    assert forall l <- Labels(s.header.links) :: l != "";
    assert forall l <- Labels(s.footer.links) :: l != "";
  }

  // --- the fixpoint -----------------------------------------------------------

  /** Laying a version's own words and an account's together again gives the words it froze. */
  lemma LaidTogetherAgain(t: StyleWords, own: Parts, again: Parts, followed: Parts, a: StyleWords, source: StyleWords)
    requires again.Within(own) && Both(own, followed).IsZero()
    requires t.Only(own).Fits(source.Only(own)) && source.Only(own) == source.Only(again)
    ensures t.Only(own).Only(again) == t.Only(own)
    ensures t.Only(own).With(a, followed).Only(again) == t.Only(own)
    ensures NO_WORDS.With(a, followed).Only(again) == NO_WORDS
  {
  }

  /** The resolved words of a ready language, spelled out. */
  lemma ReadyWordsAre(d: Draft, account: Account, lang: string)
    requires ReadyIn(d, account, lang) && DraftFits(d) && AccountFits(account)
    ensures !d.OwnStyleWords().IsZero() ==> d.localizations[lang].style.Some?
    ensures var f := d.FollowedWordParts(); var source := account.style.Words().Only(f);
      FrozenWords(d, account, lang) ==
      if d.OwnStyleWords().IsZero() && source.IsZero() then None
      else if source.IsZero() then Some(OwnTranslated(d, lang))
      else if lang in account.localizations then Some(OwnTranslated(d, lang).With(account.localizations[lang].words, f))
      else None
  {
    ReadyWordsFit(d, account, lang);
    ReadyWordsResolve(d, account, lang);
  }

  /** A version read back is ready in a language wherever the account is read for what it follows. */
  lemma ReadBackReadyIn(v: Version, account: Account, lang: string)
    requires WellFrozen(v) && lang in v.Languages() && !account.PendingFor(lang, v.follows.(theme := false))
    ensures ReadyIn(v.AsDraft(), account, lang)
    ensures OwnTranslated(v.AsDraft(), lang) == if v.OwnDraft().OwnStyleWords().IsZero() then NO_WORDS else OwnWordsIn(v, lang)
  {
    WellFrozenReadsBackReady(v);
    ReadBackFollowsTheSameParts(v, NO_STYLE);
    OwnWordsInFit(v, lang);
    assert !v.AsDraft().SurveyPending(lang);
    assert v.AsDraft().localizations[lang] == v.LocalizationIn(v.OwnDraft(), lang);
  }

  lemma SameParts(d: Draft, account: Account)
    ensures var v := Freeze(d, account);
      && v.AsDraft().FollowedWordParts() == d.FollowedWordParts()
      && v.AsDraft().OwnWordParts().Within(d.OwnWordParts())
      && v.AsDraft().OwnStyleWords() == d.OwnStyleWords()
      && d.style.Words().Only(d.OwnWordParts()) == d.style.Words().Only(v.AsDraft().OwnWordParts())
  {
    var v := Freeze(d, account);
    ReadBackFollowsTheSameParts(v, NO_STYLE);
    FrozenStyleHasTheWords(d, account);
    ResolvedWordsAreADisjointUnion(d, account.style);
    if d.ResolvedStyle(account.style).IsZero() {
      NoStyleNoWords(d.ResolvedStyle(account.style));
    }
  }

  lemma SameSidesFreezeTheSame(d: Draft, b: Draft, account: Account, lang: string)
    requires ReadyIn(d, account, lang) && ReadyIn(b, account, lang) && DraftFits(d) && DraftFits(b) && AccountFits(account)
    requires d.OwnStyleWords() == b.OwnStyleWords() && d.FollowedWordParts() == b.FollowedWordParts()
    requires !d.OwnStyleWords().IsZero() ==> d.localizations[lang].style.Some? && b.localizations[lang].style.Some?
    requires OwnTranslated(d, lang) == OwnTranslated(b, lang)
    ensures FrozenWords(d, account, lang) == FrozenWords(b, account, lang)
  {
    ReadyWordsAre(d, account, lang);
    ReadyWordsAre(b, account, lang);
  }

  lemma ReadyMeansReadyIn(d: Draft, account: Account, lang: string)
    requires d.ReadyToPublish(account) == None && lang in d.localizations
    ensures ReadyIn(d, account, lang)
  {
    assert !d.SurveyPending(lang) && lang !in d.HeldLanguages(account);
  }

  lemma ReadyMeansTranslated(d: Draft, account: Account, lang: string)
    requires ReadyIn(d, account, lang)
    ensures !d.OwnStyleWords().IsZero() ==> d.localizations[lang].style.Some?
  {
  }

  lemma RefrozenIsReady(d: Draft, account: Account, lang: string)
    requires Publishable(d, account) && lang in Freeze(d, account).Languages()
    ensures ReadyIn(d, account, lang) && ReadyIn(Freeze(d, account).AsDraft(), account, lang)
    ensures DraftFits(Freeze(d, account).AsDraft()) && WellFrozen(Freeze(d, account))
  {
    var v := Freeze(d, account);
    PublishingFreezesWell(d, account);
    ReadyMeansReadyIn(d, account, lang);
    assert v.follows.(theme := false) == d.FollowedWordParts() by { FrozenStyleHasTheWords(d, account); }
    ReadBackReadyIn(v, account, lang);
    WellFrozenReadsBackReady(v);
  }

  /** In each language a version went out in, reading it back and freezing its words against the
      account it was frozen against gives the words it has. */
  lemma RefrozenWordsAreTheSame(d: Draft, account: Account, lang: string)
    requires Publishable(d, account) && lang in Freeze(d, account).Languages()
    ensures var v := Freeze(d, account);
      && ReadyIn(v.AsDraft(), account, lang)
      && FrozenWords(v.AsDraft(), account, lang) == (if lang in v.styleTranslations then Some(v.styleTranslations[lang]) else None)
  {
    var v := Freeze(d, account);
    RefrozenIsReady(d, account, lang);
    SameParts(d, account);
    ReadyMeansTranslated(d, account, lang);
    ReadyMeansTranslated(v.AsDraft(), account, lang);
    RefrozenOwnWords(d, account, lang);
    SameSidesFreezeTheSame(d, v.AsDraft(), account, lang);
    FrozenStyleTranslationsAre(d, account, lang);
    FrozenStyleHasTheWords(d, account);
    ReadyWordsResolve(d, account, lang);
  }

  lemma RefrozenOwnWords(d: Draft, account: Account, lang: string)
    requires Publishable(d, account) && lang in Freeze(d, account).Languages() && ReadyIn(d, account, lang)
    requires WellFrozen(Freeze(d, account)) && ReadyIn(Freeze(d, account).AsDraft(), account, lang)
    requires !d.OwnStyleWords().IsZero() ==> d.localizations[lang].style.Some?
    requires var b := Freeze(d, account).AsDraft(); !b.OwnStyleWords().IsZero() ==> b.localizations[lang].style.Some?
    ensures OwnTranslated(Freeze(d, account).AsDraft(), lang) == OwnTranslated(d, lang)
  {
    var v := Freeze(d, account);
    SameParts(d, account);
    ReadBackFollowsTheSameParts(v, NO_STYLE);
    if !d.OwnStyleWords().IsZero() {
      var t := d.localizations[lang].style.value;
      var own, again, f := d.OwnWordParts(), v.AsDraft().OwnWordParts(), d.FollowedWordParts();
      ResolvedWordsAreADisjointUnion(d, account.style);
      ReadyWordsFit(d, account, lang);
      FrozenStyleTranslationsAre(d, account, lang);
      FrozenStyleHasTheWords(d, account);
      ReadyWordsAre(d, account, lang);
      ReadBackReadyIn(v, account, lang);
      LaidTogetherAgain(t.words, own, again, f,
                        if lang in account.localizations then account.localizations[lang].words else NO_WORDS, d.style.Words());
    }
  }

  /** A version just published, of any ready draft, is up to date with the account it was published
      against, and nothing holds it. */
  lemma PublishedIsUpToDate(d: Draft, account: Account)
    requires Publishable(d, account)
    ensures RefreshAgainst(Freeze(d, account), account) == Refresh(false, None)
  {
    var v := Freeze(d, account);
    PublishingFreezesWell(d, account);
    WellFrozenReadsBackReady(v);
    assert v.AsDraft().localizations.Keys == v.Languages() by { ReadBackFollowsTheSameParts(v, account.style); }
    ReadBackDrawsTheVersion(d, account);
    forall lang | lang in v.Languages()
      ensures FrozenWords(v.AsDraft(), account, lang) == if lang in v.styleTranslations then Some(v.styleTranslations[lang]) else None
      ensures lang !in v.AsDraft().HeldLanguages(account)
    {
      RefrozenWordsAreTheSame(d, account, lang);
    }
    NothingToRefresh(v, account);
  }

  lemma NothingToRefresh(v: Version, account: Account)
    requires DrawnAs(v, v.AsDraft(), account) && (forall lang :: !v.AsDraft().SurveyPending(lang))
    requires forall lang :: lang !in v.AsDraft().HeldLanguages(account)
    ensures RefreshAgainst(v, account) == Refresh(false, None)
  {
    assert v.AsDraft().HeldLanguages(account) == {};
  }

  lemma ReadBackDrawsTheVersion(d: Draft, account: Account)
    ensures var v := Freeze(d, account); v.style.Draws(v.AsDraft().ResolvedStyle(account.style))
  {
    var v := Freeze(d, account);
    ReadBackFollowsTheSameParts(v, account.style);
    FrozenStyleHasTheWords(d, account);
  }
}
