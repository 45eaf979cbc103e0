/** What a refresh keeps, and that the two ways of asking whether an account's change reaches a version
    agree with what a refresh does. */
module Refreshes {
  import opened Wrappers
  import opened Text
  import opened Styles
  import opened Questions
  import opened Drafts
  import opened StyleForm
  import opened Versions
  import opened Refreeze
  import opened Fixpoint

  // --- what a refresh keeps ---------------------------------------------------

  /** What a version read back stores of one identity's wording is what the version had of it. */
  lemma ReadBackWording(v: Version, lang: string, id: string)
    requires lang in v.Languages()
    ensures var b := v.AsDraft();
      && (id in b.localizations[lang].questions <==> b.Knows(id))
      && (id in StoredWordings(b, lang) <==> b.Knows(id) && v.WordingIn(lang, id).text != "")
      && (id in StoredWordings(b, lang) ==> StoredWordings(b, lang)[id] == v.WordingIn(lang, id))
  {
    var b := v.AsDraft();
    assert b.localizations[lang].questions == v.QuestionsIn(lang, v.questions);
    if b.Knows(id) {
      var q :| q in v.questions && q.identity == id;
      QuestionsReadBack(v, lang, v.questions, q);
    }
  }

  function HadWordings(v: Version, lang: string): map<string, Wording> {
    if lang in v.questionTranslations then v.questionTranslations[lang] else map[]
  }

  lemma HadWordingsAreKnown(v: Version, lang: string, id: string)
    requires lang in v.questionTranslations ==> GoodWordings(v, v.questionTranslations[lang])
    ensures id in HadWordings(v, lang) <==> v.AsDraft().Knows(id) && v.WordingIn(lang, id).text != ""
    ensures id in HadWordings(v, lang) ==> HadWordings(v, lang)[id] == v.WordingIn(lang, id)
  {
    if id in HadWordings(v, lang) {
      assert GoodWordings(v, v.questionTranslations[lang]);
      var q :| q in v.questions && q.identity == id;
      assert v.AsDraft().questions == v.questions;
    }
  }

  lemma SameMaps<K, V>(a: map<K, V>, b: map<K, V>)
    requires forall k :: k in a <==> k in b
    requires forall k :: k in a ==> a[k] == b[k]
    ensures a == b
  {
  }

  lemma RefreshKeepsWordings(v: Version, lang: string)
    requires lang in v.Languages() && (lang in v.questionTranslations ==> GoodWordings(v, v.questionTranslations[lang]))
    ensures StoredWordings(v.AsDraft(), lang) == HadWordings(v, lang)
  {
    var stored, had := StoredWordings(v.AsDraft(), lang), HadWordings(v, lang);
    forall id ensures (id in stored <==> id in had) && (id in stored ==> stored[id] == had[id]) {
      ReadBackWording(v, lang, id);
      HadWordingsAreKnown(v, lang, id);
    }
    SameMaps(stored, had);
  }

  lemma RefreshKeepsQuestionTranslations(v: Version)
    requires WellFrozen(v)
    ensures FreezeQuestionTranslations(v.AsDraft()) == v.questionTranslations
  {
    var w := FreezeQuestionTranslations(v.AsDraft());
    ReadBackFollowsTheSameParts(v, NO_STYLE);
    forall lang
      ensures lang in w <==> lang in v.questionTranslations
      ensures lang in w ==> lang in v.questionTranslations && w[lang] == v.questionTranslations[lang]
    {
      if lang in v.Languages() {
        RefreshKeepsWordings(v, lang);
      }
    }
  }

  lemma RefreshKeepsQuestions(v: Version, account: Account)
    requires WellFrozen(v)
    ensures Freeze(v.AsDraft(), account).questions == v.questions
    ensures Freeze(v.AsDraft(), account).questionTranslations == v.questionTranslations
  {
    RefreshKeepsQuestionTranslations(v);
    var qs := FrozenQuestions(v.questions);
    forall i | 0 <= i < |v.questions| ensures qs[i] == v.questions[i] {
      assert v.questions[i] in v.questions;
    }
  }

  lemma RefreshKeepsThanks(v: Version, account: Account)
    requires WellFrozen(v)
    ensures var w := Freeze(v.AsDraft(), account);
      w.thanks == v.thanks && w.thanksTranslations == v.thanksTranslations
  {
    hide Style.Words, StyleWords.Only, StyleWords.IsZero, Version.QuestionsIn, FreezeStyleTranslations, FreezeQuestionTranslations,
      FrozenQuestions, Draft.ResolvedStyle;
    var b, w := v.AsDraft(), Freeze(v.AsDraft(), account);
    forall lang | lang in v.Languages()
      ensures lang in w.thanksTranslations <==> lang in v.thanksTranslations
      ensures lang in w.thanksTranslations ==> lang in v.thanksTranslations && w.thanksTranslations[lang] == v.thanksTranslations[lang]
    {
      WellFrozenReadsBackReady(v);
      assert !b.SurveyPending(lang);
      assert b.localizations[lang].thanks == v.LocalizationIn(v.OwnDraft(), lang).thanks;
    }
  }

  /** Publishing a version again, against any account, keeps its questions, its thank you page, their
      translations, the parts it follows, and every part of the style that is its own. */
  lemma RefreshKeepsWhatIsTheSurveys(v: Version, account: Account)
    requires WellFrozen(v)
    ensures var w := Freeze(v.AsDraft(), account);
      && w.questions == v.questions && w.questionTranslations == v.questionTranslations
      && w.thanks == v.thanks && w.thanksTranslations == v.thanksTranslations
      && w.follows == v.follows
      && StyleDiffers(w.style, v.style).Within(v.follows)
      && StyleDiffers(w.style, account.style).Within(Not(v.follows))
  {
    RefreshKeepsQuestions(v, account);
    RefreshKeepsThanks(v, account);
    ReadBackFollowsTheSameParts(v, account.style);
    FrozenStyleHasTheWords(v.AsDraft(), account);
  }

  // --- two ways of asking -----------------------------------------------------

  /** Of a version up to date with an account, a change of the account reaches it exactly when
      publishing it again would draw it differently. */
  lemma ChangedExactlyWhenARefreshChanges(v: Version, before: Account, after: Account)
    requires !RefreshAgainst(v, before).changes
    ensures ChangedBetween(v, before, after) <==> RefreshAgainst(v, after).changes
  {
    var d := v.AsDraft();
    DrawingAlikeIsAnEquivalence(v.style, d.ResolvedStyle(before.style), d.ResolvedStyle(after.style));
    DrawingAlikeIsAnEquivalence(d.ResolvedStyle(before.style), v.style, d.ResolvedStyle(after.style));
  }

  /** What the listing of a workspace's surveys reads of a version: style, thank you page and languages,
      and of the questions nothing but which languages they have rows in. */
  function StyleOnly(v: Version): Version {
    v.(questions := [], questionTranslations := map lang | lang in v.questionTranslations :: map[])
  }

  lemma StyleOnlyIsOwnAlike(v: Version)
    ensures StyleOnly(v).OwnDraft() == v.OwnDraft().(questions := [])
    ensures StyleOnly(v).Languages() == v.Languages()
  {
  }

  lemma StyleOnlyLanguagesAlike(v: Version, c: Draft, d: Draft, lang: string)
    requires c == d.(questions := [])
    ensures StyleOnly(v).LocalizationIn(c, lang).thanks == v.LocalizationIn(d, lang).thanks
    ensures StyleOnly(v).LocalizationIn(c, lang).style == v.LocalizationIn(d, lang).style
  {
    hide Style.Words, StyleWords.Only, StyleWords.IsZero, Version.QuestionsIn, Version.OwnDraft, Version.WordingIn;
  }

  lemma StyleOnlyReadsBackAlike(v: Version)
    ensures StyleOnly(v).Languages() == v.Languages()
    ensures var c, d := StyleOnly(v).AsDraft(), v.AsDraft();
      && c.style == d.style && c.choice == d.choice && c.thanks == d.thanks && c.localizations.Keys == d.localizations.Keys
      && forall lang <- v.Languages() ::
           c.localizations[lang].thanks == d.localizations[lang].thanks && c.localizations[lang].style == d.localizations[lang].style
  {
    hide Version.OwnDraft, Version.LocalizationIn, Version.Languages, StyleOnly;
    StyleOnlyIsOwnAlike(v);
    forall lang | lang in v.Languages()
      ensures StyleOnly(v).LocalizationIn(StyleOnly(v).OwnDraft(), lang).thanks == v.LocalizationIn(v.OwnDraft(), lang).thanks
      ensures StyleOnly(v).LocalizationIn(StyleOnly(v).OwnDraft(), lang).style == v.LocalizationIn(v.OwnDraft(), lang).style
    {
      StyleOnlyLanguagesAlike(v, StyleOnly(v).OwnDraft(), v.OwnDraft(), lang);
    }
  }

  lemma SameStyleFreezesTheSame(c: Draft, d: Draft, account: Account, lang: string)
    requires c.style == d.style && c.choice == d.choice && lang in c.localizations && lang in d.localizations
    requires c.localizations[lang].style == d.localizations[lang].style
    ensures FrozenWords(c, account, lang) == FrozenWords(d, account, lang)
    ensures c.StylePending(lang) == d.StylePending(lang)
    ensures c.AccountStylePending(account, lang) == d.AccountStylePending(account, lang)
  {
    hide Style.Words, StyleWords.Only, StyleWords.With, StyleWords.Covers, Account.PendingFor;
    assert c.OwnParts() == d.OwnParts() && c.FollowedParts() == d.FollowedParts();
    hide Draft.OwnParts, Draft.FollowedParts;
  }

  lemma SameGates(c: Draft, d: Draft, account: Account)
    requires c.localizations.Keys == d.localizations.Keys
    requires forall lang <- d.localizations.Keys :: c.SurveyPending(lang) == d.SurveyPending(lang)
    requires forall lang <- d.localizations.Keys :: c.AccountStylePending(account, lang) == d.AccountStylePending(account, lang)
    ensures c.ReadyToPublish(account) == d.ReadyToPublish(account)
  {
    assert c.HeldLanguages(account) == d.HeldLanguages(account);
  }

  lemma SurveyPendingAlike(c: Draft, d: Draft, lang: string)
    requires lang in c.localizations && lang in d.localizations
    requires c.style == d.style && c.choice == d.choice && c.thanks == d.thanks
    requires c.localizations[lang].thanks == d.localizations[lang].thanks && c.localizations[lang].style == d.localizations[lang].style
    requires c.Pending(lang) == [] && d.Pending(lang) == []
    ensures c.SurveyPending(lang) == d.SurveyPending(lang)
  {
  }

  lemma StyleOnlyGates(v: Version, account: Account)
    requires OneTextPerIdentity(v.questions)
    ensures StyleOnly(v).AsDraft().ReadyToPublish(account) == v.AsDraft().ReadyToPublish(account)
  {
    var u := StyleOnly(v);
    var c, d := u.AsDraft(), v.AsDraft();
    StyleOnlyReadsBackAlike(v);
    ReadBackFollowsTheSameParts(v, NO_STYLE);
    forall lang <- d.localizations.Keys
      ensures c.SurveyPending(lang) == d.SurveyPending(lang)
      ensures c.AccountStylePending(account, lang) == d.AccountStylePending(account, lang)
    {
      PendingReadBack(v, lang);
      PendingReadBack(u, lang);
      SurveyPendingAlike(c, d, lang);
      SameStyleFreezesTheSame(c, d, account, lang);
    }
    SameGates(c, d, account);
  }

  lemma StyleOnlyFreezes(v: Version, account: Account)
    ensures StyleOnly(v).AsDraft().ResolvedStyle(account.style) == v.AsDraft().ResolvedStyle(account.style)
    ensures forall lang <- v.Languages() :: FrozenWords(StyleOnly(v).AsDraft(), account, lang) == FrozenWords(v.AsDraft(), account, lang)
    ensures DrawnAs(StyleOnly(v), StyleOnly(v).AsDraft(), account) == DrawnAs(v, v.AsDraft(), account)
  {
    var c, d := StyleOnly(v).AsDraft(), v.AsDraft();
    StyleOnlyReadsBackAlike(v);
    ReadBackFollowsTheSameParts(v, NO_STYLE);
    SameResolution(c, d, account.style);
    forall lang | lang in v.Languages() ensures FrozenWords(c, account, lang) == FrozenWords(d, account, lang) {
      SameStyleFreezesTheSame(c, d, account, lang);
    }
  }

  lemma SameResolution(c: Draft, d: Draft, account: Style)
    requires c.style == d.style && c.choice == d.choice
    ensures c.ResolvedStyle(account) == d.ResolvedStyle(account)
  {
  }

  /** The cheap listing decides as the full refresh does: leaving the questions unread changes neither
      answer. A version's identities are distinct (the questions table has one row for each). */
  lemma ListingDecidesAsARefresh(v: Version, before: Account, after: Account)
    requires OneTextPerIdentity(v.questions)
    ensures RefreshAgainst(StyleOnly(v), after) == RefreshAgainst(v, after)
    ensures ChangedBetween(StyleOnly(v), before, after) == ChangedBetween(v, before, after)
  {
    hide DrawnAs, FrozenWords, Version.AsDraft, Draft.ReadyToPublish, Draft.ResolvedStyle, Style.Draws, OneTextPerIdentity;
    StyleOnlyGates(v, after);
    StyleOnlyFreezes(v, before);
    StyleOnlyFreezes(v, after);
    assert StyleOnly(v).Languages() == v.Languages();
  }
}
