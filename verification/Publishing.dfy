/** A publish, as the store makes it, and that what it freezes is read, and stays read when the version
    is read back to be published again. */
module Publishing {
  import opened Wrappers
  import opened Text
  import opened Styles
  import opened Questions
  import opened Drafts
  import opened StyleForm
  import opened Versions
  import opened Refreeze
  import opened Fixpoint
  import opened Readings

  /** Everything a respondent would notice of two lists of questions is alike. */
  predicate QuestionsAlike(a: seq<Question>, b: seq<Question>) {
    |a| == |b| && forall i :: 0 <= i < |a| ==>
      && a[i].identity == b[i].identity && a[i].kind == b[i].kind && a[i].text == b[i].text
      && a[i].required == b[i].required && a[i].allowOther == b[i].allowOther
      && a[i].Scale() == b[i].Scale() && a[i].options == b[i].options
  }

  /** Publishing the draft would make a new version. */
  predicate Unpublished(latest: Option<Version>, d: Draft, account: Account) {
    latest.Some? ==>
      !QuestionsAlike(latest.value.questions, d.questions) || latest.value.thanks != d.thanks
      || !latest.value.style.Draws(d.ResolvedStyle(account.style))
  }

  /** The checks a publish makes, in order, and the version it makes. */
  function Publish(d: Draft, account: Account, latest: Option<Version>, rules: Rules): Result<Version> {
    if d.ValidateForPublish(rules).Some? then Err(d.ValidateForPublish(rules).value)
    else if d.ReadyToPublish(account).Some? then Err(d.ReadyToPublish(account).value)
    else if d.ResolvedStyle(account.style).Validate(rules.addresses).Some? then
      Err(d.ResolvedStyle(account.style).Validate(rules.addresses).value)
    else if !Unpublished(latest, d, account) then Err(NothingToPublish)
    else Ok(Freeze(d, account))
  }

  ghost predicate DistinctIdentities(questions: seq<Question>) {
    forall i, j :: 0 <= i < j < |questions| ==> questions[i].identity != questions[j].identity
  }

  /** What is kept of every draft a survey has had. */
  ghost predicate DraftOK(log: set<Reading>, d: Draft) {
    DraftReadOK(log, d) && DistinctIdentities(d.questions)
  }

  ghost predicate AccountOK(log: set<Reading>, account: Account, rules: Rules) {
    AccountReadOK(log, account) && account.style.Validate(rules.addresses) == None
  }

  ghost predicate VersionOK(log: set<Reading>, v: Version, rules: Rules) {
    WellFrozen(v) && VersionIsRead(log, v) && v.style.Validate(rules.addresses) == None
  }

  lemma DistinctMeansOneText(questions: seq<Question>)
    requires DistinctIdentities(questions)
    ensures OneTextPerIdentity(questions)
  {
  }

  lemma ReadMeansFits(log: set<Reading>, d: Draft, account: Account)
    ensures DraftReadOK(log, d) ==> DraftFits(d)
    ensures AccountReadOK(log, account) ==> AccountFits(account)
  {
    if DraftReadOK(log, d) {
      forall lang <- d.localizations.Keys ensures d.localizations[lang].style.Some? ==> ReadFits(d.localizations[lang].style.value) {
        assert LocalizationOK(log, lang, d.localizations[lang]);
      }
    }
    if AccountReadOK(log, account) {
      forall lang <- account.localizations.Keys ensures ReadFits(account.localizations[lang]) {
        assert LocalizedStyleOK(log, lang, account.localizations[lang]);
      }
    }
  }

  // --- what a publish freezes is read -----------------------------------------

  lemma FrozenWordingIsRead(log: set<Reading>, d: Draft, account: Account, lang: string, q: Question)
    requires DraftReadOK(log, d) && d.ReadyToPublish(account) == None
    requires q in Freeze(d, account).questions
    requires lang in Freeze(d, account).questionTranslations && q.identity in Freeze(d, account).questionTranslations[lang]
    ensures var w := Freeze(d, account).questionTranslations[lang][q.identity];
      QuestionIsRead(log, lang, q.identity, q.text, w.text, w.options)
  {
    FrozenQuestionsAre(d, account);
    var r :| r in d.questions && q == r.Frozen();
    assert LocalizationOK(log, lang, d.localizations[lang]);
    assert !d.SurveyPending(lang);
    assert r !in d.PendingAmong(lang, d.questions);
    assert !d.QuestionPending(lang, r);
  }

  lemma FrozenThanksIsRead(log: set<Reading>, d: Draft, account: Account, lang: string)
    requires DraftReadOK(log, d) && lang in Freeze(d, account).thanksTranslations
    ensures var v := Freeze(d, account);
      ThanksIsRead(log, lang, v.thanks.message, v.thanks.linkLabel, v.thanksTranslations[lang].message, v.thanksTranslations[lang].linkLabel)
  {
    assert LocalizationOK(log, lang, d.localizations[lang]);
  }

  /** The own words a ready draft shows are read against the words of its style. */
  lemma OwnPartIsRead(log: set<Reading>, d: Draft, account: Account, lang: string, p: WordPart)
    requires DraftReadOK(log, d) && ReadyIn(d, account, lang) && d.OwnWordParts().Has(p)
    requires !d.OwnStyleWords().IsZero() ==> d.localizations[lang].style.Some?
    ensures PartIsRead(log, lang, d.style.Words(), OwnTranslated(d, lang), p)
  {
    if d.OwnStyleWords().IsZero() {
      ZeroByParts(d.style.Words(), d.OwnWordParts());
      assert NO_WORDS.Only(Just(p)) == NO_WORDS;
    } else {
      var t := d.localizations[lang].style.value;
      assert LocalizationOK(log, lang, d.localizations[lang]);
      assert PartIsRead(log, lang, t.source, t.words, p);
      WordsArePartwise(t.source, d.style.Words(), d.OwnWordParts());
      OnlyByPart(t.words, d.OwnWordParts(), p);
    }
  }

  /** The account's words a ready draft shows are read against the words of the account's style. */
  lemma AccountPartIsRead(log: set<Reading>, account: Account, lang: string, parts: Parts, p: WordPart)
    requires AccountReadOK(log, account) && !account.PendingFor(lang, parts) && parts.Has(p)
    requires !account.style.Words().Only(parts).IsZero()
    ensures lang in account.localizations
    ensures PartIsRead(log, lang, account.style.Words(), account.localizations[lang].words, p)
  {
    var a := account.localizations[lang];
    assert LocalizedStyleOK(log, lang, a);
    assert PartIsRead(log, lang, a.source, a.words, p);
    WordsArePartwise(a.source, account.style.Words(), parts);
  }

  /** Where the words of one part of a resolved style come from. */
  lemma ResolvedPart(d: Draft, account: Style, p: WordPart)
    ensures d.ResolvedStyle(account).Words().Only(Just(p)) ==
      if d.OwnWordParts().Has(p) then d.style.Words().Only(Just(p))
      else if d.FollowedWordParts().Has(p) then account.Words().Only(Just(p))
      else NO_WORDS
    ensures !(d.OwnWordParts().Has(p) && d.FollowedWordParts().Has(p))
  {
  }

  lemma FrozenPartIsRead(log: set<Reading>, d: Draft, account: Account, lang: string, words: StyleWords, p: WordPart)
    requires DraftReadOK(log, d) && AccountReadOK(log, account) && ReadyIn(d, account, lang)
    requires FrozenWords(d, account, lang) == Some(words)
    ensures PartIsRead(log, lang, d.ResolvedStyle(account.style).Words(), words, p)
  {
    ReadMeansFits(log, d, account);
    ReadyWordsAre(d, account, lang);
    ResolvedPart(d, account.style, p);
    var own, f := d.OwnWordParts(), d.FollowedWordParts();
    var mine := OwnTranslated(d, lang);
    if own.Has(p) {
      OwnPartIsRead(log, d, account, lang, p);
    } else {
      assert mine.Only(Just(p)) == NO_WORDS;
    }
    if account.style.Words().Only(f).IsZero() {
      if f.Has(p) {
        ZeroByParts(account.style.Words(), f);
      }
    } else {
      WithByPart(mine, account.localizations[lang].words, f, p);
      if f.Has(p) {
        AccountPartIsRead(log, account, lang, f, p);
      }
    }
  }

  /** Publishing a ready draft makes a version that shows nothing unread. */
  lemma FrozenIsRead(log: set<Reading>, d: Draft, account: Account)
    requires DraftReadOK(log, d) && AccountReadOK(log, account) && Publishable(d, account)
    ensures VersionIsRead(log, Freeze(d, account))
  {
    var v := Freeze(d, account);
    forall lang, q | lang in v.questionTranslations && q in v.questions && q.identity in v.questionTranslations[lang]
      ensures var w := v.questionTranslations[lang][q.identity]; QuestionIsRead(log, lang, q.identity, q.text, w.text, w.options)
    {
      FrozenWordingIsRead(log, d, account, lang, q);
    }
    forall lang | lang in v.thanksTranslations
      ensures ThanksIsRead(log, lang, v.thanks.message, v.thanks.linkLabel, v.thanksTranslations[lang].message, v.thanksTranslations[lang].linkLabel)
    {
      FrozenThanksIsRead(log, d, account, lang);
    }
    forall lang | lang in v.styleTranslations ensures StyleIsRead(log, lang, v.style.Words(), v.styleTranslations[lang]) {
      FrozenStyleIsRead(log, d, account, lang);
    }
  }

  lemma FrozenStyleIsRead(log: set<Reading>, d: Draft, account: Account, lang: string)
    requires DraftReadOK(log, d) && AccountReadOK(log, account) && Publishable(d, account)
    requires lang in Freeze(d, account).styleTranslations
    ensures StyleIsRead(log, lang, Freeze(d, account).style.Words(), Freeze(d, account).styleTranslations[lang])
  {
    var v := Freeze(d, account);
    ReadyMeansReadyIn(d, account, lang);
    FrozenStyleTranslationsAre(d, account, lang);
    FrozenStyleHasTheWords(d, account);
    forall p: WordPart ensures PartIsRead(log, lang, v.style.Words(), v.styleTranslations[lang], p) {
      FrozenPartIsRead(log, d, account, lang, v.styleTranslations[lang], p);
    }
  }

  // --- and stays read when it is read back ------------------------------------

  lemma ReadBackQuestionsAreRead(log: set<Reading>, v: Version, lang: string, id: string)
    requires WellFrozen(v) && VersionIsRead(log, v) && lang in v.Languages() && id in v.QuestionsIn(lang, v.questions)
    ensures var t := v.QuestionsIn(lang, v.questions)[id]; QuestionIsRead(log, lang, id, t.sourceText, t.text, t.options)
  {
    var q :| q in v.questions && q.identity == id;
    QuestionsReadBack(v, lang, v.questions, q);
    var r :| r in v.questions && r.identity == id && r.text == v.QuestionsIn(lang, v.questions)[id].sourceText;
  }

  lemma ReadBackIsRead(log: set<Reading>, v: Version)
    requires WellFrozen(v) && VersionIsRead(log, v)
    ensures DraftReadOK(log, v.AsDraft())
  {
    var d, own := v.AsDraft(), v.OwnDraft();
    ReadBackFollowsTheSameParts(v, NO_STYLE);
    forall lang <- d.localizations.Keys ensures LocalizationOK(log, lang, d.localizations[lang]) {
      assert d.localizations[lang] == v.LocalizationIn(own, lang);
      forall id <- d.localizations[lang].questions.Keys
        ensures var t := d.localizations[lang].questions[id]; QuestionIsRead(log, lang, id, t.sourceText, t.text, t.options)
      {
        ReadBackQuestionsAreRead(log, v, lang, id);
      }
      ReadBackStyleIsRead(log, v, lang);
    }
  }

  lemma ReadBackStyleIsRead(log: set<Reading>, v: Version, lang: string)
    requires WellFrozen(v) && VersionIsRead(log, v) && lang in v.Languages()
    ensures var t := v.LocalizationIn(v.OwnDraft(), lang).style; t.Some? ==> LocalizedStyleOK(log, lang, t.value)
  {
    var own := v.OwnDraft();
    OwnWordsInFit(v, lang);
    forall p: WordPart ensures PartIsRead(log, lang, own.OwnStyleWords(), OwnWordsIn(v, lang), p) {
      if lang in v.styleTranslations {
        assert StyleIsRead(log, lang, v.style.Words(), v.styleTranslations[lang]);
        assert PartIsRead(log, lang, v.style.Words(), v.styleTranslations[lang], p);
        OwnPartOf(v, v.styleTranslations[lang], p);
      }
    }
  }

  lemma OwnPartOf(v: Version, words: StyleWords, p: WordPart)
    ensures var own := v.OwnDraft();
      if own.OwnWordParts().Has(p) then
        own.OwnStyleWords().Only(Just(p)) == v.style.Words().Only(Just(p)) && words.Only(own.OwnWordParts()).Only(Just(p)) == words.Only(Just(p))
      else
        own.OwnStyleWords().Only(Just(p)) == words.Only(own.OwnWordParts()).Only(Just(p))
  {
  }

  // --- the two ways a version is made -----------------------------------------

  lemma PublishedVersionOK(log: set<Reading>, d: Draft, account: Account, latest: Option<Version>, rules: Rules)
    requires DraftOK(log, d) && AccountOK(log, account, rules) && Publish(d, account, latest, rules).Ok?
    ensures VersionOK(log, Publish(d, account, latest, rules).value, rules)
    ensures Publishable(d, account)
  {
    ReadMeansFits(log, d, account);
    DistinctMeansOneText(d.questions);
    ValidStyleLabelsItsLinks(d.ResolvedStyle(account.style), rules.addresses);
    PublishingFreezesWell(d, account);
    FrozenIsRead(log, d, account);
  }

  /** A version published again: nothing of the survey's own refuses it, and what it makes is as good. */
  lemma RefreshedVersionOK(log: set<Reading>, v: Version, account: Account, rules: Rules)
    requires VersionOK(log, v, rules) && AccountOK(log, account, rules)
    ensures v.AsDraft().ReadyToPublish(account) != Some(UnreviewedTranslation)
    ensures v.AsDraft().ResolvedStyle(account.style).Validate(rules.addresses) == None
    ensures v.AsDraft().ReadyToPublish(account) == None ==>
      Publishable(v.AsDraft(), account) && VersionOK(log, Freeze(v.AsDraft(), account), rules)
  {
    var d := v.AsDraft();
    WellFrozenReadsBackReady(v);
    ReadBackIsRead(log, v);
    ReadMeansFits(log, d, account);
    ReadBackValid(v, account, rules.addresses);
    ValidStyleLabelsItsLinks(d.ResolvedStyle(account.style), rules.addresses);
    if d.ReadyToPublish(account) == None {
      assert OneTextPerIdentity(d.questions);
      PublishingFreezesWell(d, account);
      FrozenIsRead(log, d, account);
    }
  }

  lemma ReadBackValid(v: Version, account: Account, addresses: AddressRule)
    requires v.style.Validate(addresses) == None && account.style.Validate(addresses) == None
    ensures v.AsDraft().ResolvedStyle(account.style).Validate(addresses) == None
  {
    var d := v.AsDraft();
    assert NO_HEADER.Validate(addresses) == None && NO_FOOTER.Validate(addresses) == None;
    ReadBackFollowsTheSameParts(v, account.style);
    assert d.ResolvedStyle(account.style).header in {NO_HEADER, v.style.header, account.style.header};
  }
}
