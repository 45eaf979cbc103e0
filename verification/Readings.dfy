/** What creators have read: the pairs of a source wording and a translation saved as read while that
    wording stood, each on a survey's pages or an account's, and which drafts, accounts and versions show
    nothing else. */
module Readings {
  import opened Wrappers
  import opened Text
  import opened Styles
  import opened Questions
  import opened Drafts
  import opened StyleForm
  import opened Versions
  import opened Refreeze
  import opened Fixpoint

  datatype Reading =
    | QuestionRead(lang: string, identity: string, sourceText: string, sourceOptions: seq<string>, text: string, options: seq<string>)
    | ThanksRead(lang: string, sourceMessage: string, sourceLabel: string, message: string, linkLabel: string)
    | StyleRead(lang: string, part: WordPart, source: StyleWords, words: StyleWords)

  /** Whose page a reading was made on. */
  datatype Owner = OfSurvey(id: nat) | OfAccount(workspace: nat)

  datatype Entry = Entry(owner: Owner, reading: Reading)

  /** What was read of style words on an account's page. */
  function ReadOn(log: set<Entry>, workspace: nat): set<Reading> {
    set e | e in log && e.owner == OfAccount(workspace) && e.reading.StyleRead? :: e.reading
  }

  /** What was read on a survey's own pages or, of style words, on its account's. */
  function ReadFor(log: set<Entry>, id: nat, workspace: nat): set<Reading> {
    (set e | e in log && e.owner == OfSurvey(id) :: e.reading) + ReadOn(log, workspace)
  }

  function By(owner: Owner, readings: set<Reading>): set<Entry> {
    set r | r in readings :: Entry(owner, r)
  }

  /** A question's wording was read against its source's text, beside options it then had; or it is empty,
      and shown in the original. */
  ghost predicate QuestionIsRead(log: set<Reading>, lang: string, identity: string, source: string, text: string, options: seq<string>) {
    text == "" || exists beside :: QuestionRead(lang, identity, source, beside, text, options) in log
  }

  ghost predicate ThanksIsRead(log: set<Reading>, lang: string, sourceMessage: string, sourceLabel: string, message: string, linkLabel: string) {
    (message == sourceMessage && linkLabel == sourceLabel)
    || ThanksRead(lang, sourceMessage, sourceLabel, message, linkLabel) in log
  }

  /** The words of one part were read against the source words of that part, or are those. */
  ghost predicate PartIsRead(log: set<Reading>, lang: string, source: StyleWords, words: StyleWords, p: WordPart) {
    || words.Only(Just(p)) == source.Only(Just(p))
    || StyleRead(lang, p, source.Only(Just(p)), words.Only(Just(p))) in log
  }

  ghost predicate StyleIsRead(log: set<Reading>, lang: string, source: StyleWords, words: StyleWords) {
    forall p: WordPart :: PartIsRead(log, lang, source, words, p)
  }

  // --- what shows nothing unread ----------------------------------------------

  ghost predicate LocalizedStyleOK(log: set<Reading>, lang: string, t: LocalizedStyle) {
    t.reviewed ==> t.words.Fits(t.source) && StyleIsRead(log, lang, t.source, t.words)
  }

  ghost predicate LocalizationOK(log: set<Reading>, lang: string, l: Localization) {
    && (forall id <- l.questions.Keys ::
          l.questions[id].reviewed ==>
            QuestionIsRead(log, lang, id, l.questions[id].sourceText, l.questions[id].text, l.questions[id].options))
    && (l.thanks.Some? && l.thanks.value.reviewed ==>
          ThanksIsRead(log, lang, l.thanks.value.sourceMessage, l.thanks.value.sourceLinkLabel, l.thanks.value.message, l.thanks.value.linkLabel))
    && (l.style.Some? ==> LocalizedStyleOK(log, lang, l.style.value))
  }

  ghost predicate DraftReadOK(log: set<Reading>, d: Draft) {
    forall lang <- d.localizations.Keys :: LocalizationOK(log, lang, d.localizations[lang])
  }

  ghost predicate AccountReadOK(log: set<Reading>, account: Account) {
    forall lang <- account.localizations.Keys :: LocalizedStyleOK(log, lang, account.localizations[lang])
  }

  /** Everything a version carries in a language was saved as read while exactly the wording the
      version shows stood, or is that wording. */
  ghost predicate VersionIsRead(log: set<Reading>, v: Version) {
    && (forall lang, q :: lang in v.questionTranslations && q in v.questions && q.identity in v.questionTranslations[lang] ==>
          var w := v.questionTranslations[lang][q.identity]; QuestionIsRead(log, lang, q.identity, q.text, w.text, w.options))
    && (forall lang :: lang in v.thanksTranslations ==>
          ThanksIsRead(log, lang, v.thanks.message, v.thanks.linkLabel, v.thanksTranslations[lang].message, v.thanksTranslations[lang].linkLabel))
    && (forall lang :: lang in v.styleTranslations ==> StyleIsRead(log, lang, v.style.Words(), v.styleTranslations[lang]))
  }

  // --- the log only grows -----------------------------------------------------

  lemma MoreIsReadFor(log: set<Entry>, more: set<Entry>, id: nat, workspace: nat)
    requires log <= more
    ensures ReadOn(log, workspace) <= ReadOn(more, workspace) <= ReadFor(more, id, workspace)
    ensures ReadFor(log, id, workspace) <= ReadFor(more, id, workspace)
  {
  }

  lemma ReadBy(log: set<Entry>, readings: set<Reading>, id: nat, workspace: nat)
    ensures readings <= ReadFor(log + By(OfSurvey(id), readings), id, workspace)
  {
    forall r | r in readings ensures r in ReadFor(log + By(OfSurvey(id), readings), id, workspace) {
      assert Entry(OfSurvey(id), r) in By(OfSurvey(id), readings);
    }
  }

  lemma ReadByAccount(log: set<Entry>, readings: set<Reading>, workspace: nat)
    requires forall r <- readings :: r.StyleRead?
    ensures readings <= ReadOn(log + By(OfAccount(workspace), readings), workspace)
  {
    forall r | r in readings ensures r in ReadOn(log + By(OfAccount(workspace), readings), workspace) {
      assert Entry(OfAccount(workspace), r) in By(OfAccount(workspace), readings);
    }
  }

  lemma MoreIsRead(log: set<Reading>, more: set<Reading>)
    requires log <= more
    ensures forall d :: DraftReadOK(log, d) ==> DraftReadOK(more, d)
    ensures forall a :: AccountReadOK(log, a) ==> AccountReadOK(more, a)
    ensures forall v :: VersionIsRead(log, v) ==> VersionIsRead(more, v)
  {
    forall lang, source, words | StyleIsRead(log, lang, source, words) ensures StyleIsRead(more, lang, source, words) {
      forall p: WordPart ensures PartIsRead(more, lang, source, words, p) {
        assert PartIsRead(log, lang, source, words, p);
      }
    }
    forall d | DraftReadOK(log, d) ensures DraftReadOK(more, d) {
      forall lang <- d.localizations.Keys ensures LocalizationOK(more, lang, d.localizations[lang]) {
        assert LocalizationOK(log, lang, d.localizations[lang]);
      }
    }
    forall a | AccountReadOK(log, a) ensures AccountReadOK(more, a) {
      forall lang <- a.localizations.Keys ensures LocalizedStyleOK(more, lang, a.localizations[lang]) {
        assert LocalizedStyleOK(log, lang, a.localizations[lang]);
      }
    }
  }

  // --- what saving a translation records --------------------------------------

  /** The readings a style translation saved as read records: each part, against the source's. */
  function StyleReadings(lang: string, t: LocalizedStyle): set<Reading> {
    set p: WordPart | p in {HeaderWords, FooterWords, ThanksWords} :: StyleRead(lang, p, t.source.Only(Just(p)), t.words.Only(Just(p)))
  }

  lemma StyleReadingsRead(log: set<Reading>, lang: string, t: LocalizedStyle)
    requires StyleReadings(lang, t) <= log && t.words.Fits(t.source)
    ensures LocalizedStyleOK(log, lang, t)
  {
    forall p: WordPart ensures PartIsRead(log, lang, t.source, t.words, p) {
      assert StyleRead(lang, p, t.source.Only(Just(p)), t.words.Only(Just(p))) in StyleReadings(lang, t);
    }
  }

  // --- adoption neither loses nor fakes a reading -----------------------------

  lemma AdoptedPartIsRead(log: set<Reading>, d: Draft, account: Account, lang: string, parts: Parts, p: WordPart)
    requires DraftReadOK(log, d) && AccountReadOK(log, account)
    requires lang in d.localizations && lang in account.localizations
    requires d.AdoptedIn(account, lang, d.SameWords(account.style, parts)).reviewed
    ensures var t := d.AdoptedIn(account, lang, d.SameWords(account.style, parts));
      PartIsRead(log, lang, t.source, t.words, p) && t.words.Only(Just(p)).Fits(t.source.Only(Just(p)))
  {
    var same := d.SameWords(account.style, parts);
    var t := d.AdoptedIn(account, lang, same);
    SameWordsByPart(d, account.style, parts, p);
    assert LocalizationOK(log, lang, d.localizations[lang]);
    assert LocalizedStyleOK(log, lang, account.localizations[lang]);
    var was := match d.localizations[lang].style case Some(u) => u case None => LocalizedStyle(NO_WORDS, true, NO_WORDS);
    WithByPart(was.words, account.localizations[lang].words, same, p);
    WithByPart(was.source, d.style.Words(), same, p);
    assert NO_WORDS.Only(Just(p)) == NO_WORDS;
    if same.Has(p) {
      AccountReadByPart(account, lang, same, p);
      var a := account.localizations[lang];
      assert PartIsRead(log, lang, a.source, a.words, p);
      FitsByPart(a.words, a.source, p);
    } else {
      assert PartIsRead(log, lang, was.source, was.words, p);
      FitsByPart(was.words, was.source, p);
    }
  }

  /** Adoption never makes a language read that carries a word not read against its source: whatever
      counts as read after it was read before, here or on the account. */
  lemma AdoptionFakesNoReading(log: set<Reading>, d: Draft, account: Account, parts: Parts)
    requires DraftReadOK(log, d) && AccountReadOK(log, account)
    ensures DraftReadOK(log, d.AdoptStyleTranslations(account, parts))
  {
    var same := d.SameWords(account.style, parts);
    var e := d.AdoptStyleTranslations(account, parts);
    forall lang <- e.localizations.Keys ensures LocalizationOK(log, lang, e.localizations[lang]) {
      assert LocalizationOK(log, lang, d.localizations[lang]);
      if !same.IsZero() && lang in account.localizations {
        var t := d.AdoptedIn(account, lang, same);
        if t.reviewed {
          forall p: WordPart ensures PartIsRead(log, lang, t.source, t.words, p) && t.words.Only(Just(p)).Fits(t.source.Only(Just(p))) {
            AdoptedPartIsRead(log, d, account, lang, parts, p);
          }
          assert t.words.Only(Just(HeaderWords)).Fits(t.source.Only(Just(HeaderWords)));
          assert t.words.Only(Just(FooterWords)).Fits(t.source.Only(Just(FooterWords)));
          assert t.words.Only(Just(ThanksWords)).Fits(t.source.Only(Just(ThanksWords)));
          assert t.words.Fits(t.source);
        }
      }
    }
  }
}
