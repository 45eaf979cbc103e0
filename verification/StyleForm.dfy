/** What saving the Style tab promises: the form shows again what was submitted, each part from then
    on follows the account or is out of its reach, and words taken over unchanged stay read. */
module StyleForm {
  import opened Wrappers
  import opened Styles
  import opened Drafts

  /** One part of two styles draws the same. */
  predicate PartDraws(a: Style, b: Style, part: Parts) {
    && (part.theme ==> SameTheme(a.theme, b.theme)) && (part.header ==> a.header.Draws(b.header))
    && (part.footer ==> a.footer.Draws(b.footer)) && (part.thanks ==> a.thanks.Draws(b.thanks))
  }

  function Not(p: Parts): Parts {
    Parts(!p.theme, !p.header, !p.footer, !p.thanks)
  }

  function Both(p: Parts, q: Parts): Parts {
    Parts(p.theme && q.theme, p.header && q.header, p.footer && q.footer, p.thanks && q.thanks)
  }

  /** A style as the form's save reads it. */
  function AsSaved(submitted: Style): Style {
    submitted.(thanks := submitted.thanks.Settle(), theme := if submitted.theme == EARFUL then "" else submitted.theme)
  }

  /** A successful save is the carried parts and switches, with translations adopted beside them. */
  lemma SaveCarriesAndAdopts(d: Draft, account: Account, submitted: Style, carried: Parts,
                             header: Option<bool>, footer: Option<bool>, addresses: AddressRule)
    ensures var r := d.SetStyleFromForm(account, submitted, carried, header, footer, addresses);
      r.Ok? ==>
        var e := d.Carry(account.style, AsSaved(submitted), carried, header, footer);
        && r.value.style == e.style && r.value.choice == e.choice && r.value.questions == d.questions
        && r.value.thanks == d.thanks && r.value.localizations.Keys == d.localizations.Keys
  {
  }

  lemma SavedDrawsAsSubmitted(submitted: Style)
    ensures AsSaved(submitted).Draws(submitted)
    ensures AsSaved(submitted).theme != EARFUL && AsSaved(submitted).thanks.Settled()
  {
  }

  /** What carrying parts does to whose they are, and to the form under any account. */
  lemma CarriedPartsShow(d: Draft, account: Style, s: Style, carried: Parts, header: Option<bool>, footer: Option<bool>, later: Style)
    requires s.theme != EARFUL
    ensures var e, differs := d.Carry(account, s, carried, header, footer), StyleDiffers(s, account);
      && e.OwnParts() == d.OwnParts().(theme := if carried.theme then differs.theme else d.OwnParts().theme,
                                       header := if carried.header then differs.header else d.OwnParts().header,
                                       footer := if carried.footer then differs.footer else d.OwnParts().footer,
                                       thanks := if carried.thanks then differs.thanks else d.OwnParts().thanks)
      && (carried.theme ==> e.FormStyle(later).theme == if differs.theme then s.theme else later.theme)
      && (carried.header ==> e.FormStyle(later).header == if differs.header then s.header else later.header)
      && (carried.footer ==> e.FormStyle(later).footer == if differs.footer then s.footer else later.footer)
      && (carried.thanks ==> e.FormStyle(later).thanks == if differs.thanks then s.thanks else later.thanks)
      && (!carried.theme ==> e.FormStyle(later).theme == d.FormStyle(later).theme)
      && (!carried.header ==> e.FormStyle(later).header == d.FormStyle(later).header)
      && (!carried.footer ==> e.FormStyle(later).footer == d.FormStyle(later).footer)
      && (!carried.thanks ==> e.FormStyle(later).thanks == d.FormStyle(later).thanks)
  {
    CarriedOwnership(d, account, s, carried, header, footer);
    hide Draft.OwnParts, Style.Draws, Header.Draws, Footer.Draws, Thanks.Draws, Header.IsZero, Footer.IsZero, Thanks.IsZero;
  }

  lemma CarriedOwnership(d: Draft, account: Style, s: Style, carried: Parts, header: Option<bool>, footer: Option<bool>)
    requires s.theme != EARFUL
    ensures var e, differs, own := d.Carry(account, s, carried, header, footer), StyleDiffers(s, account), d.OwnParts();
      e.OwnParts() == Parts(if carried.theme then differs.theme else own.theme, if carried.header then differs.header else own.header,
                            if carried.footer then differs.footer else own.footer, if carried.thanks then differs.thanks else own.thanks)
  {
  }

  /** After a save the form shows, against the account it was saved under, each carried part as it
      was submitted and every other as before, and a refused save says why and changes nothing. */
  lemma FormShowsWhatWasSubmitted(d: Draft, account: Account, submitted: Style, carried: Parts,
                                  header: Option<bool>, footer: Option<bool>, addresses: AddressRule)
    ensures var r := d.SetStyleFromForm(account, submitted, carried, header, footer, addresses);
      r.Ok? ==>
        var shown, before := r.value.FormStyle(account.style), d.FormStyle(account.style);
        && PartDraws(shown, submitted, carried)
        && (!carried.theme ==> shown.theme == before.theme) && (!carried.header ==> shown.header == before.header)
        && (!carried.footer ==> shown.footer == before.footer) && (!carried.thanks ==> shown.thanks == before.thanks)
        && r.value.questions == d.questions && r.value.thanks == d.thanks
        && r.value.localizations.Keys == d.localizations.Keys
        && (header.Some? ==> r.value.choice.noHeader == !header.value)
        && (footer.Some? ==> r.value.choice.noFooter == !footer.value)
  {
    SaveCarriesAndAdopts(d, account, submitted, carried, header, footer, addresses);
    SavedDrawsAsSubmitted(submitted);
    CarriedPartsShow(d, account.style, AsSaved(submitted), carried, header, footer, account.style);
    var r := d.SetStyleFromForm(account, submitted, carried, header, footer, addresses);
    if r.Ok? {
      var e := d.Carry(account.style, AsSaved(submitted), carried, header, footer);
      assert r.value.FormStyle(account.style) == e.FormStyle(account.style);
    }
  }

  /** The parts of a draft e saved from d, part by part, under the account as it later stands. */
  ghost predicate TracksOrStays(d: Draft, e: Draft, account: Style, submitted: Style, carried: Parts, later: Style) {
    var differs := StyleDiffers(submitted, account);
    && PartDraws(e.FormStyle(later), submitted, Both(carried, differs))
    && PartDraws(e.FormStyle(later), later, Both(carried, Not(differs)))
    && PartDraws(e.FormStyle(later), d.FormStyle(later), Not(carried))
    && Both(e.OwnParts(), carried) == Both(differs, carried)
    && Both(e.OwnParts(), Not(carried)) == Both(d.OwnParts(), Not(carried))
  }

  lemma CarriedPartsTrackOrStay(d: Draft, account: Style, submitted: Style, carried: Parts,
                                header: Option<bool>, footer: Option<bool>, later: Style)
    ensures TracksOrStays(d, d.Carry(account, AsSaved(submitted), carried, header, footer), account, submitted, carried, later)
  {
    hide Draft.Carry, Draft.FormStyle, Draft.OwnParts, StyleDiffers, AsSaved, Header.Draws, Footer.Draws, Thanks.Draws, SameTheme;
    SavedDrawsAsSubmitted(submitted);
    SavedDiffersAlike(submitted, account);
    EveryPartDrawsItself(d.FormStyle(later), later);
    CarriedPartsShow(d, account, AsSaved(submitted), carried, header, footer, later);
  }

  lemma SavedDiffersAlike(submitted: Style, account: Style)
    ensures StyleDiffers(AsSaved(submitted), account) == StyleDiffers(submitted, account)
  {
  }

  lemma EveryPartDrawsItself(a: Style, b: Style)
    ensures a.Draws(a) && b.Draws(b)
  {
  }

  /** From then on, whatever the account's style becomes, a carried part that was the account's is
      the account's as it then stands, and one that differed stays as it was submitted; a part not
      carried is whose it was. Both halves are decided by comparing with the account at the save. */
  lemma FollowedPartsTrackAndOwnPartsDoNot(d: Draft, account: Account, submitted: Style, carried: Parts,
                                           header: Option<bool>, footer: Option<bool>, addresses: AddressRule, later: Style)
    ensures var r := d.SetStyleFromForm(account, submitted, carried, header, footer, addresses);
      r.Ok? ==> TracksOrStays(d, r.value, account.style, submitted, carried, later)
  {
    var r := d.SetStyleFromForm(account, submitted, carried, header, footer, addresses);
    if r.Ok? {
      SaveCarriesAndAdopts(d, account, submitted, carried, header, footer, addresses);
      CarriedPartsTrackOrStay(d, account.style, submitted, carried, header, footer, later);
      SameStyleTracks(d, d.Carry(account.style, AsSaved(submitted), carried, header, footer), r.value, account.style, submitted, carried, later);
    }
  }

  lemma SameStyleTracks(d: Draft, e: Draft, f: Draft, account: Style, submitted: Style, carried: Parts, later: Style)
    requires TracksOrStays(d, e, account, submitted, carried, later)
    requires e.style == f.style && e.choice == f.choice
    ensures TracksOrStays(d, f, account, submitted, carried, later)
  {
    assert e.FormStyle(later) == f.FormStyle(later) && e.OwnParts() == f.OwnParts();
  }

  /** A survey reset follows every part of any account, header and footer shown. */
  lemma ResetFollowsEverything(d: Draft, later: Style)
    ensures d.ResetStyle().ResolvedStyle(later) == later
    ensures d.ResetStyle().FollowedParts() == ALL_PARTS
    ensures forall lang :: !d.ResetStyle().StylePending(lang)
  {
  }

  // --- adopted translations ---------------------------------------------------

  /** A read translation has no word where its source has none. */
  ghost predicate ReadFits(t: LocalizedStyle) {
    t.reviewed ==> t.words.Fits(t.source)
  }

  ghost predicate DraftFits(d: Draft) {
    forall lang <- d.localizations.Keys :: d.localizations[lang].style.Some? ==> ReadFits(d.localizations[lang].style.value)
  }

  ghost predicate AccountFits(account: Account) {
    forall lang <- account.localizations.Keys :: ReadFits(account.localizations[lang])
  }

  /** The survey's own shown parts that have no words. */
  function Wordless(d: Draft): Parts {
    var own, w := d.OwnWordParts(), d.style.Words();
    Parts(false, own.header && w.Only(Just(HeaderWords)).IsZero(), own.footer && w.Only(Just(FooterWords)).IsZero(),
          own.thanks && w.Only(Just(ThanksWords)).IsZero())
  }

  /** The save left the words of d's own shown parts alone, showed no part that was hidden, and the
      parts it made the survey's own have the account's words. */
  ghost predicate TakesOverUnchanged(d: Draft, after: Draft, account: Account) {
    forall p: WordPart ::
      && (after.OwnWordParts().Has(p) && !after.NewlyOwn(d).Has(p)
          ==> d.OwnWordParts().Has(p) && after.style.Words().Only(Just(p)) == d.style.Words().Only(Just(p)))
      && (after.NewlyOwn(d).Has(p) ==> after.style.Words().Only(Just(p)) == account.style.Words().Only(Just(p)))
  }

  /** Nothing an account is read for in some parts waits in fewer. */
  lemma ReadForFewerParts(account: Account, lang: string, parts: Parts, fewer: Parts)
    requires !account.PendingFor(lang, parts) && fewer.Within(parts)
    ensures !account.PendingFor(lang, fewer)
  {
    var source := account.style.Words();
    if !source.Only(fewer).IsZero() {
      assert source.Only(parts).Only(fewer) == source.Only(fewer);
      var t := account.localizations[lang];
      assert t.source.Only(parts).Only(fewer) == t.source.Only(fewer);
      assert t.words.Only(parts).Only(fewer) == t.words.Only(fewer);
    }
  }

  /** A translation of one part of some words was made from them as they stand and misses none. */
  ghost predicate PartDone(t: LocalizedStyle, words: StyleWords, p: WordPart) {
    t.source.Only(Just(p)) == words.Only(Just(p)) && t.words.Only(Just(p)).Covers(words.Only(Just(p)))
  }

  /** What a translation needs to be done, part by part. */
  lemma StyleDoneByParts(d: Draft, lang: string)
    requires lang in d.localizations
    ensures !d.StylePending(lang) <==>
      d.OwnStyleWords().IsZero() ||
      (d.localizations[lang].style.Some? && d.localizations[lang].style.value.reviewed &&
       forall p: WordPart :: d.OwnWordParts().Has(p) ==> PartDone(d.localizations[lang].style.value, d.style.Words(), p))
  {
    if d.localizations[lang].style.Some? {
      var t := d.localizations[lang].style.value;
      WordsArePartwise(t.source, d.style.Words(), d.OwnWordParts());
      CoversIsPartwise(t.words, d.style.Words(), d.OwnWordParts());
    }
  }

  /** The words of one part carry over: With takes a part whole, from one side or the other. */
  lemma WithByPart(v: StyleWords, w: StyleWords, parts: Parts, p: WordPart)
    ensures v.With(w, parts).Only(Just(p)) == if parts.Has(p) then w.Only(Just(p)) else v.Only(Just(p))
  {
  }

  lemma OnlyByPart(w: StyleWords, parts: Parts, p: WordPart)
    requires parts.Has(p)
    ensures w.Only(parts).Only(Just(p)) == w.Only(Just(p))
  {
  }

  lemma ZeroByParts(w: StyleWords, parts: Parts)
    ensures w.Only(parts).IsZero() <==> forall p: WordPart :: parts.Has(p) ==> w.Only(Just(p)).IsZero()
  {
    WordsArePartwise(w, NO_WORDS, parts);
    assert forall p: WordPart :: NO_WORDS.Only(Just(p)) == NO_WORDS;
  }

  /** The translation a language has once the words of newly own parts have been adopted. */
  function Adopted(after: Draft, account: Account, lang: string, same: Parts): Option<LocalizedStyle>
    requires lang in after.localizations
  {
    if !same.IsZero() && lang in account.localizations then Some(after.AdoptedIn(account, lang, same))
    else after.localizations[lang].style
  }

  lemma AdoptedIs(after: Draft, account: Account, lang: string, parts: Parts)
    requires lang in after.localizations
    ensures var e := after.AdoptStyleTranslations(account, parts);
      && lang in e.localizations
      && e.localizations[lang].style == Adopted(after, account, lang, after.SameWords(account.style, parts))
      && e.style == after.style && e.choice == after.choice
  {
  }

  lemma SameWordsByPart(after: Draft, account: Style, parts: Parts, p: WordPart)
    ensures after.SameWords(account, parts).Has(p) <==>
      parts.Has(p) && !after.style.Words().Only(Just(p)).IsZero() && after.style.Words().Only(Just(p)) == account.Words().Only(Just(p))
  {
  }

  /** The account's read words for a part cover it and were made from it as it stands. */
  lemma AccountReadByPart(account: Account, lang: string, parts: Parts, p: WordPart)
    requires !account.PendingFor(lang, parts) && parts.Has(p) && !account.style.Words().Only(Just(p)).IsZero()
    ensures lang in account.localizations && account.localizations[lang].reviewed
    ensures account.localizations[lang].source.Only(Just(p)) == account.style.Words().Only(Just(p))
    ensures account.localizations[lang].words.Only(Just(p)).Covers(account.style.Words().Only(Just(p)))
  {
    ReadForFewerParts(account, lang, parts, Just(p));
  }

  lemma TakenOverPart(d: Draft, after: Draft, account: Account, p: WordPart)
    requires TakesOverUnchanged(d, after, account) && after.OwnWordParts().Has(p)
    ensures if after.NewlyOwn(d).Has(p) then after.style.Words().Only(Just(p)) == account.style.Words().Only(Just(p))
            else d.OwnWordParts().Has(p) && after.style.Words().Only(Just(p)) == d.style.Words().Only(Just(p))
  {
    hide Style.Words, StyleWords.Only, Draft.NewlyOwn, Draft.OwnWordParts;
  }

  lemma SameIsTranslated(after: Draft, account: Account, lang: string, parts: Parts, p: WordPart)
    requires !account.PendingFor(lang, parts)
    ensures after.SameWords(account.style, parts).Has(p) ==> lang in account.localizations
  {
    hide Style.Words, Account.PendingFor, Draft.SameWords, StyleWords.Covers;
    SameWordsByPart(after, account.style, parts, p);
    if after.SameWords(account.style, parts).Has(p) {
      AccountReadByPart(account, lang, parts, p);
    }
  }

  lemma ZeroIsNoWords(w: StyleWords)
    ensures w.IsZero() ==> w == NO_WORDS
    ensures NO_WORDS.IsZero() && NO_WORDS.Covers(NO_WORDS)
  {
  }

  /** After adoption one own part is done exactly when, if it has no words, the translation the survey
      already had was not made from words there. */
  lemma AdoptedPartDone(d: Draft, after: Draft, account: Account, lang: string, t: LocalizedStyle, p: WordPart)
    requires lang in d.localizations && !d.StylePending(lang) && DraftFits(d)
    requires after.localizations == d.localizations && TakesOverUnchanged(d, after, account)
    requires !account.PendingFor(lang, after.NewlyOwn(d))
    requires Adopted(after, account, lang, after.SameWords(account.style, after.NewlyOwn(d))) == Some(t)
    requires t.reviewed && after.OwnWordParts().Has(p)
    ensures PartDone(t, after.style.Words(), p)
      <==> (after.style.Words().Only(Just(p)).IsZero() && d.localizations[lang].style.Some?
            ==> d.localizations[lang].style.value.source.Only(Just(p)).IsZero())
  {
    hide StyleWords.With, Style.Words, Draft.StylePending, Account.PendingFor, Adopted, Draft.NewlyOwn, Draft.SameWords,
      Draft.OwnWordParts, TakesOverUnchanged, StyleWords.Covers, StyleWords.Fits;
    var parts := after.NewlyOwn(d);
    var same := after.SameWords(account.style, parts);
    SameWordsByPart(after, account.style, parts, p);
    TakenOverPart(d, after, account, p);
    SameIsTranslated(after, account, lang, parts, p);
    AdoptedByPart(after, account, lang, same, t, p);
    ZeroIsNoWords(after.style.Words().Only(Just(p)));
    if same.Has(p) {
      AccountReadByPart(account, lang, parts, p);
    } else if !after.style.Words().Only(Just(p)).IsZero() {
      OldPartDone(d, lang, p);
    } else if d.localizations[lang].style.Some? {
      AdoptedIsRead(d, after, account, lang, t);
      ZeroIsNoWords(d.localizations[lang].style.value.source.Only(Just(p)));
      FitsByPart(d.localizations[lang].style.value.words, d.localizations[lang].style.value.source, p);
    }
  }

  /** Where a part's words and source come from, once adopted. */
  lemma AdoptedByPart(after: Draft, account: Account, lang: string, same: Parts, t: LocalizedStyle, p: WordPart)
    requires lang in after.localizations && Adopted(after, account, lang, same) == Some(t)
    requires same.Has(p) ==> lang in account.localizations
    ensures same.Has(p) ==>
      && t.words.Only(Just(p)) == account.localizations[lang].words.Only(Just(p))
      && t.source.Only(Just(p)) == after.style.Words().Only(Just(p))
    ensures !same.Has(p) && after.localizations[lang].style.Some? ==>
      && t.words.Only(Just(p)) == after.localizations[lang].style.value.words.Only(Just(p))
      && t.source.Only(Just(p)) == after.localizations[lang].style.value.source.Only(Just(p))
    ensures !same.Has(p) && after.localizations[lang].style.None? ==>
      t.words.Only(Just(p)) == NO_WORDS && t.source.Only(Just(p)) == NO_WORDS
  {
    var was := match after.localizations[lang].style case Some(u) => u case None => LocalizedStyle(NO_WORDS, true, NO_WORDS);
    assert NO_WORDS.Only(Just(p)) == NO_WORDS;
    if lang in account.localizations {
      WithByPart(was.words, account.localizations[lang].words, same, p);
      WithByPart(was.source, after.style.Words(), same, p);
    }
  }

  lemma FitsByPart(w: StyleWords, source: StyleWords, p: WordPart)
    ensures w.Fits(source) ==> w.Only(Just(p)).Fits(source.Only(Just(p)))
    ensures w.Fits(source) && source.Only(Just(p)).IsZero() ==> w.Only(Just(p)).Covers(NO_WORDS)
  {
  }

  lemma OldPartDone(d: Draft, lang: string, p: WordPart)
    requires lang in d.localizations && !d.StylePending(lang) && d.OwnWordParts().Has(p)
    requires !d.style.Words().Only(Just(p)).IsZero()
    ensures d.localizations[lang].style.Some?
    ensures d.localizations[lang].style.value.reviewed && PartDone(d.localizations[lang].style.value, d.style.Words(), p)
  {
    StyleDoneByParts(d, lang);
    ZeroByParts(d.style.Words(), d.OwnWordParts());
  }

  /** Making parts the survey's own without changing their words keeps a language ready exactly when
      the survey had no translation there, or a read one that was made from no words in the parts
      that now have none. The last is the case the code misses: a translation still holds the source
      words of a part the survey gave up, and a wordless part taken over later is compared with them. */
  lemma AdoptionKeepsReady(d: Draft, account: Account, submitted: Style, carried: Parts,
                           header: Option<bool>, footer: Option<bool>, addresses: AddressRule, lang: string)
    requires DraftFits(d) && lang in d.localizations && !d.StylePending(lang)
    requires d.SetStyleFromForm(account, submitted, carried, header, footer, addresses).Ok?
    requires var after := d.Carry(account.style, AsSaved(submitted), carried, header, footer);
      TakesOverUnchanged(d, after, account) && !account.PendingFor(lang, after.NewlyOwn(d))
    ensures var after := d.Carry(account.style, AsSaved(submitted), carried, header, footer);
      var e := d.SetStyleFromForm(account, submitted, carried, header, footer, addresses).value;
      !e.StylePending(lang) <==>
        after.OwnStyleWords().IsZero() || d.localizations[lang].style.None?
        || (d.localizations[lang].style.value.reviewed && d.localizations[lang].style.value.source.Only(Wordless(after)).IsZero())
  {
    var after := d.Carry(account.style, AsSaved(submitted), carried, header, footer);
    TakeoverKeepsReady(d, after, account, lang);
  }

  lemma SameOwnWords(d: Draft, e: Draft)
    requires d.style == e.style && d.choice == e.choice
    ensures d.OwnWordParts() == e.OwnWordParts() && d.OwnStyleWords() == e.OwnStyleWords()
  {
  }

  lemma TakeoverKeepsReady(d: Draft, after: Draft, account: Account, lang: string)
    requires DraftFits(d) && lang in d.localizations && !d.StylePending(lang)
    requires after.localizations == d.localizations
    requires TakesOverUnchanged(d, after, account) && !account.PendingFor(lang, after.NewlyOwn(d))
    ensures var e := after.AdoptStyleTranslations(account, after.NewlyOwn(d));
      !e.StylePending(lang) <==>
        after.OwnStyleWords().IsZero() || d.localizations[lang].style.None?
        || (d.localizations[lang].style.value.reviewed && d.localizations[lang].style.value.source.Only(Wordless(after)).IsZero())
  {
    hide StyleWords.Covers, StyleWords.Fits, StyleWords.With, Style.Words, Draft.StylePending, Adopted, PartDone, TakesOverUnchanged,
      Account.PendingFor, Draft.NewlyOwn, Draft.SameWords, Draft.OwnWordParts, DraftFits, Wordless, StyleWords.IsZero;
    var parts := after.NewlyOwn(d);
    var t := Adopted(after, account, lang, after.SameWords(account.style, parts));
    AdoptedIs(after, account, lang, parts);
    StyleDoneByParts(after.AdoptStyleTranslations(account, parts), lang);
    SameOwnWords(after.AdoptStyleTranslations(account, parts), after);
    if !after.OwnStyleWords().IsZero() {
      if t.None? {
        NothingToAdoptMeansNoWords(d, after, account, lang);
      } else {
        AdoptedIsRead(d, after, account, lang, t.value);
        if t.value.reviewed {
          AdoptedDone(d, after, account, lang, t.value);
        }
      }
    }
  }

  /** Adopting words that are read keeps a read translation read, and an unread one unread. */
  lemma AdoptedIsRead(d: Draft, after: Draft, account: Account, lang: string, t: LocalizedStyle)
    requires lang in d.localizations && after.localizations == d.localizations
    requires !account.PendingFor(lang, after.NewlyOwn(d))
    requires Adopted(after, account, lang, after.SameWords(account.style, after.NewlyOwn(d))) == Some(t)
    ensures t.reviewed <==> d.localizations[lang].style.None? || d.localizations[lang].style.value.reviewed
  {
    var same := after.SameWords(account.style, after.NewlyOwn(d));
    assert same.Within(after.NewlyOwn(d));
    ReadForFewerParts(account, lang, after.NewlyOwn(d), same);
  }

  lemma AdoptedDone(d: Draft, after: Draft, account: Account, lang: string, t: LocalizedStyle)
    requires DraftFits(d) && lang in d.localizations && !d.StylePending(lang)
    requires after.localizations == d.localizations && TakesOverUnchanged(d, after, account)
    requires !account.PendingFor(lang, after.NewlyOwn(d))
    requires Adopted(after, account, lang, after.SameWords(account.style, after.NewlyOwn(d))) == Some(t) && t.reviewed
    ensures (forall p: WordPart :: after.OwnWordParts().Has(p) ==> PartDone(t, after.style.Words(), p))
       <==> d.localizations[lang].style.None? || d.localizations[lang].style.value.source.Only(Wordless(after)).IsZero()
  {
    hide StyleWords.Covers, StyleWords.Fits, StyleWords.With, Style.Words, Draft.StylePending, Adopted, PartDone, TakesOverUnchanged;
    var was := d.localizations[lang].style;
    forall p: WordPart | after.OwnWordParts().Has(p) {
      AdoptedPartDone(d, after, account, lang, t, p);
    }
    if was.Some? {
      ZeroByParts(was.value.source, Wordless(after));
      assert forall p: WordPart :: Wordless(after).Has(p) <==> after.OwnWordParts().Has(p) && after.style.Words().Only(Just(p)).IsZero();
    }
  }

  lemma NothingToAdoptMeansNoWords(d: Draft, after: Draft, account: Account, lang: string)
    requires lang in d.localizations && !d.StylePending(lang)
    requires after.localizations == d.localizations && TakesOverUnchanged(d, after, account)
    requires !account.PendingFor(lang, after.NewlyOwn(d))
    requires Adopted(after, account, lang, after.SameWords(account.style, after.NewlyOwn(d))).None?
    ensures after.OwnStyleWords().IsZero()
  {
    var parts := after.NewlyOwn(d);
    forall p: WordPart | after.OwnWordParts().Has(p) ensures after.style.Words().Only(Just(p)).IsZero() {
      if !after.style.Words().Only(Just(p)).IsZero() {
        SameWordsByPart(after, account.style, parts, p);
        if parts.Has(p) {
          AccountReadByPart(account, lang, parts, p);
        } else {
          OldPartDone(d, lang, p);
        }
      }
    }
    ZeroByParts(after.style.Words(), after.OwnWordParts());
  }

  // --- the case missed --------------------------------------------------------

  const NAMED_ONLY := Account(NO_STYLE.(header := NO_HEADER.(name := "Acme")), map[])
  const KEPT_SOURCE := LocalizedStyle(StyleWords("Hola", "", [], "Pie", [], ""), true, StyleWords("Hello", "", [], "Foot", [], ""))
  const FOOTED := EMPTY_DRAFT.(style := NO_STYLE.(footer := Footer("Foot", [])),
                               localizations := map["es" := Localization(map[], None, Some(KEPT_SOURCE))])
  const RENAMED := NO_STYLE.(header := NO_HEADER.(name := "Acme North"), footer := Footer("Foot", []))

  lemma FootedIsReady()
    ensures DraftFits(FOOTED) && AccountFits(NAMED_ONLY) && !FOOTED.StylePending("es")
    ensures !NAMED_ONLY.PendingFor("es", ALL_PARTS)
    ensures RENAMED.Words().Only(Just(HeaderWords)) == NAMED_ONLY.style.Words().Only(Just(HeaderWords))
  {
    assert FOOTED.OwnWordParts() == Parts(false, false, true, false);
    assert KEPT_SOURCE.source.Only(FOOTED.OwnWordParts()) == FOOTED.OwnStyleWords();
  }

  const RETAKEN := FOOTED.(style := RENAMED, choice := FOLLOWS_ALL.(own := Parts(false, true, false, false)))

  lemma RetakenIsSaved(addresses: AddressRule)
    ensures FOOTED.SetStyleFromForm(NAMED_ONLY, RENAMED, Just(HeaderWords), None, None, addresses) == Ok(RETAKEN)
  {
    assert AsSaved(RENAMED).Validate(addresses) == None;
    var after := FOOTED.Carry(NAMED_ONLY.style, AsSaved(RENAMED), Just(HeaderWords), None, None);
    assert after == RETAKEN;
    assert after.SameWords(NAMED_ONLY.style, after.NewlyOwn(FOOTED)).IsZero();
  }

  lemma RetakenWaits()
    ensures RETAKEN.StylePending("es")
  {
    assert RETAKEN.OwnWordParts().header && RETAKEN.OwnStyleWords().tagline == "" && RETAKEN.OwnStyleWords().footerText == "Foot";
    assert KEPT_SOURCE.source.Only(RETAKEN.OwnWordParts()).tagline == "Hello";
  }

  /** The case missed, in a survey of one language: a header with no words, taken over unchanged to
      change its name, makes a finished language wait again. */
  lemma WordlessTakeoverMakesReadyLanguageWait(addresses: AddressRule)
    ensures exists d: Draft, account: Account, submitted: Style, carried: Parts, lang: string ::
      && DraftFits(d) && AccountFits(account) && lang in d.localizations && !d.StylePending(lang)
      && d.SetStyleFromForm(account, submitted, carried, None, None, addresses).Ok?
      && submitted.Words().Only(carried) == account.style.Words().Only(carried)
      && !account.PendingFor(lang, ALL_PARTS)
      && d.SetStyleFromForm(account, submitted, carried, None, None, addresses).value.StylePending(lang)
  {
    assert "es" in FOOTED.localizations;
    hide *;
    FootedIsReady();
    RetakenIsSaved(addresses);
    RetakenWaits();
  }
}
