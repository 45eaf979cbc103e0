/** The draft as requests change it: fields updated in place, each method recording exactly the change
    the draft's value promises. */
module WorkingDrafts {
  import opened Wrappers
  import opened Text
  import opened Styles
  import opened Questions
  import opened Drafts

  class WorkingDraft {
    var questions: seq<Question>
    var localizations: map<string, Localization>
    var thanks: ThankYou
    var style: Style
    var choice: StyleChoice

    function Value(): Draft
      reads this
    {
      Draft(questions, localizations, thanks, style, choice)
    }

    /** The draft is what the change makes of what it was, or, refused, what it was. */
    predicate Records(was: Draft, change: Result<Draft>, refused: Option<Error>)
      reads this
    {
      match change
      case Ok(d) => refused == None && Value() == d
      case Err(e) => refused == Some(e) && Value() == was
    }

    constructor (d: Draft)
      ensures Value() == d
    {
      questions, localizations, thanks, style, choice := d.questions, d.localizations, d.thanks, d.style, d.choice;
    }

    // --- questions ---

    method IndexOf(identity: string) returns (i: nat, found: bool)
      ensures found == Value().Knows(identity)
      ensures found ==> i == Value().IndexOf(identity)
      ensures found ==> i < |questions|
    {
      for k := 0 to |questions|
        invariant forall j :: 0 <= j < k ==> questions[j].identity != identity
      {
        if questions[k].identity == identity {
          assert questions[k] in questions;
          FirstIndexIs(questions, identity, k);
          return k, true;
        }
      }
      return 0, false;
    }

    method Add(q: Question, rule: QuestionRule) returns (refused: Option<Error>)
      modifies this`questions
      ensures Records(old(Value()), old(Value()).Add(q, rule), refused)
    {
      if |questions| >= MAX_QUESTIONS {
        return Some(Limit(QuestionCount));
      }
      if !rule(q) {
        return Some(QuestionRefused(0));
      }
      questions := questions + [q];
      return None;
    }

    method Replace(identity: string, q: Question, rule: QuestionRule) returns (refused: Option<Error>)
      modifies this`questions
      ensures Records(old(Value()), old(Value()).Replace(identity, q, rule), refused)
    {
      var i, ok := IndexOf(identity);
      if !ok {
        return Some(QuestionUnknown);
      }
      var kept := q.(identity := identity);
      if !rule(kept) {
        return Some(QuestionRefused(0));
      }
      questions := questions[i := kept];
      return None;
    }

    method Remove(identity: string) returns (refused: Option<Error>)
      modifies this`questions
      ensures Records(old(Value()), old(Value()).Remove(identity), refused)
    {
      var i, ok := IndexOf(identity);
      if !ok {
        return Some(QuestionUnknown);
      }
      questions := questions[..i] + questions[i + 1..];
      return None;
    }

    method Move(identity: string, delta: int) returns (refused: Option<Error>)
      modifies this`questions
      ensures Records(old(Value()), old(Value()).Move(identity, delta), refused)
    {
      var i, ok := IndexOf(identity);
      if !ok {
        return Some(QuestionUnknown);
      }
      var j := i + delta;
      if j < 0 {
        j := 0;
      }
      if j > |questions| - 1 {
        j := |questions| - 1;
      }
      if i == j {
        MovingNowhere(questions, i);
        return None;
      }
      ghost var was := questions;
      var q := questions[i];
      questions := questions[..i] + questions[i + 1..];
      var rest := [q] + questions[j..];
      questions := questions[..j] + rest;
      SplicedIsMoved(was, i, j, questions);
      return None;
    }

    // --- the thank you page, languages and translations ---

    method SetThanks(t: ThankYou, addresses: AddressRule) returns (refused: Option<Error>)
      modifies this`thanks
      ensures refused == t.Validate(addresses)
      ensures Value() == old(Value()).(thanks := if refused == None then t else old(thanks))
    {
      refused := t.Validate(addresses);
      if refused.None? {
        thanks := t;
      }
    }

    method Languages() returns (langs: seq<string>)
      ensures InOrder(langs)
      ensures forall lang :: lang in langs <==> lang in localizations
    {
      langs := CodesInOrder(localizations.Keys);
    }

    method AddLanguage(lang: string) returns (refused: Option<Error>)
      modifies this`localizations
      ensures Records(old(Value()), old(Value()).AddLanguage(lang), refused)
    {
      if !ValidLang(lang) {
        return Some(LanguageInvalid);
      }
      if lang in localizations {
        return Some(LanguageExists);
      }
      if |localizations| >= MAX_LANGUAGES {
        return Some(Limit(LanguageCount));
      }
      localizations := localizations[lang := Localization(map[], None, None)];
      return None;
    }

    method RemoveLanguage(lang: string) returns (refused: Option<Error>)
      modifies this`localizations
      ensures Records(old(Value()), old(Value()).RemoveLanguage(lang), refused)
    {
      if lang !in localizations {
        return Some(UnknownLanguage);
      }
      localizations := localizations - {lang};
      return None;
    }

    method SetTranslation(lang: string, identity: string, text: string, options: seq<string>, reviewed: bool) returns (refused: Option<Error>)
      modifies this`localizations
      ensures Records(old(Value()), old(Value()).SetTranslation(lang, identity, text, options, reviewed), refused)
    {
      if lang !in localizations {
        return Some(UnknownLanguage);
      }
      var localization := localizations[lang];
      var index, found := IndexOf(identity);
      if !found {
        return Some(QuestionUnknown);
      }
      var t := LocalizedQuestion(TrimSpace(text), options, reviewed, questions[index].text);
      localization := localization.(questions := localization.questions[identity := t]);
      localizations := localizations[lang := localization];
      return None;
    }

    method SetThanksTranslation(lang: string, message: string, linkLabel: string, reviewed: bool) returns (refused: Option<Error>)
      modifies this`localizations
      ensures Records(old(Value()), old(Value()).SetThanksTranslation(lang, message, linkLabel, reviewed), refused)
    {
      if lang !in localizations {
        return Some(UnknownLanguage);
      }
      var localization := localizations[lang];
      var t := LocalizedThanks(NormalizeMessage(message), TrimSpace(linkLabel), reviewed, thanks.message, thanks.linkLabel);
      if thanks.message == "" {
        t := t.(message := "");
      }
      if thanks.linkLabel == "" {
        t := t.(linkLabel := "");
      }
      if |t.message| > 1000 {
        return Some(Limit(ThanksMessageLen));
      }
      if |t.linkLabel| > 60 {
        return Some(Limit(ThanksLabelLen));
      }
      localizations := localizations[lang := localization.(thanks := Some(t))];
      return None;
    }

    method SetStyleTranslation(lang: string, words: StyleWords, reviewed: bool) returns (refused: Option<Error>)
      modifies this`localizations
      ensures Records(old(Value()), old(Value()).SetStyleTranslation(lang, words, reviewed), refused)
    {
      if lang !in localizations {
        return Some(UnknownLanguage);
      }
      var localization := localizations[lang];
      match NewLocalizedStyle(Value().OwnStyleWords(), words, reviewed)
      case Err(e) => return Some(e);
      case Ok(t) =>
        localizations := localizations[lang := localization.(style := Some(t))];
        return None;
    }

    // --- the gate ---

    method Pending(lang: string) returns (pending: seq<Question>)
      ensures pending == Value().Pending(lang)
    {
      pending := [];
      if lang !in localizations {
        return;
      }
      for i := 0 to |questions|
        invariant pending == Value().PendingAmong(lang, questions[..i])
      {
        assert questions[..i + 1][..i] == questions[..i];
        if Value().QuestionPending(lang, questions[i]) {
          pending := pending + [questions[i]];
        }
      }
      assert questions[..|questions|] == questions;
    }

    method ReadyToPublish(account: Account) returns (refused: Option<Error>)
      ensures refused == Value().ReadyToPublish(account)
    {
      hide Draft.Pending, Draft.ThanksPending, Draft.StylePending, Draft.AccountStylePending;
      var langs := Languages();
      for i := 0 to |langs|
        invariant forall j :: 0 <= j < i ==> !Value().SurveyPending(langs[j])
      {
        var pending := Pending(langs[i]);
        if |pending| > 0 || Value().ThanksPending(langs[i]) || Value().StylePending(langs[i]) {
          assert langs[i] in Value().localizations.Keys && Value().SurveyPending(langs[i]);
          return Some(UnreviewedTranslation);
        }
      }
      for i := 0 to |langs|
        invariant forall j :: 0 <= j < i ==> !Value().AccountStylePending(account, langs[j])
      {
        if Value().AccountStylePending(account, langs[i]) {
          FirstMetIsFirst(langs, i, Value().HeldLanguages(account));
          return Some(AccountStyleUnread(langs[i]));
        }
      }
      assert Value().HeldLanguages(account) == {};
      return None;
    }

    // --- the Style tab ---

    method SetStyleFromForm(account: Account, posted: Style, carried: Parts, header: Option<bool>, footer: Option<bool>, addresses: AddressRule)
      returns (refused: Option<Error>)
      modifies this
      ensures Records(old(Value()), old(Value()).SetStyleFromForm(account, posted, carried, header, footer, addresses), refused)
    {
      var submitted := posted.(thanks := posted.thanks.Settle());
      if submitted.theme == EARFUL {
        submitted := submitted.(theme := "");
      }
      refused := submitted.Validate(addresses);
      if refused.Some? {
        return;
      }
      SaveForm(account, submitted, carried, header, footer);
    }

    /** The parts carried, the switches, and the translations adopted beside them. */
    method SaveForm(account: Account, submitted: Style, carried: Parts, header: Option<bool>, footer: Option<bool>)
      modifies this`style, this`choice, this`localizations
      ensures var d := old(Value()).Carry(account.style, submitted, carried, header, footer);
        Value() == d.AdoptStyleTranslations(account, d.NewlyOwn(old(Value())))
    {
      ghost var was := Value();
      var before := Value().OwnParts();
      CarryParts(account.style, submitted, carried);
      if header.Some? {
        choice := choice.(noHeader := !header.value);
      }
      if footer.Some? {
        choice := choice.(noFooter := !footer.value);
      }
      assert Value() == was.Carry(account.style, submitted, carried, header, footer);
      var after := Value().OwnParts();
      AdoptStyleTranslations(account, Parts(false, after.header && !before.header, after.footer && !before.footer, after.thanks && !before.thanks));
    }

    /** Each carried part is followed where it is the account's as it stands, and own where it differs. */
    method CarryParts(ws: Style, submitted: Style, carried: Parts)
      modifies this`style, this`choice
      ensures Value() == old(Value()).Carry(ws, submitted, carried, None, None)
    {
      ghost var was := Value();
      CarryTheme(ws, submitted, carried);
      CarryHeader(ws, submitted, carried);
      CarryFooter(ws, submitted, carried);
      CarryThanks(ws, submitted, carried);
      CarriedInTurn(was, ws, submitted, carried);
    }

    method CarryTheme(ws: Style, submitted: Style, carried: Parts)
      modifies this`style, this`choice
      ensures Value() == old(Value()).Carry(ws, submitted, NO_PARTS.(theme := carried.theme), None, None)
    {
      if carried.theme {
        if SameTheme(submitted.theme, ws.theme) {
          style, choice := style.(theme := ""), choice.(own := choice.own.(theme := false));
        } else {
          style, choice := style.(theme := submitted.theme), choice.(own := choice.own.(theme := true));
        }
      }
    }

    method CarryHeader(ws: Style, submitted: Style, carried: Parts)
      modifies this`style, this`choice
      ensures Value() == old(Value()).Carry(ws, submitted, NO_PARTS.(header := carried.header), None, None)
    {
      if carried.header {
        if submitted.header.Draws(ws.header) {
          style, choice := style.(header := NO_HEADER), choice.(own := choice.own.(header := false));
        } else {
          style, choice := style.(header := submitted.header), choice.(own := choice.own.(header := true));
        }
      }
    }

    method CarryFooter(ws: Style, submitted: Style, carried: Parts)
      modifies this`style, this`choice
      ensures Value() == old(Value()).Carry(ws, submitted, NO_PARTS.(footer := carried.footer), None, None)
    {
      if carried.footer {
        if submitted.footer.Draws(ws.footer) {
          style, choice := style.(footer := NO_FOOTER), choice.(own := choice.own.(footer := false));
        } else {
          style, choice := style.(footer := submitted.footer), choice.(own := choice.own.(footer := true));
        }
      }
    }

    method CarryThanks(ws: Style, submitted: Style, carried: Parts)
      modifies this`style, this`choice
      ensures Value() == old(Value()).Carry(ws, submitted, NO_PARTS.(thanks := carried.thanks), None, None)
    {
      if carried.thanks {
        if submitted.thanks.Draws(ws.thanks) {
          style, choice := style.(thanks := OWL), choice.(own := choice.own.(thanks := false));
        } else {
          style, choice := style.(thanks := submitted.thanks), choice.(own := choice.own.(thanks := true));
        }
      }
    }

    method ResetStyle()
      modifies this`style, this`choice
      ensures Value() == old(Value()).ResetStyle()
    {
      style := NO_STYLE;
      choice := FOLLOWS_ALL;
    }

    method AdoptStyleTranslations(account: Account, parts: Parts)
      modifies this`localizations
      ensures Value() == old(Value()).AdoptStyleTranslations(account, parts)
    {
      if parts.IsZero() || |localizations| == 0 {
        assert parts.IsZero() ==> Value().SameWords(account.style, parts).IsZero();
        return;
      }
      var same := WordsStillTheAccounts(account, parts);
      if !same.IsZero() {
        AdoptWords(account, same);
      }
    }

    /** Of the parts given, those whose words the survey has as the account has them. */
    method WordsStillTheAccounts(account: Account, parts: Parts) returns (same: Parts)
      ensures same == Value().SameWords(account.style, parts)
    {
      hide Style.Words, StyleWords.Only, StyleWords.IsZero, Draft.HasSameWords;
      var accountWords, ownWords := account.style.Words(), style.Words();
      same := NO_PARTS;
      var each := [HeaderWords, FooterWords, ThanksWords];
      for i := 0 to 3
        invariant SameAmong(same, each[..i], Value(), account.style, parts)
      {
        var p := Just(each[i]);
        SameOrNot(Value(), account.style, parts, each[i]);
        OneMoreSame(same, each, i, Value(), account.style, parts);
        if p.Within(parts) {
          var words := ownWords.Only(p);
          if !words.IsZero() && words == accountWords.Only(p) {
            same := same.Union(p);
          }
        }
      }
      assert each[..3] == each;
      AllSame(same, Value(), account.style, parts);
    }

    /** The account's words of some parts taken over in each language it has been translated into. */
    method AdoptWords(account: Account, same: Parts)
      modifies this`localizations
      ensures Value() == old(Value()).(localizations := old(Value()).Adopting(account, same))
    {
      hide Draft.AdoptedIn;
      ghost var was := Value();
      ghost var now := was.Adopting(account, same);
      var langs := Languages();
      for i := 0 to |langs|
        invariant localizations.Keys == was.localizations.Keys == now.Keys
        invariant forall j :: i <= j < |langs| ==> localizations[langs[j]] == was.localizations[langs[j]]
        invariant forall j :: 0 <= j < i ==> localizations[langs[j]] == now[langs[j]]
      {
        assert now[langs[i]] == was.Adopting(account, same)[langs[i]];
        if langs[i] in account.localizations {
          AdoptingIs(was, Value(), account, langs[i], same);
          var adopted := AdoptIn(account, langs[i], same, localizations[langs[i]]);
          localizations := localizations[langs[i] := adopted];
        }
      }
      assert localizations == now;
    }

    method AdoptIn(account: Account, lang: string, same: Parts, localization: Localization) returns (adopted: Localization)
      requires lang in account.localizations && lang in localizations && localizations[lang] == localization
      ensures adopted == localization.(style := Some(Value().AdoptedIn(account, lang, same)))
    {
      var translated := account.localizations[lang];
      var t := match localization.style case Some(s) => s case None => LocalizedStyle(NO_WORDS, true, NO_WORDS);
      t := t.(words := t.words.With(translated.words, same));
      t := t.(source := t.source.With(style.Words(), same));
      t := t.(reviewed := t.reviewed && !account.PendingFor(lang, same));
      adopted := localization.(style := Some(t));
    }
  }

  /** same has those of some parts with words that the survey has as the account has them. */
  ghost predicate SameAmong(same: Parts, among: seq<WordPart>, d: Draft, account: Style, parts: Parts) {
    !same.theme && forall p: WordPart :: same.Has(p) <==> p in among && d.HasSameWords(account, parts, p)
  }

  lemma SameOrNot(d: Draft, account: Style, parts: Parts, p: WordPart)
    ensures d.HasSameWords(account, parts, p)
       <==> Just(p).Within(parts) && !d.style.Words().Only(Just(p)).IsZero() && d.style.Words().Only(Just(p)) == account.Words().Only(Just(p))
  {
    hide Style.Words, StyleWords.Only, StyleWords.IsZero;
  }

  lemma OneMoreSame(same: Parts, each: seq<WordPart>, i: nat, d: Draft, account: Style, parts: Parts)
    requires i < |each| && SameAmong(same, each[..i], d, account, parts)
    ensures SameAmong(if d.HasSameWords(account, parts, each[i]) then same.Union(Just(each[i])) else same, each[..i + 1], d, account, parts)
  {
    hide Draft.HasSameWords;
    assert each[..i + 1] == each[..i] + [each[i]];
  }

  lemma AllSame(same: Parts, d: Draft, account: Style, parts: Parts)
    requires SameAmong(same, [HeaderWords, FooterWords, ThanksWords], d, account, parts)
    ensures same == d.SameWords(account, parts)
  {
    hide Draft.HasSameWords;
    assert same.Has(HeaderWords) == same.header && same.Has(FooterWords) == same.footer && same.Has(ThanksWords) == same.thanks;
  }

  lemma AdoptingIs(was: Draft, d: Draft, account: Account, lang: string, same: Parts)
    requires was.style == d.style && lang in account.localizations
    requires lang in was.localizations && lang in d.localizations && was.localizations[lang] == d.localizations[lang]
    ensures was.Adopting(account, same)[lang] == was.localizations[lang].(style := Some(d.AdoptedIn(account, lang, same)))
  {
  }

  lemma CarriedInTurn(d: Draft, ws: Style, s: Style, carried: Parts)
    ensures d.Carry(ws, s, NO_PARTS.(theme := carried.theme), None, None)
             .Carry(ws, s, NO_PARTS.(header := carried.header), None, None)
             .Carry(ws, s, NO_PARTS.(footer := carried.footer), None, None)
             .Carry(ws, s, NO_PARTS.(thanks := carried.thanks), None, None)
         == d.Carry(ws, s, carried, None, None)
  {
  }

  lemma FirstIndexIs(questions: seq<Question>, identity: string, k: nat)
    requires k < |questions| && questions[k].identity == identity
    requires forall j :: 0 <= j < k ==> questions[j].identity != identity
    requires exists q <- questions :: q.identity == identity
    ensures FirstIndex(questions, identity) == k
  {
  }

  lemma SplicedIsMoved<T>(s: seq<T>, i: nat, j: nat, spliced: seq<T>)
    requires i < |s| && j < |s|
    requires var rest := s[..i] + s[i + 1..]; spliced == rest[..j] + ([s[i]] + rest[j..])
    ensures spliced == Moved(s, i, j)
  {
  }

  lemma MovingNowhere<T>(s: seq<T>, i: nat)
    requires i < |s|
    ensures Moved(s, i, i) == s
  {
  }
}
