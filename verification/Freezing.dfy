/** Publishing and reading back as the store does them: column by column and language by language. */
module Freezing {
  import opened Wrappers
  import opened Text
  import opened Styles
  import opened Questions
  import opened Drafts
  import opened Versions
  import opened WorkingDrafts

  // --- the thank you page's columns -------------------------------------------

  datatype LocalizedThanksColumn = LocalizedThanksColumn(message: string, linkLabel: string)

  /** A part left empty is stored as nothing, which is what "show the default" means of a version. */
  datatype ThanksColumns = ThanksColumns(message: Option<string>, linkLabel: Option<string>, linkURL: Option<string>,
                                         localized: map<string, LocalizedThanksColumn>)

  function NullIfEmpty(s: string): Option<string> { if s == "" then None else Some(s) }

  function OrEmpty(s: Option<string>): string { if s.None? then "" else s.value }

  method WriteThanks(d: Draft) returns (c: ThanksColumns)
    ensures c.message == NullIfEmpty(d.thanks.message) && c.linkLabel == NullIfEmpty(d.thanks.linkLabel)
    ensures c.linkURL == NullIfEmpty(d.thanks.linkURL)
    ensures forall lang :: lang in c.localized <==> lang in d.localizations && d.LocalizedThanksIn(lang).Some?
    ensures forall lang <- c.localized.Keys :: var t := d.LocalizedThanksIn(lang).value;
      c.localized[lang] == LocalizedThanksColumn(t.message, t.linkLabel)
  {
    var byLang: map<string, LocalizedThanksColumn> := map[];
    var langs := CodesInOrder(d.localizations.Keys);
    for i := 0 to |langs|
      invariant forall lang :: lang in byLang <==> lang in langs[..i] && d.LocalizedThanksIn(lang).Some?
      invariant forall lang <- byLang.Keys :: var t := d.LocalizedThanksIn(lang).value;
        byLang[lang] == LocalizedThanksColumn(t.message, t.linkLabel)
    {
      assert langs[..i + 1] == langs[..i] + [langs[i]];
      var translated := d.LocalizedThanksIn(langs[i]);
      if translated.Some? {
        byLang := byLang[langs[i] := LocalizedThanksColumn(translated.value.message, translated.value.linkLabel)];
      }
    }
    assert langs[..|langs|] == langs;
    c := ThanksColumns(NullIfEmpty(d.thanks.message), NullIfEmpty(d.thanks.linkLabel), NullIfEmpty(d.thanks.linkURL), byLang);
  }

  method ReadThanks(c: ThanksColumns) returns (thanks: ThankYou, byLang: map<string, ThankYou>)
    ensures thanks == ThankYou(OrEmpty(c.message), OrEmpty(c.linkLabel), OrEmpty(c.linkURL))
    ensures byLang.Keys == c.localized.Keys
    ensures forall lang <- byLang.Keys :: byLang[lang] == ThankYou(c.localized[lang].message, c.localized[lang].linkLabel, thanks.linkURL)
  {
    thanks := ThankYou(OrEmpty(c.message), OrEmpty(c.linkLabel), OrEmpty(c.linkURL));
    byLang := map[];
    var left := c.localized.Keys;
    while left != {}
      invariant left <= c.localized.Keys && byLang.Keys == c.localized.Keys - left
      invariant forall lang <- byLang.Keys :: byLang[lang] == ThankYou(c.localized[lang].message, c.localized[lang].linkLabel, thanks.linkURL)
      decreases left
    {
      var lang :| lang in left;
      byLang := byLang[lang := ThankYou(c.localized[lang].message, c.localized[lang].linkLabel, thanks.linkURL)];
      left := left - {lang};
    }
  }

  /** Written and read back, the thank you page is the draft's, and so is the page in each language. */
  method ThanksRoundTrip(d: Draft) returns (thanks: ThankYou, byLang: map<string, ThankYou>)
    ensures thanks == d.thanks && byLang == FreezeThanksTranslations(d)
  {
    var c := WriteThanks(d);
    thanks, byLang := ReadThanks(c);
  }

  // --- the style's column -----------------------------------------------------

  datatype FrozenStyle = FrozenStyle(style: Style, localizations: map<string, StyleWords>, follows: Parts)

  method WriteStyle(d: Draft, account: Account) returns (c: Option<FrozenStyle>)
    ensures c.None? <==> d.ResolvedStyle(account.style).IsZero() && d.FollowedParts().IsZero()
    ensures c.Some? ==> c.value == FrozenStyle(d.ResolvedStyle(account.style), FreezeStyleTranslations(d, account), d.FollowedParts())
  {
    hide Draft.ResolvedStyle, Draft.FollowedParts, Draft.ResolvedStyleWords, Style.IsZero;
    var style, follows := d.ResolvedStyle(account.style), d.FollowedParts();
    if style.IsZero() && follows.IsZero() {
      return None;
    }
    var byLang: map<string, StyleWords> := map[];
    var langs := CodesInOrder(d.localizations.Keys);
    for i := 0 to |langs|
      invariant forall lang :: lang in byLang <==> lang in langs[..i] && FrozenWords(d, account, lang).Some?
      invariant forall lang <- byLang.Keys :: Some(byLang[lang]) == FrozenWords(d, account, lang)
    {
      assert langs[..i + 1] == langs[..i] + [langs[i]];
      var words := d.ResolvedStyleWords(account, langs[i]);
      if words.Some? && !words.value.IsZero() {
        byLang := byLang[langs[i] := words.value];
      }
    }
    assert langs[..|langs|] == langs;
    return Some(FrozenStyle(style, byLang, follows));
  }

  // --- the questions ----------------------------------------------------------

  /** The wordings stored for the questions of a version, question by question, language by language. */
  method WriteWordings(d: Draft) returns (byLang: map<string, map<string, Wording>>)
    ensures byLang == FreezeQuestionTranslations(d)
  {
    byLang := map[];
    var langs := CodesInOrder(d.localizations.Keys);
    for k := 0 to |langs|
      invariant forall lang :: lang in byLang <==> lang in langs[..k] && StoredWordings(d, lang) != map[]
      invariant forall lang <- byLang.Keys :: byLang[lang] == StoredWordings(d, lang)
    {
      assert langs[..k + 1] == langs[..k] + [langs[k]];
      var wordings := WordingsIn(d, langs[k]);
      if wordings != map[] {
        byLang := byLang[langs[k] := wordings];
      }
    }
    assert langs[..|langs|] == langs;
  }

  method WordingsIn(d: Draft, lang: string) returns (wordings: map<string, Wording>)
    requires lang in d.localizations
    ensures wordings == StoredWordings(d, lang)
  {
    wordings := map[];
    var known := d.localizations[lang].questions;
    for i := 0 to |d.questions|
      invariant forall id :: id in wordings <==>
        id in known && known[id].text != "" && exists j :: 0 <= j < i && d.questions[j].identity == id
      invariant forall id <- wordings.Keys :: wordings[id] == Wording(known[id].text, known[id].options)
    {
      var id := d.questions[i].identity;
      if id in known && known[id].text != "" {
        wordings := wordings[id := Wording(known[id].text, known[id].options)];
      }
    }
    assert forall id :: d.Knows(id) <==> exists j :: 0 <= j < |d.questions| && d.questions[j].identity == id;
  }

  /** A publish: every column written and read back is the version the freeze promises. */
  method PublishResolved(d: Draft, account: Account) returns (v: Version)
    ensures v == Freeze(d, account)
  {
    var thanks, thanksByLang := ThanksRoundTrip(d);
    var column := WriteStyle(d, account);
    var wordings := WriteWordings(d);
    var questions: seq<Question> := [];
    for i := 0 to |d.questions|
      invariant |questions| == i && forall j :: 0 <= j < i ==> questions[j] == d.questions[j].Frozen()
    {
      questions := questions + [d.questions[i].Frozen()];
    }
    assert questions == FrozenQuestions(d.questions);
    match column
    case None => v := Version(questions, wordings, thanks, thanksByLang, NO_STYLE, map[], NO_PARTS);
    case Some(c) => v := Version(questions, wordings, thanks, thanksByLang, c.style, c.localizations, c.follows);
  }

  // --- reading back -----------------------------------------------------------

  method Languages(v: Version) returns (langs: seq<string>)
    ensures InOrder(langs)
    ensures forall lang :: lang in langs <==> lang in v.Languages()
  {
    langs := CodesInOrder(v.questionTranslations.Keys + v.thanksTranslations.Keys + v.styleTranslations.Keys);
  }

  method ReadBackQuestions(v: Version, lang: string) returns (m: map<string, LocalizedQuestion>)
    ensures m == v.QuestionsIn(lang, v.questions)
  {
    m := map[];
    for i := 0 to |v.questions|
      invariant m == v.QuestionsIn(lang, v.questions[..i])
    {
      var q := v.questions[i];
      assert v.questions[..i + 1][..i] == v.questions[..i];
      var translated := v.WordingIn(lang, q.identity);
      m := m[q.identity := LocalizedQuestion(translated.text, translated.options, true, q.text)];
    }
    assert v.questions[..|v.questions|] == v.questions;
  }

  method ReadBackLanguage(v: Version, own: Draft, lang: string) returns (l: Localization)
    requires own.thanks == v.thanks
    ensures l == v.LocalizationIn(own, lang)
  {
    var questions := ReadBackQuestions(v, lang);
    l := Localization(questions, None, None);
    if own.HasThanksToTranslate() {
      var t := if lang in v.thanksTranslations then v.thanksTranslations[lang] else v.thanks;
      l := l.(thanks := Some(LocalizedThanks(t.message, t.linkLabel, true, v.thanks.message, v.thanks.linkLabel)));
    }
    if !own.OwnStyleWords().IsZero() {
      var words := if lang in v.styleTranslations then v.styleTranslations[lang] else own.OwnStyleWords();
      l := l.(style := Some(LocalizedStyle(words.Only(own.OwnWordParts()), true, own.OwnStyleWords())));
    }
  }

  method OwnParts(v: Version) returns (d: Draft)
    ensures d == v.OwnDraft() && d.thanks == v.thanks
  {
    d := EMPTY_DRAFT.(questions := v.questions, thanks := v.thanks);
    if !v.follows.theme {
      d := d.(style := d.style.(theme := v.style.theme), choice := d.choice.(own := d.choice.own.(theme := true)));
    }
    if !v.follows.header {
      if v.style.header.IsZero() {
        d := d.(choice := d.choice.(noHeader := true));
      } else {
        d := d.(style := d.style.(header := v.style.header), choice := d.choice.(own := d.choice.own.(header := true)));
      }
    }
    if !v.follows.footer {
      if v.style.footer.IsZero() {
        d := d.(choice := d.choice.(noFooter := true));
      } else {
        d := d.(style := d.style.(footer := v.style.footer), choice := d.choice.(own := d.choice.own.(footer := true)));
      }
    }
    if !v.follows.thanks {
      d := d.(style := d.style.(thanks := v.style.thanks), choice := d.choice.(own := d.choice.own.(thanks := true)));
    }
  }

  method ReadBack(v: Version) returns (d: Draft)
    ensures d == v.AsDraft()
  {
    hide Version.LocalizationIn, Version.OwnDraft;
    var own := OwnParts(v);
    var langs := Languages(v);
    var localizations: map<string, Localization> := map[];
    for i := 0 to |langs|
      invariant forall lang :: lang in localizations <==> lang in langs[..i]
      invariant forall lang <- localizations.Keys :: localizations[lang] == v.LocalizationIn(own, lang)
    {
      assert langs[..i + 1] == langs[..i] + [langs[i]];
      var l := ReadBackLanguage(v, own, langs[i]);
      localizations := localizations[langs[i] := l];
    }
    assert langs[..|langs|] == langs;
    d := own.(localizations := localizations);
    assert d.localizations == v.AsDraft().localizations;
  }

  // --- asking what a refresh would do -----------------------------------------

  method IsDrawnAs(v: Version, d: Draft, account: Account) returns (same: bool)
    ensures same == DrawnAs(v, d, account)
  {
    hide FrozenWords, Draft.ResolvedStyle;
    if !StyleDiffers(v.style, d.ResolvedStyle(account.style)).IsZero() {
      return false;
    }
    var langs := Languages(v);
    for i := 0 to |langs|
      invariant forall j :: 0 <= j < i ==>
        FrozenWords(d, account, langs[j]) == if langs[j] in v.styleTranslations then Some(v.styleTranslations[langs[j]]) else None
    {
      var words := FrozenWords(d, account, langs[i]);
      var had := langs[i] in v.styleTranslations;
      if words.Some? != had || (words.Some? && words.value != v.styleTranslations[langs[i]]) {
        assert langs[i] in v.Languages();
        return false;
      }
    }
    return true;
  }

  method WouldRefresh(v: Version, account: Account) returns (r: Refresh)
    ensures r == RefreshAgainst(v, account)
  {
    hide Version.AsDraft, DrawnAs, Draft.ReadyToPublish;
    if v.follows.IsZero() {
      return Refresh(false, None);
    }
    var d := ReadBack(v);
    var same := IsDrawnAs(v, d, account);
    var working := new WorkingDraft(d);
    var refused := working.ReadyToPublish(account);
    r := Refresh(!same, None);
    match refused
    case Some(AccountStyleUnread(lang)) => r := r.(blockedIn := Some(lang));
    case _ =>
  }

  method IsChangedBetween(v: Version, before: Account, after: Account) returns (changed: bool)
    ensures changed == ChangedBetween(v, before, after)
  {
    hide Version.AsDraft, FrozenWords, Draft.ResolvedStyle;
    if v.follows.IsZero() {
      return false;
    }
    var d := ReadBack(v);
    if !StyleDiffers(d.ResolvedStyle(before.style), d.ResolvedStyle(after.style)).IsZero() {
      return true;
    }
    var langs := Languages(v);
    changed := WordsChange(d, langs, before, after);
    assert (forall lang <- v.Languages() :: FrozenWords(d, before, lang) == FrozenWords(d, after, lang))
      == (forall lang <- langs :: FrozenWords(d, before, lang) == FrozenWords(d, after, lang));
  }

  method WordsChange(d: Draft, langs: seq<string>, before: Account, after: Account) returns (changed: bool)
    ensures changed == !forall lang <- langs :: FrozenWords(d, before, lang) == FrozenWords(d, after, lang)
  {
    for i := 0 to |langs|
      invariant forall j :: 0 <= j < i ==> FrozenWords(d, before, langs[j]) == FrozenWords(d, after, langs[j])
    {
      if FrozenWords(d, before, langs[i]) != FrozenWords(d, after, langs[i]) {
        return true;
      }
    }
    return false;
  }
}
