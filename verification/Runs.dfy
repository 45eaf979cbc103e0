/** Every run of a workspace: creators' saves, each made from a revision they read earlier, account
    saves, publishes and refreshes, in any order, and the readings they leave behind. */
module Runs {
  import opened Wrappers
  import opened Text
  import opened Styles
  import opened Questions
  import opened Drafts
  import opened StyleForm
  import opened Versions
  import opened Refreeze
  import opened Fixpoint
  import opened Readings
  import opened Publishing

  /** One change a request makes to the draft it read. */
  datatype Edit =
    | AddQuestion(q: Question)
    | ReplaceQuestion(identity: string, q: Question)
    | RemoveQuestion(identity: string)
    | MoveQuestion(identity: string, delta: int)
    | SetThanks(thanks: ThankYou)
    | AddLanguage(lang: string)
    | RemoveLanguage(lang: string)
    | Translate(lang: string, identity: string, text: string, options: seq<string>, reviewed: bool)
    | TranslateThanks(lang: string, message: string, linkLabel: string, reviewed: bool)
    | TranslateStyle(lang: string, words: StyleWords, reviewed: bool)
    | SaveStyleForm(account: nat, submitted: Style, carried: Parts, header: Option<bool>, footer: Option<bool>)
    | ResetStyle

  /** The edit made to a draft; a style form is read beside one revision of the account. */
  function Apply(d: Draft, edit: Edit, accounts: seq<Account>, rules: Rules): Result<Draft> {
    match edit
    case AddQuestion(q) => if d.Knows(q.identity) then Err(QuestionRefused(0)) else d.Add(q, rules.questions)
    case ReplaceQuestion(identity, q) => d.Replace(identity, q, rules.questions)
    case RemoveQuestion(identity) => d.Remove(identity)
    case MoveQuestion(identity, delta) => d.Move(identity, delta)
    case SetThanks(t) => (match t.Validate(rules.addresses) case Some(e) => Err(e) case None => Ok(d.(thanks := t)))
    case AddLanguage(lang) => d.AddLanguage(lang)
    case RemoveLanguage(lang) => d.RemoveLanguage(lang)
    case Translate(lang, identity, text, options, reviewed) => d.SetTranslation(lang, identity, text, options, reviewed)
    case TranslateThanks(lang, message, linkLabel, reviewed) => d.SetThanksTranslation(lang, message, linkLabel, reviewed)
    case TranslateStyle(lang, words, reviewed) => d.SetStyleTranslation(lang, words, reviewed)
    case SaveStyleForm(i, submitted, carried, header, footer) =>
      if i >= |accounts| then Err(NotFound)
      else d.SetStyleFromForm(accounts[i], submitted, carried, header, footer, rules.addresses)
    case ResetStyle => Ok(d.ResetStyle())
  }

  /** What the edit, saved, records as read: the translation it saves as read, against the wording of
      the draft it was made from. */
  function ReadingsOf(d: Draft, edit: Edit, saved: Draft): set<Reading> {
    match edit
    case Translate(lang, identity, _, _, true) =>
      if d.Knows(identity) && lang in saved.localizations && identity in saved.localizations[lang].questions then
        var t, beside := saved.localizations[lang].questions[identity], d.questions[d.IndexOf(identity)].options;
        {QuestionRead(lang, identity, t.sourceText, beside, t.text, t.options)}
      else {}
    case TranslateThanks(lang, _, _, true) =>
      if lang in saved.localizations && saved.localizations[lang].thanks.Some? then
        var t := saved.localizations[lang].thanks.value;
        {ThanksRead(lang, t.sourceMessage, t.sourceLinkLabel, t.message, t.linkLabel)}
      else {}
    case TranslateStyle(lang, _, true) =>
      if lang in saved.localizations && saved.localizations[lang].style.Some? then
        StyleReadings(lang, saved.localizations[lang].style.value)
      else {}
    case _ => {}
  }

  /** A survey: every revision of its draft, the first empty and the last current, and its versions. */
  datatype Survey = Survey(workspace: nat, title: string, revisions: seq<Draft>, versions: seq<Version>, closed: bool, deleted: bool) {
    predicate Open() { versions != [] && !closed }
  }

  /** accounts holds every revision of each workspace's account style; the last is current, and its
      place is the stamp a page names it by. read is every reading there has been, and whose page it was
      made on. */
  datatype World = World(accounts: map<nat, seq<Account>>, surveys: map<nat, Survey>, read: set<Entry>) {
    function AccountsOf(workspace: nat): seq<Account> {
      if workspace in accounts then accounts[workspace] else [NO_ACCOUNT]
    }

    function Current(workspace: nat): Account {
      var a := AccountsOf(workspace);
      if a == [] then NO_ACCOUNT else a[|a| - 1]
    }

    function Stamp(workspace: nat): nat { |AccountsOf(workspace)| }

    /** What was read on the pages of a survey and, of style words, of its account. */
    function ReadOf(id: nat): set<Reading>
      requires id in surveys
    {
      ReadFor(read, id, surveys[id].workspace)
    }
  }

  const START := World(map[], map[], {})

  function Latest(s: Survey): Option<Version> {
    if s.versions == [] then None else Some(s.versions[|s.versions| - 1])
  }

  datatype Step =
    | Create(id: nat, workspace: nat, title: string)
    | Save(id: nat, revision: nat, edit: Edit)
    | SaveAccountStyle(workspace: nat, style: Style)
    | TranslateAccount(workspace: nat, source: Option<StyleWords>, lang: string, words: StyleWords, reviewed: bool)
    | RemoveAccountLanguage(workspace: nat, lang: string)
    | PublishDraft(id: nat)
    | RefreshSurvey(id: nat, workspace: nat, stamp: nat)
    | Close(id: nat)
    | Reopen(id: nat)
    | Delete(id: nat)
    | Rename(id: nat, title: string)

  /** What refreshing one survey comes to (pictures aside). */
  datatype Outcome = LeftAlone | Updated(version: Version) | Held(lang: string) | Failed(error: Error)

  function RefreshOne(w: World, id: nat, workspace: nat, stamp: nat, rules: Rules): Outcome {
    if id !in w.surveys then LeftAlone
    else
      var s := w.surveys[id];
      var account := w.Current(s.workspace);
      if w.Stamp(s.workspace) != stamp then Failed(AccountStyleChanged)
      else if s.workspace != workspace || s.deleted then LeftAlone
      else if !s.Open() then LeftAlone
      else RefreshVersion(Latest(s).value, account, rules)
  }

  function RefreshVersion(v: Version, account: Account, rules: Rules): Outcome {
    var r := RefreshAgainst(v, account);
    if !r.changes then LeftAlone
    else if r.blockedIn.Some? then Held(r.blockedIn.value)
    else
      var d := v.AsDraft();
      if d.ReadyToPublish(account).Some? then Failed(d.ReadyToPublish(account).value)
      else if d.ResolvedStyle(account.style).Validate(rules.addresses).Some? then
        Failed(d.ResolvedStyle(account.style).Validate(rules.addresses).value)
      else Updated(Freeze(d, account))
  }

  function WithAccount(w: World, workspace: nat, account: Account): World {
    w.(accounts := w.accounts[workspace := w.AccountsOf(workspace) + [account]])
  }

  function WithVersion(w: World, id: nat, v: Version): World
    requires id in w.surveys
  {
    w.(surveys := w.surveys[id := w.surveys[id].(versions := w.surveys[id].versions + [v])])
  }

  function SaveEdit(w: World, id: nat, revision: nat, edit: Edit, rules: Rules): World {
    if id !in w.surveys || revision >= |w.surveys[id].revisions| then w
    else
      var s := w.surveys[id];
      match Apply(s.revisions[revision], edit, w.AccountsOf(s.workspace), rules)
      case Err(_) => w
      case Ok(d) => w.(surveys := w.surveys[id := s.(revisions := s.revisions + [d])],
                       read := w.read + By(OfSurvey(id), ReadingsOf(s.revisions[revision], edit, d)))
  }

  function AccountReadings(workspace: nat, lang: string, saved: Account, reviewed: bool): set<Entry>
    requires lang in saved.localizations
  {
    if reviewed then By(OfAccount(workspace), StyleReadings(lang, saved.localizations[lang])) else {}
  }

  function SaveTranslation(w: World, workspace: nat, source: Option<StyleWords>, lang: string, words: StyleWords, reviewed: bool): World {
    match w.Current(workspace).SetTranslationOf(source, lang, words, reviewed)
    case Err(_) => w
    case Ok(a) => WithAccount(w, workspace, a).(read := w.read + AccountReadings(workspace, lang, a, reviewed))
  }

  /** What publishing a survey's current draft comes to. */
  function PublishOne(w: World, id: nat, rules: Rules): Result<Version> {
    if id !in w.surveys || w.surveys[id].revisions == [] then Err(NotFound)
    else
      var s := w.surveys[id];
      Publish(s.revisions[|s.revisions| - 1], w.Current(s.workspace), Latest(s), rules)
  }

  function AfterPublish(w: World, id: nat, r: Result<Version>): World {
    if r.Ok? && id in w.surveys then WithVersion(w, id, r.value) else w
  }

  function AfterRefresh(w: World, id: nat, outcome: Outcome): World {
    if outcome.Updated? && id in w.surveys then WithVersion(w, id, outcome.version) else w
  }

  function Next(w: World, step: Step, rules: Rules): World {
    match step
    case Create(id, workspace, title) =>
      if id in w.surveys then w
      else w.(surveys := w.surveys[id := Survey(workspace, title, [EMPTY_DRAFT], [], false, false)])
    case Save(id, revision, edit) => SaveEdit(w, id, revision, edit, rules)
    case SaveAccountStyle(workspace, style) =>
      (match w.Current(workspace).SetStyle(style, rules.addresses)
       case Err(_) => w
       case Ok(a) => WithAccount(w, workspace, a))
    case TranslateAccount(workspace, source, lang, words, reviewed) => SaveTranslation(w, workspace, source, lang, words, reviewed)
    case RemoveAccountLanguage(workspace, lang) => WithAccount(w, workspace, w.Current(workspace).RemoveLanguage(lang))
    case PublishDraft(id) => AfterPublish(w, id, PublishOne(w, id, rules))
    case RefreshSurvey(id, workspace, stamp) => AfterRefresh(w, id, RefreshOne(w, id, workspace, stamp, rules))
    case Close(id) => if id in w.surveys then w.(surveys := w.surveys[id := w.surveys[id].(closed := true)]) else w
    case Reopen(id) => if id in w.surveys then w.(surveys := w.surveys[id := w.surveys[id].(closed := false)]) else w
    case Delete(id) => if id in w.surveys then w.(surveys := w.surveys[id := w.surveys[id].(deleted := true)]) else w
    case Rename(id, title) => if id in w.surveys then w.(surveys := w.surveys[id := w.surveys[id].(title := title)]) else w
  }

  function Run(w: World, steps: seq<Step>, rules: Rules): World
    decreases |steps|
  {
    if steps == [] then w else Run(Next(w, steps[0], rules), steps[1..], rules)
  }

  // --- what every step keeps --------------------------------------------------

  ghost predicate SurveyOK(log: set<Reading>, s: Survey, rules: Rules) {
    && (forall i :: 0 <= i < |s.revisions| ==> DraftOK(log, s.revisions[i]))
    && (forall i :: 0 <= i < |s.versions| ==> VersionOK(log, s.versions[i], rules))
  }

  ghost predicate AccountsOK(log: set<Reading>, accounts: seq<Account>, rules: Rules) {
    forall i :: 0 <= i < |accounts| ==> AccountOK(log, accounts[i], rules)
  }

  ghost predicate Inv(w: World, rules: Rules) {
    && (forall workspace <- w.accounts.Keys ::
          w.accounts[workspace] != [] && AccountsOK(ReadOn(w.read, workspace), w.accounts[workspace], rules))
    && (forall id <- w.surveys.Keys :: SurveyOK(w.ReadOf(id), w.surveys[id], rules))
  }

  lemma MoveKeepsEachQuestion(questions: seq<Question>, i: nat, j: nat)
    requires i < |questions| && j < |questions|
    ensures DistinctIdentities(questions) ==> DistinctIdentities(Moved(questions, i, j))
  {
    forall k | 0 <= k < |questions| ensures Moved(questions, i, j)[k] == questions[Origin(i, j, k)] && Origin(i, j, k) < |questions| {
      MovedAt(questions, i, j, k);
    }
    if DistinctIdentities(questions) {
      forall k, l | 0 <= k < l < |questions| ensures Moved(questions, i, j)[k].identity != Moved(questions, i, j)[l].identity {
        assert Origin(i, j, k) != Origin(i, j, l);
      }
    }
  }

  lemma QuestionEditsKeepOK(log: set<Reading>, d: Draft, edit: Edit, accounts: seq<Account>, rules: Rules)
    requires DraftOK(log, d) && Apply(d, edit, accounts, rules).Ok?
    requires edit.AddQuestion? || edit.ReplaceQuestion? || edit.RemoveQuestion? || edit.MoveQuestion? || edit.SetThanks? || edit.ResetStyle?
    ensures DraftOK(log, Apply(d, edit, accounts, rules).value)
  {
    var e := Apply(d, edit, accounts, rules).value;
    assert e.localizations == d.localizations;
    if edit.AddQuestion? {
      assert forall i :: 0 <= i < |d.questions| ==> d.questions[i] in d.questions;
    }
    if edit.MoveQuestion? {
      var i := d.IndexOf(edit.identity);
      MoveKeepsEachQuestion(d.questions, i, MoveTarget(|d.questions|, i, edit.delta));
    }
  }

  lemma TranslationKeepsOK(log: set<Reading>, d: Draft, edit: Edit, accounts: seq<Account>, rules: Rules)
    requires DraftOK(log, d) && Apply(d, edit, accounts, rules).Ok?
    requires edit.Translate? || edit.TranslateThanks? || edit.TranslateStyle? || edit.AddLanguage? || edit.RemoveLanguage?
    requires ReadingsOf(d, edit, Apply(d, edit, accounts, rules).value) <= log
    ensures DraftOK(log, Apply(d, edit, accounts, rules).value)
  {
    hide StyleIsRead, StyleWords.Fits, NewLocalizedStyle, NormalizeMessage, TrimSpace;
    var e := Apply(d, edit, accounts, rules).value;
    forall lang <- e.localizations.Keys ensures LocalizationOK(log, lang, e.localizations[lang]) {
      if lang in d.localizations {
        assert LocalizationOK(log, lang, d.localizations[lang]);
      }
      if edit.TranslateStyle? && edit.reviewed && lang == edit.lang {
        StyleReadingsRead(log, lang, e.localizations[lang].style.value);
      }
    }
  }

  lemma StyleFormKeepsOK(log: set<Reading>, d: Draft, account: Account, edit: Edit, addresses: AddressRule)
    requires DraftOK(log, d) && AccountReadOK(log, account) && edit.SaveStyleForm?
    requires d.SetStyleFromForm(account, edit.submitted, edit.carried, edit.header, edit.footer, addresses).Ok?
    ensures DraftOK(log, d.SetStyleFromForm(account, edit.submitted, edit.carried, edit.header, edit.footer, addresses).value)
  {
    var after := d.Carry(account.style, AsSaved(edit.submitted), edit.carried, edit.header, edit.footer);
    AdoptionFakesNoReading(log, after, account, after.NewlyOwn(d));
  }

  lemma EditsKeepOK(log: set<Reading>, d: Draft, edit: Edit, accounts: seq<Account>, rules: Rules)
    requires DraftOK(log, d) && AccountsOK(log, accounts, rules) && Apply(d, edit, accounts, rules).Ok?
    requires ReadingsOf(d, edit, Apply(d, edit, accounts, rules).value) <= log
    ensures DraftOK(log, Apply(d, edit, accounts, rules).value)
  {
    match edit
    case SaveStyleForm(i, _, _, _, _) => StyleFormKeepsOK(log, d, accounts[i], edit, rules.addresses);
    case Translate(_, _, _, _, _) => TranslationKeepsOK(log, d, edit, accounts, rules);
    case TranslateThanks(_, _, _, _) => TranslationKeepsOK(log, d, edit, accounts, rules);
    case TranslateStyle(_, _, _) => TranslationKeepsOK(log, d, edit, accounts, rules);
    case AddLanguage(_) => TranslationKeepsOK(log, d, edit, accounts, rules);
    case RemoveLanguage(_) => TranslationKeepsOK(log, d, edit, accounts, rules);
    case _ => QuestionEditsKeepOK(log, d, edit, accounts, rules);
  }

  lemma NoAccountOK(log: set<Reading>, rules: Rules)
    ensures AccountOK(log, NO_ACCOUNT, rules) && DraftOK(log, EMPTY_DRAFT)
  {
  }

  lemma AccountsAreOK(w: World, workspace: nat, rules: Rules)
    requires Inv(w, rules)
    ensures AccountsOK(ReadOn(w.read, workspace), w.AccountsOf(workspace), rules) && w.AccountsOf(workspace) != []
    ensures AccountOK(ReadOn(w.read, workspace), w.Current(workspace), rules)
  {
    NoAccountOK(ReadOn(w.read, workspace), rules);
  }

  lemma MoreKeepsAccountsOK(log: set<Reading>, more: set<Reading>, accounts: seq<Account>, rules: Rules)
    requires log <= more && AccountsOK(log, accounts, rules)
    ensures AccountsOK(more, accounts, rules)
  {
    hide AccountReadOK;
    MoreIsRead(log, more);
  }

  lemma MoreKeepsSurveyOK(log: set<Reading>, more: set<Reading>, s: Survey, rules: Rules)
    requires log <= more && SurveyOK(log, s, rules)
    ensures SurveyOK(more, s, rules)
  {
    hide DraftReadOK, VersionIsRead, WellFrozen;
    MoreIsRead(log, more);
  }

  /** What is read on the account counts for its surveys. */
  lemma SurveysAccountsAreOK(w: World, id: nat, rules: Rules)
    requires Inv(w, rules) && id in w.surveys
    ensures var workspace := w.surveys[id].workspace;
      && AccountsOK(w.ReadOf(id), w.AccountsOf(workspace), rules)
      && AccountOK(w.ReadOf(id), w.Current(workspace), rules)
  {
    hide Inv, ReadOn, AccountOK;
    var workspace := w.surveys[id].workspace;
    AccountsAreOK(w, workspace, rules);
    MoreIsReadFor(w.read, w.read, id, workspace);
    MoreKeepsAccountsOK(ReadOn(w.read, workspace), w.ReadOf(id), w.AccountsOf(workspace), rules);
  }

  lemma MoreReadKeepsInv(w: World, more: set<Entry>, rules: Rules)
    requires Inv(w, rules) && w.read <= more
    ensures Inv(w.(read := more), rules)
  {
    hide ReadOn, ReadFor, AccountsOK, SurveyOK;
    var u := w.(read := more);
    forall workspace <- u.accounts.Keys ensures AccountsOK(ReadOn(more, workspace), u.accounts[workspace], rules) {
      MoreIsReadFor(w.read, more, 0, workspace);
      MoreKeepsAccountsOK(ReadOn(w.read, workspace), ReadOn(more, workspace), w.accounts[workspace], rules);
    }
    forall id <- u.surveys.Keys ensures SurveyOK(u.ReadOf(id), u.surveys[id], rules) {
      MoreIsReadFor(w.read, more, id, w.surveys[id].workspace);
      MoreKeepsSurveyOK(w.ReadOf(id), u.ReadOf(id), w.surveys[id], rules);
    }
  }

  lemma SetStyleKeepsOK(log: set<Reading>, account: Account, style: Style, rules: Rules)
    requires AccountOK(log, account, rules) && account.SetStyle(style, rules.addresses).Ok?
    ensures AccountOK(log, account.SetStyle(style, rules.addresses).value, rules)
  {
  }

  lemma SetTranslationKeepsOK(log: set<Reading>, account: Account, source: Option<StyleWords>, lang: string, words: StyleWords, reviewed: bool, rules: Rules)
    requires AccountOK(log, account, rules) && account.SetTranslationOf(source, lang, words, reviewed).Ok?
    requires reviewed ==> StyleReadings(lang, account.SetTranslationOf(source, lang, words, reviewed).value.localizations[lang]) <= log
    ensures AccountOK(log, account.SetTranslationOf(source, lang, words, reviewed).value, rules)
  {
    var a := account.SetTranslationOf(source, lang, words, reviewed).value;
    forall l <- a.localizations.Keys ensures LocalizedStyleOK(log, l, a.localizations[l]) {
      if l == lang {
        if reviewed {
          StyleReadingsRead(log, lang, a.localizations[lang]);
        }
      } else {
        assert LocalizedStyleOK(log, l, account.localizations[l]);
      }
    }
  }

  lemma NewAccountKeepsInv(w: World, workspace: nat, account: Account, rules: Rules)
    requires Inv(w, rules) && AccountOK(ReadOn(w.read, workspace), account, rules)
    ensures Inv(WithAccount(w, workspace, account), rules)
  {
    AccountsAreOK(w, workspace, rules);
    hide AccountOK, SurveyOK, ReadOn, ReadFor;
    var u := WithAccount(w, workspace, account);
    forall id <- u.surveys.Keys ensures SurveyOK(u.ReadOf(id), u.surveys[id], rules) {
      assert u.ReadOf(id) == w.ReadOf(id);
    }
  }

  /** A survey changed in its revisions or its versions only. */
  lemma ChangedSurveyKeepsInv(w: World, id: nat, s: Survey, rules: Rules)
    requires Inv(w, rules) && (id in w.surveys ==> s.workspace == w.surveys[id].workspace)
    requires SurveyOK(ReadFor(w.read, id, s.workspace), s, rules)
    ensures Inv(w.(surveys := w.surveys[id := s]), rules)
  {
    hide AccountsOK, SurveyOK, ReadOn, ReadFor;
    var u := w.(surveys := w.surveys[id := s]);
    forall other <- u.surveys.Keys ensures SurveyOK(u.ReadOf(other), u.surveys[other], rules) {
      if other != id {
        assert u.ReadOf(other) == w.ReadOf(other);
      }
    }
  }

  lemma SurveyIsOK(w: World, id: nat, rules: Rules)
    requires Inv(w, rules) && id in w.surveys
    ensures SurveyOK(w.ReadOf(id), w.surveys[id], rules)
  {
    hide AccountsOK, SurveyOK, ReadFor;
  }

  lemma NewVersionKeepsInv(w: World, id: nat, v: Version, rules: Rules)
    requires Inv(w, rules) && id in w.surveys && VersionOK(w.ReadOf(id), v, rules)
    ensures Inv(WithVersion(w, id, v), rules)
  {
    hide Inv, VersionOK, DraftOK, ReadFor;
    var s := w.surveys[id];
    SurveyIsOK(w, id, rules);
    ChangedSurveyKeepsInv(w, id, s.(versions := s.versions + [v]), rules);
  }

  lemma NewRevisionKeepsInv(w: World, id: nat, d: Draft, rules: Rules)
    requires Inv(w, rules) && id in w.surveys && DraftOK(w.ReadOf(id), d)
    ensures Inv(w.(surveys := w.surveys[id := w.surveys[id].(revisions := w.surveys[id].revisions + [d])]), rules)
  {
    hide Inv, VersionOK, DraftOK, ReadFor;
    var s := w.surveys[id];
    SurveyIsOK(w, id, rules);
    ChangedSurveyKeepsInv(w, id, s.(revisions := s.revisions + [d]), rules);
  }

  lemma SavedEditIsOK(u: World, id: nat, revision: nat, edit: Edit, rules: Rules)
    requires Inv(u, rules) && id in u.surveys && revision < |u.surveys[id].revisions|
    requires var r := Apply(u.surveys[id].revisions[revision], edit, u.AccountsOf(u.surveys[id].workspace), rules);
      r.Ok? && ReadingsOf(u.surveys[id].revisions[revision], edit, r.value) <= u.ReadOf(id)
    ensures DraftOK(u.ReadOf(id), Apply(u.surveys[id].revisions[revision], edit, u.AccountsOf(u.surveys[id].workspace), rules).value)
  {
    hide Inv, DraftOK, ReadFor, Apply, ReadingsOf, AccountsOK;
    var s := u.surveys[id];
    SurveyIsOK(u, id, rules);
    SurveysAccountsAreOK(u, id, rules);
    EditsKeepOK(u.ReadOf(id), s.revisions[revision], edit, u.AccountsOf(s.workspace), rules);
  }

  lemma SaveKeepsInv(w: World, id: nat, revision: nat, edit: Edit, rules: Rules)
    requires Inv(w, rules)
    ensures Inv(SaveEdit(w, id, revision, edit, rules), rules)
  {
    hide Inv, DraftOK, ReadFor, Apply, ReadingsOf, By;
    if id in w.surveys && revision < |w.surveys[id].revisions| {
      var s := w.surveys[id];
      var d := s.revisions[revision];
      var r := Apply(d, edit, w.AccountsOf(s.workspace), rules);
      if r.Ok? {
        var more := w.read + By(OfSurvey(id), ReadingsOf(d, edit, r.value));
        var u := w.(read := more);
        MoreReadKeepsInv(w, more, rules);
        ReadBy(w.read, ReadingsOf(d, edit, r.value), id, s.workspace);
        SavedEditIsOK(u, id, revision, edit, rules);
        NewRevisionKeepsInv(u, id, r.value, rules);
      }
    }
  }

  /** What a publish makes, over every run. */
  lemma PublishOneIs(w: World, id: nat, rules: Rules)
    requires Inv(w, rules) && PublishOne(w, id, rules).Ok?
    ensures id in w.surveys && w.surveys[id].revisions != []
    ensures var s := w.surveys[id]; var d := s.revisions[|s.revisions| - 1];
      && PublishOne(w, id, rules) == Publish(d, w.Current(s.workspace), Latest(s), rules)
      && DraftOK(w.ReadOf(id), d) && AccountOK(w.ReadOf(id), w.Current(s.workspace), rules)
  {
    hide Inv, DraftOK, VersionOK, AccountOK, Publish, ReadFor;
    SurveysAccountsAreOK(w, id, rules);
    SurveyIsOK(w, id, rules);
  }

  lemma PublishKeepsInv(w: World, id: nat, rules: Rules)
    requires Inv(w, rules)
    ensures Inv(AfterPublish(w, id, PublishOne(w, id, rules)), rules)
  {
    hide Inv, PublishOne, Publish, DraftOK, AccountOK, VersionOK, Latest;
    var r := PublishOne(w, id, rules);
    if r.Ok? {
      PublishOneIs(w, id, rules);
      var s := w.surveys[id];
      PublishedOK(w.ReadOf(id), s.revisions[|s.revisions| - 1], w.Current(s.workspace), Latest(s), rules);
      NewVersionKeepsInv(w, id, r.value, rules);
    }
  }

  lemma PublishedOK(log: set<Reading>, d: Draft, account: Account, latest: Option<Version>, rules: Rules)
    requires DraftOK(log, d) && AccountOK(log, account, rules)
    ensures var r := Publish(d, account, latest, rules); r.Ok? ==> VersionOK(log, r.value, rules)
  {
    if Publish(d, account, latest, rules).Ok? {
      PublishedVersionOK(log, d, account, latest, rules);
    }
  }

  /** A version that can be refreshed at all is refreshed from the account alone: the survey's own
      gates and the style it resolves never refuse it. */
  lemma RefreshIsOnlyHeldByTheAccount(log: set<Reading>, v: Version, account: Account, rules: Rules)
    requires VersionOK(log, v, rules) && AccountOK(log, account, rules)
    ensures var o := RefreshVersion(v, account, rules);
      && !o.Failed?
      && (o.LeftAlone? <==> !RefreshAgainst(v, account).changes)
      && (o.Held? <==> RefreshAgainst(v, account).changes && RefreshAgainst(v, account).blockedIn.Some?)
      && (o.Updated? ==> o.version == Freeze(v.AsDraft(), account) && Publishable(v.AsDraft(), account))
      && (o.Updated? ==> VersionOK(log, o.version, rules))
  {
    RefreshedVersionOK(log, v, account, rules);
    if RefreshAgainst(v, account).changes && RefreshAgainst(v, account).blockedIn.None? {
      NotBlockedIsReady(v, account);
    }
  }

  lemma NotBlockedIsReady(v: Version, account: Account)
    requires RefreshAgainst(v, account).changes && RefreshAgainst(v, account).blockedIn.None?
    requires v.AsDraft().ReadyToPublish(account) != Some(UnreviewedTranslation)
    ensures v.AsDraft().ReadyToPublish(account) == None
  {
  }

  /** Over every run a refresh fails only because the account's style changed since it was asked for. */
  lemma RefreshOneIs(w: World, id: nat, workspace: nat, stamp: nat, rules: Rules)
    requires Inv(w, rules)
    ensures var o := RefreshOne(w, id, workspace, stamp, rules);
      && (o.Failed? ==> o.error == AccountStyleChanged && id in w.surveys && w.Stamp(w.surveys[id].workspace) != stamp)
      && (o.Updated? ==>
            && id in w.surveys && w.surveys[id].workspace == workspace && w.Stamp(workspace) == stamp && w.surveys[id].versions != []
            && VersionOK(w.ReadOf(id), o.version, rules)
            && o.version == Freeze(Latest(w.surveys[id]).value.AsDraft(), w.Current(workspace))
            && Publishable(Latest(w.surveys[id]).value.AsDraft(), w.Current(workspace)))
  {
    hide Inv, VersionOK, AccountOK, AccountsOK, ReadFor, RefreshVersion, RefreshAgainst, Publishable, DraftOK, Freeze, Version.AsDraft;
    if id in w.surveys && w.surveys[id].versions != [] {
      var s := w.surveys[id];
      SurveysAccountsAreOK(w, id, rules);
      SurveyIsOK(w, id, rules);
      RefreshIsOnlyHeldByTheAccount(w.ReadOf(id), Latest(s).value, w.Current(s.workspace), rules);
    }
  }

  /** Every step of a run keeps the invariant. */
  lemma StepKeepsInv(w: World, step: Step, rules: Rules)
    requires Inv(w, rules)
    ensures Inv(Next(w, step, rules), rules)
  {
    hide Inv, AccountOK, AccountsOK, VersionOK, ReadOn, ReadFor, WithAccount, RefreshOne, Latest, Publishable;
    match step
    case Save(id, revision, edit) => SaveKeepsInv(w, id, revision, edit, rules);
    case PublishDraft(id) => PublishKeepsInv(w, id, rules);
    case RefreshSurvey(id, workspace, stamp) =>
      RefreshOneIs(w, id, workspace, stamp, rules);
      if RefreshOne(w, id, workspace, stamp, rules).Updated? {
        NewVersionKeepsInv(w, id, RefreshOne(w, id, workspace, stamp, rules).version, rules);
      }
    case SaveAccountStyle(workspace, style) =>
      AccountsAreOK(w, workspace, rules);
      if w.Current(workspace).SetStyle(style, rules.addresses).Ok? {
        SetStyleKeepsOK(ReadOn(w.read, workspace), w.Current(workspace), style, rules);
        NewAccountKeepsInv(w, workspace, w.Current(workspace).SetStyle(style, rules.addresses).value, rules);
      }
    case TranslateAccount(workspace, source, lang, words, reviewed) =>
      TranslateAccountKeepsInv(w, workspace, source, lang, words, reviewed, rules);
    case RemoveAccountLanguage(workspace, lang) =>
      AccountsAreOK(w, workspace, rules);
      RemovedLanguageOK(ReadOn(w.read, workspace), w.Current(workspace), lang, rules);
      NewAccountKeepsInv(w, workspace, w.Current(workspace).RemoveLanguage(lang), rules);
    case _ => SurveyStepsKeepInv(w, step, rules);
  }

  lemma RemovedLanguageOK(log: set<Reading>, account: Account, lang: string, rules: Rules)
    requires AccountOK(log, account, rules)
    ensures AccountOK(log, account.RemoveLanguage(lang), rules)
  {
  }

  /** The steps that make a survey, or change neither its revisions nor its versions. */
  lemma SurveyStepsKeepInv(w: World, step: Step, rules: Rules)
    requires Inv(w, rules) && (step.Create? || step.Close? || step.Reopen? || step.Delete? || step.Rename?)
    ensures Inv(Next(w, step, rules), rules)
  {
    hide Inv, DraftOK, VersionOK, ReadFor;
    if step.id in w.surveys {
      SurveyIsOK(w, step.id, rules);
      if step.id in Next(w, step, rules).surveys && !step.Create? {
        ChangedSurveyKeepsInv(w, step.id, Next(w, step, rules).surveys[step.id], rules);
      }
    } else if step.Create? {
      NoAccountOK(ReadFor(w.read, step.id, step.workspace), rules);
      ChangedSurveyKeepsInv(w, step.id, Survey(step.workspace, step.title, [EMPTY_DRAFT], [], false, false), rules);
    }
  }

  lemma TranslatedIsRead(log: set<Entry>, workspace: nat, lang: string, saved: Account)
    requires lang in saved.localizations
    ensures StyleReadings(lang, saved.localizations[lang]) <= ReadOn(log + AccountReadings(workspace, lang, saved, true), workspace)
  {
    ReadByAccount(log, StyleReadings(lang, saved.localizations[lang]), workspace);
  }

  lemma TranslatedKeepsInv(u: World, workspace: nat, source: Option<StyleWords>, lang: string, words: StyleWords, reviewed: bool, rules: Rules)
    requires Inv(u, rules) && u.Current(workspace).SetTranslationOf(source, lang, words, reviewed).Ok?
    requires var a := u.Current(workspace).SetTranslationOf(source, lang, words, reviewed).value;
      reviewed ==> StyleReadings(lang, a.localizations[lang]) <= ReadOn(u.read, workspace)
    ensures Inv(WithAccount(u, workspace, u.Current(workspace).SetTranslationOf(source, lang, words, reviewed).value), rules)
  {
    hide Inv, AccountOK, AccountsOK, ReadOn, WithAccount, StyleReadings;
    AccountsAreOK(u, workspace, rules);
    SetTranslationKeepsOK(ReadOn(u.read, workspace), u.Current(workspace), source, lang, words, reviewed, rules);
    NewAccountKeepsInv(u, workspace, u.Current(workspace).SetTranslationOf(source, lang, words, reviewed).value, rules);
  }

  lemma TranslateAccountKeepsInv(w: World, workspace: nat, source: Option<StyleWords>, lang: string, words: StyleWords, reviewed: bool, rules: Rules)
    requires Inv(w, rules)
    ensures Inv(SaveTranslation(w, workspace, source, lang, words, reviewed), rules)
  {
    hide Inv, AccountOK, ReadOn, StyleReadings, AccountReadings;
    var r := w.Current(workspace).SetTranslationOf(source, lang, words, reviewed);
    if r.Ok? {
      var u := w.(read := w.read + AccountReadings(workspace, lang, r.value, reviewed));
      MoreReadKeepsInv(w, u.read, rules);
      assert u.Current(workspace) == w.Current(workspace);
      if reviewed {
        TranslatedIsRead(w.read, workspace, lang, r.value);
      }
      TranslatedKeepsInv(u, workspace, source, lang, words, reviewed, rules);
    }
  }

  lemma {:induction false} RunKeepsInv(w: World, steps: seq<Step>, rules: Rules)
    requires Inv(w, rules)
    ensures Inv(Run(w, steps, rules), rules)
    decreases |steps|
  {
    if steps != [] {
      StepKeepsInv(w, steps[0], rules);
      RunKeepsInv(Next(w, steps[0], rules), steps[1..], rules);
    }
  }

  // --- over every run ---------------------------------------------------------

  ghost predicate Published(w: World, id: nat, v: Version) {
    id in w.surveys && v in w.surveys[id].versions
  }

  lemma EveryVersionIsOK(steps: seq<Step>, rules: Rules, id: nat, v: Version)
    requires Published(Run(START, steps, rules), id, v)
    ensures VersionOK(Run(START, steps, rules).ReadOf(id), v, rules)
  {
    hide Run, ReadFor, VersionOK, DraftOK;
    RunKeepsInv(START, steps, rules);
    SurveyIsOK(Run(START, steps, rules), id, rules);
  }

  /** No version of any run shows a word its creator has not read: every question text, thanks word and
      style word it carries in a language was saved as read while exactly the wording it shows stood, on
      the survey's own pages or, of style words, on its own account's, or is that wording itself. */
  lemma NothingUnreadIsEverPublished(steps: seq<Step>, rules: Rules, id: nat, v: Version)
    requires Published(Run(START, steps, rules), id, v)
    ensures var w := Run(START, steps, rules);
      VersionIsRead(ReadFor(w.read, id, w.surveys[id].workspace), v)
  {
    hide Run, ReadFor, VersionIsRead;
    EveryVersionIsOK(steps, rules, id, v);
  }

  /** Every version of any run, read back as a draft, passes every gate of the survey's own in every
      language, so against any account whose style is valid only a language of the account's holds it. */
  lemma EveryVersionReadsBackReady(steps: seq<Step>, rules: Rules, id: nat, v: Version, account: Account)
    requires Published(Run(START, steps, rules), id, v)
    ensures forall lang :: v.AsDraft().Pending(lang) == [] && !v.AsDraft().ThanksPending(lang) && !v.AsDraft().StylePending(lang)
    ensures v.AsDraft().ReadyToPublish(account) == None <==>
      forall lang <- v.Languages() :: !account.PendingFor(lang, v.follows.(theme := false))
    ensures account.style.Validate(rules.addresses) == None ==>
      v.AsDraft().ResolvedStyle(account.style).Validate(rules.addresses) == None
  {
    EveryVersionIsOK(steps, rules, id, v);
    hide Run, VersionIsRead;
    GatesOpen(v);
    ReadyExactlyWhenTheAccountIs(v, account);
    if account.style.Validate(rules.addresses) == None {
      ReadBackValid(v, account, rules.addresses);
    }
  }

  lemma GatesOpen(v: Version)
    requires WellFrozen(v)
    ensures forall lang :: v.AsDraft().Pending(lang) == [] && !v.AsDraft().ThanksPending(lang) && !v.AsDraft().StylePending(lang)
    ensures forall lang :: !v.AsDraft().SurveyPending(lang)
  {
    WellFrozenReadsBackReady(v);
    forall lang ensures v.AsDraft().Pending(lang) == [] && !v.AsDraft().ThanksPending(lang) && !v.AsDraft().StylePending(lang) {
      assert !v.AsDraft().SurveyPending(lang);
    }
  }

  lemma ReadyExactlyWhenTheAccountIs(v: Version, account: Account)
    requires forall lang :: !v.AsDraft().SurveyPending(lang)
    ensures v.AsDraft().ReadyToPublish(account) == None <==>
      forall lang <- v.Languages() :: !account.PendingFor(lang, v.follows.(theme := false))
  {
    ReadBackFollowsTheSameParts(v, NO_STYLE);
    var held := v.AsDraft().HeldLanguages(account);
    assert forall lang :: lang in held <==> lang in v.Languages() && account.PendingFor(lang, v.follows.(theme := false));
  }
}
