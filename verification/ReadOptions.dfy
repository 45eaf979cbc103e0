/** Translated options and the options they were read beside: when picking one stores the option it was
    read for. */
module ReadOptions {
  import opened Wrappers
  import Text
  import opened Questions
  import opened Drafts
  import opened Versions
  import opened Fixpoint
  import opened Readings
  import opened Publishing
  import opened Runs
  import opened Answers

  /** Where a translated set of options is served, picking any of it stores the option it was read for. */
  ghost predicate StandsFor(q: Question, w: Wording, beside: seq<string>) {
    |w.options| == |q.options| ==>
      && |beside| == |q.options|
      && forall i :: 0 <= i < |q.options| ==> Canonical(Shown(q, Some(w)), q.options, w.options[i]) == beside[i]
  }

  /** Options served in a language that tells them apart stand for those they were read beside exactly when
      those are the question's: a set of another length is not served at all. */
  lemma StandsExactlyWhenReadBesideThose(q: Question, w: Wording, beside: seq<string>)
    requires TellsApart(q.(options := w.options))
    ensures StandsFor(q, w, beside) <==> |w.options| != |q.options| || q.options == beside
  {
    if |w.options| == |q.options| {
      var s := Shown(q, Some(w));
      forall i | 0 <= i < |q.options| ensures Canonical(s, q.options, w.options[i]) == q.options[i] {
        assert s.options[i] in s.options;
      }
      if StandsFor(q, w, beside) {
        assert q.options == beside;
      }
    }
  }

  /** The row a version stores of a question's translation that is kept. */
  lemma StoredAsItStood(d: Draft, account: Account, lang: string, identity: string)
    requires lang in d.localizations && d.Knows(identity) && identity in d.localizations[lang].questions
    requires d.localizations[lang].questions[identity].text != ""
    ensures var v := Freeze(d, account); var t := d.localizations[lang].questions[identity];
      && lang in v.questionTranslations && identity in v.questionTranslations[lang]
      && v.questionTranslations[lang][identity] == Wording(t.text, t.options)
  {
    assert identity in StoredWordings(d, lang);
  }

  /** A question read in a language and then replaced: either the gate holds the language, or what is
      published of it stands for what was read, exactly when the text changed, or the number of options did,
      or the options did not. */
  lemma ReplacedOptionsStandExactlyWhen(d: Draft, account: Account, lang: string, identity: string, q: Question, rule: QuestionRule)
    requires d.Knows(identity) && lang in d.localizations && !d.QuestionPending(lang, d.questions[d.IndexOf(identity)])
    requires var was, t := d.questions[d.IndexOf(identity)], d.localizations[lang].questions[identity];
      t.text != "" && |t.options| == |was.options| && TellsApart(q.(options := t.options))
    requires d.Replace(identity, q, rule).Ok?
    ensures var was, e := d.questions[d.IndexOf(identity)], d.Replace(identity, q, rule).value;
      var now, v := q.(identity := identity), Freeze(e, account);
      && now in e.questions && now.Frozen() in v.questions && lang in v.questionTranslations && identity in v.questionTranslations[lang]
      && (e.QuestionPending(lang, now) || StandsFor(now.Frozen(), v.questionTranslations[lang][identity], was.options)
          <==> q.text != was.text || |q.options| != |was.options| || q.options == was.options)
  {
    var was, t := d.questions[d.IndexOf(identity)], d.localizations[lang].questions[identity];
    var e, now := d.Replace(identity, q, rule).value, q.(identity := identity);
    assert e.questions[d.IndexOf(identity)] == now;
    StoredAsItStood(e, account, lang, identity);
    assert FrozenQuestions(e.questions)[d.IndexOf(identity)] == now.Frozen();
    StandsExactlyWhenReadBesideThose(now.Frozen(), Wording(t.text, t.options), was.options);
  }

  /** Over every run, whatever a version stores of a question in a language was read, on that survey's own
      page, against the question's text and beside some options; and what is served stands for those exactly
      when they are as many as the question's and are not replaced since, or when a set of another length is
      not served. */
  lemma PublishedOptionsWereReadBesideSome(steps: seq<Step>, rules: Rules, id: nat, v: Version, lang: string, q: Question)
    returns (beside: seq<string>)
    requires Published(Run(START, steps, rules), id, v) && q in v.questions
    requires lang in v.questionTranslations && q.identity in v.questionTranslations[lang]
    requires TellsApart(q.(options := v.questionTranslations[lang][q.identity].options))
    ensures var w := v.questionTranslations[lang][q.identity];
      && QuestionRead(lang, q.identity, q.text, beside, w.text, w.options) in Run(START, steps, rules).ReadOf(id)
      && (StandsFor(q, w, beside) <==> |w.options| != |q.options| || q.options == beside)
  {
    hide Run, ReadFor, StandsFor;
    var w := v.questionTranslations[lang][q.identity];
    EveryVersionIsOK(steps, rules, id, v);
    assert GoodWordings(v, v.questionTranslations[lang]);
    assert QuestionIsRead(Run(START, steps, rules).ReadOf(id), lang, q.identity, q.text, w.text, w.options);
    beside :| QuestionRead(lang, q.identity, q.text, beside, w.text, w.options) in Run(START, steps, rules).ReadOf(id);
    StandsExactlyWhenReadBesideThose(q, w, beside);
  }

  // --- the case it does not stand ---------------------------------------------

  const YES_NO := Question("q", SingleChoice, "Ready?", ["Yes", "No"], false, 0, 0, false)
  const NO_YES := YES_NO.(options := ["No", "Yes"])

  const TURNED_ROUND := [
    Create(0, 0, "Survey"), Save(0, 0, AddQuestion(YES_NO)), Save(0, 1, AddLanguage("nl")),
    Save(0, 2, Translate("nl", "q", "Klaar?", ["Ja", "Nee"], true)), Save(0, 3, ReplaceQuestion("q", NO_YES)),
    PublishDraft(0)]

  function WithDrafts(drafts: seq<Draft>, log: set<Entry>): World {
    World(map[], map[0 := Survey(0, "Survey", drafts, [], false, false)], log)
  }

  const ASKED := EMPTY_DRAFT.(questions := [YES_NO])
  const DUTCH := ASKED.(localizations := map["nl" := Localization(map[], None, None)])
  const READ := ASKED.(localizations := map["nl" :=
    Localization(map["q" := LocalizedQuestion("Klaar?", ["Ja", "Nee"], true, "Ready?")], None, None)])
  const TURNED := READ.(questions := [NO_YES])
  const LOGGED := QuestionRead("nl", "q", "Ready?", ["Yes", "No"], "Klaar?", ["Ja", "Nee"])

  lemma Asking(rules: Rules)
    requires rules.questions(YES_NO)
    ensures Apply(EMPTY_DRAFT, AddQuestion(YES_NO), [NO_ACCOUNT], rules) == Ok(ASKED)
  {
    assert EMPTY_DRAFT.questions + [YES_NO] == [YES_NO];
  }

  lemma Languages(rules: Rules)
    ensures Apply(ASKED, AddLanguage("nl"), [NO_ACCOUNT], rules) == Ok(DUTCH)
  {
  }

  lemma TheOnlyQuestion(d: Draft, q: Question)
    requires d.questions == [q]
    ensures d.Knows(q.identity) && d.IndexOf(q.identity) == 0
  {
    assert q in d.questions;
  }

  lemma Reading(rules: Rules)
    ensures Apply(DUTCH, Translate("nl", "q", "Klaar?", ["Ja", "Nee"], true), [NO_ACCOUNT], rules) == Ok(READ)
    ensures ReadingsOf(DUTCH, Translate("nl", "q", "Klaar?", ["Ja", "Nee"], true), READ) == {LOGGED}
  {
    TheOnlyQuestion(DUTCH, YES_NO);
    Untrimmed();
    var t := LocalizedQuestion("Klaar?", ["Ja", "Nee"], true, "Ready?");
    assert map[]["q" := t] == map["q" := t];
    assert DUTCH.localizations["nl" := Localization(map["q" := t], None, None)] == READ.localizations;
  }

  lemma Untrimmed()
    ensures Text.TrimSpace("Klaar?") == "Klaar?"
  {
  }

  lemma Turning(rules: Rules)
    requires rules.questions(NO_YES)
    ensures Apply(READ, ReplaceQuestion("q", NO_YES), [NO_ACCOUNT], rules) == Ok(TURNED)
  {
    TheOnlyQuestion(READ, YES_NO);
    assert READ.questions[0 := NO_YES] == [NO_YES];
  }

  lemma TurnedIsValid(rules: Rules)
    requires rules.questions(NO_YES)
    ensures TURNED.ValidateForPublish(rules) == None
    ensures TURNED.ResolvedStyle(NO_ACCOUNT.style).Validate(rules.addresses) == None
  {
    assert TURNED.questions[0] == NO_YES;
    assert TURNED.FirstRefused(rules.questions, 1) == None;
  }

  lemma TurnedGate()
    ensures TURNED.ReadyToPublish(NO_ACCOUNT) == None
  {
    assert !TURNED.QuestionPending("nl", NO_YES);
    assert TURNED.questions[..0] == [];
    assert TURNED.PendingAmong("nl", [NO_YES]) == [];
    assert TURNED.OwnStyleWords().IsZero();
    assert TURNED.HeldLanguages(NO_ACCOUNT) == {};
  }

  /** The draft turned round passes every gate. */
  lemma TurnedIsReady(rules: Rules)
    requires rules.questions(NO_YES)
    ensures Publish(TURNED, NO_ACCOUNT, None, rules) == Ok(Freeze(TURNED, NO_ACCOUNT))
  {
    TurnedIsValid(rules);
    TurnedGate();
  }

  lemma SavedNext(drafts: seq<Draft>, log: set<Entry>, revision: nat, edit: Edit, d: Draft, rules: Rules)
    requires revision < |drafts| && Apply(drafts[revision], edit, [NO_ACCOUNT], rules) == Ok(d)
    ensures Next(WithDrafts(drafts, log), Save(0, revision, edit), rules)
         == WithDrafts(drafts + [d], log + By(OfSurvey(0), ReadingsOf(drafts[revision], edit, d)))
  {
    hide Apply, ReadingsOf, By;
  }

  lemma RunOneMore(w: World, steps: seq<Step>, next: World, rules: Rules)
    requires steps != [] && Next(w, steps[0], rules) == next
    ensures Run(w, steps, rules) == Run(next, steps[1..], rules)
  {
    hide Next;
  }

  lemma TurnedIsFrozen()
    ensures var v := Freeze(TURNED, NO_ACCOUNT);
      v.questions == [NO_YES] && StoredWording(v, "nl", "q") == Some(Wording("Klaar?", ["Ja", "Nee"]))
  {
    TheOnlyQuestion(TURNED, NO_YES);
    StoredAsItStood(TURNED, NO_ACCOUNT, "nl", "q");
    assert NO_YES.Frozen() == NO_YES;
  }

  lemma TurnedIsServed()
    ensures Canonical(Shown(NO_YES, Some(Wording("Klaar?", ["Ja", "Nee"]))), ["No", "Yes"], "Ja") == "No"
  {
    assert ["Ja", "Nee"][0] == "Ja";
  }

  /** The world after each of the first steps. */
  function WorldAfter(k: nat): World
    requires 1 <= k <= 5
  {
    WithDrafts([EMPTY_DRAFT, ASKED, DUTCH, READ, TURNED][..k], if k < 4 then {} else {Entry(OfSurvey(0), LOGGED)})
  }

  lemma SavesTurningItRound(k: nat, rules: Rules)
    requires 1 <= k < 5 && rules.questions(YES_NO) && rules.questions(NO_YES)
    ensures Next(WorldAfter(k), TURNED_ROUND[k], rules) == WorldAfter(k + 1)
  {
    var drafts := [EMPTY_DRAFT, ASKED, DUTCH, READ, TURNED];
    assert drafts[..k] + [drafts[k]] == drafts[..k + 1];
    assert TURNED_ROUND[k].Save? && TURNED_ROUND[k].revision == k - 1 && drafts[..k][k - 1] == drafts[k - 1];
    var edit := TURNED_ROUND[k].edit;
    Asking(rules);
    Languages(rules);
    Reading(rules);
    Turning(rules);
    var log: set<Entry> := if k < 4 then {} else {Entry(OfSurvey(0), LOGGED)};
    NothingRead(log);
    SavedNext(drafts[..k], log, k - 1, edit, drafts[k], rules);
  }

  lemma NothingRead(log: set<Entry>)
    ensures log + By(OfSurvey(0), {}) == log
    ensures By(OfSurvey(0), {LOGGED}) == {Entry(OfSurvey(0), LOGGED)}
  {
  }

  lemma CreatedNext(rules: Rules)
    ensures Next(START, TURNED_ROUND[0], rules) == WorldAfter(1)
  {
    assert [EMPTY_DRAFT, ASKED, DUTCH, READ, TURNED][..1] == [EMPTY_DRAFT];
  }

  lemma PublishedNext(rules: Rules)
    requires rules.questions(NO_YES)
    ensures var w := Next(WorldAfter(5), TURNED_ROUND[5], rules);
      && 0 in w.surveys && w.surveys[0].workspace == 0
      && w.surveys[0].versions == [Freeze(TURNED, NO_ACCOUNT)]
      && Entry(OfSurvey(0), LOGGED) in w.read
  {
    TurnedIsReady(rules);
    hide Publish, Freeze;
    var w := WorldAfter(5);
    assert w.surveys[0].revisions[|w.surveys[0].revisions| - 1] == TURNED && Latest(w.surveys[0]) == None;
    assert PublishOne(w, 0, rules) == Publish(TURNED, NO_ACCOUNT, None, rules);
  }

  lemma {:induction false} RunFrom(k: nat, rules: Rules)
    requires 1 <= k <= 5 && rules.questions(YES_NO) && rules.questions(NO_YES)
    ensures Run(WorldAfter(k), TURNED_ROUND[k..], rules) == Next(WorldAfter(5), TURNED_ROUND[5], rules)
    decreases 5 - k
  {
    var s := TURNED_ROUND[k..];
    assert s[0] == TURNED_ROUND[k] && s[1..] == TURNED_ROUND[k + 1..];
    hide Next, WorldAfter, Run;
    if k == 5 {
      RunOneMore(WorldAfter(5), s, Next(WorldAfter(5), TURNED_ROUND[5], rules), rules);
      RunNoMore(Next(WorldAfter(5), TURNED_ROUND[5], rules), rules);
    } else {
      SavesTurningItRound(k, rules);
      RunOneMore(WorldAfter(k), s, WorldAfter(k + 1), rules);
      RunFrom(k + 1, rules);
    }
  }

  lemma RunNoMore(w: World, rules: Rules)
    ensures Run(w, [], rules) == w
  {
  }

  /** A question is asked, translated and read, and its options turned round under the same text: the survey
      is published, and picking the first Dutch option stores the creator's option the second stands for. */
  lemma OptionsTurnedRound(rules: Rules)
    requires rules.questions(YES_NO) && rules.questions(NO_YES)
    ensures var w, v := Run(START, TURNED_ROUND, rules), Freeze(TURNED, NO_ACCOUNT);
      && Published(w, 0, v)
      && v.questions == [NO_YES] && StoredWording(v, "nl", "q") == Some(Wording("Klaar?", ["Ja", "Nee"]))
      && LOGGED in w.ReadOf(0)
      && Canonical(Shown(NO_YES, StoredWording(v, "nl", "q")), NO_YES.options, "Ja") == "No"
  {
    hide Next, WorldAfter, Run, Freeze, Canonical, Shown, StoredWording;
    CreatedNext(rules);
    RunOneMore(START, TURNED_ROUND, WorldAfter(1), rules);
    RunFrom(1, rules);
    PublishedNext(rules);
    TurnedIsFrozen();
    TurnedIsServed();
  }
}
