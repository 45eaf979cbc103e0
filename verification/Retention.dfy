/** What the sweep removes and what it keeps, and when it can run at all. */
module Retention {
  import opened Wrappers
  import opened Schema
  import opened Transactions
  import opened Purge

  // --- whose a row is ---------------------------------------------------------

  predicate OfASurvey(t: Table) {
    t in {Identities, Drafts, Revisions, Versions, VersionQuestions, Localizations, Participants, Responses, AnswerRows,
          AnswerTranslations, Insights, Stats, DailyStats, Images}
  }

  /** The reference by which a row of a survey belongs to it: by way of another row of it, or directly. */
  function Belongs(t: Table): (r: Ref)
    requires OfASurvey(t)
    ensures r.child == t && Depth(r.parent) < Depth(t) && (r.parent.Surveys? || OfASurvey(r.parent)) && InSchema(r)
  {
    match t
    case Revisions => REVISION_DRAFT
    case VersionQuestions => QUESTION_VERSION
    case Localizations => LOCALIZATION_VERSION
    case AnswerRows => ANSWER_RESPONSE
    case AnswerTranslations => TRANSLATION_ANSWER
    case _ => Ref(t, Surveys)
  }

  function Depth(t: Table): nat {
    if t.Surveys? then 0
    else if t.AnswerTranslations? then 3
    else if t.AnswerRows? || t.Revisions? || t.VersionQuestions? || t.Localizations? then 2
    else 1
  }

  /** The survey a row belongs to, if it belongs to one. */
  ghost function Owner(db: DB, id: Id): Option<Id>
    requires Sound(db) && id in db
    decreases Depth(db[id].table)
  {
    if db[id].table.Surveys? then Some(id)
    else if !OfASurvey(db[id].table) then None
    else
      var r := Belongs(db[id].table);
      if r !in db[id].refs then None
      else
        assert db[db[id].refs[r]].table == r.parent;
        Owner(db, db[id].refs[r])
  }

  /** What a row of a survey refers to of a survey is of the same survey. */
  ghost predicate Coherent(db: DB)
    requires Sound(db)
  {
    forall id, r :: id in db && r in db[id].refs && OfASurvey(r.child) && OfASurvey(r.parent) ==>
      Owner(db, id) == Owner(db, db[id].refs[r])
  }

  ghost predicate OwnedByDoomed(db: DB, env: Env, id: Id)
    requires Sound(db) && id in db
  {
    Owner(db, id).Some? && Owner(db, id).value in DoomedIn(db, env)
  }

  // --- what each step removes of the database the run began with ---------------

  ghost predicate Removes(n: StepName, db: DB, env: Env, id: Id) {
    && ActionOf(n).DeleteRows?
    && id in Selected(db, ActionOf(n).q, env)
  }

  /** One of the first k steps removes it. */
  ghost predicate GoneBy(db: DB, env: Env, k: nat, id: Id) {
    exists n :: Rank(n) < k && Removes(n, db, env, id)
  }

  lemma SelectedIsOfItsTable(db: DB, q: Select, env: Env, id: Id)
    requires Sound(db) && id in Selected(db, q, env)
    ensures id in db && db[id].table == TableOf(q)
  {
    match q
    case Due(_) =>
    case Doomed => if SURVEY_WORKSPACE in db[id].refs { assert db[id].table == SURVEY_WORKSPACE.child; }
    case Via(r, _) => assert r in db[id].refs;
    case Before(_, _) =>
    case OldRevisions =>
    case UnusedImages =>
    case UnusedAccountImages =>
  }

  /** The step that removes a doomed survey's rows of a table. */
  function DoomedStep(t: Table): StepName
    requires OfASurvey(t)
  {
    match t
    case Identities => QuestionIdentitiesOfDoomedSurveys
    case Drafts => DraftsOfDoomedSurveys
    case Revisions => DraftRevisionsOfDoomedSurveys
    case Versions => VersionsOfDoomedSurveys
    case VersionQuestions => QuestionsOfDoomedSurveys
    case Localizations => LocalizationsOfDoomedSurveys
    case Participants => ParticipantsOfDoomedSurveys
    case Responses => ResponsesOfDoomedSurveys
    case AnswerRows => AnswersOfDoomedSurveys
    case AnswerTranslations => AnswerTranslationsOfDoomedSurveys
    case Insights => InsightsOfDoomedSurveys
    case Stats => StatsOfDoomedSurveys
    case DailyStats => DailyStatsOfDoomedSurveys
    case Images => ImagesOfDoomedSurveys
  }

  /** The rows of a table that belong to a doomed survey, found by way of the rows they belong to. */
  function OfDoomed(t: Table): Select
    requires OfASurvey(t)
    decreases Depth(t)
  {
    var r := Belongs(t);
    Via(r, if OfASurvey(r.parent) then OfDoomed(r.parent) else Doomed)
  }

  predicate Nested(t: Table) { t in {Revisions, VersionQuestions, Localizations, AnswerRows, AnswerTranslations} }

  lemma DoomedStepsAreDirect(t: Table)
    requires OfASurvey(t) && !Nested(t)
    ensures ActionOf(DoomedStep(t)) == DeleteRows(Via(Belongs(t), Doomed)) && Belongs(t).parent.Surveys?
  {
  }

  lemma DoomedStepsAreNested(t: Table)
    requires Nested(t)
    ensures !t.AnswerTranslations? ==> ActionOf(DoomedStep(t)) == DeleteRows(Via(Belongs(t), Via(Belongs(Belongs(t).parent), Doomed)))
    ensures t.AnswerTranslations? ==>
              ActionOf(DoomedStep(t)) == DeleteRows(Via(TRANSLATION_ANSWER, Via(ANSWER_RESPONSE, Via(RESPONSE_SURVEY, Doomed))))
  {
  }

  lemma WaysAre(t: Table)
    requires Nested(t)
    ensures !t.AnswerTranslations? ==> OfDoomed(t) == Via(Belongs(t), Via(Belongs(Belongs(t).parent), Doomed))
    ensures t.AnswerTranslations? ==> OfDoomed(t) == Via(TRANSLATION_ANSWER, Via(ANSWER_RESPONSE, Via(RESPONSE_SURVEY, Doomed)))
    decreases if t.AnswerTranslations? then 1 else 0
  {
    if t.AnswerTranslations? {
      WaysAre(AnswerRows);
    } else {
      OfDoomedDirectly(Belongs(t).parent);
    }
  }

  lemma DoomedStepsAre(t: Table)
    requires OfASurvey(t)
    ensures ActionOf(DoomedStep(t)) == DeleteRows(OfDoomed(t))
  {
    hide ActionOf, DoomedStep, OfDoomed;
    if Nested(t) {
      DoomedStepsAreNested(t);
      WaysAre(t);
    } else {
      DoomedStepsAreDirect(t);
      OfDoomedDirectly(t);
    }
  }

  lemma OfDoomedDirectly(t: Table)
    requires OfASurvey(t) && Belongs(t).parent.Surveys?
    ensures OfDoomed(t) == Via(Belongs(t), Doomed)
  {
  }

  lemma ViaIs(db: DB, r: Ref, of: Select, env: Env, id: Id)
    requires id in db
    ensures id in Selected(db, Via(r, of), env) <==> r in db[id].refs && db[id].refs[r] in Selected(db, of, env)
  {
  }

  /** Following those ways picks out exactly the doomed surveys' rows of the table. */
  lemma {:induction false} WaysFollowOwnership(db: DB, env: Env, t: Table, id: Id)
    requires Sound(db) && OfASurvey(t) && id in db
    ensures id in Selected(db, OfDoomed(t), env) <==> db[id].table == t && OwnedByDoomed(db, env, id)
    decreases Depth(t)
  {
    var r := Belongs(t);
    ViaIs(db, r, if OfASurvey(r.parent) then OfDoomed(r.parent) else Doomed, env, id);
    if r in db[id].refs {
      var to := db[id].refs[r];
      assert db[id].table == t && db[to].table == r.parent;
      assert Owner(db, id) == Owner(db, to);
      if OfASurvey(r.parent) {
        WaysFollowOwnership(db, env, r.parent, to);
      }
    }
  }

  lemma DoomedStepsFollowOwnership(db: DB, env: Env, t: Table, id: Id)
    requires Sound(db) && OfASurvey(t) && id in db
    ensures Removes(DoomedStep(t), db, env, id) <==> db[id].table == t && OwnedByDoomed(db, env, id)
  {
    DoomedStepsAre(t);
    WaysFollowOwnership(db, env, t, id);
  }

  // --- children go before their parents ---------------------------------------

  /** Whatever a step removes is of the step's table. */
  lemma RemovedIsOfItsTable(db: DB, env: Env, n: StepName, id: Id)
    requires Sound(db) && Removes(n, db, env, id)
    ensures id in db && TableOfStep(n) == Some(db[id].table)
  {
    SelectedIsOfItsTable(db, ActionOf(n).q, env, id);
  }

  /** The tables something refers to. */
  lemma ParentsAre(r: Ref)
    requires InSchema(r)
    ensures r.parent in {Users, Workspaces, Surveys, Responses, AnswerRows, Drafts, Versions, VersionQuestions, Identities, Participants}
  {
  }

  /** The steps that delete rows of those tables. */
  lemma StepsOfATable(n: StepName, t: Table)
    requires TableOfStep(n) == Some(t)
    ensures t.Users? ==> n == DeletedUsers
    ensures t.Workspaces? ==> n == DeletedWorkspaces
    ensures t.Surveys? ==> n == DoomedSurveys
    ensures t.Responses? ==> n == DeletedResponses || n == DoomedStep(t)
    ensures t.AnswerRows? ==> n == AnswersOfDeletedResponses || n == DoomedStep(t)
    ensures t in {Drafts, Versions, VersionQuestions, Identities, Participants} ==> n == DoomedStep(t)
  {
  }

  lemma SurveysPapersAreParents(t: Table)
    requires t in {Responses, AnswerRows, Drafts, Versions, VersionQuestions, Identities, Participants}
    ensures OfASurvey(t)
  {
  }

  lemma DoomedChildrenGoFirst(r: Ref)
    requires InSchema(r) && Firm(r) && OfASurvey(r.parent)
    ensures OfASurvey(r.child) && Rank(DoomedStep(r.child)) < Rank(DoomedStep(r.parent))
  {
  }

  lemma ChildrenOfSurveys(r: Ref)
    requires InSchema(r) && r.parent.Surveys?
    ensures r == USAGE_SURVEY || (OfASurvey(r.child) && Belongs(r.child) == r && Rank(DoomedStep(r.child)) < Rank(DoomedSurveys))
  {
  }

  lemma DueIs(db: DB, t: Table, env: Env)
    ensures Selected(db, Due(t), env) == DueRows(db, t, env)
  {
  }

  lemma DoomedIs(db: DB, env: Env)
    ensures Selected(db, Doomed, env) == DoomedIn(db, env)
  {
  }

  lemma RemovedAsDoomed(db: DB, env: Env, id: Id)
    ensures Removes(DoomedSurveys, db, env, id) <==> id in DoomedIn(db, env)
  {
    hide Selected, DoomedIn;
    DoomedIs(db, env);
  }

  lemma UsageOfDoomedGoesFirst(db: DB, env: Env, id: Id)
    requires id in db && USAGE_SURVEY in db[id].refs && db[id].refs[USAGE_SURVEY] in DoomedIn(db, env)
    ensures Removes(AiUsageOfDoomedSurveys, db, env, id)
  {
    hide Selected, DoomedIn;
    DoomedIs(db, env);
    ViaIs(db, USAGE_SURVEY, Doomed, env, id);
  }

  /** A row that refers to a survey's row goes with the survey, and before what it refers to. */
  lemma ChildOfDoomedGoesFirst(db: DB, env: Env, id: Id, r: Ref) returns (before: StepName)
    requires Sound(db) && Coherent(db) && id in db && r in db[id].refs && Firm(r) && OfASurvey(r.parent)
    requires Removes(DoomedStep(r.parent), db, env, db[id].refs[r])
    ensures Rank(before) < Rank(DoomedStep(r.parent)) && Removes(before, db, env, id)
  {
    var to := db[id].refs[r];
    assert InSchema(r) && db[id].table == r.child && db[to].table == r.parent;
    DoomedChildrenGoFirst(r);
    assert Owner(db, id) == Owner(db, to);
    hide Selected, Removes, ActionOf, DoomedIn, Sound, Coherent, Owner, InSchema, Firm, Rank, DoomedStep;
    before := DoomedStep(r.child);
    DoomedStepsFollowOwnership(db, env, r.parent, to);
    DoomedStepsFollowOwnership(db, env, r.child, id);
  }

  lemma UsageGoesBeforeSurveys()
    ensures Rank(AiUsageOfDoomedSurveys) < Rank(DoomedSurveys)
  {
  }

  lemma OwnedBySurvey(db: DB, id: Id, r: Ref)
    requires Sound(db) && id in db && r in db[id].refs && r.parent.Surveys? && OfASurvey(r.child) && Belongs(r.child) == r
    ensures Owner(db, id) == Some(db[id].refs[r])
  {
    SoundAt(db, id, r);
    hide Belongs, OfASurvey;
    assert Owner(db, db[id].refs[r]) == Some(db[id].refs[r]);
  }

  /** So does a row that refers to the survey itself. */
  lemma ChildOfDoomedSurveyGoesFirst(db: DB, env: Env, id: Id, r: Ref) returns (before: StepName)
    requires Sound(db) && id in db && r in db[id].refs && r.parent.Surveys?
    requires db[id].refs[r] in DoomedIn(db, env)
    ensures Rank(before) < Rank(DoomedSurveys) && Removes(before, db, env, id)
  {
    hide Selected, Removes, ActionOf, DoomedIn, InSchema, Rank, DoomedStep, Owner, OfASurvey;
    SoundAt(db, id, r);
    ChildrenOfSurveys(r);
    if r == USAGE_SURVEY {
      before := AiUsageOfDoomedSurveys;
      UsageOfDoomedGoesFirst(db, env, id);
      UsageGoesBeforeSurveys();
    } else {
      before := DoomedStep(r.child);
      OwnedBySurvey(db, id, r);
      DoomedStepsFollowOwnership(db, env, r.child, id);
    }
  }

  lemma SurveyOfADueWorkspaceIsDoomed(db: DB, env: Env, id: Id)
    requires id in db && SURVEY_WORKSPACE in db[id].refs && db[id].refs[SURVEY_WORKSPACE] in DueRows(db, Workspaces, env)
    ensures Removes(DoomedSurveys, db, env, id)
  {
    hide Selected;
    RemovedAsDoomed(db, env, id);
  }

  /** The references to people that no step can empty and no step clears away. */
  predicate Unattended(r: Ref) { r in {VERSION_PUBLISHER, REVISION_SAVER, SURVEY_CREATOR, JOB_REQUESTER} }

  /** The step that removes what refers so to a workspace or a person. */
  function StepBelow(r: Ref): StepName {
    match r.child
    case Members => if r.parent.Users? then MembershipsOfDeletedUsers else MembershipsOfDeletedWorkspaces
    case Sessions => SessionsOfDeletedUsers
    case Usage => AiUsageOfDeletedWorkspaces
    case Jobs => ExportJobsOfDeletedWorkspaces
    case AccountStyles => WorkspaceStylesOfDeletedWorkspaces
    case AccountImages => WorkspaceImagesOfDeletedWorkspaces
    case _ => DoomedSurveys
  }

  lemma StepsBelowAre(r: Ref)
    requires InSchema(r) && Firm(r) && !Unattended(r) && (r.parent.Workspaces? || r.parent.Users?)
    ensures r != SURVEY_WORKSPACE ==> ActionOf(StepBelow(r)) == DeleteRows(Via(r, Due(r.parent)))
  {
  }

  lemma StepsBelowComeFirst(r: Ref)
    requires InSchema(r) && Firm(r) && !Unattended(r) && (r.parent.Workspaces? || r.parent.Users?)
    ensures Rank(StepBelow(r)) < Rank(if r.parent.Users? then DeletedUsers else DeletedWorkspaces)
  {
  }

  lemma ChildOfDueGoesFirst(db: DB, env: Env, id: Id, r: Ref)
    requires id in db && r in db[id].refs && InSchema(r) && Firm(r) && !Unattended(r) && (r.parent.Workspaces? || r.parent.Users?)
    requires db[id].refs[r] in DueRows(db, r.parent, env)
    ensures Removes(StepBelow(r), db, env, id)
  {
    StepsBelowAre(r);
    hide Selected, DueRows, DoomedIn, ActionOf, Rank, InSchema, Firm, Unattended;
    if r == SURVEY_WORKSPACE {
      SurveyOfADueWorkspaceIsDoomed(db, env, id);
    } else {
      DueIs(db, r.parent, env);
      ViaIs(db, r, Due(r.parent), env, id);
    }
  }

  lemma ChildOfResponseGoesFirst(db: DB, env: Env, n: StepName, id: Id, r: Ref) returns (before: StepName)
    requires id in db && r in db[id].refs && InSchema(r)
    requires (n == DeletedResponses && r.parent.Responses?) || (n == AnswersOfDeletedResponses && r.parent.AnswerRows?)
    requires Removes(n, db, env, db[id].refs[r])
    ensures Rank(before) < Rank(n) && Removes(before, db, env, id)
  {
    hide Selected;
    if n == DeletedResponses {
      ViaIs(db, ANSWER_RESPONSE, Due(Responses), env, id);
      before := AnswersOfDeletedResponses;
    } else {
      ViaIs(db, TRANSLATION_ANSWER, Via(ANSWER_RESPONSE, Due(Responses)), env, id);
      before := AnswerTranslationsOfDeletedResponses;
    }
  }

  lemma RemovedAsDue(db: DB, env: Env, id: Id)
    ensures Removes(DeletedUsers, db, env, id) <==> id in DueRows(db, Users, env)
    ensures Removes(DeletedWorkspaces, db, env, id) <==> id in DueRows(db, Workspaces, env)
  {
    hide Selected, DueRows;
    DueIs(db, Users, env);
    DueIs(db, Workspaces, env);
  }

  /** Children before parents: whatever refers to a row a step removes was removed by a step before it, but
      for what names a person as having published, saved, made or asked for it. */
  lemma ChildGoesFirst(db: DB, env: Env, n: StepName, id: Id, r: Ref) returns (before: StepName)
    requires Sound(db) && Coherent(db) && id in db && r in db[id].refs && Firm(r) && !Unattended(r)
    requires Removes(n, db, env, db[id].refs[r])
    ensures Rank(before) < Rank(n) && Removes(before, db, env, id)
  {
    hide Selected, Removes, ActionOf, DueRows, DoomedIn, Coherent, Sound, InSchema, Firm, Unattended, Rank, DoomedStep, TableOfStep,
      StepBelow, OfASurvey;
    var t, to := r.parent, db[id].refs[r];
    SoundAt(db, id, r);
    RemovedIsOfItsTable(db, env, n, to);
    ParentsAre(r);
    StepsOfATable(n, t);
    if t.Users? || t.Workspaces? {
      RemovedAsDue(db, env, to);
      before := StepBelow(r);
      StepsBelowComeFirst(r);
      ChildOfDueGoesFirst(db, env, id, r);
    } else if t.Surveys? {
      RemovedAsDoomed(db, env, to);
      before := ChildOfDoomedSurveyGoesFirst(db, env, id, r);
    } else if (t.Responses? && n == DeletedResponses) || (t.AnswerRows? && n == AnswersOfDeletedResponses) {
      before := ChildOfResponseGoesFirst(db, env, n, id, r);
    } else {
      SurveysPapersAreParents(t);
      before := ChildOfDoomedGoesFirst(db, env, id, r);
    }
  }
}
