/** The sweep step by step: what each step finds, when one is refused, and what is left at the end. */
module Sweeping {
  import opened Wrappers
  import opened Schema
  import opened Transactions
  import opened Purge
  import opened Retention

  // --- what stands after some steps -------------------------------------------

  /** b is a with some references emptied and perhaps its archive dropped. */
  ghost predicate SameButEmptied(a: Row, b: Row) {
    && b == a.(refs := b.refs, archive := b.archive)
    && (forall r <- b.refs :: r in a.refs && b.refs[r] == a.refs[r])
    && (forall r <- a.refs :: Firm(r) ==> r in b.refs)
  }

  function DetachStep(r: Ref): StepName
    requires Detached(r)
  {
    if r == DRAFT_UPDATER then DetachFromDrafts else DetachFromBetaCodes
  }

  /** Everything of the first database that is gone. */
  ghost function Gone(db: DB, env: Env, k: nat): set<Id> {
    set id | id in db && GoneBy(db, env, k, id)
  }

  ghost predicate Shrunk(db: DB, now: DB) {
    forall id <- now :: id in db && SameButEmptied(db[id], now[id])
  }

  /** now is db with some rows gone, some references emptied where they named the due, and nothing else
      changed. */
  ghost predicate Stands(db: DB, now: DB, gone: set<Id>, emptied: set<Ref>, due: set<Id>) {
    && (forall id :: id in now <==> id in db && id !in gone)
    && Shrunk(db, now)
    && (forall id, r :: id in now && r in now[id].refs && r in emptied ==> now[id].refs[r] !in due)
  }

  /** What refers to something gone is gone. */
  ghost predicate Closed(db: DB, gone: set<Id>) {
    forall id, r :: id in db && r in db[id].refs && Firm(r) && db[id].refs[r] in gone ==> id in gone
  }

  /** The references emptied by the first k steps. */
  ghost function EmptiedBy(k: nat): set<Ref> {
    set r: Ref | r in {DRAFT_UPDATER, CODE_USER} && Rank(DetachStep(r)) < k
  }

  /** The step that cannot run while someone whose time is up is named by this reference. */
  function StopsAt(r: Ref): StepName {
    if r == VERSION_PUBLISHER then DetachFromVersions else if r == REVISION_SAVER then DetachFromRevisions else DeletedUsers
  }

  /** A row that stays names someone whose time is up as having published it, saved it, made it or asked for
      it: a version, a revision or a survey that is not of a doomed survey, or an export of an account that
      stays. */
  ghost predicate NamesTheDue(db: DB, env: Env, id: Id, r: Ref)
    requires Sound(db) && id in db
  {
    && Unattended(r) && r in db[id].refs && db[id].refs[r] in DueRows(db, Users, env)
    && if r == JOB_REQUESTER then id !in Selected(db, Via(JOB_WORKSPACE, Due(Workspaces)), env) else !OwnedByDoomed(db, env, id)
  }

  /** Some row names someone so that one of the first k steps cannot run. */
  ghost predicate StillNamed(db: DB, env: Env, k: nat)
    requires Sound(db)
  {
    exists id, r :: id in db && NamesTheDue(db, env, id, r) && Rank(StopsAt(r)) < k
  }

  lemma StoppedByThen(db: DB, env: Env, k: nat, n: nat)
    requires Sound(db) && k <= n && StillNamed(db, env, k)
    ensures StillNamed(db, env, n)
  {
    hide NamesTheDue, Sound, Rank;
    var id, r :| id in db && NamesTheDue(db, env, id, r) && Rank(StopsAt(r)) < k;
  }

  lemma SurveysGoWhenDoomed(db: DB, env: Env, k: nat, id: Id)
    requires Sound(db) && id in db && db[id].table.Surveys?
    ensures GoneBy(db, env, k, id) <==> Rank(DoomedSurveys) < k && id in DoomedIn(db, env)
  {
    hide Removes, DoomedIn, Sound, TableOfStep;
    RemovedAsDoomed(db, env, id);
    if GoneBy(db, env, k, id) {
      var n :| Rank(n) < k && Removes(n, db, env, id);
      RemovedIsOfItsTable(db, env, n, id);
      StepsOfOwnTables(n, Surveys);
    }
  }

  lemma RemovedWithItsWorkspace(db: DB, env: Env, id: Id)
    ensures Removes(ExportJobsOfDeletedWorkspaces, db, env, id) <==> id in Selected(db, Via(JOB_WORKSPACE, Due(Workspaces)), env)
  {
    hide Selected;
  }

  lemma JobsGoWithTheirWorkspace(db: DB, env: Env, k: nat, id: Id)
    requires Sound(db) && id in db && db[id].table.Jobs? && k <= Rank(OldExportJobs)
    ensures GoneBy(db, env, k, id)
       <==> Rank(ExportJobsOfDeletedWorkspaces) < k && id in Selected(db, Via(JOB_WORKSPACE, Due(Workspaces)), env)
  {
    hide Removes, Selected, Sound, TableOfStep;
    RemovedWithItsWorkspace(db, env, id);
    if GoneBy(db, env, k, id) {
      var n :| Rank(n) < k && Removes(n, db, env, id);
      RemovedIsOfItsTable(db, env, n, id);
      StepsOfOwnTables(n, Jobs);
    }
  }

  lemma RanksOfStops()
    ensures Rank(ExportJobsOfDeletedWorkspaces) < Rank(DetachFromVersions) < Rank(DetachFromRevisions) < Rank(DeletedUsers)
    ensures Rank(DoomedSurveys) < Rank(DetachFromVersions) && Rank(DeletedUsers) < Rank(OldDraftRevisions) < Rank(OldExportJobs)
  {
  }

  lemma DoomedStepsBeforeStops(t: Table)
    requires OfASurvey(t)
    ensures Rank(DoomedStep(t)) < Rank(DetachFromVersions)
  {
  }

  lemma StopsAreInOrder(r: Ref)
    requires Unattended(r)
    ensures Rank(StopsAt(r)) <= Rank(DeletedUsers) < Rank(OldExportJobs)
    ensures Rank(DoomedSurveys) < Rank(StopsAt(r)) <= Rank(OldDraftRevisions)
    ensures Rank(ExportJobsOfDeletedWorkspaces) < Rank(StopsAt(r))
    ensures OfASurvey(r.child) ==> Rank(DoomedStep(r.child)) < Rank(StopsAt(r))
  {
    hide Rank, DoomedStep, OfASurvey, Unattended;
    RanksOfStops();
    if OfASurvey(r.child) {
      DoomedStepsBeforeStops(r.child);
    }
  }

  /** Until old revisions go, a version or a revision goes exactly with a doomed survey. */
  lemma SurveysPapersGoWithTheSurvey(db: DB, env: Env, k: nat, id: Id)
    requires Sound(db) && id in db && db[id].table in {Versions, Revisions}
    requires Rank(DoomedStep(db[id].table)) < k <= Rank(OldDraftRevisions)
    ensures GoneBy(db, env, k, id) <==> OwnedByDoomed(db, env, id)
  {
    hide Removes, OwnedByDoomed, Sound, TableOfStep, Rank;
    DoomedStepsFollowOwnership(db, env, db[id].table, id);
    if GoneBy(db, env, k, id) {
      var n :| Rank(n) < k && Removes(n, db, env, id);
      RemovedIsOfItsTable(db, env, n, id);
      StepsOfOwnTables(n, db[id].table);
    }
  }

  lemma SurveysOwnThemselves(db: DB, env: Env, id: Id)
    requires Sound(db) && id in db && db[id].table.Surveys?
    ensures OwnedByDoomed(db, env, id) <==> id in DoomedIn(db, env)
  {
    hide DoomedIn;
  }

  lemma UnattendedStay(db: DB, env: Env, id: Id, r: Ref)
    requires Sound(db) && id in db && Unattended(r) && r in db[id].refs && db[id].refs[r] in DueRows(db, Users, env)
    ensures NamesTheDue(db, env, id, r) <==> !GoneBy(db, env, Rank(StopsAt(r)), id)
  {
    hide GoneBy, Selected, DoomedIn, DueRows, Sound, Rank, OwnedByDoomed, StopsAt;
    SoundAt(db, id, r);
    StopsAreInOrder(r);
    if r == JOB_REQUESTER {
      JobsGoWithTheirWorkspace(db, env, Rank(StopsAt(r)), id);
    } else if r == SURVEY_CREATOR {
      SurveysGoWhenDoomed(db, env, Rank(StopsAt(r)), id);
      SurveysOwnThemselves(db, env, id);
    } else {
      SurveysPapersGoWithTheSurvey(db, env, Rank(StopsAt(r)), id);
    }
  }

  lemma StepsOfPeoplesTables(n: StepName, t: Table)
    requires TableOfStep(n) == Some(t)
    ensures t.Users? ==> n == DeletedUsers
    ensures t.Workspaces? ==> n == DeletedWorkspaces
    ensures t.Members? ==> n == MembershipsOfDeletedWorkspaces || n == MembershipsOfDeletedUsers
    ensures t.Sessions? ==> n == SessionsOfDeletedUsers || n == ExpiredSessions
    ensures t.MagicLinks? ==> n == ExpiredMagicLinks
    ensures t.AbuseLog? ==> n == OldAbuseLog
    ensures t.Usage? ==> n == AiUsageOfDoomedSurveys || n == AiUsageOfDeletedWorkspaces
    ensures !t.Suppressions? && !t.BetaCodes?
  {
  }

  lemma StepsOfSurveysPapers(n: StepName, t: Table)
    requires TableOfStep(n) == Some(t)
    ensures t.Surveys? ==> n == DoomedSurveys
    ensures t in {Versions, Drafts} ==> n == DoomedStep(t)
    ensures t.Revisions? ==> n == DoomedStep(t) || n == OldDraftRevisions
    ensures t.Images? ==> n == DoomedStep(t) || n == UnusedStyleImages
  {
  }

  lemma StepsOfTheRest(n: StepName, t: Table)
    requires TableOfStep(n) == Some(t) && t in {Identities, VersionQuestions, Localizations, Participants, Insights, Stats, DailyStats}
    ensures n == DoomedStep(t)
  {
  }

  lemma StepsOfResponses(n: StepName, t: Table)
    requires TableOfStep(n) == Some(t)
    ensures t.Responses? ==> n == DoomedStep(t) || n == DeletedResponses
    ensures t.AnswerRows? ==> n == DoomedStep(t) || n == AnswersOfDeletedResponses
    ensures t.AnswerTranslations? ==> n == DoomedStep(t) || n == AnswerTranslationsOfDeletedResponses
  {
  }

  lemma StepsOfAccounts(n: StepName, t: Table)
    requires TableOfStep(n) == Some(t)
    ensures t.Jobs? ==> n == ExportJobsOfDeletedWorkspaces || n == OldExportJobs
    ensures t.AccountStyles? ==> n == WorkspaceStylesOfDeletedWorkspaces
    ensures t.AccountImages? ==> n == WorkspaceImagesOfDeletedWorkspaces || n == UnusedWorkspaceImages
  {
  }

  lemma StepsOfOwnTables(n: StepName, t: Table)
    requires TableOfStep(n) == Some(t)
    ensures t.Surveys? ==> n == DoomedSurveys
    ensures t.Jobs? ==> n == ExportJobsOfDeletedWorkspaces || n == OldExportJobs
    ensures t in {Versions, Drafts} ==> n == DoomedStep(t)
    ensures t.Revisions? ==> n == DoomedStep(t) || n == OldDraftRevisions
    ensures t.Images? ==> n == DoomedStep(t) || n == UnusedStyleImages
    ensures t.Responses? ==> n == DoomedStep(t) || n == DeletedResponses
    ensures t.AnswerRows? ==> n == DoomedStep(t) || n == AnswersOfDeletedResponses
    ensures t.AnswerTranslations? ==> n == DoomedStep(t) || n == AnswerTranslationsOfDeletedResponses
    ensures t in {Identities, VersionQuestions, Localizations, Participants, Insights, Stats, DailyStats} ==> n == DoomedStep(t)
    ensures t.AccountStyles? ==> n == WorkspaceStylesOfDeletedWorkspaces
    ensures t.AccountImages? ==> n == WorkspaceImagesOfDeletedWorkspaces || n == UnusedWorkspaceImages
  {
    hide TableOfStep, DoomedStep;
    StepsOfSurveysPapers(n, t);
    if t in {Identities, VersionQuestions, Localizations, Participants, Insights, Stats, DailyStats} {
      StepsOfTheRest(n, t);
    }
    StepsOfResponses(n, t);
    StepsOfAccounts(n, t);
  }

  lemma GoneEarlier(db: DB, env: Env, k: nat, n: nat, id: Id)
    requires k <= n && GoneBy(db, env, k, id)
    ensures GoneBy(db, env, n, id)
  {
    var step :| Rank(step) < k && Removes(step, db, env, id);
  }

  lemma UsersGoLast(db: DB, env: Env, n: StepName, id: Id)
    requires Sound(db) && Removes(n, db, env, id) && id in db && db[id].table.Users?
    ensures n == DeletedUsers && id in DueRows(db, Users, env)
  {
    hide Removes, Sound, TableOfStep, DueRows;
    RemovedIsOfItsTable(db, env, n, id);
    StepsOfATable(n, Users);
    RemovedAsDue(db, env, id);
  }

  lemma NamesOfTheGone(db: DB, env: Env, k: nat, id: Id, r: Ref)
    requires Sound(db) && !StillNamed(db, env, k)
    requires id in db && Unattended(r) && r in db[id].refs && GoneBy(db, env, k, db[id].refs[r])
    ensures GoneBy(db, env, k, id)
  {
    var n :| Rank(n) < k && Removes(n, db, env, db[id].refs[r]);
    hide Removes, Sound, DueRows, DoomedIn, Selected, NamesTheDue, Rank, StopsAt, GoneBy;
    SoundAt(db, id, r);
    UsersGoLast(db, env, n, db[id].refs[r]);
    StopsAreInOrder(r);
    UnattendedStay(db, env, id, r);
    assert !NamesTheDue(db, env, id, r);
    GoneEarlier(db, env, Rank(StopsAt(r)), k, id);
  }

  lemma ClosedWhileNobodyIsNamed(db: DB, env: Env, k: nat)
    requires Sound(db) && Coherent(db) && !StillNamed(db, env, k)
    ensures Closed(db, Gone(db, env, k))
  {
    hide Removes, Sound, Coherent, StillNamed;
    forall id, r | id in db && r in db[id].refs && Firm(r) && db[id].refs[r] in Gone(db, env, k)
      ensures id in Gone(db, env, k)
    {
      if Unattended(r) {
        NamesOfTheGone(db, env, k, id, r);
      } else {
        var n :| Rank(n) < k && Removes(n, db, env, db[id].refs[r]);
        var before := ChildGoesFirst(db, env, n, id, r);
      }
    }
  }

  // --- what a step finds is what the run began with, less what is gone ---------

  /** Whether a selection goes only by references nothing empties. */
  predicate ByFirm(q: Select) {
    match q
    case Via(r, of) => Firm(r) && ByFirm(of)
    case _ => true
  }

  predicate ByTime(q: Select) { q.OldRevisions? || q.UnusedImages? || q.UnusedAccountImages? }

  predicate Lasting(q: Select) {
    match q
    case Via(_, of) => Lasting(of)
    case _ => !ByTime(q)
  }

  lemma StepsSelectByFirm(n: StepName)
    requires ActionOf(n).DeleteRows?
    ensures ByFirm(ActionOf(n).q)
  {
  }

  lemma StepsLast(n: StepName)
    requires ActionOf(n).DeleteRows?
    ensures ByTime(ActionOf(n).q) || Lasting(ActionOf(n).q)
  {
  }

  lemma StepsGoByFirm(n: StepName)
    requires ActionOf(n).DeleteRows?
    ensures ByFirm(ActionOf(n).q) && (ByTime(ActionOf(n).q) || Lasting(ActionOf(n).q))
    ensures ActionOf(n).q.OldRevisions? ==> n == OldDraftRevisions
    ensures ActionOf(n).q.UnusedImages? ==> n == UnusedStyleImages
    ensures ActionOf(n).q.UnusedAccountImages? ==> n == UnusedWorkspaceImages
  {
    StepsSelectByFirm(n);
    StepsLast(n);
    hide ByFirm, Lasting;
  }

  /** What a row refers to firmly it still refers to, and it is still there. */
  lemma FirmLasts(db: DB, now: DB, gone: set<Id>, id: Id, r: Ref)
    requires Sound(db) && Stands(db, now, gone, {}, {}) && Closed(db, gone) && id in now && Firm(r)
    ensures r in db[id].refs <==> r in now[id].refs
    ensures r in db[id].refs ==> now[id].refs[r] == db[id].refs[r] && db[id].refs[r] in now
  {
    assert SameButEmptied(db[id], now[id]);
  }

  lemma DueLasts(db: DB, now: DB, env: Env, t: Table, id: Id)
    requires Shrunk(db, now) && id in now
    ensures id in DueRows(now, t, env) <==> id in DueRows(db, t, env)
  {
    assert SameButEmptied(db[id], now[id]);
  }

  lemma DoomedLasts(db: DB, env: Env, now: DB, gone: set<Id>, id: Id)
    requires Sound(db) && Stands(db, now, gone, {}, {}) && Closed(db, gone) && id in now
    ensures id in DoomedIn(now, env) <==> id in DoomedIn(db, env)
  {
    DueLasts(db, now, env, Surveys, id);
    FirmLasts(db, now, gone, id, SURVEY_WORKSPACE);
    if SURVEY_WORKSPACE in db[id].refs {
      DueLasts(db, now, env, Workspaces, db[id].refs[SURVEY_WORKSPACE]);
    }
  }

  lemma {:induction false} SelectionsLast(db: DB, env: Env, now: DB, gone: set<Id>, q: Select, id: Id)
    requires Sound(db) && Stands(db, now, gone, {}, {}) && Closed(db, gone) && ByFirm(q) && Lasting(q) && id in now
    ensures id in Selected(now, q, env) <==> id in Selected(db, q, env)
    decreases q
  {
    match q
    case Due(t) => DueLasts(db, now, env, t, id);
    case Before(_, _) => assert SameButEmptied(db[id], now[id]);
    case Doomed => DoomedLasts(db, env, now, gone, id);
    case Via(r, of) =>
      FirmLasts(db, now, gone, id, r);
      ViaIs(now, r, of, env, id);
      ViaIs(db, r, of, env, id);
      if r in db[id].refs {
        SelectionsLast(db, env, now, gone, of, db[id].refs[r]);
      }
  }

  // --- rows that go together --------------------------------------------------

  lemma DoomedStepsComeFirst(t: Table)
    requires OfASurvey(t)
    ensures Rank(DoomedStep(t)) < Rank(DoomedSurveys)
    ensures t in {Versions, Drafts, Revisions} ==> Rank(DoomedStep(t)) < Rank(OldDraftRevisions)
  {
  }

  /** A version, a draft or a revision goes only with its survey, and then every row of the survey goes. */
  lemma MatesGoTogether(db: DB, env: Env, k: nat, id: Id, mate: Id)
    requires Sound(db) && id in db && mate in db && Rank(DoomedSurveys) < k && GoneBy(db, env, k, mate)
    requires OfASurvey(db[id].table) && Owner(db, id) == Owner(db, mate)
    requires db[mate].table in {Versions, Drafts} || (db[mate].table.Revisions? && k <= Rank(OldDraftRevisions))
    ensures GoneBy(db, env, k, id)
  {
    hide Removes, Owner, OwnedByDoomed, TableOfStep;
    var n :| Rank(n) < k && Removes(n, db, env, mate);
    RemovedIsOfItsTable(db, env, n, mate);
    StepsOfOwnTables(n, db[mate].table);
    DoomedStepsFollowOwnership(db, env, db[mate].table, mate);
    DoomedStepsFollowOwnership(db, env, db[id].table, id);
    DoomedStepsComeFirst(db[id].table);
    OwnedAlike(db, env, id, mate);
  }

  lemma OwnedAlike(db: DB, env: Env, id: Id, mate: Id)
    requires Sound(db) && id in db && mate in db && Owner(db, id) == Owner(db, mate)
    ensures OwnedByDoomed(db, env, id) == OwnedByDoomed(db, env, mate)
  {
    hide Owner, DoomedIn;
  }

  lemma SurveyIsOwner(db: DB, id: Id, r: Ref)
    requires Sound(db) && id in db && r in db[id].refs && r in {VERSION_SURVEY, DRAFT_SURVEY, IMAGE_SURVEY}
    ensures Owner(db, id) == Some(db[id].refs[r]) && db[id].table == r.child
  {
    var to := db[id].refs[r];
    assert db[id].table == r.child && to in db && db[to].table == r.parent;
    assert Owner(db, to) == Some(to);
  }

  /** A row refers to a row whose time is up. */
  predicate NamesDue(db: DB, env: Env, id: Id, r: Ref)
    requires id in db
  {
    r in db[id].refs && db[id].refs[r] in DueRows(db, r.parent, env)
  }

  /** What a step removes that goes by one reference to what is due. */
  lemma RemovedAsNaming(db: DB, env: Env, id: Id, n: StepName, r: Ref)
    requires id in db && ActionOf(n) == DeleteRows(Via(r, Due(r.parent)))
    ensures Removes(n, db, env, id) <==> NamesDue(db, env, id, r)
  {
    hide ActionOf, Selected, DueRows;
    DueIs(db, r.parent, env);
    ViaIs(db, r, Due(r.parent), env, id);
  }

  lemma AccountStylesGoWithTheAccount(db: DB, env: Env, k: nat, style: Id)
    requires Sound(db) && style in db && db[style].table.AccountStyles? && GoneBy(db, env, k, style)
    ensures STYLE_WORKSPACE in db[style].refs && db[style].refs[STYLE_WORKSPACE] in DueRows(db, Workspaces, env)
  {
    hide Removes, DueRows, Sound, TableOfStep;
    var n :| Rank(n) < k && Removes(n, db, env, style);
    RemovedIsOfItsTable(db, env, n, style);
    StepsOfOwnTables(n, AccountStyles);
    RemovedAsNaming(db, env, style, n, STYLE_WORKSPACE);
  }

  lemma AccountImagesGoWithTheAccount(db: DB, env: Env, k: nat, id: Id)
    requires id in db && Rank(WorkspaceImagesOfDeletedWorkspaces) < k
    requires ACCOUNT_IMAGE_WORKSPACE in db[id].refs && db[id].refs[ACCOUNT_IMAGE_WORKSPACE] in DueRows(db, Workspaces, env)
    ensures GoneBy(db, env, k, id)
  {
    hide Removes, DueRows;
    RemovedAsNaming(db, env, id, WorkspaceImagesOfDeletedWorkspaces, ACCOUNT_IMAGE_WORKSPACE);
  }

  /** What id refers to by one reference, x refers to by another. */
  predicate Share(db: DB, id: Id, r: Ref, x: Id, other: Ref) {
    id in db && x in db && r in db[id].refs && Refers(db[x], other, db[id].refs[r])
  }

  /** If a row refers by one reference to what a row gone referred to by another, it is gone. */
  ghost predicate Together(db: DB, gone: set<Id>, r: Ref, other: Ref) {
    forall id, x :: x in gone && Share(db, id, r, x, other) ==> id in gone
  }

  lemma RevisionsOfOneDraft(db: DB, id: Id, x: Id)
    requires Sound(db) && id in db && x in db && REVISION_DRAFT in db[id].refs && REVISION_DRAFT in db[x].refs
    requires db[id].refs[REVISION_DRAFT] == db[x].refs[REVISION_DRAFT]
    ensures Owner(db, id) == Owner(db, x) && db[id].table.Revisions? && db[x].table.Revisions?
  {
    hide Sound, Owner;
    SoundAt(db, id, REVISION_DRAFT);
    SoundAt(db, x, REVISION_DRAFT);
    OwnedWithItsDraft(db, id);
    OwnedWithItsDraft(db, x);
  }

  lemma OwnedWithItsDraft(db: DB, id: Id)
    requires Sound(db) && id in db && REVISION_DRAFT in db[id].refs
    ensures db[id].table.Revisions? && db[id].refs[REVISION_DRAFT] in db
    ensures Owner(db, id) == Owner(db, db[id].refs[REVISION_DRAFT])
  {
    SoundAt(db, id, REVISION_DRAFT);
  }

  lemma RevisionsGoTogether(db: DB, env: Env, k: nat)
    requires Sound(db) && Rank(DoomedSurveys) < k <= Rank(OldDraftRevisions)
    ensures Together(db, Gone(db, env, k), REVISION_DRAFT, REVISION_DRAFT)
  {
    hide GoneBy, Owner, Sound, Rank;
    forall id, x | x in Gone(db, env, k) && Share(db, id, REVISION_DRAFT, x, REVISION_DRAFT)
      ensures id in Gone(db, env, k)
    {
      RevisionsOfOneDraft(db, id, x);
      MatesGoTogether(db, env, k, id, x);
    }
  }

  lemma PicturesGoTogether(db: DB, env: Env, k: nat, r: Ref)
    requires Sound(db) && Rank(DoomedSurveys) < k && r in {VERSION_SURVEY, DRAFT_SURVEY}
    ensures Together(db, Gone(db, env, k), IMAGE_SURVEY, r)
  {
    hide GoneBy, Owner, Sound, Rank;
    forall id, x | x in Gone(db, env, k) && Share(db, id, IMAGE_SURVEY, x, r)
      ensures id in Gone(db, env, k)
    {
      SurveyIsOwner(db, id, IMAGE_SURVEY);
      SurveyIsOwner(db, x, r);
      MatesGoTogether(db, env, k, id, x);
    }
  }

  lemma AccountPicturesGoTogether(db: DB, env: Env, k: nat)
    requires Sound(db) && Rank(DeletedWorkspaces) < k
    ensures Together(db, Gone(db, env, k), ACCOUNT_IMAGE_WORKSPACE, STYLE_WORKSPACE)
  {
    hide GoneBy, Sound, Rank;
    forall id, x | x in Gone(db, env, k) && Share(db, id, ACCOUNT_IMAGE_WORKSPACE, x, STYLE_WORKSPACE)
      ensures id in Gone(db, env, k)
    {
      AccountPictureGoesToo(db, env, k, id, x);
    }
  }

  lemma StepsOfWorkspacesInOrder()
    ensures Rank(WorkspaceImagesOfDeletedWorkspaces) < Rank(DeletedWorkspaces)
  {
  }

  lemma AccountPictureGoesToo(db: DB, env: Env, k: nat, id: Id, x: Id)
    requires Sound(db) && Rank(DeletedWorkspaces) < k
    requires Share(db, id, ACCOUNT_IMAGE_WORKSPACE, x, STYLE_WORKSPACE) && GoneBy(db, env, k, x)
    ensures GoneBy(db, env, k, id)
  {
    hide GoneBy, Sound, DueRows, Rank;
    SoundAt(db, x, STYLE_WORKSPACE);
    StepsOfWorkspacesInOrder();
    AccountStylesGoWithTheAccount(db, env, k, x);
    AccountImagesGoWithTheAccount(db, env, k, id);
  }

  // --- what goes by time ------------------------------------------------------

  lemma SavesLast(db: DB, now: DB, draft: Id)
    requires Shrunk(db, now)
    requires forall x <- db :: db[x].table.Revisions? && Refers(db[x], REVISION_DRAFT, draft) ==> x in now
    ensures Saves(now, draft) == Saves(db, draft)
  {
  }

  lemma ShownLasts(db: DB, now: DB, r: Ref, of: Id, hash: string)
    requires Shrunk(db, now) && Firm(r)
    requires forall x <- db :: db[x].table == r.child && Refers(db[x], r, of) ==> x in now
    ensures ShownBy(now, r.child, r, of, hash) == ShownBy(db, r.child, r, of, hash)
  {
    forall x | x in now
      ensures Refers(now[x], r, of) == Refers(db[x], r, of) && now[x].table == db[x].table && now[x].shows == db[x].shows
    {
      assert SameButEmptied(db[x], now[x]);
    }
  }

  lemma FreeStyleLasts(db: DB, now: DB, env: Env, workspace: Id)
    requires Shrunk(db, now)
    requires forall x <- db :: db[x].table.AccountStyles? && Refers(db[x], STYLE_WORKSPACE, workspace) ==> x in now
    ensures HasFreeStyle(now, env, workspace) == HasFreeStyle(db, env, workspace)
  {
    forall x | x in now ensures Refers(now[x], STYLE_WORKSPACE, workspace) == Refers(db[x], STYLE_WORKSPACE, workspace) && now[x].table == db[x].table {
      assert SameButEmptied(db[x], now[x]);
    }
  }

  lemma OldRevisionsLast(db: DB, env: Env, now: DB, gone: set<Id>, id: Id)
    requires Sound(db) && Stands(db, now, gone, {}, {}) && Closed(db, gone) && Together(db, gone, REVISION_DRAFT, REVISION_DRAFT) && id in now
    ensures IsOldRevision(now, env, id) <==> IsOldRevision(db, env, id)
  {
    assert SameButEmptied(db[id], now[id]);
    FirmLasts(db, now, gone, id, REVISION_DRAFT);
    if REVISION_DRAFT in db[id].refs {
      assert forall x <- db :: Refers(db[x], REVISION_DRAFT, db[id].refs[REVISION_DRAFT]) ==> Share(db, id, REVISION_DRAFT, x, REVISION_DRAFT);
      SavesLast(db, now, db[id].refs[REVISION_DRAFT]);
    }
  }

  lemma SharersLast(db: DB, now: DB, gone: set<Id>, id: Id, r: Ref, other: Ref)
    requires Stands(db, now, gone, {}, {}) && Together(db, gone, r, other) && id in now && r in db[id].refs
    ensures forall x <- db :: Refers(db[x], other, db[id].refs[r]) ==> x in now
  {
    forall x | x in db && Refers(db[x], other, db[id].refs[r]) ensures x in now {
      assert Share(db, id, r, x, other);
    }
  }

  lemma ShowersLast(db: DB, now: DB, gone: set<Id>, id: Id, r: Ref, other: Ref)
    requires Stands(db, now, gone, {}, {}) && Together(db, gone, r, other) && Firm(other) && id in now && r in db[id].refs
    ensures forall hash :: ShownBy(now, other.child, other, db[id].refs[r], hash) == ShownBy(db, other.child, other, db[id].refs[r], hash)
  {
    hide ShownBy, Together;
    SharersLast(db, now, gone, id, r, other);
    forall hash ensures ShownBy(now, other.child, other, db[id].refs[r], hash) == ShownBy(db, other.child, other, db[id].refs[r], hash) {
      ShownLasts(db, now, other, db[id].refs[r], hash);
    }
  }

  lemma UnusedImagesLast(db: DB, env: Env, now: DB, gone: set<Id>, id: Id)
    requires Sound(db) && Stands(db, now, gone, {}, {}) && Closed(db, gone) && id in now
    requires Together(db, gone, IMAGE_SURVEY, VERSION_SURVEY) && Together(db, gone, IMAGE_SURVEY, DRAFT_SURVEY)
    ensures IsUnusedImage(now, env, id) <==> IsUnusedImage(db, env, id)
  {
    hide ShownBy, Closed, Sound, Together;
    assert SameButEmptied(db[id], now[id]);
    FirmLasts(db, now, gone, id, IMAGE_SURVEY);
    if IMAGE_SURVEY in db[id].refs {
      ShowersLast(db, now, gone, id, IMAGE_SURVEY, VERSION_SURVEY);
      ShowersLast(db, now, gone, id, IMAGE_SURVEY, DRAFT_SURVEY);
    }
  }

  lemma UnusedAccountImagesLast(db: DB, env: Env, now: DB, gone: set<Id>, id: Id)
    requires Sound(db) && Stands(db, now, gone, {}, {}) && Closed(db, gone) && id in now
    requires Together(db, gone, ACCOUNT_IMAGE_WORKSPACE, STYLE_WORKSPACE)
    ensures IsUnusedAccountImage(now, env, id) <==> IsUnusedAccountImage(db, env, id)
  {
    hide ShownBy, HasFreeStyle, Closed, Sound, Together;
    assert SameButEmptied(db[id], now[id]);
    FirmLasts(db, now, gone, id, ACCOUNT_IMAGE_WORKSPACE);
    if ACCOUNT_IMAGE_WORKSPACE in db[id].refs {
      SharersLast(db, now, gone, id, ACCOUNT_IMAGE_WORKSPACE, STYLE_WORKSPACE);
      FreeStyleLasts(db, now, env, db[id].refs[ACCOUNT_IMAGE_WORKSPACE]);
      ShowersLast(db, now, gone, id, ACCOUNT_IMAGE_WORKSPACE, STYLE_WORKSPACE);
    }
  }

  lemma TimedIs(db: DB, q: Select, env: Env, id: Id)
    requires id in db
    ensures q.OldRevisions? ==> (id in Selected(db, q, env) <==> IsOldRevision(db, env, id))
    ensures q.UnusedImages? ==> (id in Selected(db, q, env) <==> IsUnusedImage(db, env, id))
    ensures q.UnusedAccountImages? ==> (id in Selected(db, q, env) <==> IsUnusedAccountImage(db, env, id))
  {
    hide IsOldRevision, IsUnusedImage, IsUnusedAccountImage;
  }

  /** The selections by time go by what goes together. */
  ghost predicate Kept(db: DB, gone: set<Id>, q: Select) {
    && (q.OldRevisions? ==> Together(db, gone, REVISION_DRAFT, REVISION_DRAFT))
    && (q.UnusedImages? ==> Together(db, gone, IMAGE_SURVEY, VERSION_SURVEY) && Together(db, gone, IMAGE_SURVEY, DRAFT_SURVEY))
    && (q.UnusedAccountImages? ==> Together(db, gone, ACCOUNT_IMAGE_WORKSPACE, STYLE_WORKSPACE))
  }

  /** What a step picks out, when its turn comes, is what it would have picked out at first, less what is
      gone. */
  lemma StepsFindWhatTheyWould(db: DB, env: Env, q: Select, now: DB, gone: set<Id>, id: Id)
    requires Sound(db) && Stands(db, now, gone, {}, {}) && Closed(db, gone) && id in now
    requires ByFirm(q) && (ByTime(q) || Lasting(q)) && Kept(db, gone, q)
    ensures id in Selected(now, q, env) <==> id in Selected(db, q, env)
  {
    assert id in db;
    hide Stands, Closed, Sound, Together, IsOldRevision, IsUnusedImage, IsUnusedAccountImage, Selected, ByFirm, Lasting;
    TimedIs(now, q, env, id);
    TimedIs(db, q, env, id);
    if q.OldRevisions? {
      OldRevisionsLast(db, env, now, gone, id);
    } else if q.UnusedImages? {
      UnusedImagesLast(db, env, now, gone, id);
    } else if q.UnusedAccountImages? {
      UnusedAccountImagesLast(db, env, now, gone, id);
    } else {
      SelectionsLast(db, env, now, gone, q, id);
    }
  }

  lemma WhatGoesTogether(db: DB, env: Env, n: StepName, q: Select)
    requires Sound(db) && ActionOf(n) == DeleteRows(q)
    ensures Kept(db, Gone(db, env, Rank(n)), q)
  {
    hide Sound, Gone, Together;
    StepsGoByFirm(n);
    hide ActionOf;
    if q.OldRevisions? {
      RevisionsGoTogether(db, env, Rank(n));
    } else if q.UnusedImages? {
      PicturesGoTogether(db, env, Rank(n), VERSION_SURVEY);
      PicturesGoTogether(db, env, Rank(n), DRAFT_SURVEY);
    } else if q.UnusedAccountImages? {
      AccountPicturesGoTogether(db, env, Rank(n));
    }
  }

  // --- one step ---------------------------------------------------------------

  /** What a step would remove of the first database. */
  ghost function Removed(db: DB, env: Env, n: StepName): set<Id> {
    if ActionOf(n).DeleteRows? then Selected(db, ActionOf(n).q, env) else {}
  }

  lemma GoneOneMore(db: DB, env: Env, n: StepName)
    ensures Gone(db, env, Rank(n) + 1) == Gone(db, env, Rank(n)) + Removed(db, env, n)
  {
    forall id ensures id in Gone(db, env, Rank(n) + 1) <==> id in Gone(db, env, Rank(n)) + Removed(db, env, n) {
      if id in Gone(db, env, Rank(n) + 1) {
        var m :| Rank(m) < Rank(n) + 1 && Removes(m, db, env, id);
        if Rank(m) == Rank(n) {
          assert StepAt(Rank(m)) == m && StepAt(Rank(n)) == n;
        }
      }
      if id in Removed(db, env, n) {
        SelectedIsThere(db, ActionOf(n).q, env, id);
        assert Removes(n, db, env, id);
      }
    }
  }

  lemma SelectedIsThere(db: DB, q: Select, env: Env, id: Id)
    requires id in Selected(db, q, env)
    ensures id in db
  {
  }

  /** dead is what of some rows is still there. */
  ghost predicate Found(now: DB, dead: set<Id>, more: set<Id>) {
    forall id :: id in dead <==> id in now && id in more
  }

  /** Deleting what a step finds is not refused, where what refers to it is gone or goes with it, and people
      are credited with nothing more. */
  lemma DeleteStands(db: DB, now: DB, gone: set<Id>, emptied: set<Ref>, due: set<Id>, more: set<Id>, dead: set<Id>)
    requires Sound(db) && Stands(db, now, gone, emptied, due) && Closed(db, gone + more)
    requires Found(now, dead, more) && Uncredited(db, more, emptied, due)
    ensures Delete(now, dead).Some? && Stands(db, Delete(now, dead).value, gone + more, emptied, due)
  {
    forall id | id in now ensures !Blocks(now, dead, id) {
      NobodyBlocks(db, now, gone, emptied, due, more, dead, id);
    }
    hide Blocks, Closed, Uncredited, Firm;
    var after := Delete(now, dead).value;
    forall id | id in after ensures SameButEmptied(db[id], after[id]) {
      StillTheSame(db[id], now[id], dead);
    }
  }

  lemma StillTheSame(a: Row, b: Row, dead: set<Id>)
    requires SameButEmptied(a, b)
    ensures SameButEmptied(a, Emptied(b, dead))
  {
  }

  lemma NobodyBlocks(db: DB, now: DB, gone: set<Id>, emptied: set<Ref>, due: set<Id>, more: set<Id>, dead: set<Id>, id: Id)
    requires Sound(db) && Stands(db, now, gone, emptied, due) && Closed(db, gone + more) && id in now
    requires Found(now, dead, more) && Uncredited(db, more, emptied, due)
    ensures !Blocks(now, dead, id)
  {
    assert SameButEmptied(db[id], now[id]);
    forall r | r in now[id].refs && !EmptiedByDelete(r) && now[id].refs[r] in dead ensures id in dead {
      SoundAt(db, id, r);
      if Firm(r) {
        assert id in gone + more;
      }
    }
  }

  lemma DetachedTheSame(a: Row, b: Row, r: Ref)
    requires SameButEmptied(a, b) && Detached(r)
    ensures SameButEmptied(a, b.(refs := b.refs - {r}))
  {
  }

  lemma DetachStands(db: DB, now: DB, gone: set<Id>, emptied: set<Ref>, due: set<Id>, found: set<Id>, r: Ref)
    requires Detached(r) && Sound(db) && Stands(db, now, gone, emptied, due)
    requires forall id :: id in now && id in due ==> id in found
    requires due !! gone && due <= db.Keys
    ensures Stands(db, Without(now, r, found), gone, emptied + {r}, due)
  {
    hide Sound, Detached, Firm;
    var after := Without(now, r, found);
    forall id | id in after ensures SameButEmptied(db[id], after[id]) {
      DetachedTheSame(db[id], now[id], r);
    }
    assert Shrunk(db, after);
    hide SameButEmptied, Shrunk;
    forall id, other | id in after && other in after[id].refs && other in emptied + {r} ensures after[id].refs[other] !in due {
      assert other in now[id].refs && after[id].refs[other] == now[id].refs[other];
    }
  }

  lemma DropStands(db: DB, env: Env, now: DB, gone: set<Id>, emptied: set<Ref>, due: set<Id>)
    requires Stands(db, now, gone, emptied, due)
    ensures Stands(db, Exec(now, DropArchives, env).value, gone, emptied, due)
  {
    var after := Exec(now, DropArchives, env).value;
    forall id | id in after ensures SameButEmptied(db[id], after[id]) {
      assert SameButEmptied(db[id], now[id]);
    }
  }

  /** The database as it stands after the first k steps. */
  ghost predicate StandsAfter(db: DB, env: Env, k: nat, now: DB) {
    Stands(db, now, Gone(db, env, k), EmptiedBy(k), DueRows(db, Users, env))
  }

  lemma StandingOnly(db: DB, now: DB, gone: set<Id>, emptied: set<Ref>, due: set<Id>)
    requires Stands(db, now, gone, emptied, due)
    ensures Stands(db, now, gone, {}, {})
  {
  }

  /** People among some rows are due, and credited with nothing more. */
  ghost predicate Uncredited(db: DB, more: set<Id>, emptied: set<Ref>, due: set<Id>) {
    forall id, r :: id in more && id in db && Detached(r) && db[id].table == r.parent ==> r in emptied && id in due
  }

  lemma PersonRemovedIsDue(db: DB, env: Env, n: StepName, id: Id)
    requires Sound(db) && id in Removed(db, env, n) && id in db && db[id].table.Users?
    ensures n.DeletedUsers? && id in DueRows(db, Users, env)
  {
    assert Removes(n, db, env, id);
    UsersGoLast(db, env, n, id);
  }

  lemma PeopleRemovedAreDue(db: DB, env: Env, n: StepName, more: set<Id>, due: set<Id>)
    requires Sound(db) && more == Removed(db, env, n) && due == DueRows(db, Users, env)
    ensures forall id <- more :: id in db && db[id].table.Users? ==> n.DeletedUsers? && id in due
  {
    forall id | id in more && id in db && db[id].table.Users? ensures n.DeletedUsers? && id in due {
      PersonRemovedIsDue(db, env, n, id);
    }
  }

  lemma AllIsEmptiedByThen(r: Ref)
    requires Detached(r)
    ensures r in EmptiedBy(Rank(DeletedUsers)) && r.parent == Users
  {
  }

  lemma UncreditedWhereAllIsEmptied(db: DB, more: set<Id>, emptied: set<Ref>, due: set<Id>, people: bool)
    requires forall id <- more :: id in db && db[id].table.Users? ==> people && id in due
    requires people ==> forall r :: Detached(r) ==> r in emptied
    ensures Uncredited(db, more, emptied, due)
  {
    forall id, r | id in more && id in db && Detached(r) && db[id].table == r.parent ensures r in emptied && id in due {
      AllIsEmptiedByThen(r);
    }
  }

  lemma OnlyTheDueAreRemoved(db: DB, env: Env, n: StepName)
    requires Sound(db)
    ensures Uncredited(db, Removed(db, env, n), EmptiedBy(Rank(n)), DueRows(db, Users, env))
  {
    PeopleRemovedAreDue(db, env, n, Removed(db, env, n), DueRows(db, Users, env));
    forall r | n.DeletedUsers? && Detached(r) ensures r in EmptiedBy(Rank(n)) {
      AllIsEmptiedByThen(r);
    }
    UncreditedWhereAllIsEmptied(db, Removed(db, env, n), EmptiedBy(Rank(n)), DueRows(db, Users, env), n.DeletedUsers?);
  }

  lemma DeletingWhatIsFoundStands(db: DB, env: Env, q: Select, now: DB, gone: set<Id>, emptied: set<Ref>, due: set<Id>,
                                  more: set<Id>, next: set<Id>)
    requires Sound(db) && Stands(db, now, gone, emptied, due) && Closed(db, next) && next == gone + more
    requires Found(now, Selected(now, q, env), more) && Uncredited(db, more, emptied, due)
    ensures Exec(now, DeleteRows(q), env).Some? && Stands(db, Exec(now, DeleteRows(q), env).value, next, emptied, due)
  {
    DeleteStands(db, now, gone, emptied, due, more, Selected(now, q, env));
  }

  lemma DeleteStepStands(db: DB, env: Env, n: StepName, q: Select, now: DB)
    requires ActionOf(n) == DeleteRows(q) && Sound(db) && StandsAfter(db, env, Rank(n), now)
    requires Closed(db, Gone(db, env, Rank(n))) && Closed(db, Gone(db, env, Rank(n) + 1))
    ensures Exec(now, DeleteRows(q), env).Some? && StandsAfter(db, env, Rank(n) + 1, Exec(now, DeleteRows(q), env).value)
  {
    FindsWhatGoes(db, env, n, q, now);
    GoneOneMore(db, env, n);
    OnlyTheDueAreRemoved(db, env, n);
    SameEmptied(n);
    DeletingWhatIsFoundStands(db, env, q, now, Gone(db, env, Rank(n)), EmptiedBy(Rank(n)), DueRows(db, Users, env),
                              Removed(db, env, n), Gone(db, env, Rank(n) + 1));
  }

  lemma SameEmptied(n: StepName)
    ensures EmptiedBy(Rank(n) + 1)
         == EmptiedBy(Rank(n)) + if ActionOf(n).Empty? && Detached(ActionOf(n).ref) then {ActionOf(n).ref} else {}
  {
  }

  lemma FindsWhatGoes(db: DB, env: Env, n: StepName, q: Select, now: DB)
    requires ActionOf(n) == DeleteRows(q) && Sound(db) && StandsAfter(db, env, Rank(n), now)
    requires Closed(db, Gone(db, env, Rank(n)))
    ensures Found(now, Selected(now, q, env), Removed(db, env, n))
  {
    hide Gone, Sound, Closed, Stands, Selected, Rank, EmptiedBy, DueRows, Kept, ByFirm, Lasting;
    var gone := Gone(db, env, Rank(n));
    StandingOnly(db, now, gone, EmptiedBy(Rank(n)), DueRows(db, Users, env));
    WhatGoesTogether(db, env, n, q);
    StepsGoByFirm(n);
    assert Removed(db, env, n) == Selected(db, q, env);
    hide ActionOf, Removed, StandsAfter;
    FoundAsAtFirst(db, env, q, now, gone);
  }

  lemma FoundAsAtFirst(db: DB, env: Env, q: Select, now: DB, gone: set<Id>)
    requires Sound(db) && Stands(db, now, gone, {}, {}) && Closed(db, gone)
    requires ByFirm(q) && (ByTime(q) || Lasting(q)) && Kept(db, gone, q)
    ensures Found(now, Selected(now, q, env), Selected(db, q, env))
  {
    hide Sound, Closed, Stands, Selected, Kept, ByFirm, Lasting, ByTime;
    forall id ensures id in Selected(now, q, env) <==> id in now && id in Selected(db, q, env) {
      if id in now {
        StepsFindWhatTheyWould(db, env, q, now, gone, id);
      } else if id in Selected(now, q, env) {
        SelectedIsThere(now, q, env, id);
      }
    }
  }

  lemma UsersAreThere(db: DB, env: Env, k: nat)
    requires Sound(db) && k <= Rank(DeletedUsers)
    ensures DueRows(db, Users, env) !! Gone(db, env, k) && DueRows(db, Users, env) <= db.Keys
  {
    forall id | id in Gone(db, env, k) ensures id !in DueRows(db, Users, env) {
      if db[id].table.Users? {
        var n :| Rank(n) < k && Removes(n, db, env, id);
        UsersGoLast(db, env, n, id);
      }
    }
  }

  lemma EmptyingSteps(n: StepName)
    requires ActionOf(n).Empty?
    ensures ActionOf(n).q == Due(Users) && Rank(n) <= Rank(DeletedUsers)
    ensures var r := ActionOf(n).ref;
            if Detached(r) then !NeverUpdated(r.child) else Unattended(r) && n == StopsAt(r) && NeverUpdated(r.child)
  {
  }

  lemma DetachStepStands(db: DB, env: Env, n: StepName, r: Ref, now: DB)
    requires ActionOf(n) == Empty(r, Due(Users)) && Detached(r) && Sound(db) && StandsAfter(db, env, Rank(n), now)
    ensures StandsAfter(db, env, Rank(n) + 1, Without(now, r, DueRows(now, Users, env)))
  {
    hide ActionOf, Gone, Sound, DueRows, EmptiedBy, Without;
    var due := DueRows(db, Users, env);
    EmptyingSteps(n);
    UsersAreThere(db, env, Rank(n));
    forall id | id in now && id in due ensures id in DueRows(now, Users, env) {
      DueLasts(db, now, env, Users, id);
    }
    DetachStands(db, now, Gone(db, env, Rank(n)), EmptiedBy(Rank(n)), due, DueRows(now, Users, env), r);
    GoneOneMore(db, env, n);
    SameEmptied(n);
  }

  lemma StandingNames(db: DB, env: Env, now: DB, gone: set<Id>, id: Id, r: Ref)
    requires Sound(db) && Stands(db, now, gone, {}, {}) && Firm(r) && id in db && id !in gone
    requires r in db[id].refs ==> db[id].refs[r] !in gone
    ensures id in Referring(now, r, DueRows(now, Users, env)) <==> id in Referring(db, r, DueRows(db, Users, env))
  {
    hide DueRows;
    assert SameButEmptied(db[id], now[id]);
    if r in db[id].refs {
      SoundAt(db, id, r);
      DueLasts(db, now, env, Users, db[id].refs[r]);
    }
  }

  lemma NamedAlike(db: DB, env: Env, now: DB, k: nat, id: Id, r: Ref)
    requires Sound(db) && StandsAfter(db, env, k, now) && Firm(r) && id in db && id !in Gone(db, env, k) && k <= Rank(DeletedUsers)
    requires r.parent.Users?
    ensures id in Referring(now, r, DueRows(now, Users, env)) <==> id in Referring(db, r, DueRows(db, Users, env))
  {
    hide DueRows, Gone, EmptiedBy, Sound, Stands, Rank, Referring;
    StandingOnly(db, now, Gone(db, env, k), EmptiedBy(k), DueRows(db, Users, env));
    if r in db[id].refs {
      SoundAt(db, id, r);
      PeopleAreThere(db, env, k, db[id].refs[r]);
    }
    StandingNames(db, env, now, Gone(db, env, k), id, r);
  }

  lemma PeopleAreThere(db: DB, env: Env, k: nat, id: Id)
    requires Sound(db) && k <= Rank(DeletedUsers) && id in db && db[id].table.Users?
    ensures id !in Gone(db, env, k)
  {
    hide Removes, Sound, Rank;
    if GoneBy(db, env, k, id) {
      var n :| Rank(n) < k && Removes(n, db, env, id);
      UsersGoLast(db, env, n, id);
    }
  }

  lemma StillThere(db: DB, env: Env, k: nat, now: DB, id: Id)
    requires StandsAfter(db, env, k, now) && id in now
    ensures id in db && !GoneBy(db, env, k, id) && id !in Gone(db, env, k)
  {
    hide GoneBy;
  }

  lemma WhoIsFoundIsNamed(db: DB, env: Env, n: StepName, r: Ref, now: DB, id: Id)
    requires Sound(db) && StandsAfter(db, env, Rank(n), now) && Unattended(r) && n == StopsAt(r)
    requires id in Referring(now, r, DueRows(now, Users, env))
    ensures id in db && NamesTheDue(db, env, id, r)
  {
    assert id in now;
    hide DueRows, GoneBy, Gone, Sound, Rank, StopsAt, NamesTheDue, StandsAfter, Referring, Unattended;
    assert Firm(r) && r.parent.Users? by { UnattendedAreFirm(r); }
    StopsAreInOrder(r);
    StillThere(db, env, Rank(n), now, id);
    NamedAlike(db, env, now, Rank(n), id, r);
    ReferringIs(db, r, DueRows(db, Users, env), id);
    UnattendedStay(db, env, id, r);
  }

  lemma UnattendedAreFirm(r: Ref)
    requires Unattended(r)
    ensures Firm(r) && r.parent.Users?
  {
  }

  lemma NobodyToEmpty(db: DB, env: Env, n: StepName, r: Ref, now: DB)
    requires Sound(db) && StandsAfter(db, env, Rank(n), now) && !StillNamed(db, env, Rank(n) + 1)
    requires Unattended(r) && n == StopsAt(r)
    ensures Referring(now, r, DueRows(now, Users, env)) == {}
  {
    hide DueRows, Sound, Rank, StopsAt, NamesTheDue, StandsAfter, Referring, Unattended;
    forall id | id in Referring(now, r, DueRows(now, Users, env)) ensures false {
      WhoIsFoundIsNamed(db, env, n, r, now, id);
    }
  }

  lemma DetachingNobody(db: DB, ref: Ref, of: set<Id>)
    requires Referring(db, ref, of) == {}
    ensures Detach(db, ref, of) == Some(db)
  {
    forall id | id in db ensures !(ref in db[id].refs && db[id].refs[ref] in of) {
      assert id !in Referring(db, ref, of);
    }
    assert Without(db, ref, of) == db;
  }

  /** A step that empties finds nobody to empty where rows are never updated, and empties elsewhere. */
  lemma EmptyStepStands(db: DB, env: Env, n: StepName, r: Ref, now: DB)
    requires ActionOf(n) == Empty(r, Due(Users)) && Sound(db) && StandsAfter(db, env, Rank(n), now)
    requires !StillNamed(db, env, Rank(n) + 1)
    ensures Exec(now, ActionOf(n), env).Some? && StandsAfter(db, env, Rank(n) + 1, Exec(now, ActionOf(n), env).value)
  {
    EmptyingSteps(n);
    GoneOneMore(db, env, n);
    SameEmptied(n);
    DueIs(now, Users, env);
    hide ActionOf, Gone, Sound, DueRows, EmptiedBy, StandsAfter, StillNamed, Selected, Rank, StopsAt, Without, Removed;
    assert Exec(now, ActionOf(n), env) == Detach(now, r, DueRows(now, Users, env));
    if Detached(r) {
      DetachStepStands(db, env, n, r, now);
    } else {
      NobodyToEmpty(db, env, n, r, now);
      DetachingNobody(now, r, DueRows(now, Users, env));
      NothingEmptied(db, env, n, now);
    }
  }

  lemma NothingEmptied(db: DB, env: Env, n: StepName, now: DB)
    requires ActionOf(n).Empty? && !Detached(ActionOf(n).ref) && StandsAfter(db, env, Rank(n), now)
    ensures StandsAfter(db, env, Rank(n) + 1, now)
  {
    GoneOneMore(db, env, n);
    SameEmptied(n);
  }

  lemma DropStepStands(db: DB, env: Env, n: StepName, now: DB)
    requires ActionOf(n).DropArchives? && StandsAfter(db, env, Rank(n), now)
    ensures StandsAfter(db, env, Rank(n) + 1, Exec(now, DropArchives, env).value)
  {
    DropStands(db, env, now, Gone(db, env, Rank(n)), EmptiedBy(Rank(n)), DueRows(db, Users, env));
    GoneOneMore(db, env, n);
    SameEmptied(n);
  }

  /** Whatever a step is, it finds the database as the steps before it leave it, and leaves it so. */
  lemma StepStands(db: DB, env: Env, n: StepName, now: DB)
    requires Sound(db) && StandsAfter(db, env, Rank(n), now) && !StillNamed(db, env, Rank(n) + 1)
    requires Closed(db, Gone(db, env, Rank(n))) && Closed(db, Gone(db, env, Rank(n) + 1))
    ensures Exec(now, ActionOf(n), env).Some? && StandsAfter(db, env, Rank(n) + 1, Exec(now, ActionOf(n), env).value)
  {
    match ActionOf(n)
    case DeleteRows(q) => DeleteStepStands(db, env, n, q, now);
    case Empty(r, q) =>
      EmptyingSteps(n);
      EmptyStepStands(db, env, n, r, now);
    case DropArchives => DropStepStands(db, env, n, now);
  }

  // --- the whole sweep --------------------------------------------------------

  lemma SweepStep(env: Env, now: DB, k: nat)
    requires k < STEPS
    ensures Sweep(env)(now, k) == Exec(now, ActionOf(StepAt(k)), env)
  {
  }

  lemma NextStepStands(db: DB, env: Env, k: nat, now: DB) returns (next: DB)
    requires Sound(db) && Coherent(db) && k < STEPS && !StillNamed(db, env, k) && !StillNamed(db, env, k + 1)
    requires StandsAfter(db, env, k, now)
    ensures Sweep(env)(now, k) == Some(next) && StandsAfter(db, env, k + 1, next)
  {
    hide Sound, Coherent, StandsAfter, Closed, Gone, StillNamed, ActionOf, Exec, StepAt, Sweep, Rank;
    SweepStep(env, now, k);
    ClosedWhileNobodyIsNamed(db, env, k);
    ClosedWhileNobodyIsNamed(db, env, k + 1);
    RankOfStep(k);
    StepStands(db, env, StepAt(k), now);
    next := Exec(now, ActionOf(StepAt(k)), env).value;
  }

  /** Where no row names someone so that one of the first k steps cannot run, none of them is refused, and
      what then stands is the first database, less exactly what they would have removed of it. */
  lemma {:induction false} SweepStands(db: DB, env: Env, k: nat) returns (now: DB)
    requires Sound(db) && Coherent(db) && k <= STEPS && !StillNamed(db, env, k)
    ensures After(db, Sweep(env), k) == Some(now) && StandsAfter(db, env, k, now)
  {
    hide Sound, Coherent, StandsAfter, StillNamed, Sweep, Rank;
    if k == 0 {
      NothingGoneAtFirst(db, env);
      now := db;
    } else {
      if StillNamed(db, env, k - 1) {
        StoppedByThen(db, env, k - 1, k);
      }
      var before := SweepStands(db, env, k - 1);
      now := NextStepStands(db, env, k - 1, before);
      OneMoreStep(db, Sweep(env), k - 1, before, now);
    }
  }

  lemma LastStepIsPastPeople()
    ensures Rank(DeletedUsers) < STEPS
  {
  }

  lemma OneMoreStep<S>(start: S, steps: Steps<S>, k: nat, before: S, now: S)
    requires After(start, steps, k) == Some(before) && steps(before, k) == Some(now)
    ensures After(start, steps, k + 1) == Some(now)
  {
  }

  lemma RankOfStep(k: nat)
    requires k < STEPS
    ensures Rank(StepAt(k)) == k
  {
  }

  lemma NothingGoneAtFirst(db: DB, env: Env)
    ensures StandsAfter(db, env, 0, db)
  {
    assert Gone(db, env, 0) == {} && EmptiedBy(0) == {};
    forall id | id in db ensures SameButEmptied(db[id], db[id]) {
    }
  }
}
