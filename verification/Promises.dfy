/** What the sweep promises: that it runs, what it keeps whole, what it takes with it and what it leaves. */
module Promises {
  import opened Wrappers
  import opened Schema
  import opened Transactions
  import opened Purge
  import opened Retention
  import opened Sweeping

  // --- references -------------------------------------------------------------

  lemma ExecKeepsSound(db: DB, a: Action, env: Env)
    requires Sound(db) && Exec(db, a, env).Some?
    ensures Sound(Exec(db, a, env).value)
  {
    hide Sound, Delete, Without, Selected;
    match a
    case DeleteRows(q) => DeleteKeepsSound(db, Selected(db, q, env));
    case Empty(r, q) => WithoutKeepsSound(db, r, Selected(db, q, env));
    case DropArchives =>
      SameRefsKeepSound(db, Exec(db, a, env).value);
  }

  lemma SameRefsKeepSound(db: DB, after: DB)
    requires Sound(db) && after.Keys == db.Keys
    requires forall id <- after :: after[id].refs == db[id].refs && after[id].table == db[id].table
    ensures Sound(after)
  {
    forall id, r | id in after && r in after[id].refs
      ensures InSchema(r) && after[id].table == r.child && after[id].refs[r] in after && after[after[id].refs[r]].table == r.parent
    {
      SoundAt(db, id, r);
    }
  }

  /** However far a sweep gets, every reference there is names a row there is. */
  lemma {:induction false} EveryReferenceStaysWhole(db: DB, env: Env, k: nat)
    requires Sound(db) && After(db, Sweep(env), k).Some?
    ensures Sound(After(db, Sweep(env), k).value)
  {
    if k > 0 {
      EveryReferenceStaysWhole(db, env, k - 1);
      ExecKeepsSound(After(db, Sweep(env), k - 1).value, SweepAction(k - 1), env);
    }
  }

  // --- when it runs -----------------------------------------------------------

  lemma OnlyPeopleAreAmongPeople(db: DB, env: Env, id: Id)
    requires id in DueRows(db, Users, env)
    ensures id in db && db[id].table.Users?
  {
  }

  lemma NamedBlocks(db: DB, env: Env, now: DB, gone: set<Id>, id: Id, r: Ref)
    requires Sound(db) && id in db && r in db[id].refs && Unattended(r) && db[id].refs[r] in DueRows(db, Users, env)
    requires Stands(db, now, gone, {}, {}) && id !in gone && db[id].refs[r] !in gone
    ensures Delete(now, DueRows(now, Users, env)).None?
  {
    hide Delete, Sound, DueRows;
    SoundAt(db, id, r);
    DueLasts(db, now, env, Users, db[id].refs[r]);
    assert SameButEmptied(db[id], now[id]);
    if id in DueRows(now, Users, env) {
      OnlyPeopleAreAmongPeople(now, env, id);
    }
    assert Blocks(now, DueRows(now, Users, env), id);
    BlockedIsRefused(now, DueRows(now, Users, env), id);
  }

  lemma BlockedIsRefused(db: DB, dead: set<Id>, id: Id)
    requires id in db && Blocks(db, dead, id)
    ensures Delete(db, dead).None?
  {
    hide Blocks;
  }

  lemma NamedIsRefused(db: DB, env: Env, now: DB, id: Id, r: Ref)
    requires Sound(db) && id in db && NamesTheDue(db, env, id, r) && StopsAt(r) == DeletedUsers
    requires StandsAfter(db, env, Rank(DeletedUsers), now)
    ensures Exec(now, ActionOf(DeletedUsers), env).None?
  {
    hide Sound, Delete, DueRows, DoomedIn, GoneBy, Stands, Rank, EmptiedBy, Selected, OwnedByDoomed;
    assert ActionOf(DeletedUsers) == DeleteRows(Due(Users));
    hide ActionOf;
    DueIs(now, Users, env);
    StandingOnly(db, now, Gone(db, env, Rank(DeletedUsers)), EmptiedBy(Rank(DeletedUsers)), DueRows(db, Users, env));
    UnattendedStay(db, env, id, r);
    UsersAreThere(db, env, Rank(DeletedUsers));
    assert db[id].refs[r] !in Gone(db, env, Rank(DeletedUsers));
    NamedBlocks(db, env, now, Gone(db, env, Rank(DeletedUsers)), id, r);
  }

  lemma NamedIsStillThere(db: DB, env: Env, now: DB, id: Id, r: Ref)
    requires Sound(db) && id in db && NamesTheDue(db, env, id, r) && StandsAfter(db, env, Rank(StopsAt(r)), now)
    ensures id in Referring(now, r, DueRows(now, Users, env))
  {
    assert Unattended(r) && r in db[id].refs && db[id].refs[r] in DueRows(db, Users, env);
    hide Sound, DueRows, GoneBy, Rank, Selected, NamesTheDue, StopsAt, StandsAfter, Referring, Unattended;
    UnattendedStay(db, env, id, r);
    UnattendedAreFirm(r);
    StopsAreInOrder(r);
    NotGone(db, env, Rank(StopsAt(r)), id);
    NamedAlike(db, env, now, Rank(StopsAt(r)), id, r);
    ReferringIs(db, r, DueRows(db, Users, env), id);
  }

  lemma EmptyingIsRefused(db: DB, env: Env, r: Ref, id: Id)
    requires NeverUpdated(r.child) && id in Referring(db, r, DueRows(db, Users, env))
    ensures Exec(db, Empty(r, Due(Users)), env).None?
  {
    hide Selected, DueRows, Referring, Without;
    DueIs(db, Users, env);
  }

  lemma NamedIsNotEmptied(db: DB, env: Env, now: DB, id: Id, r: Ref)
    requires Sound(db) && id in db && NamesTheDue(db, env, id, r) && StopsAt(r) != DeletedUsers
    requires StandsAfter(db, env, Rank(StopsAt(r)), now)
    ensures Exec(now, ActionOf(StopsAt(r)), env).None?
  {
    assert Unattended(r);
    DetachingSteps(r);
    hide Sound, DueRows, Rank, NamesTheDue, ActionOf, StopsAt, StandsAfter, Referring, Unattended, NeverUpdated, Exec;
    NamedIsStillThere(db, env, now, id, r);
    EmptyingIsRefused(now, env, r, id);
  }

  lemma NotGone(db: DB, env: Env, k: nat, id: Id)
    requires !GoneBy(db, env, k, id)
    ensures id !in Gone(db, env, k)
  {
    hide GoneBy;
  }

  lemma DetachingSteps(r: Ref)
    requires Unattended(r) && StopsAt(r) != DeletedUsers
    ensures ActionOf(StopsAt(r)) == Empty(r, Due(Users)) && NeverUpdated(r.child)
  {
  }

  lemma EveryStepIsTaken(n: StepName)
    ensures Rank(n) < STEPS
  {
  }

  lemma ANameStopsItsStep(db: DB, env: Env, now: DB, id: Id, r: Ref)
    requires Sound(db) && id in db && NamesTheDue(db, env, id, r) && StandsAfter(db, env, Rank(StopsAt(r)), now)
    ensures Sweep(env)(now, Rank(StopsAt(r))).None?
  {
    hide Sound, NamesTheDue, StandsAfter, ActionOf, Exec, Sweep, Rank, StopsAt;
    EveryStepIsTaken(StopsAt(r));
    SweepStep(env, now, Rank(StopsAt(r)));
    if StopsAt(r) == DeletedUsers {
      NamedIsRefused(db, env, now, id, r);
    } else {
      NamedIsNotEmptied(db, env, now, id, r);
    }
  }

  lemma NobodyAtFirst(db: DB, env: Env)
    requires Sound(db)
    ensures !StillNamed(db, env, 0)
  {
    hide NamesTheDue, Sound, Rank, StopsAt;
  }

  lemma RefusedThere(db: DB, env: Env, k: nat)
    requires Sound(db) && Coherent(db) && k < STEPS && StillNamed(db, env, k + 1) && !StillNamed(db, env, k)
    ensures After(db, Sweep(env), k + 1).None?
  {
    hide Sound, Coherent, NamesTheDue, StandsAfter, Sweep, Rank, StopsAt;
    var id, r :| id in db && NamesTheDue(db, env, id, r) && Rank(StopsAt(r)) < k + 1;
    var before := SweepStands(db, env, k);
    ANameStopsItsStep(db, env, before, id, r);
  }

  /** The first k steps of a sweep run exactly when no row that stays names a person whose time is up so that
      one of them cannot: as having published a version, from the twenty-sixth step; as having saved a
      revision, from the next; as having made a survey or asked for an export, from the deletion of people.
      So a sweep runs to its end exactly when no row names one in any of these ways, and is otherwise refused
      at the first of those steps that meets one. */
  lemma {:induction false} SweepRunsExactlyWhenNobodyIsStillNamed(db: DB, env: Env, k: nat)
    requires Sound(db) && Coherent(db) && k <= STEPS
    ensures After(db, Sweep(env), k).Some? <==> !StillNamed(db, env, k)
  {
    hide Sound, Coherent, StillNamed, StandsAfter, Sweep, After;
    NobodyAtFirst(db, env);
    if !StillNamed(db, env, k) {
      var now := SweepStands(db, env, k);
    } else if StillNamed(db, env, k - 1) {
      SweepRunsExactlyWhenNobodyIsStillNamed(db, env, k - 1);
      RefusedStays(db, Sweep(env), k - 1, k);
    } else {
      RefusedThere(db, env, k - 1);
    }
  }

  /** A sweep stops at a step exactly when the step is one a name stops, some row so names a person, and no
      step before is stopped. */
  lemma WhereASweepStops(db: DB, env: Env, k: nat)
    requires Sound(db) && Coherent(db) && k < STEPS
    ensures After(db, Sweep(env), k).Some? && After(db, Sweep(env), k + 1).None?
       <==> !StillNamed(db, env, k) && exists id, r :: id in db && NamesTheDue(db, env, id, r) && Rank(StopsAt(r)) == k
  {
    hide Sound, Coherent, NamesTheDue, Sweep, Rank, StopsAt;
    SweepRunsExactlyWhenNobodyIsStillNamed(db, env, k);
    SweepRunsExactlyWhenNobodyIsStillNamed(db, env, k + 1);
  }

  // --- the doomed -------------------------------------------------------------

  lemma SurveysAndWorkspacesAreThere(db: DB, env: Env, k: nat, id: Id)
    requires Sound(db) && k <= Rank(DoomedSurveys) && id in db && (db[id].table.Surveys? || db[id].table.Workspaces?)
    ensures !GoneBy(db, env, k, id)
  {
    hide Removes, Sound, TableOfStep, Rank;
    WorkspacesGoAfterSurveys();
    if GoneBy(db, env, k, id) {
      var n :| Rank(n) < k && Removes(n, db, env, id);
      RemovedIsOfItsTable(db, env, n, id);
      StepsOfATable(n, db[id].table);
    }
  }

  lemma WorkspacesGoAfterSurveys()
    ensures Rank(DoomedSurveys) < Rank(DeletedWorkspaces)
  {
  }

  lemma TheDoomedAreThere(db: DB, env: Env, k: nat)
    requires Sound(db) && k <= Rank(DoomedSurveys)
    ensures DoomedIn(db, env) !! Gone(db, env, k)
  {
    hide DoomedIn, GoneBy, Sound, Rank;
    forall id | id in DoomedIn(db, env) ensures id !in Gone(db, env, k) {
      DoomedAreSurveys(db, env, id);
      SurveysAndWorkspacesAreThere(db, env, k, id);
    }
  }

  lemma DoomedAreFoundAlike(db: DB, env: Env, now: DB, gone: set<Id>)
    requires Sound(db) && Stands(db, now, gone, {}, {}) && Closed(db, gone) && DoomedIn(db, env) !! gone
    ensures DoomedIn(now, env) == DoomedIn(db, env)
  {
    hide Sound, Closed;
    forall id ensures id in DoomedIn(now, env) <==> id in DoomedIn(db, env) {
      hide DoomedIn;
      if id in now {
        DoomedLasts(db, env, now, gone, id);
      } else if id in DoomedIn(db, env) {
        DoomedAreSurveys(db, env, id);
      } else if id in DoomedIn(now, env) {
        DoomedIs(now, env);
        SelectedIsThere(now, Doomed, env, id);
      }
    }
  }

  /** Every step of a survey's contents, and the deletion of the surveys itself, finds the same surveys
      doomed: those doomed as the run began. */
  lemma TheDoomedStayTheSame(db: DB, env: Env, k: nat) returns (now: DB)
    requires Sound(db) && Coherent(db) && k <= Rank(DoomedSurveys)
    ensures After(db, Sweep(env), k) == Some(now) && DoomedIn(now, env) == DoomedIn(db, env)
  {
    NobodyStopsTheSurveys(db, env, k);
    hide Sound, Coherent, Rank, Stands, DoomedIn, Gone, EmptiedBy, DueRows, Closed, StillNamed, Sweep;
    now := SweepStands(db, env, k);
    ClosedWhileNobodyIsNamed(db, env, k);
    StandingOnly(db, now, Gone(db, env, k), EmptiedBy(k), DueRows(db, Users, env));
    TheDoomedAreThere(db, env, k);
    DoomedAreFoundAlike(db, env, now, Gone(db, env, k));
  }

  lemma NobodyStopsTheSurveys(db: DB, env: Env, k: nat)
    requires Sound(db) && k <= Rank(DoomedSurveys)
    ensures !StillNamed(db, env, k) && k <= STEPS
  {
    hide Sound, OwnedByDoomed, Selected, DueRows;
    EveryStepIsTaken(DoomedSurveys);
    forall id, r | id in db && NamesTheDue(db, env, id, r) ensures Rank(StopsAt(r)) >= k {
      StopsAreInOrder(r);
    }
  }

  lemma DoomedAreSurveys(db: DB, env: Env, id: Id)
    requires Sound(db) && id in DoomedIn(db, env)
    ensures id in db && db[id].table.Surveys?
  {
    SelectedIsOfItsTable(db, Doomed, env, id);
  }

  // --- what is gone and what is left ------------------------------------------

  /** Nothing of a doomed survey remains, nor the survey. */
  lemma NothingOfADoomedSurveyRemains(db: DB, env: Env, end: DB, id: Id)
    requires Sound(db) && Coherent(db) && After(db, Sweep(env), STEPS) == Some(end)
    requires id in db && OwnedByDoomed(db, env, id)
    ensures id !in end
  {
    hide Sweep, Coherent, StillNamed, Removes, DoomedIn;
    SweepRunsExactlyWhenNobodyIsStillNamed(db, env, STEPS);
    var now := SweepStands(db, env, STEPS);
    if db[id].table.Surveys? {
      SurveysGoWhenDoomed(db, env, STEPS, id);
    } else {
      DoomedStepsFollowOwnership(db, env, db[id].table, id);
    }
  }

  /** What a live survey may lose: a response deleted on its own for long enough, with what was answered in
      it, an old revision, or a picture nothing shows. */
  ghost predicate MayBeLost(db: DB, env: Env, id: Id)
    requires id in db
  {
    || id in Selected(db, Due(Responses), env)
    || id in Selected(db, Via(ANSWER_RESPONSE, Due(Responses)), env)
    || id in Selected(db, Via(TRANSLATION_ANSWER, Via(ANSWER_RESPONSE, Due(Responses))), env)
    || IsOldRevision(db, env, id)
    || IsUnusedImage(db, env, id)
  }

  lemma RemovedWithAResponse(db: DB, env: Env, id: Id)
    ensures Removes(DeletedResponses, db, env, id) <==> id in Selected(db, Due(Responses), env)
    ensures Removes(AnswersOfDeletedResponses, db, env, id) <==> id in Selected(db, Via(ANSWER_RESPONSE, Due(Responses)), env)
    ensures Removes(AnswerTranslationsOfDeletedResponses, db, env, id)
       <==> id in Selected(db, Via(TRANSLATION_ANSWER, Via(ANSWER_RESPONSE, Due(Responses))), env)
  {
    hide Selected;
  }

  lemma RemovedAsTimed(db: DB, env: Env, id: Id)
    requires id in db
    ensures Removes(OldDraftRevisions, db, env, id) <==> IsOldRevision(db, env, id)
    ensures Removes(UnusedStyleImages, db, env, id) <==> IsUnusedImage(db, env, id)
  {
    hide Selected, IsOldRevision, IsUnusedImage;
    TimedIs(db, OldRevisions, env, id);
    TimedIs(db, UnusedImages, env, id);
  }

  lemma RemovedFromALiveSurvey(db: DB, env: Env, id: Id)
    requires id in db
    ensures Removes(DeletedResponses, db, env, id) <==> id in Selected(db, Due(Responses), env)
    ensures Removes(AnswersOfDeletedResponses, db, env, id) <==> id in Selected(db, Via(ANSWER_RESPONSE, Due(Responses)), env)
    ensures Removes(AnswerTranslationsOfDeletedResponses, db, env, id)
       <==> id in Selected(db, Via(TRANSLATION_ANSWER, Via(ANSWER_RESPONSE, Due(Responses))), env)
    ensures Removes(OldDraftRevisions, db, env, id) <==> IsOldRevision(db, env, id)
    ensures Removes(UnusedStyleImages, db, env, id) <==> IsUnusedImage(db, env, id)
  {
    hide Removes, Selected, IsOldRevision, IsUnusedImage;
    RemovedWithAResponse(db, env, id);
    RemovedAsTimed(db, env, id);
  }

  lemma LostIsGone(db: DB, env: Env, id: Id)
    requires id in db && MayBeLost(db, env, id)
    ensures GoneBy(db, env, STEPS, id)
  {
    hide Selected, IsOldRevision, IsUnusedImage, Removes;
    RemovedFromALiveSurvey(db, env, id);
    assert Rank(DeletedResponses) < STEPS && Rank(AnswersOfDeletedResponses) < STEPS;
    assert Rank(AnswerTranslationsOfDeletedResponses) < STEPS && Rank(OldDraftRevisions) < STEPS && Rank(UnusedStyleImages) < STEPS;
  }

  lemma GoneOfALiveSurveyIsLost(db: DB, env: Env, id: Id)
    requires Sound(db) && id in db && GoneBy(db, env, STEPS, id)
    requires OfASurvey(db[id].table) && !OwnedByDoomed(db, env, id)
    ensures MayBeLost(db, env, id)
  {
    hide Removes, Selected, Owner, OwnedByDoomed, Sound, IsOldRevision, IsUnusedImage, TableOfStep;
    var n :| Rank(n) < STEPS && Removes(n, db, env, id);
    RemovedIsOfItsTable(db, env, n, id);
    StepsOfOwnTables(n, db[id].table);
    DoomedStepsFollowOwnership(db, env, db[id].table, id);
    RemovedFromALiveSurvey(db, env, id);
  }

  /** A survey that is not doomed stays, and of its rows exactly those that may be lost are; the others are
      as they were, but for the names of people whose time is up. */
  lemma ALiveSurveyLosesOnlyThat(db: DB, env: Env, end: DB, id: Id)
    requires Sound(db) && Coherent(db) && After(db, Sweep(env), STEPS) == Some(end)
    requires id in db && (OfASurvey(db[id].table) || db[id].table.Surveys?) && !OwnedByDoomed(db, env, id)
    ensures id in end <==> !MayBeLost(db, env, id)
    ensures id in end ==> SameButEmptied(db[id], end[id])
  {
    hide Sweep, Coherent, StillNamed, GoneBy, MayBeLost;
    SweepRunsExactlyWhenNobodyIsStillNamed(db, env, STEPS);
    var now := SweepStands(db, env, STEPS);
    if db[id].table.Surveys? {
      SurveysGoWhenDoomed(db, env, STEPS, id);
      NoSurveyIsLost(db, env, id);
    } else if GoneBy(db, env, STEPS, id) {
      GoneOfALiveSurveyIsLost(db, env, id);
    } else if MayBeLost(db, env, id) {
      LostIsGone(db, env, id);
    }
  }

  lemma NoSurveyIsLost(db: DB, env: Env, id: Id)
    requires Sound(db) && id in db && db[id].table.Surveys?
    ensures !MayBeLost(db, env, id)
  {
    NotOfAResponse(db, env, id);
  }

  lemma NotOfAResponse(db: DB, env: Env, id: Id)
    requires Sound(db) && id in db && !(db[id].table in {Responses, AnswerRows, AnswerTranslations})
    ensures id !in Selected(db, Due(Responses), env)
    ensures id !in Selected(db, Via(ANSWER_RESPONSE, Due(Responses)), env)
    ensures id !in Selected(db, Via(TRANSLATION_ANSWER, Via(ANSWER_RESPONSE, Due(Responses))), env)
  {
    forall q | q in {Due(Responses), Via(ANSWER_RESPONSE, Due(Responses)), Via(TRANSLATION_ANSWER, Via(ANSWER_RESPONSE, Due(Responses)))}
      ensures id !in Selected(db, q, env)
    {
      hide Selected;
      if id in Selected(db, q, env) {
        SelectedIsOfItsTable(db, q, env, id);
      }
    }
  }

  lemma NewestIsARevision(db: DB, env: Env, draft: Id)
    requires Fair(env) && Saves(db, draft) != map[]
    ensures var newest := env.newest(Saves(db, draft));
            && IsNewest(Saves(db, draft), newest)
            && newest in db && db[newest].table.Revisions? && Refers(db[newest], REVISION_DRAFT, draft)
  {
  }

  /** Every draft that had a revision still has one: its newest. */
  lemma EveryDraftKeepsItsNewest(db: DB, env: Env, end: DB, draft: Id)
    requires Sound(db) && Coherent(db) && Fair(env) && After(db, Sweep(env), STEPS) == Some(end)
    requires draft in end && Saves(db, draft) != map[]
    ensures var newest := env.newest(Saves(db, draft));
            newest in end && Refers(end[newest], REVISION_DRAFT, draft) && IsNewest(Saves(db, draft), newest)
  {
    hide Sound, Fair, Coherent, Saves, Sweep, OwnedByDoomed, MayBeLost, Owner, IsNewest;
    var newest := env.newest(Saves(db, draft));
    NewestIsARevision(db, env, draft);
    SoundAt(db, newest, REVISION_DRAFT);
    OwnedWithItsDraft(db, newest);
    OwnedAlike(db, env, newest, draft);
    if OwnedByDoomed(db, env, draft) {
      NothingOfADoomedSurveyRemains(db, env, end, draft);
    }
    TheNewestIsNotLost(db, env, draft, newest);
    ALiveSurveyLosesOnlyThat(db, env, end, newest);
  }

  lemma TheNewestIsNotLost(db: DB, env: Env, draft: Id, newest: Id)
    requires Sound(db) && newest in db && db[newest].table.Revisions? && Refers(db[newest], REVISION_DRAFT, draft)
    requires newest == env.newest(Saves(db, draft))
    ensures !MayBeLost(db, env, newest)
  {
    hide Selected, Sound, Saves;
    NotOfAResponse(db, env, newest);
  }

  // --- the policy -------------------------------------------------------------

  /** What is kept no longer, table by table. */
  ghost predicate PastItsTime(db: DB, env: Env, id: Id)
    requires Sound(db) && id in db
  {
    match db[id].table
    case Users | Workspaces => IsDue(db[id], env)
    case Surveys => id in DoomedIn(db, env)
    case Members => NamesDue(db, env, id, MEMBER_WORKSPACE) || NamesDue(db, env, id, MEMBER_USER)
    case Sessions => NamesDue(db, env, id, SESSION_USER) || db[id].at < env.now
    case MagicLinks => db[id].at < env.now - EXPIRED_TOKEN_GRACE
    case AbuseLog => db[id].at < env.now - ABUSE_LOG_WINDOW
    case Suppressions | BetaCodes => false
    case Usage =>
      (USAGE_SURVEY in db[id].refs && db[id].refs[USAGE_SURVEY] in DoomedIn(db, env)) || NamesDue(db, env, id, USAGE_WORKSPACE)
    case Jobs => NamesDue(db, env, id, JOB_WORKSPACE) || db[id].at < env.now - SOFT_DELETE_WINDOW
    case AccountStyles => NamesDue(db, env, id, STYLE_WORKSPACE)
    case AccountImages => NamesDue(db, env, id, ACCOUNT_IMAGE_WORKSPACE) || IsUnusedAccountImage(db, env, id)
    case _ => OwnedByDoomed(db, env, id) || MayBeLost(db, env, id)
  }

  lemma RemovedAsBefore(db: DB, env: Env, id: Id, n: StepName, t: Table, age: int)
    requires id in db && ActionOf(n) == DeleteRows(Before(t, age))
    ensures Removes(n, db, env, id) <==> db[id].table == t && db[id].at < env.now - age
  {
    hide ActionOf;
  }

  lemma RemovedByTime(db: DB, env: Env, id: Id)
    requires id in db
    ensures Removes(ExpiredMagicLinks, db, env, id) <==> db[id].table.MagicLinks? && db[id].at < env.now - EXPIRED_TOKEN_GRACE
    ensures Removes(ExpiredSessions, db, env, id) <==> db[id].table.Sessions? && db[id].at < env.now
    ensures Removes(OldAbuseLog, db, env, id) <==> db[id].table.AbuseLog? && db[id].at < env.now - ABUSE_LOG_WINDOW
    ensures Removes(OldExportJobs, db, env, id) <==> db[id].table.Jobs? && db[id].at < env.now - SOFT_DELETE_WINDOW
    ensures Removes(UnusedWorkspaceImages, db, env, id) <==> IsUnusedAccountImage(db, env, id)
  {
    hide Removes, IsUnusedAccountImage;
    RemovedAsUnused(db, env, id);
    RemovedAsBefore(db, env, id, ExpiredMagicLinks, MagicLinks, EXPIRED_TOKEN_GRACE);
    RemovedAsBefore(db, env, id, ExpiredSessions, Sessions, 0);
    RemovedAsBefore(db, env, id, OldAbuseLog, AbuseLog, ABUSE_LOG_WINDOW);
    RemovedAsBefore(db, env, id, OldExportJobs, Jobs, SOFT_DELETE_WINDOW);
  }

  lemma RemovedAsUnused(db: DB, env: Env, id: Id)
    requires id in db
    ensures Removes(UnusedWorkspaceImages, db, env, id) <==> IsUnusedAccountImage(db, env, id)
  {
    hide Selected, IsUnusedAccountImage;
    TimedIs(db, UnusedAccountImages, env, id);
  }

  lemma UsageOfDoomedIs(db: DB, env: Env, id: Id)
    requires id in db
    ensures Removes(AiUsageOfDoomedSurveys, db, env, id)
       <==> USAGE_SURVEY in db[id].refs && db[id].refs[USAGE_SURVEY] in DoomedIn(db, env)
  {
    hide Selected, DoomedIn;
    DoomedIs(db, env);
    ViaIs(db, USAGE_SURVEY, Doomed, env, id);
  }

  lemma DueRowsAre(db: DB, env: Env, id: Id)
    requires id in db
    ensures id in DueRows(db, db[id].table, env) <==> IsDue(db[id], env)
  {
  }

  lemma WhatIsRemovedOfAnAccountIsPast(db: DB, env: Env, n: StepName, id: Id)
    requires Sound(db) && id in db && db[id].table in {Jobs, AccountStyles, AccountImages} && Removes(n, db, env, id)
    ensures PastItsTime(db, env, id)
  {
    hide Removes, Sound, DueRows, IsUnusedAccountImage, NamesDue, TableOfStep, OwnedByDoomed, MayBeLost, DoomedIn, IsDue;
    RemovedIsOfItsTable(db, env, n, id);
    StepsOfAccounts(n, db[id].table);
    RemovedAsNaming(db, env, id, ExportJobsOfDeletedWorkspaces, JOB_WORKSPACE);
    RemovedAsNaming(db, env, id, WorkspaceStylesOfDeletedWorkspaces, STYLE_WORKSPACE);
    RemovedAsNaming(db, env, id, WorkspaceImagesOfDeletedWorkspaces, ACCOUNT_IMAGE_WORKSPACE);
    RemovedByTime(db, env, id);
  }

  lemma WhatIsRemovedOfPeopleIsPast(db: DB, env: Env, n: StepName, id: Id)
    requires Sound(db) && id in db && !OfASurvey(db[id].table) && !db[id].table.Surveys? && Removes(n, db, env, id)
    requires db[id].table !in {Jobs, AccountStyles, AccountImages}
    ensures PastItsTime(db, env, id)
  {
    hide Removes, Sound, DueRows, DoomedIn, IsDue, NamesDue, OwnedByDoomed, MayBeLost, TableOfStep, IsUnusedAccountImage;
    RemovedIsOfItsTable(db, env, n, id);
    StepsOfPeoplesTables(n, db[id].table);
    RemovedAsNaming(db, env, id, MembershipsOfDeletedWorkspaces, MEMBER_WORKSPACE);
    RemovedAsNaming(db, env, id, MembershipsOfDeletedUsers, MEMBER_USER);
    RemovedAsNaming(db, env, id, SessionsOfDeletedUsers, SESSION_USER);
    RemovedAsNaming(db, env, id, AiUsageOfDeletedWorkspaces, USAGE_WORKSPACE);
    RemovedByTime(db, env, id);
    UsageOfDoomedIs(db, env, id);
    RemovedAsDue(db, env, id);
    DueRowsAre(db, env, id);
  }

  lemma WhatIsPastIsRemoved(db: DB, env: Env, id: Id) returns (n: StepName)
    requires Sound(db) && id in db && !OfASurvey(db[id].table) && !db[id].table.Surveys? && PastItsTime(db, env, id)
    ensures Removes(n, db, env, id)
  {
    hide Removes, Sound, DueRows, DoomedIn, IsDue, IsUnusedAccountImage, NamesDue, OwnedByDoomed, MayBeLost, TableOfStep, Rank;
    RemovedByTime(db, env, id);
    UsageOfDoomedIs(db, env, id);
    RemovedAsDue(db, env, id);
    DueRowsAre(db, env, id);
    var t := db[id].table;
    if t.Users? {
      n := DeletedUsers;
    } else if t.Workspaces? {
      n := DeletedWorkspaces;
    } else if t.Members? {
      n := if NamesDue(db, env, id, MEMBER_USER) then MembershipsOfDeletedUsers else MembershipsOfDeletedWorkspaces;
      RemovedAsNaming(db, env, id, n, if n.MembershipsOfDeletedUsers? then MEMBER_USER else MEMBER_WORKSPACE);
    } else if t.Sessions? {
      RemovedAsNaming(db, env, id, SessionsOfDeletedUsers, SESSION_USER);
      n := if NamesDue(db, env, id, SESSION_USER) then SessionsOfDeletedUsers else ExpiredSessions;
    } else if t.MagicLinks? {
      n := ExpiredMagicLinks;
    } else if t.AbuseLog? {
      n := OldAbuseLog;
    } else if t.Usage? {
      RemovedAsNaming(db, env, id, AiUsageOfDeletedWorkspaces, USAGE_WORKSPACE);
      n := if NamesDue(db, env, id, USAGE_WORKSPACE) then AiUsageOfDeletedWorkspaces else AiUsageOfDoomedSurveys;
    } else if t.Jobs? {
      RemovedAsNaming(db, env, id, ExportJobsOfDeletedWorkspaces, JOB_WORKSPACE);
      n := if NamesDue(db, env, id, JOB_WORKSPACE) then ExportJobsOfDeletedWorkspaces else OldExportJobs;
    } else if t.AccountStyles? {
      n := WorkspaceStylesOfDeletedWorkspaces;
      RemovedAsNaming(db, env, id, n, STYLE_WORKSPACE);
    } else {
      RemovedAsNaming(db, env, id, WorkspaceImagesOfDeletedWorkspaces, ACCOUNT_IMAGE_WORKSPACE);
      n := if NamesDue(db, env, id, ACCOUNT_IMAGE_WORKSPACE) then WorkspaceImagesOfDeletedWorkspaces else UnusedWorkspaceImages;
    }
  }

  /** The steps that could remove a row outside the surveys are those that would. */
  lemma PeoplesRowsGoOnTime(db: DB, env: Env, id: Id)
    requires Sound(db) && id in db && !OfASurvey(db[id].table) && !db[id].table.Surveys?
    ensures GoneBy(db, env, STEPS, id) <==> PastItsTime(db, env, id)
  {
    hide Removes, Sound, PastItsTime, Rank, OfASurvey;
    if GoneBy(db, env, STEPS, id) {
      var n :| Rank(n) < STEPS && Removes(n, db, env, id);
      if db[id].table in {Jobs, AccountStyles, AccountImages} {
        WhatIsRemovedOfAnAccountIsPast(db, env, n, id);
      } else {
        WhatIsRemovedOfPeopleIsPast(db, env, n, id);
      }
    } else if PastItsTime(db, env, id) {
      var n := WhatIsPastIsRemoved(db, env, id);
      EveryStepIsTaken(n);
    }
  }

  lemma SurveysRowsGoOnTime(db: DB, env: Env, id: Id)
    requires Sound(db) && id in db && (OfASurvey(db[id].table) || db[id].table.Surveys?)
    ensures GoneBy(db, env, STEPS, id) <==> PastItsTime(db, env, id)
  {
    hide Removes, Sound, DoomedIn, MayBeLost, GoneBy, Owner, Rank;
    EveryStepIsTaken(DoomedSurveys);
    if db[id].table.Surveys? {
      SurveysGoWhenDoomed(db, env, STEPS, id);
    } else {
      if GoneBy(db, env, STEPS, id) && !OwnedByDoomed(db, env, id) {
        GoneOfALiveSurveyIsLost(db, env, id);
      }
      if OwnedByDoomed(db, env, id) {
        OwnedGoes(db, env, id);
      } else if MayBeLost(db, env, id) {
        LostIsGone(db, env, id);
      }
    }
  }

  lemma OwnedGoes(db: DB, env: Env, id: Id)
    requires Sound(db) && id in db && OfASurvey(db[id].table) && OwnedByDoomed(db, env, id)
    ensures GoneBy(db, env, STEPS, id)
  {
    hide Removes, Rank, OwnedByDoomed;
    DoomedStepsFollowOwnership(db, env, db[id].table, id);
    EveryStepIsTaken(DoomedStep(db[id].table));
  }

  /** A sweep removes exactly what is past its time: forty steps in order come to one policy, stated of the
      database as the run began. */
  lemma TheSweepRemovesExactlyWhatIsPastItsTime(db: DB, env: Env, end: DB, id: Id)
    requires Sound(db) && Coherent(db) && After(db, Sweep(env), STEPS) == Some(end) && id in db
    ensures id in end <==> !PastItsTime(db, env, id)
    ensures id in end ==> SameButEmptied(db[id], end[id])
  {
    hide Sound, Coherent, StillNamed, Sweep, GoneBy, PastItsTime;
    SweepRunsExactlyWhenNobodyIsStillNamed(db, env, STEPS);
    var now := SweepStands(db, env, STEPS);
    if OfASurvey(db[id].table) || db[id].table.Surveys? {
      SurveysRowsGoOnTime(db, env, id);
    } else {
      PeoplesRowsGoOnTime(db, env, id);
    }
  }

  // --- what changes of what stays ----------------------------------------------

  lemma NamesKeptByDeleting(db: DB, env: Env, n: StepName, q: Select, now: DB, id: Id, r: Ref)
    requires Sound(db) && StandsAfter(db, env, Rank(n), now) && ActionOf(n) == DeleteRows(q) && Closed(db, Gone(db, env, Rank(n)))
    requires Delete(now, Selected(now, q, env)).Some? && id in now && id in Delete(now, Selected(now, q, env)).value
    requires id in db && r in db[id].refs && r in now[id].refs && now[id].refs[r] == db[id].refs[r]
    requires db[id].refs[r] !in DueRows(db, Users, env)
    ensures r in Delete(now, Selected(now, q, env)).value[id].refs
  {
    hide Selected, DueRows, Sound, Rank, Gone, EmptiedBy, Closed, Removed, ActionOf, StandsAfter;
    FindsWhatGoes(db, env, n, q, now);
    SoundAt(db, id, r);
    if db[id].refs[r] in Selected(now, q, env) && EmptiedByDelete(r) {
      PersonRemovedIsDue(db, env, n, db[id].refs[r]);
    }
  }

  lemma NamesKeptByDetaching(db: DB, env: Env, n: StepName, ref: Ref, now: DB, id: Id, r: Ref)
    requires Shrunk(db, now) && id in now && r in now[id].refs && now[id].refs[r] !in DueRows(db, Users, env)
    ensures r in Without(now, ref, DueRows(now, Users, env))[id].refs
  {
    hide DueRows;
    var to := now[id].refs[r];
    if to in DueRows(now, Users, env) {
      OnlyPeopleAreAmongPeople(now, env, to);
      DueLasts(db, now, env, Users, to);
    }
  }

  lemma NamesKeptByAStep(db: DB, env: Env, n: StepName, now: DB, next: DB, id: Id, r: Ref)
    requires Sound(db) && StandsAfter(db, env, Rank(n), now) && Exec(now, ActionOf(n), env) == Some(next)
    requires Closed(db, Gone(db, env, Rank(n)))
    requires id in now && id in next && r in now[id].refs && now[id].refs[r] !in DueRows(db, Users, env)
    ensures r in next[id].refs && next[id].refs[r] == now[id].refs[r]
  {
    hide Selected, DueRows, Sound, Rank, Gone, EmptiedBy, Closed, Delete, Without, Referring, NeverUpdated;
    assert Shrunk(db, now) && SameButEmptied(db[id], now[id]);
    StaysThere(now, ActionOf(n), env, id);
    KeepsValues(now, ActionOf(n), env, id);
    hide ActionOf;
    match ActionOf(n)
    case DeleteRows(q) => NamesKeptByDeleting(db, env, n, q, now, id, r);
    case Empty(ref, q) =>
      EmptyingSteps(n);
      DueIs(now, Users, env);
      NamesKeptByDetaching(db, env, n, ref, now, id, r);
    case DropArchives =>
  }

  lemma KeepsValues(db: DB, a: Action, env: Env, id: Id)
    requires id in db && Exec(db, a, env).Some? && id in Exec(db, a, env).value
    ensures forall r <- Exec(db, a, env).value[id].refs :: r in db[id].refs && Exec(db, a, env).value[id].refs[r] == db[id].refs[r]
  {
    hide Selected;
  }

  /** However far the sweep gets, a row that stays keeps every reference but to the due. */
  lemma {:induction false} NamesAreKept(db: DB, env: Env, k: nat, now: DB, id: Id, r: Ref)
    requires Sound(db) && Coherent(db) && k <= STEPS && !StillNamed(db, env, k)
    requires After(db, Sweep(env), k) == Some(now) && id in now && id in db
    requires r in db[id].refs && db[id].refs[r] !in DueRows(db, Users, env)
    ensures r in now[id].refs && now[id].refs[r] == db[id].refs[r]
  {
    hide Sound, Coherent, StillNamed, DueRows, Rank, ActionOf, Exec, StepAt, Sweep, Closed, Gone, StandsAfter;
    if k > 0 {
      if StillNamed(db, env, k - 1) {
        StoppedByThen(db, env, k - 1, k);
      }
      var before := SweepStands(db, env, k - 1);
      ClosedWhileNobodyIsNamed(db, env, k - 1);
      SweepStep(env, before, k - 1);
      RankOfStep(k - 1);
      StaysThere(before, ActionOf(StepAt(k - 1)), env, id);
      NamesAreKept(db, env, k - 1, before, id, r);
      NamesKeptByAStep(db, env, StepAt(k - 1), before, now, id, r);
    }
  }

  lemma StaysThere(db: DB, a: Action, env: Env, id: Id)
    requires Exec(db, a, env).Some? && id in Exec(db, a, env).value
    ensures id in db
    ensures Exec(db, a, env).value[id] == db[id].(refs := Exec(db, a, env).value[id].refs, archive := Exec(db, a, env).value[id].archive)
    ensures Exec(db, a, env).value[id].archive == (db[id].archive && !(a.DropArchives? && HasExpiredArchive(db[id], env)))
  {
    hide Selected;
  }

  lemma ExpiredAlike(a: Row, b: Row, env: Env)
    requires b == a.(refs := b.refs)
    ensures HasExpiredArchive(a, env) == HasExpiredArchive(b, env)
  {
  }

  lemma {:induction false} ArchivesStayOrExpire(db: DB, env: Env, k: nat, now: DB, id: Id)
    requires After(db, Sweep(env), k) == Some(now) && k <= STEPS && id in now
    ensures id in db && now[id] == db[id].(refs := now[id].refs, archive := now[id].archive)
    ensures now[id].archive == (db[id].archive && !(k > Rank(ExpiredExportArchives) && HasExpiredArchive(db[id], env)))
  {
    hide ActionOf, Exec, StepAt, Sweep, Rank, HasExpiredArchive;
    if k > 0 {
      var before := After(db, Sweep(env), k - 1).value;
      SweepStep(env, before, k - 1);
      StaysThere(before, ActionOf(StepAt(k - 1)), env, id);
      ArchivesStayOrExpire(db, env, k - 1, before, id);
      OneStepDropsAt(k - 1);
      if k - 1 == Rank(ExpiredExportArchives) {
        assert before[id].archive == db[id].archive;
        ExpiredAlike(db[id], before[id], env);
      }
    }
  }

  lemma OneStepDropsAt(k: nat)
    requires k < STEPS
    ensures ActionOf(StepAt(k)).DropArchives? <==> k == Rank(ExpiredExportArchives)
  {
    hide ActionOf;
    RankOfStep(k);
    assert ActionOf(ExpiredExportArchives).DropArchives? by { DroppingStep(); }
    if ActionOf(StepAt(k)).DropArchives? {
      OneStepDrops(StepAt(k));
    }
  }

  lemma OneStepDrops(n: StepName)
    requires ActionOf(n).DropArchives?
    ensures n == ExpiredExportArchives
  {
  }

  lemma DroppingStep()
    ensures ActionOf(ExpiredExportArchives) == DropArchives
  {
  }

  /** A row as a sweep leaves it: naming nobody whose time is up, an expired archive dropped. */
  function AsLeft(db: DB, env: Env, id: Id): Row
    requires id in db
  {
    var due := DueRows(db, Users, env);
    db[id].(refs := map r | r in db[id].refs && db[id].refs[r] !in due :: db[id].refs[r],
            archive := db[id].archive && !HasExpiredArchive(db[id], env))
  }

  lemma TheDueAreNotNamed(db: DB, env: Env, end: DB, id: Id, r: Ref)
    requires Sound(db) && Coherent(db) && After(db, Sweep(env), STEPS) == Some(end) && id in end && r in end[id].refs
    ensures end[id].refs[r] !in DueRows(db, Users, env)
  {
    hide Coherent, Sound, PastItsTime, DueRows, Sweep;
    EveryReferenceStaysWhole(db, env, STEPS);
    SoundAt(end, id, r);
    if end[id].refs[r] in DueRows(db, Users, env) {
      OnlyPeopleAreAmongPeople(db, env, end[id].refs[r]);
      TheSweepRemovesExactlyWhatIsPastItsTime(db, env, end, end[id].refs[r]);
      PeoplePastTheirTime(db, env, end[id].refs[r]);
    }
  }

  lemma PeoplePastTheirTime(db: DB, env: Env, id: Id)
    requires Sound(db) && id in DueRows(db, Users, env)
    ensures id in db && PastItsTime(db, env, id)
  {
    DueRowsAre(db, env, id);
  }

  /** What a sweep leaves it leaves as it was, but that nobody whose time is up is named any more and an
      expired archive is gone. Only drafts, invite codes, accounts and account styles are emptied of a name:
      a row of a table no update is let through on is exactly as it was. */
  lemma WhatStaysIsAsItWas(db: DB, env: Env, end: DB, id: Id)
    requires Sound(db) && Coherent(db) && After(db, Sweep(env), STEPS) == Some(end) && id in end
    ensures id in db && end[id] == AsLeft(db, env, id)
    ensures db[id].table !in {Drafts, BetaCodes, Workspaces, AccountStyles, Jobs} ==> end[id] == db[id]
  {
    hide Sound, Coherent, StillNamed, DueRows, Sweep, HasExpiredArchive, SameButEmptied, PastItsTime;
    SweepRunsExactlyWhenNobodyIsStillNamed(db, env, STEPS);
    ArchivesStayOrExpire(db, env, STEPS, end, id);
    LastStepIsPastArchives();
    KeptRefs(db, env, end, id);
    if db[id].table !in {Drafts, BetaCodes, Workspaces, AccountStyles, Jobs} {
      TheSweepRemovesExactlyWhatIsPastItsTime(db, env, end, id);
      FirmRowsStay(db, end, id);
      NoArchiveOf(db, env, id);
    }
  }

  lemma FirmRowsStay(db: DB, end: DB, id: Id)
    requires Sound(db) && id in db && id in end && SameButEmptied(db[id], end[id])
    requires db[id].table !in {Drafts, BetaCodes, Workspaces, AccountStyles}
    ensures end[id].refs == db[id].refs
  {
    hide Sound, SameButEmptied;
    forall r | r in db[id].refs ensures Firm(r) {
      SoundAt(db, id, r);
    }
    AllFirmStay(db[id], end[id]);
  }

  lemma AllFirmStay(a: Row, b: Row)
    requires SameButEmptied(a, b) && forall r <- a.refs :: Firm(r)
    ensures b.refs == a.refs
  {
  }

  lemma NoArchiveOf(db: DB, env: Env, id: Id)
    requires id in db && !db[id].table.Jobs?
    ensures !HasExpiredArchive(db[id], env)
  {
  }

  lemma LastStepIsPastArchives()
    ensures Rank(ExpiredExportArchives) < STEPS && Rank(DeletedUsers) < STEPS
  {
  }

  lemma KeptRefs(db: DB, env: Env, end: DB, id: Id)
    requires Sound(db) && Coherent(db) && After(db, Sweep(env), STEPS) == Some(end) && id in end && id in db
    requires !StillNamed(db, env, STEPS)
    ensures end[id].refs == AsLeft(db, env, id).refs
  {
    hide Sound, Coherent, StillNamed, DueRows, Sweep, HasExpiredArchive, Rank;
    LastStepIsPastArchives();
    var now := SweepStands(db, env, STEPS);
    RefsOnlyShrink(db, env, end, id);
    forall r ensures r in end[id].refs <==> r in db[id].refs && db[id].refs[r] !in DueRows(db, Users, env) {
      if r in end[id].refs {
        TheDueAreNotNamed(db, env, end, id, r);
      } else if r in db[id].refs && db[id].refs[r] !in DueRows(db, Users, env) {
        NamesAreKept(db, env, STEPS, end, id, r);
      }
    }
    SameRefs(db[id].refs, end[id].refs, DueRows(db, Users, env));
  }

  lemma SameRefs(a: map<Ref, Id>, b: map<Ref, Id>, due: set<Id>)
    requires forall r :: r in b <==> r in a && a[r] !in due
    requires forall r <- b :: r in a && b[r] == a[r]
    ensures b == map r | r in a && a[r] !in due :: a[r]
  {
  }

  lemma RefsOnlyShrink(db: DB, env: Env, end: DB, id: Id)
    requires StandsAfter(db, env, STEPS, end) && id in end
    ensures id in db && forall r <- end[id].refs :: r in db[id].refs && end[id].refs[r] == db[id].refs[r]
  {
    hide Gone, EmptiedBy, DueRows;
    assert SameButEmptied(db[id], end[id]);
  }

  // --- what is counted --------------------------------------------------------

  /** How many rows the deletes among the first k steps affected, or the updates. */
  function Tally(db: DB, env: Env, k: nat, deletes: bool): nat {
    if k == 0 then 0
    else
      Tally(db, env, k - 1, deletes)
      + match After(db, Sweep(env), k - 1)
        case None => 0
        case Some(now) =>
          if SweepAction(k - 1).DeleteRows? == deletes then |Affected(now, SweepAction(k - 1), env)| else 0
  }

  function Sum(counts: seq<nat>): nat {
    if counts == [] then 0 else Sum(counts[..|counts| - 1]) + counts[|counts| - 1]
  }

  lemma DeletesCountWhatGoes(db: DB, dead: set<Id>)
    requires Delete(db, dead).Some? && dead <= db.Keys
    ensures |db| == |Delete(db, dead).value| + |dead|
  {
    var after := Delete(db, dead).value;
    assert after.Keys == db.Keys - dead;
    assert |after.Keys| == |db.Keys| - |dead|;
  }

  lemma StepsCountWhatGoes(db: DB, env: Env, a: Action)
    requires Exec(db, a, env).Some?
    ensures |db| == |Exec(db, a, env).value| + if a.DeleteRows? then |Affected(db, a, env)| else 0
  {
    hide Selected, Delete, Referring, NeverUpdated;
    match a
    case DeleteRows(q) =>
      forall id | id in Selected(db, q, env) ensures id in db {
        SelectedIsThere(db, q, env, id);
      }
      DeletesCountWhatGoes(db, Selected(db, q, env));
    case Empty(_, _) => assert Exec(db, a, env).value.Keys == db.Keys;
    case DropArchives => assert Exec(db, a, env).value.Keys == db.Keys;
  }

  /** What a run reports adds up to the rows it removed and, besides, those it emptied a name of and the
      archives it dropped. */
  lemma {:induction false} TheReportAddsUp(db: DB, env: Env, k: nat)
    requires After(db, Sweep(env), k).Some?
    ensures Sum(CountsAfter(db, Sweep(env), Swept(env), k)) == Tally(db, env, k, true) + Tally(db, env, k, false)
    ensures |After(db, Sweep(env), k).value| + Tally(db, env, k, true) == |db|
  {
    hide Exec, Affected, SweepAction;
    if k > 0 {
      TheReportAddsUp(db, env, k - 1);
      var before := After(db, Sweep(env), k - 1).value;
      StepsCountWhatGoes(before, env, SweepAction(k - 1));
      var counts := CountsAfter(db, Sweep(env), Swept(env), k - 1);
      assert CountsAfter(db, Sweep(env), Swept(env), k)[..|counts|] == counts;
    }
  }
}
