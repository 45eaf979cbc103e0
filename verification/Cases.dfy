/** Databases on which a sweep or an erasure does not do what is said of it. */
module Cases {
  import opened Wrappers
  import opened Schema
  import opened Transactions
  import opened Purge
  import opened Retention
  import opened Sweeping
  import opened Promises
  import opened Erasure

  // --- one name ---------------------------------------------------------------

  /** Two people, 0 and 2, an account, and in it a survey with its draft, published once, and an export. */
  function TableAt(id: Id): Table {
    if id == 0 || id == 2 then Users else if id == 1 then Workspaces else if id == 3 then Surveys
    else if id == 4 then Versions else if id == 5 then Drafts else if id == 6 then Revisions else Jobs
  }

  /** Person 0 is named by one reference, person 2 by every other. */
  function Person(of: Ref, r: Ref): Id { if of == r then 0 else 2 }

  function RefsAt(id: Id, r: Ref): map<Ref, Id> {
    if id == 3 then map[SURVEY_WORKSPACE := 1, SURVEY_CREATOR := Person(SURVEY_CREATOR, r)]
    else if id == 4 then map[VERSION_SURVEY := 3, VERSION_PUBLISHER := Person(VERSION_PUBLISHER, r)]
    else if id == 5 then map[DRAFT_SURVEY := 3, DRAFT_UPDATER := Person(DRAFT_UPDATER, r)]
    else if id == 6 then map[REVISION_DRAFT := 5, REVISION_SAVER := Person(REVISION_SAVER, r)]
    else if id == 7 then map[JOB_WORKSPACE := 1, JOB_REQUESTER := Person(JOB_REQUESTER, r)]
    else map[]
  }

  function OneName(r: Ref, env: Env, deletedAt: Option<int>, email: string): DB {
    map id: Id | 0 <= id < 8 ::
      Row(TableAt(id), RefsAt(id, r), if id == 0 then deletedAt else None, env.now, None, false,
          if id == 0 then email else email + "2", "", {})
  }

  lemma RefsAreWhole(id: Id, r: Ref, other: Ref)
    requires id < 8 && other in RefsAt(id, r)
    ensures InSchema(other) && TableAt(id) == other.child && RefsAt(id, r)[other] < 8 && TableAt(RefsAt(id, r)[other]) == other.parent
  {
  }

  lemma OneNameIsSound(r: Ref, env: Env, deletedAt: Option<int>, email: string)
    ensures Sound(OneName(r, env, deletedAt, email))
  {
    hide TableAt, RefsAt, InSchema;
    forall id: Id, other: Ref | id < 8 && other in RefsAt(id, r)
      ensures InSchema(other) && TableAt(id) == other.child && RefsAt(id, r)[other] < 8 && TableAt(RefsAt(id, r)[other]) == other.parent
    {
      RefsAreWhole(id, r, other);
    }
  }

  lemma OwnersAre(r: Ref, env: Env, deletedAt: Option<int>, email: string, id: Id)
    requires Sound(OneName(r, env, deletedAt, email)) && 3 <= id < 7
    ensures Owner(OneName(r, env, deletedAt, email), id) == Some(3)
  {
    var db := OneName(r, env, deletedAt, email);
    hide Sound;
    assert Owner(db, 3) == Some(3);
    if id == 6 {
      assert Belongs(Revisions) in db[6].refs && db[6].refs[Belongs(Revisions)] == 5;
      assert Belongs(Drafts) in db[5].refs && db[5].refs[Belongs(Drafts)] == 3;
      assert Owner(db, 5) == Some(3);
    } else if id > 3 {
      assert Belongs(db[id].table) in db[id].refs && db[id].refs[Belongs(db[id].table)] == 3;
    }
  }

  lemma OfTheSurvey(id: Id, r: Ref, other: Ref)
    requires id < 8 && other in RefsAt(id, r) && OfASurvey(other.child) && OfASurvey(other.parent)
    ensures 3 <= id < 7 && 3 <= RefsAt(id, r)[other] < 7
  {
  }

  lemma OneNameIsCoherent(r: Ref, env: Env, deletedAt: Option<int>, email: string)
    ensures Sound(OneName(r, env, deletedAt, email)) && Coherent(OneName(r, env, deletedAt, email))
  {
    OneNameIsSound(r, env, deletedAt, email);
    hide TableAt, RefsAt, Owner, OfASurvey;
    var db := OneName(r, env, deletedAt, email);
    forall id, other | id in db && other in db[id].refs && OfASurvey(other.child) && OfASurvey(other.parent)
      ensures Owner(db, id) == Owner(db, db[id].refs[other])
    {
      OfTheSurvey(id, r, other);
      OwnersAre(r, env, deletedAt, email, id);
      OwnersAre(r, env, deletedAt, email, db[id].refs[other]);
    }
  }

  // --- a name that stops a sweep ----------------------------------------------

  function Long(env: Env): Option<int> { Some(env.now - SOFT_DELETE_WINDOW - 1) }

  lemma NothingElseIsDue(r: Ref, env: Env, deletedAt: Option<int>, email: string)
    requires deletedAt.Some? && deletedAt.value < env.now - SOFT_DELETE_WINDOW
    ensures var db := OneName(r, env, deletedAt, email);
            DueRows(db, Users, env) == {0} && DueRows(db, Workspaces, env) == {} && DoomedIn(db, env) == {}
  {
    var db := OneName(r, env, deletedAt, email);
    hide RefsAt;
    assert DueRows(db, Workspaces, env) == {} && DueRows(db, Surveys, env) == {};
    assert 0 in DueRows(db, Users, env);
  }

  lemma OnlyThatNamesPersonZero(id: Id, r: Ref, other: Ref)
    requires id < 8 && other in RefsAt(id, r) && RefsAt(id, r)[other] == 0
    ensures other == r
  {
  }

  /** Who is named so that a step cannot run, here: person 0, where that reference is one such. */
  lemma StoppedOnlyThere(r: Ref, env: Env, deletedAt: Option<int>, email: string, k: nat)
    requires deletedAt.Some? && deletedAt.value < env.now - SOFT_DELETE_WINDOW && Sound(OneName(r, env, deletedAt, email))
    requires Unattended(r) ==> k <= Rank(StopsAt(r))
    ensures !StillNamed(OneName(r, env, deletedAt, email), env, k)
  {
    var db := OneName(r, env, deletedAt, email);
    NothingElseIsDue(r, env, deletedAt, email);
    hide RefsAt, TableAt, DueRows, DoomedIn, Rank, StopsAt, OwnedByDoomed, Selected, Sound;
    forall id, other | id in db && NamesTheDue(db, env, id, other) && Rank(StopsAt(other)) < k ensures false {
      OnlyThatNamesPersonZero(id, r, other);
    }
  }

  function Namer(r: Ref): Id { if r == VERSION_PUBLISHER then 4 else if r == REVISION_SAVER then 6 else if r == SURVEY_CREATOR then 3 else 7 }

  lemma NamerNames(r: Ref)
    requires Unattended(r)
    ensures r in RefsAt(Namer(r), r) && RefsAt(Namer(r), r)[r] == 0
    ensures r == JOB_REQUESTER ==> RefsAt(7, r)[JOB_WORKSPACE] == 1
    ensures r != JOB_REQUESTER ==> 3 <= Namer(r) < 7
  {
  }

  lemma NamedThere(r: Ref, env: Env, deletedAt: Option<int>, email: string) returns (id: Id)
    requires deletedAt.Some? && deletedAt.value < env.now - SOFT_DELETE_WINDOW && Sound(OneName(r, env, deletedAt, email))
    requires Unattended(r)
    ensures id in OneName(r, env, deletedAt, email) && NamesTheDue(OneName(r, env, deletedAt, email), env, id, r)
  {
    var db := OneName(r, env, deletedAt, email);
    id := Namer(r);
    hide DueRows, DoomedIn, Sound, TableAt, RefsAt, Selected, Owner, Unattended;
    NothingElseIsDue(r, env, deletedAt, email);
    NamerNames(r);
    assert id in db && r in db[id].refs && db[id].refs[r] == 0;
    hide OneName;
    if r == JOB_REQUESTER {
      DueIs(db, Workspaces, env);
      ViaIs(db, JOB_WORKSPACE, Due(Workspaces), env, id);
    } else {
      OwnersAre(r, env, deletedAt, email, id);
    }
  }

  /** Each of the four names that stop a sweep stops one: nothing here is due but person 0, and the sweep is
      refused at the step meant to empty the name, or at the deletion of people. */
  lemma ANameStopsASweep(r: Ref, env: Env)
    requires Unattended(r)
    ensures var db := OneName(r, env, Long(env), "");
            && Sound(db) && Coherent(db) && DueRows(db, Users, env) == {0} && DoomedIn(db, env) == {}
            && After(db, Sweep(env), Rank(StopsAt(r))).Some? && After(db, Sweep(env), Rank(StopsAt(r)) + 1).None?
  {
    hide OneName, Sound, Coherent, DueRows, DoomedIn, Sweep, Rank, StopsAt, NamesTheDue, Unattended, StillNamed, After;
    var db := OneName(r, env, Long(env), "");
    OneNameIsCoherent(r, env, Long(env), "");
    NothingElseIsDue(r, env, Long(env), "");
    StoppedOnlyThere(r, env, Long(env), "", Rank(StopsAt(r)));
    var id := NamedThere(r, env, Long(env), "");
    EveryStepIsTaken(StopsAt(r));
    WhereASweepStops(db, env, Rank(StopsAt(r)));
  }

  lemma NoDraftIsLost(db: DB, env: Env, id: Id)
    requires Sound(db) && id in db && db[id].table.Drafts? && DoomedIn(db, env) == {}
    ensures !PastItsTime(db, env, id)
  {
    hide Sound, Owner, DoomedIn, Selected;
    NotOfAResponse(db, env, id);
  }

  lemma AsLeftIs(db: DB, env: Env, draft: Id, survey: Id, user: Id)
    requires draft in db && db[draft].refs == map[DRAFT_SURVEY := survey, DRAFT_UPDATER := user]
    requires user in DueRows(db, Users, env) && survey !in DueRows(db, Users, env)
    ensures AsLeft(db, env, draft).refs == map[DRAFT_SURVEY := survey]
  {
    hide DueRows, HasExpiredArchive;
  }

  lemma SweptOfOneName(db: DB, env: Env, user: Id, draft: Id, survey: Id) returns (end: DB)
    requires Sound(db) && Coherent(db) && !StillNamed(db, env, STEPS) && DueRows(db, Users, env) == {user} && DoomedIn(db, env) == {}
    requires user != draft && user != survey && draft in db && db[draft].table.Drafts?
    requires db[draft].refs == map[DRAFT_SURVEY := survey, DRAFT_UPDATER := user]
    ensures After(db, Sweep(env), STEPS) == Some(end) && user !in end && draft in end
    ensures end[draft].refs == map[DRAFT_SURVEY := survey]
  {
    hide Sound, Coherent, DueRows, DoomedIn, Sweep, StillNamed, PastItsTime, SameButEmptied, AsLeft;
    SweepRunsExactlyWhenNobodyIsStillNamed(db, env, STEPS);
    end := After(db, Sweep(env), STEPS).value;
    PeoplePastTheirTime(db, env, user);
    NoDraftIsLost(db, env, draft);
    TheSweepRemovesExactlyWhatIsPastItsTime(db, env, end, user);
    TheSweepRemovesExactlyWhatIsPastItsTime(db, env, end, draft);
    WhatStaysIsAsItWas(db, env, end, draft);
    AsLeftIs(db, env, draft, survey, user);
  }

  lemma TheDraftAndTheUpdater(env: Env)
    ensures var db := OneName(DRAFT_UPDATER, env, Long(env), "");
            5 in db && db[5].table.Drafts? && db[5].refs == map[DRAFT_SURVEY := 3, DRAFT_UPDATER := 0]
  {
  }

  lemma NotAStop()
    ensures !Unattended(DRAFT_UPDATER)
  {
  }

  lemma ReadyForASweep(env: Env)
    ensures var db := OneName(DRAFT_UPDATER, env, Long(env), "");
      && Sound(db) && Coherent(db) && !StillNamed(db, env, STEPS) && DueRows(db, Users, env) == {0} && DoomedIn(db, env) == {}
  {
    hide OneName, Sound, Coherent, StillNamed, DueRows, DoomedIn, Unattended;
    OneNameIsCoherent(DRAFT_UPDATER, env, Long(env), "");
    NothingElseIsDue(DRAFT_UPDATER, env, Long(env), "");
    NotAStop();
    StoppedOnlyThere(DRAFT_UPDATER, env, Long(env), "", STEPS);
  }

  /** The same name on a draft is emptied and the person goes. */
  lemma ANameOnADraftIsEmptied(env: Env) returns (end: DB)
    ensures var db := OneName(DRAFT_UPDATER, env, Long(env), "");
            Sound(db) && Coherent(db) && After(db, Sweep(env), STEPS) == Some(end)
    ensures 0 !in end && 5 in end && end[5].refs == map[DRAFT_SURVEY := 3]
  {
    hide *;
    ReadyForASweep(env);
    TheDraftAndTheUpdater(env);
    end := SweptOfOneName(OneName(DRAFT_UPDATER, env, Long(env), ""), env, 0, 5, 3);
  }

  // --- an erasure -------------------------------------------------------------

  lemma TheirsIsTheirUserRow(r: Ref, env: Env, deletedAt: Option<int>, email: string)
    ensures Theirs(OneName(r, env, deletedAt, email), email) == {0}
  {
    var db := OneName(r, env, deletedAt, email);
    assert |email + "2"| != |email|;
    assert Addressed(db, Users, email) == {0};
    assert Referring(db, MEMBER_USER, {0}) == {} by { NoneRefer(r, env, deletedAt, email, {0}, MEMBER_USER); }
    assert AccountsOf(db, email) == {};
    assert Referring(db, SURVEY_WORKSPACE, {}) == {};
  }

  lemma NoneRefer(r: Ref, env: Env, deletedAt: Option<int>, email: string, among: set<Id>, other: Ref)
    requires other.child.Members?
    ensures Referring(OneName(r, env, deletedAt, email), other, among) == {}
  {
  }

  lemma DatedOneName(r: Ref, env: Env, deletedAt: Option<int>, email: string, at: int)
    ensures Dated(OneName(r, env, deletedAt, email), {0}, at) == OneName(r, env, if deletedAt.None? then Some(at) else deletedAt, email)
  {
    hide RefsAt, TableAt;
  }

  lemma NothingErased(r: Ref, env: Env, deletedAt: Option<int>, email: string)
    requires Sound(OneName(r, env, deletedAt, email))
    ensures ErasedBefore(OneName(r, env, deletedAt, email), email, ERASE_STEPS) == {}
  {
    var db := OneName(r, env, deletedAt, email);
    hide RefsAt, ErasedBefore, Sound, OfTheParticipant;
    if id :| id in ErasedBefore(db, email, ERASE_STEPS) {
      var j := ErasedByAStep(db, email, ERASE_STEPS, id);
      OfItsTable(db, email, j, id);
    }
  }

  lemma MinusNothing(db: DB)
    ensures Minus(db, {}) == db
  {
  }

  lemma PreparedOneName(r: Ref, env: Env, deletedAt: Option<int>, email: string)
    ensures Prepared(OneName(r, env, deletedAt, email), env, email)
         == OneName(r, env, if deletedAt.None? then Some(Past(env)) else deletedAt, email)
  {
    var at := if deletedAt.None? then Some(Past(env)) else deletedAt;
    TheirsIsTheirUserRow(r, env, deletedAt, email);
    DatedOneName(r, env, deletedAt, email, Past(env));
    OneNameIsSound(r, env, at, email);
    NothingErased(r, env, at, email);
    hide OneName, Theirs, ErasedBefore, Sound, Dated, Minus;
    MinusNothing(OneName(r, env, at, email));
  }

  lemma NamedByThen(db: DB, env: Env, id: Id, r: Ref)
    requires Sound(db) && id in db && NamesTheDue(db, env, id, r)
    ensures StillNamed(db, env, Rank(StopsAt(r)) + 1)
  {
    hide NamesTheDue, Rank, StopsAt, Sound;
  }

  /** An erasure of a person a row names so that a step cannot run is refused there, where they are not of
      the account: nothing of theirs is gone. */
  lemma ANameStopsAnErasure(r: Ref, env: Env, email: string)
    requires Unattended(r)
    ensures var db := OneName(r, env, None, email);
            && Sound(db) && Coherent(db)
            && After(db, Erase(env, email), ERASE_STEPS + Rank(StopsAt(r))).Some?
            && After(db, Erase(env, email), ERASE_STEPS + Rank(StopsAt(r)) + 1).None?
  {
    hide OneName, Sound, Coherent, Erase, Sweep, Rank, StopsAt, NamesTheDue, Unattended, Prepared, After;
    var db, at := OneName(r, env, None, email), Some(Past(env));
    OneNameIsCoherent(r, env, None, email);
    OneNameIsCoherent(r, env, at, email);
    PreparedOneName(r, env, None, email);
    StoppedOnlyThere(r, env, at, email, Rank(StopsAt(r)));
    var id := NamedThere(r, env, at, email);
    NamedByThen(OneName(r, env, at, email), env, id, r);
    hide StillNamed;
    EveryStepIsTaken(StopsAt(r));
    ErasureRunsExactlyWhenTheSweepDoes(db, env, email, Rank(StopsAt(r)));
    ErasureRunsExactlyWhenTheSweepDoes(db, env, email, Rank(StopsAt(r)) + 1);
  }

  lemma DeletedYesterday(env: Env, email: string)
    ensures var db := OneName(DRAFT_UPDATER, env, Some(env.now - DAY), email);
      0 in db && 0 in Addressed(db, Users, email) && KeptBack(db[0], env)
  {
    hide RefsAt;
  }

  /** A person deleted a day ago is still there after their erasure. */
  lemma ADeletedPersonOutlivesTheirErasure(env: Env, email: string) returns (end: DB)
    ensures var db := OneName(DRAFT_UPDATER, env, Some(env.now - DAY), email);
            && Sound(db) && Coherent(db) && 0 in Addressed(db, Users, email)
            && After(db, Erase(env, email), ERASE_STEPS + STEPS) == Some(end) && 0 in end
  {
    hide OneName, Sound, Coherent, Erase, Sweep, StillNamed, Prepared, Addressed, KeptBack, After, AccountsOf;
    var db := OneName(DRAFT_UPDATER, env, Some(env.now - DAY), email);
    OneNameIsCoherent(DRAFT_UPDATER, env, Some(env.now - DAY), email);
    PreparedOneName(DRAFT_UPDATER, env, Some(env.now - DAY), email);
    NobodyIsDue(DRAFT_UPDATER, env, Some(env.now - DAY), email);
    DeletedYesterday(env, email);
    ErasureRunsExactlyWhenTheSweepDoes(db, env, email, STEPS);
    end := After(db, Erase(env, email), ERASE_STEPS + STEPS).value;
    ErasureTakesPeopleAndAccounts(db, env, email, end, 0);
  }

  lemma NobodyIsDue(r: Ref, env: Env, deletedAt: Option<int>, email: string)
    requires deletedAt.Some? && deletedAt.value >= env.now - SOFT_DELETE_WINDOW && Sound(OneName(r, env, deletedAt, email))
    ensures !StillNamed(OneName(r, env, deletedAt, email), env, STEPS)
  {
    var db := OneName(r, env, deletedAt, email);
    assert DueRows(db, Users, env) == {} by { hide RefsAt; }
    hide OneName, Sound, DueRows, Selected, OwnedByDoomed, Unattended;
  }

  /** Person 0 alone in an account deleted a day ago, with a survey that person 2 made there. */
  function KeptAccount(env: Env, email: string): DB {
    var yesterday := Some(env.now - DAY);
    map[0 := Row(Users, map[], None, env.now, None, false, email, "", {}),
        1 := Row(Workspaces, map[], yesterday, env.now, None, false, "", "", {}),
        2 := Row(Users, map[], None, env.now, None, false, email + "2", "", {}),
        3 := Row(Surveys, map[SURVEY_WORKSPACE := 1, SURVEY_CREATOR := 2], yesterday, env.now, None, false, "", "", {}),
        4 := Row(Members, map[MEMBER_WORKSPACE := 1, MEMBER_USER := 0], None, env.now, None, false, "", "", {})]
  }

  lemma KeptAccountsRefs(env: Env, email: string, id: Id, r: Ref)
    requires id in KeptAccount(env, email) && r in KeptAccount(env, email)[id].refs
    ensures var db := KeptAccount(env, email);
            && InSchema(r) && db[id].table == r.child && db[id].refs[r] in db && db[db[id].refs[r]].table == r.parent
            && !OfASurvey(r.child)
  {
  }

  lemma KeptAccountIsSound(env: Env, email: string)
    ensures Sound(KeptAccount(env, email)) && Coherent(KeptAccount(env, email))
  {
    hide KeptAccount, InSchema, OfASurvey, Owner;
    forall id, r | id in KeptAccount(env, email) && r in KeptAccount(env, email)[id].refs
      ensures !OfASurvey(r.child) && InSchema(r) && KeptAccount(env, email)[id].table == r.child
      ensures KeptAccount(env, email)[id].refs[r] in KeptAccount(env, email)
      ensures KeptAccount(env, email)[KeptAccount(env, email)[id].refs[r]].table == r.parent
    {
      KeptAccountsRefs(env, email, id, r);
    }
  }

  lemma PeopleInKeptAccount(env: Env, email: string)
    ensures var db := KeptAccount(env, email);
            && Addressed(db, Users, email) == {0} && Referring(db, MEMBER_USER, {0}) == {4}
            && Referring(db, SURVEY_WORKSPACE, {1}) == {3}
            && MEMBER_WORKSPACE in db[4].refs && db[4].refs[MEMBER_WORKSPACE] == 1
  {
    assert |email + "2"| != |email|;
  }

  lemma TheirsInKeptAccount(env: Env, email: string)
    ensures var db := KeptAccount(env, email);
            && 0 in Addressed(db, Users, email) && AccountsOf(db, email) == {1}
            && 3 in Referring(db, SURVEY_WORKSPACE, AccountsOf(db, email))
            && 2 !in Theirs(db, email)
  {
    PeopleInKeptAccount(env, email);
    hide Addressed, Referring, KeptAccount;
    assert AccountsOf(KeptAccount(env, email), email) == {1};
  }

  lemma NamesInKeptAccount(env: Env, email: string, id: Id, r: Ref)
    requires id in KeptAccount(env, email) && r in KeptAccount(env, email)[id].refs && Unattended(r)
    ensures KeptAccount(env, email)[id].refs[r] == 2
  {
  }

  lemma NamedAreDue(db: DB, env: Env, id: Id, r: Ref)
    requires Sound(db) && id in db && NamesTheDue(db, env, id, r)
    ensures Unattended(r) && r in db[id].refs && db[id].refs[r] in db && db[db[id].refs[r]].deletedAt.Some?
  {
  }

  lemma TheOtherPerson(env: Env, email: string)
    ensures 2 in KeptAccount(env, email) && KeptAccount(env, email)[2].deletedAt.None?
  {
  }

  lemma TheOtherPersonIsNotDated(env: Env, email: string)
    requires Sound(KeptAccount(env, email)) && 2 in Prepared(KeptAccount(env, email), env, email)
    ensures Prepared(KeptAccount(env, email), env, email)[2].deletedAt.None?
  {
    hide *;
    TheirsInKeptAccount(env, email);
    TheOtherPerson(env, email);
    PreparedRows(KeptAccount(env, email), env, email, 2);
  }

  lemma NobodyIsNamedInKeptAccount(env: Env, email: string)
    requires Sound(KeptAccount(env, email)) && Sound(Prepared(KeptAccount(env, email), env, email))
    ensures !StillNamed(Prepared(KeptAccount(env, email), env, email), env, STEPS)
  {
    var db := KeptAccount(env, email);
    var now := Prepared(db, env, email);
    forall id, r | id in now && NamesTheDue(now, env, id, r) ensures false {
      hide *;
      NamedAreDue(now, env, id, r);
      PreparedShape(db, env, email);
      NamesInKeptAccount(env, email, id, r);
      TheOtherPersonIsNotDated(env, email);
    }
  }

  /** The account and its survey outlive the erasure of its only member, who goes. */
  lemma AKeptAccountOutlivesTheErasure(env: Env, email: string) returns (end: DB)
    ensures var db := KeptAccount(env, email);
            && Sound(db) && Coherent(db) && AccountsOf(db, email) == {1}
            && After(db, Erase(env, email), ERASE_STEPS + STEPS) == Some(end) && 0 !in end && 1 in end && 3 in end
  {
    var db := KeptAccount(env, email);
    KeptAccountIsSound(env, email);
    KeptAccountIsTheirs(env, email);
    hide KeptAccount, Sound, Coherent, Erase, Sweep, StillNamed, Prepared, Addressed, After, AccountsOf, KeptBack, Referring;
    ErasureRunsExactlyWhenTheSweepDoes(db, env, email, STEPS);
    NobodyIsNamedInKeptAccount(env, email);
    end := After(db, Erase(env, email), ERASE_STEPS + STEPS).value;
    ErasureTakesPeopleAndAccounts(db, env, email, end, 0);
    ErasureTakesPeopleAndAccounts(db, env, email, end, 1);
    ErasureTakesSurveys(db, env, email, end, 3);
  }

  lemma KeptAccountIsTheirs(env: Env, email: string)
    ensures var db := KeptAccount(env, email);
            && AccountsOf(db, email) == {1} && 0 in db && 1 in db && 3 in db && db[1].table.Workspaces?
            && 0 in Addressed(db, Users, email) && 3 in Referring(db, SURVEY_WORKSPACE, AccountsOf(db, email))
            && !KeptBack(db[0], env) && KeptBack(db[1], env) && KeptBack(db[3], env)
            && SURVEY_WORKSPACE in db[3].refs && db[3].refs[SURVEY_WORKSPACE] == 1
  {
    TheirsInKeptAccount(env, email);
    hide Theirs, Addressed, Referring, AccountsOf;
  }
}
