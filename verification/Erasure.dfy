/** Erasing one person now: everything of theirs is dated far enough into the past for the sweep to take it,
    in the same transaction. */
module Erasure {
  import opened Wrappers
  import opened Schema
  import opened Transactions
  import opened Purge
  import opened Retention
  import opened Sweeping
  import opened Promises

  // --- whose it is ------------------------------------------------------------

  /** The rows of a table that carry an address. */
  function Addressed(db: DB, t: Table, email: string): set<Id> {
    set id | id in db && db[id].table == t && db[id].email == email
  }

  /** The accounts a person is a member of. */
  function AccountsOf(db: DB, email: string): set<Id> {
    set m | m in Referring(db, MEMBER_USER, Addressed(db, Users, email)) && MEMBER_WORKSPACE in db[m].refs
      :: db[m].refs[MEMBER_WORKSPACE]
  }

  /** The responses a person gave as an invited participant. */
  function ResponsesOf(db: DB, email: string): set<Id> {
    Referring(db, RESPONSE_PARTICIPANT, Addressed(db, Participants, email))
  }

  /** Some rows dated as deleted then, where they were not deleted already. */
  function Dated(db: DB, ids: set<Id>, at: int): DB {
    map id | id in db :: if id in ids && db[id].deletedAt.None? then db[id].(deletedAt := Some(at)) else db[id]
  }

  function Past(env: Env): int { env.now - SOFT_DELETE_WINDOW - HOUR }

  const ERASE_STEPS := 9

  /** What the erasure does before the sweep. */
  function EraseStep(db: DB, env: Env, email: string, k: nat): Option<DB> {
    if k == 0 then Some(Dated(db, Addressed(db, Users, email), Past(env)))
    else if k == 1 then Some(Dated(db, AccountsOf(db, email), Past(env)))
    else if k == 2 then Some(Dated(db, Referring(db, SURVEY_WORKSPACE, AccountsOf(db, email)), Past(env)))
    else if k == 3 then Delete(db, Referring(db, TRANSLATION_ANSWER, Referring(db, ANSWER_RESPONSE, ResponsesOf(db, email))))
    else if k == 4 then Delete(db, Referring(db, ANSWER_RESPONSE, ResponsesOf(db, email)))
    else if k == 5 then Delete(db, ResponsesOf(db, email))
    else if k == 6 then Delete(db, Addressed(db, Participants, email))
    else if k == 7 then Delete(db, Addressed(db, Suppressions, email))
    else Delete(db, Addressed(db, MagicLinks, email))
  }

  function FirstSteps(env: Env, email: string): Steps<DB> {
    (db: DB, k: nat) => EraseStep(db, env, email, k)
  }

  /** An erasure: those steps, then the whole sweep. */
  function Erase(env: Env, email: string): Steps<DB> {
    Then(FirstSteps(env, email), ERASE_STEPS, Sweep(env))
  }

  /** The rows a step of an erasure affects. */
  function Touched(db: DB, env: Env, email: string, k: nat): set<Id> {
    if k == 0 then NotYetDeleted(db, Addressed(db, Users, email))
    else if k == 1 then NotYetDeleted(db, AccountsOf(db, email))
    else if k == 2 then NotYetDeleted(db, Referring(db, SURVEY_WORKSPACE, AccountsOf(db, email)))
    else if k < ERASE_STEPS then OfTheParticipant(db, email, k)
    else Affected(db, SweepAction(k - ERASE_STEPS), env)
  }

  function NotYetDeleted(db: DB, ids: set<Id>): set<Id> { set id | id in ids && id in db && db[id].deletedAt.None? }

  /** One erasure, in one transaction. */
  method EraseSubject(db: DB, env: Env, email: string) returns (end: DB, report: Report)
    ensures report.Report? <==> After(db, Erase(env, email), ERASE_STEPS + STEPS).Some?
    ensures end == if report.Report? then After(db, Erase(env, email), ERASE_STEPS + STEPS).value else db
  {
    end, report := Run(db, Erase(env, email), (now: DB, k: nat) => |Touched(now, env, email, k)|, ERASE_STEPS + STEPS, false);
  }

  // --- what is prepared for the sweep -----------------------------------------

  function Minus(db: DB, gone: set<Id>): DB { map id | id in db && id !in gone :: db[id] }

  /** Deleting rows nothing refers to takes just them. */
  lemma DeletingLeaves(db: DB, dead: set<Id>)
    requires Sound(db) && forall id, r :: id in db && r in db[id].refs ==> db[id].refs[r] !in dead
    ensures Delete(db, dead) == Some(Minus(db, dead)) && Sound(Minus(db, dead))
  {
    hide Sound;
    forall id | id in db ensures !Blocks(db, dead, id) && Emptied(db[id], dead) == db[id] {
      assert Emptied(db[id], dead).refs == db[id].refs;
    }
    assert Delete(db, dead).value == Minus(db, dead);
    DeleteKeepsSound(db, dead);
  }

  /** What is of the person as a participant, child first. */
  function OfTheParticipant(db: DB, email: string, k: nat): set<Id> {
    if k == 3 then Referring(db, TRANSLATION_ANSWER, Referring(db, ANSWER_RESPONSE, ResponsesOf(db, email)))
    else if k == 4 then Referring(db, ANSWER_RESPONSE, ResponsesOf(db, email))
    else if k == 5 then ResponsesOf(db, email)
    else if k == 6 then Addressed(db, Participants, email)
    else if k == 7 then Addressed(db, Suppressions, email)
    else Addressed(db, MagicLinks, email)
  }

  function TableErased(k: nat): Table {
    if k == 3 then AnswerTranslations else if k == 4 then AnswerRows else if k == 5 then Responses
    else if k == 6 then Participants else if k == 7 then Suppressions else MagicLinks
  }

  /** Everything the steps before the kth delete. */
  function ErasedBefore(db: DB, email: string, k: nat): set<Id>
    requires 3 <= k <= ERASE_STEPS
  {
    if k == 3 then {} else ErasedBefore(db, email, k - 1) + OfTheParticipant(db, email, k - 1)
  }

  lemma OfItsTable(db: DB, email: string, k: nat, id: Id)
    requires Sound(db) && 3 <= k < ERASE_STEPS && id in OfTheParticipant(db, email, k)
    ensures id in db && db[id].table == TableErased(k)
  {
    if k == 3 { SoundAt(db, id, TRANSLATION_ANSWER); }
    if k == 4 { SoundAt(db, id, ANSWER_RESPONSE); }
    if k == 5 { SoundAt(db, id, RESPONSE_PARTICIPANT); }
  }

  lemma ReferencesToTheErased(r: Ref, k: nat)
    requires InSchema(r) && 3 <= k < ERASE_STEPS && r.parent == TableErased(k)
    ensures (k == 4 && r == TRANSLATION_ANSWER) || (k == 5 && r == ANSWER_RESPONSE) || (k == 6 && r == RESPONSE_PARTICIPANT)
  {
  }

  /** Nothing refers to what a step deletes but what the step before it deleted. */
  lemma ReferrersWentBefore(db: DB, email: string, k: nat, id: Id, r: Ref)
    requires Sound(db) && 3 <= k < ERASE_STEPS && id in db && r in db[id].refs && db[id].refs[r] in OfTheParticipant(db, email, k)
    ensures 3 < k && id in OfTheParticipant(db, email, k - 1)
  {
    hide Sound, InSchema, TableErased, ResponsesOf, Addressed;
    SoundAt(db, id, r);
    OfItsTable(db, email, k, db[id].refs[r]);
    ReferencesToTheErased(r, k);
    if k == 6 {
      hide Referring;
      ReferringIs(db, RESPONSE_PARTICIPANT, Addressed(db, Participants, email), id);
      ResponsesAre(db, email);
    }
  }

  lemma ResponsesAre(db: DB, email: string)
    ensures ResponsesOf(db, email) == Referring(db, RESPONSE_PARTICIPANT, Addressed(db, Participants, email))
  {
  }

  lemma {:induction false} ErasedByAStep(db: DB, email: string, k: nat, id: Id) returns (j: nat)
    requires 3 <= k <= ERASE_STEPS && id in ErasedBefore(db, email, k)
    ensures 3 <= j < k && id in OfTheParticipant(db, email, j)
  {
    hide OfTheParticipant;
    if id in OfTheParticipant(db, email, k - 1) {
      j := k - 1;
    } else {
      j := ErasedByAStep(db, email, k - 1, id);
    }
  }

  lemma NotOfALaterTable(db: DB, email: string, k: nat, m: nat)
    requires Sound(db) && 3 <= k <= m < ERASE_STEPS
    ensures forall id <- ErasedBefore(db, email, k) :: id in db ==> db[id].table != TableErased(m)
  {
    hide ErasedBefore, Sound, OfTheParticipant;
    forall id | id in ErasedBefore(db, email, k) && id in db ensures db[id].table != TableErased(m) {
      var j := ErasedByAStep(db, email, k, id);
      OfItsTable(db, email, j, id);
    }
  }

  /** What a table's rows that stay refer to by one reference, among rows that stay. */
  lemma ReferringStays(db: DB, gone: set<Id>, r: Ref, among: set<Id>)
    requires Sound(db) && forall id :: id in gone && id in db ==> db[id].table != r.child
    ensures Referring(Minus(db, gone), r, among) == Referring(db, r, among)
  {
    forall id ensures id in Referring(Minus(db, gone), r, among) <==> id in Referring(db, r, among) {
      if id in Referring(db, r, among) {
        SoundAt(db, id, r);
      }
    }
  }

  lemma AddressedStay(db: DB, gone: set<Id>, t: Table, email: string)
    requires forall id :: id in gone && id in db ==> db[id].table != t
    ensures Addressed(Minus(db, gone), t, email) == Addressed(db, t, email)
  {
  }

  lemma StillFound(db: DB, email: string, k: nat)
    requires Sound(db) && 3 <= k < ERASE_STEPS
    ensures OfTheParticipant(Minus(db, ErasedBefore(db, email, k)), email, k) == OfTheParticipant(db, email, k)
  {
    hide ErasedBefore, Referring, Addressed, Minus, Sound;
    var gone := ErasedBefore(db, email, k);
    if k == 7 {
      NotOfALaterTable(db, email, k, 7);
      AddressedStay(db, gone, Suppressions, email);
    } else if k == 8 {
      NotOfALaterTable(db, email, k, 8);
      AddressedStay(db, gone, MagicLinks, email);
    } else {
      NotOfALaterTable(db, email, k, 6);
      AddressedStay(db, gone, Participants, email);
      if k <= 5 {
        NotOfALaterTable(db, email, k, 5);
        ReferringStays(db, gone, RESPONSE_PARTICIPANT, Addressed(db, Participants, email));
      }
      if k <= 4 {
        NotOfALaterTable(db, email, k, 4);
        ReferringStays(db, gone, ANSWER_RESPONSE, ResponsesOf(db, email));
      }
      if k == 3 {
        NotOfALaterTable(db, email, k, 3);
        ReferringStays(db, gone, TRANSLATION_ANSWER, Referring(db, ANSWER_RESPONSE, ResponsesOf(db, email)));
      }
    }
  }

  lemma EraseStepsDelete(db: DB, env: Env, email: string, k: nat)
    requires 3 <= k < ERASE_STEPS
    ensures EraseStep(db, env, email, k) == Delete(db, OfTheParticipant(db, email, k))
  {
  }

  lemma OneMoreErased(db: DB, env: Env, email: string, k: nat)
    requires Sound(db) && 3 <= k < ERASE_STEPS && Sound(Minus(db, ErasedBefore(db, email, k)))
    ensures EraseStep(Minus(db, ErasedBefore(db, email, k)), env, email, k) == Some(Minus(db, ErasedBefore(db, email, k + 1)))
    ensures Sound(Minus(db, ErasedBefore(db, email, k + 1)))
  {
    var gone, dead := ErasedBefore(db, email, k), OfTheParticipant(db, email, k);
    var now := Minus(db, gone);
    EraseStepsDelete(now, env, email, k);
    StillFound(db, email, k);
    forall id, r | id in now && r in now[id].refs ensures now[id].refs[r] !in dead {
      if now[id].refs[r] in dead {
        ReferrersWentBefore(db, email, k, id, r);
      }
    }
    DeletingLeaves(now, dead);
    assert Minus(now, dead) == Minus(db, gone + dead);
  }

  // --- dating -----------------------------------------------------------------

  /** The people, accounts and surveys an erasure dates. */
  function Theirs(db: DB, email: string): set<Id> {
    Addressed(db, Users, email) + AccountsOf(db, email) + Referring(db, SURVEY_WORKSPACE, AccountsOf(db, email))
  }

  /** b has the rows of a, but for when they were deleted. */
  ghost predicate SameButDates(a: DB, b: DB) {
    a.Keys == b.Keys && forall id <- a :: b[id] == a[id].(deletedAt := b[id].deletedAt)
  }

  lemma SameFound(a: DB, b: DB, r: Ref, among: set<Id>, t: Table, email: string)
    requires SameButDates(a, b)
    ensures Referring(a, r, among) == Referring(b, r, among) && Addressed(a, t, email) == Addressed(b, t, email)
  {
    forall id | id in a ensures a[id].refs == b[id].refs && a[id].table == b[id].table && a[id].email == b[id].email {
      assert b[id] == a[id].(deletedAt := b[id].deletedAt);
    }
  }

  lemma SameAccounts(a: DB, b: DB, email: string)
    requires SameButDates(a, b)
    ensures AccountsOf(a, email) == AccountsOf(b, email)
  {
    SameFound(a, b, MEMBER_USER, Addressed(a, Users, email), Users, email);
    hide Referring, Addressed;
    forall m | m in a ensures a[m].refs == b[m].refs {
      assert b[m] == a[m].(deletedAt := b[m].deletedAt);
    }
    ReferringAreThere(a, MEMBER_USER, Addressed(a, Users, email));
  }

  lemma ReferringAreThere(db: DB, r: Ref, among: set<Id>)
    ensures Referring(db, r, among) <= db.Keys
  {
  }

  lemma DatingKeeps(db: DB, ids: set<Id>, at: int)
    ensures SameButDates(db, Dated(db, ids, at))
  {
  }

  lemma DatedTwice(db: DB, a: set<Id>, b: set<Id>, at: int)
    ensures Dated(Dated(db, a, at), b, at) == Dated(db, a + b, at)
  {
    forall id | id in db ensures Dated(Dated(db, a, at), b, at)[id] == Dated(db, a + b, at)[id] {
    }
  }

  lemma SameButDatesKeepsSound(a: DB, b: DB)
    requires Sound(a) && SameButDates(a, b)
    ensures Sound(b)
  {
    forall id, r | id in b && r in b[id].refs
      ensures InSchema(r) && b[id].table == r.child && b[id].refs[r] in b && b[b[id].refs[r]].table == r.parent
    {
      assert b[id] == a[id].(deletedAt := b[id].deletedAt);
      SoundAt(a, id, r);
      var to := a[id].refs[r];
      assert b[to] == a[to].(deletedAt := b[to].deletedAt);
    }
  }

  lemma FirstStep(env: Env, email: string, db: DB, k: nat)
    ensures FirstSteps(env, email)(db, k) == EraseStep(db, env, email, k)
  {
  }

  /** The three datings together date what was theirs at first. */
  lemma ThreeDatings(db: DB, env: Env, email: string)
    ensures After(db, FirstSteps(env, email), 3) == Some(Dated(db, Theirs(db, email), Past(env)))
  {
    var at := Past(env);
    var people, accounts := Addressed(db, Users, email), AccountsOf(db, email);
    var surveys := Referring(db, SURVEY_WORKSPACE, accounts);
    var one := Dated(db, people, at);
    var two := Dated(one, accounts, at);
    DatingKeeps(db, people, at);
    SameAccounts(db, one, email);
    DatedTwice(db, people, accounts, at);
    DatingKeeps(db, people + accounts, at);
    SameAccounts(db, two, email);
    SameFound(db, two, SURVEY_WORKSPACE, accounts, Users, email);
    DatedTwice(db, people + accounts, surveys, at);
    hide Dated, Addressed, AccountsOf, Referring;
    assert EraseStep(db, env, email, 0) == Some(one);
    assert EraseStep(one, env, email, 1) == Some(two);
    assert EraseStep(two, env, email, 2) == Some(Dated(two, surveys, at));
    hide EraseStep;
    assert After(db, FirstSteps(env, email), 0) == Some(db);
    assert After(db, FirstSteps(env, email), 1) == Some(one);
    assert After(db, FirstSteps(env, email), 2) == Some(two);
  }

  /** The database as the sweep finds it: what is theirs dated, what is of the participant gone. */
  function Prepared(db: DB, env: Env, email: string): DB {
    var dated := Dated(db, Theirs(db, email), Past(env));
    Minus(dated, ErasedBefore(dated, email, ERASE_STEPS))
  }

  lemma {:induction false} ErasedThatFar(db: DB, env: Env, email: string, dated: DB, k: nat)
    requires Sound(dated) && 3 <= k <= ERASE_STEPS && After(db, FirstSteps(env, email), 3) == Some(dated)
    ensures Sound(Minus(dated, ErasedBefore(dated, email, k)))
    ensures After(db, FirstSteps(env, email), k) == Some(Minus(dated, ErasedBefore(dated, email, k)))
  {
    hide Sound, ErasedBefore, Minus, EraseStep, FirstSteps, After;
    if k == 3 {
      NothingErasedYet(dated, email);
    } else {
      var before, after := Minus(dated, ErasedBefore(dated, email, k - 1)), Minus(dated, ErasedBefore(dated, email, k));
      ErasedThatFar(db, env, email, dated, k - 1);
      OneMoreErased(dated, env, email, k - 1);
      FirstStep(env, email, before, k - 1);
      OneMoreStep(db, FirstSteps(env, email), k - 1, before, after);
    }
  }

  lemma NothingErasedYet(db: DB, email: string)
    ensures Minus(db, ErasedBefore(db, email, 3)) == db
  {
  }

  /** Up to the sweep, an erasure is never refused. */
  lemma ErasurePrepares(db: DB, env: Env, email: string)
    requires Sound(db)
    ensures After(db, FirstSteps(env, email), ERASE_STEPS) == Some(Prepared(db, env, email)) && Sound(Prepared(db, env, email))
  {
    hide Sound, Dated, Theirs, EraseStep;
    var dated := Dated(db, Theirs(db, email), Past(env));
    DatingKeeps(db, Theirs(db, email), Past(env));
    SameButDatesKeepsSound(db, dated);
    ThreeDatings(db, env, email);
    ErasedThatFar(db, env, email, dated, ERASE_STEPS);
  }

  // --- what an erasure comes to ------------------------------------------------

  lemma PreparedRows(db: DB, env: Env, email: string, id: Id)
    requires Sound(db) && id in Prepared(db, env, email)
    ensures id in db
    ensures Prepared(db, env, email)[id]
         == db[id].(deletedAt := if id in Theirs(db, email) && db[id].deletedAt.None? then Some(Past(env)) else db[id].deletedAt)
  {
    hide Theirs, ErasedBefore;
  }

  lemma PreparedShape(db: DB, env: Env, email: string)
    requires Sound(db)
    ensures var now := Prepared(db, env, email);
            forall id <- now :: id in db && now[id].refs == db[id].refs && now[id].table == db[id].table
  {
    hide Theirs, ErasedBefore, Sound;
  }

  lemma {:induction false} OwnersStay(db: DB, now: DB, id: Id)
    requires Sound(db) && Sound(now) && id in now
    requires forall x <- now :: x in db && now[x].refs == db[x].refs && now[x].table == db[x].table
    ensures Owner(now, id) == Owner(db, id)
    decreases Depth(db[id].table)
  {
    if OfASurvey(db[id].table) && Belongs(db[id].table) in db[id].refs {
      var r := Belongs(db[id].table);
      SoundAt(now, id, r);
      OwnersStay(db, now, db[id].refs[r]);
    }
  }

  lemma PreparedIsCoherent(db: DB, env: Env, email: string)
    requires Sound(db) && Coherent(db) && Sound(Prepared(db, env, email))
    ensures Coherent(Prepared(db, env, email))
  {
    var now := Prepared(db, env, email);
    PreparedShape(db, env, email);
    hide Prepared, Owner;
    forall id, r | id in now && r in now[id].refs && OfASurvey(r.child) && OfASurvey(r.parent)
      ensures Owner(now, id) == Owner(now, now[id].refs[r])
    {
      SoundAt(now, id, r);
      OwnersStay(db, now, id);
      OwnersStay(db, now, now[id].refs[r]);
    }
  }

  /** An erasure is never refused up to its sweep, and from there goes exactly as far as a sweep of the
      database it has prepared: as long as nobody whose time is up once what is theirs is dated is named by a
      row that stays. */
  lemma ErasureRunsExactlyWhenTheSweepDoes(db: DB, env: Env, email: string, k: nat)
    requires Sound(db) && Coherent(db) && k <= STEPS
    ensures var now := Prepared(db, env, email);
            && Sound(now) && Coherent(now)
            && After(db, Erase(env, email), ERASE_STEPS + k) == After(now, Sweep(env), k)
            && (After(db, Erase(env, email), ERASE_STEPS + k).Some? <==> !StillNamed(now, env, k))
  {
    hide Prepared, Sound, Coherent, StillNamed, Sweep, FirstSteps;
    ErasurePrepares(db, env, email);
    PreparedIsCoherent(db, env, email);
    AfterBoth(db, FirstSteps(env, email), ERASE_STEPS, Sweep(env), k);
    SweepRunsExactlyWhenNobodyIsStillNamed(Prepared(db, env, email), env, k);
  }

  /** Deleted before, and not yet for long enough: what an erasure leaves as it was. */
  predicate KeptBack(row: Row, env: Env) {
    row.deletedAt.Some? && row.deletedAt.value >= env.now - SOFT_DELETE_WINDOW
  }

  lemma TheirsAreDueUnlessKeptBack(db: DB, env: Env, email: string, id: Id)
    requires Sound(db) && id in Theirs(db, email) && id in Prepared(db, env, email)
    ensures id in db && (IsDue(Prepared(db, env, email)[id], env) <==> !KeptBack(db[id], env))
  {
    hide Theirs, Prepared;
    PreparedRows(db, env, email, id);
  }

  lemma UsersGoWhenDue(db: DB, env: Env, id: Id)
    requires Sound(db) && id in db && (db[id].table.Users? || db[id].table.Workspaces?)
    ensures GoneBy(db, env, STEPS, id) <==> IsDue(db[id], env)
  {
    assert id in DueRows(db, db[id].table, env) <==> IsDue(db[id], env);
    hide Removes, DueRows, Sound, TableOfStep, IsDue;
    RemovedAsDue(db, env, id);
    LastStepIsPastPeople();
    assert Rank(DeletedWorkspaces) < STEPS;
    if GoneBy(db, env, STEPS, id) {
      var n :| Rank(n) < STEPS && Removes(n, db, env, id);
      RemovedIsOfItsTable(db, env, n, id);
      StepsOfATable(n, db[id].table);
    }
  }

  /** The person's account and their workspaces are gone after an erasure, but for one that had been deleted
      before and not for long enough yet: dating leaves that as it was, and the sweep does too. */
  lemma ErasureTakesPeopleAndAccounts(db: DB, env: Env, email: string, end: DB, id: Id)
    requires Sound(db) && Coherent(db) && After(db, Erase(env, email), ERASE_STEPS + STEPS) == Some(end)
    requires id in db && (id in Addressed(db, Users, email) || (id in AccountsOf(db, email) && db[id].table.Workspaces?))
    ensures id in end <==> KeptBack(db[id], env)
  {
    var now := Prepared(db, env, email);
    PeopleAreNotErasedDirectly(db, env, email, id);
    assert id in Theirs(db, email);
    hide Prepared, Sound, Coherent, Theirs, Addressed, AccountsOf, Erase, Sweep, StillNamed, KeptBack, IsDue, GoneBy;
    ErasureRunsExactlyWhenTheSweepDoes(db, env, email, STEPS);
    var swept := SweepStands(now, env, STEPS);
    PreparedRows(db, env, email, id);
    TheirsAreDueUnlessKeptBack(db, env, email, id);
    UsersGoWhenDue(now, env, id);
  }

  lemma NotErased(db: DB, email: string, id: Id)
    requires Sound(db) && id in db && db[id].table in {Users, Workspaces, Surveys, Members, Sessions}
    ensures id !in ErasedBefore(db, email, ERASE_STEPS)
  {
    hide ErasedBefore, Sound, OfTheParticipant;
    if id in ErasedBefore(db, email, ERASE_STEPS) {
      var j := ErasedByAStep(db, email, ERASE_STEPS, id);
      OfItsTable(db, email, j, id);
    }
  }

  lemma PeopleAreNotErasedDirectly(db: DB, env: Env, email: string, id: Id)
    requires Sound(db) && id in db && db[id].table in {Users, Workspaces, Surveys, Members, Sessions}
    ensures id in Prepared(db, env, email)
  {
    hide Theirs, Sound, ErasedBefore;
    var dated := Dated(db, Theirs(db, email), Past(env));
    DatingKeeps(db, Theirs(db, email), Past(env));
    SameButDatesKeepsSound(db, dated);
    NotErased(dated, email, id);
  }

  /** A survey of one of their workspaces is gone too, but for one deleted before, not for long enough yet,
      in a workspace deleted before, not for long enough yet. */
  lemma ErasureTakesSurveys(db: DB, env: Env, email: string, end: DB, id: Id)
    requires Sound(db) && Coherent(db) && After(db, Erase(env, email), ERASE_STEPS + STEPS) == Some(end)
    requires id in Referring(db, SURVEY_WORKSPACE, AccountsOf(db, email))
    ensures id in end <==> KeptBack(db[id], env) && KeptBack(db[db[id].refs[SURVEY_WORKSPACE]], env)
  {
    var now, workspace := Prepared(db, env, email), db[id].refs[SURVEY_WORKSPACE];
    SoundAt(db, id, SURVEY_WORKSPACE);
    PeopleAreNotErasedDirectly(db, env, email, id);
    PeopleAreNotErasedDirectly(db, env, email, workspace);
    assert id in Theirs(db, email) && workspace in Theirs(db, email);
    hide Prepared, Sound, Coherent, Theirs, AccountsOf, Referring, Erase, Sweep, StillNamed, KeptBack, IsDue, GoneBy, DoomedIn;
    ErasureRunsExactlyWhenTheSweepDoes(db, env, email, STEPS);
    var swept := SweepStands(now, env, STEPS);
    PreparedRows(db, env, email, id);
    TheirsAreDueUnlessKeptBack(db, env, email, id);
    TheirsAreDueUnlessKeptBack(db, env, email, workspace);
    SurveysGoWhenDoomed(now, env, STEPS, id);
    DoomedByItsWorkspaceOrItself(now, env, id);
  }

  lemma DoomedByItsWorkspaceOrItself(db: DB, env: Env, id: Id)
    requires Sound(db) && id in db && db[id].table.Surveys? && SURVEY_WORKSPACE in db[id].refs
    ensures db[id].refs[SURVEY_WORKSPACE] in db
    ensures id in DoomedIn(db, env) <==> IsDue(db[id], env) || IsDue(db[db[id].refs[SURVEY_WORKSPACE]], env)
  {
    SoundAt(db, id, SURVEY_WORKSPACE);
  }

  lemma ThePersonIsGone(db: DB, env: Env, email: string, user: Id)
    requires Sound(db) && Sound(Prepared(db, env, email)) && user in Addressed(db, Users, email) && !KeptBack(db[user], env)
    ensures user in Prepared(db, env, email) && GoneBy(Prepared(db, env, email), env, STEPS, user)
  {
    PeopleAreNotErasedDirectly(db, env, email, user);
    assert user in Theirs(db, email);
    hide Prepared, Sound, Theirs, Addressed, KeptBack, IsDue, GoneBy;
    TheirsAreDueUnlessKeptBack(db, env, email, user);
    PreparedRows(db, env, email, user);
    UsersGoWhenDue(Prepared(db, env, email), env, user);
  }

  /** What is of a person the erasure takes goes with them: their memberships and sessions. */
  lemma ErasureTakesWhatNamesThem(db: DB, env: Env, email: string, end: DB, id: Id, r: Ref)
    requires Sound(db) && Coherent(db) && After(db, Erase(env, email), ERASE_STEPS + STEPS) == Some(end)
    requires id in db && (r == MEMBER_USER || r == SESSION_USER) && r in db[id].refs
    requires db[id].refs[r] in Addressed(db, Users, email) && !KeptBack(db[db[id].refs[r]], env)
    ensures id !in end
  {
    var now := Prepared(db, env, email);
    hide Prepared, Sound, Coherent, Theirs, Addressed, Erase, Sweep, StillNamed, KeptBack, IsDue, GoneBy, Closed, Gone;
    SoundAt(db, id, r);
    PeopleAreNotErasedDirectly(db, env, email, id);
    ErasureRunsExactlyWhenTheSweepDoes(db, env, email, STEPS);
    var swept := SweepStands(now, env, STEPS);
    PreparedRows(db, env, email, id);
    ThePersonIsGone(db, env, email, db[id].refs[r]);
    ClosedWhileNobodyIsNamed(now, env, STEPS);
    ReferrersOfTheGone(now, env, id, r);
    StandsWithout(now, env, end, id);
  }

  lemma StandsWithout(db: DB, env: Env, end: DB, id: Id)
    requires StandsAfter(db, env, STEPS, end) && GoneBy(db, env, STEPS, id)
    ensures id !in end
  {
    hide GoneBy;
  }

  lemma ReferrersOfTheGone(db: DB, env: Env, id: Id, r: Ref)
    requires Closed(db, Gone(db, env, STEPS)) && id in db && r in db[id].refs && Firm(r)
    requires db[id].refs[r] in db && GoneBy(db, env, STEPS, db[id].refs[r])
    ensures GoneBy(db, env, STEPS, id)
  {
    hide GoneBy, Firm;
    assert db[id].refs[r] in Gone(db, env, STEPS);
  }

  /** Nothing addressed to them as a participant, no response they gave as one with what was answered in it,
      no suppression and no link to sign in with remains, whatever else was deleted before. */
  lemma ErasureTakesWhatIsAddressedToThem(db: DB, env: Env, email: string, end: DB, k: nat, id: Id)
    requires Sound(db) && Coherent(db) && After(db, Erase(env, email), ERASE_STEPS + STEPS) == Some(end)
    requires 3 <= k < ERASE_STEPS && id in OfTheParticipant(db, email, k)
    ensures id !in end
  {
    var now := Prepared(db, env, email);
    ErasedDirectly(db, env, email, k, id);
    hide Prepared, Sound, Coherent, OfTheParticipant, Erase, Sweep, StillNamed, GoneBy;
    ErasureRunsExactlyWhenTheSweepDoes(db, env, email, STEPS);
    var swept := SweepStands(now, env, STEPS);
  }

  lemma ErasedDirectly(db: DB, env: Env, email: string, k: nat, id: Id)
    requires Sound(db) && 3 <= k < ERASE_STEPS && id in OfTheParticipant(db, email, k)
    ensures id !in Prepared(db, env, email)
  {
    var dated := Dated(db, Theirs(db, email), Past(env));
    DatingKeeps(db, Theirs(db, email), Past(env));
    ParticipantFoundAlike(db, dated, email, k);
    hide Dated, Theirs, OfTheParticipant;
    ErasedByThen(dated, email, k, ERASE_STEPS);
  }

  lemma ParticipantFoundAlike(a: DB, b: DB, email: string, k: nat)
    requires SameButDates(a, b)
    ensures OfTheParticipant(a, email, k) == OfTheParticipant(b, email, k)
  {
    hide Referring, Addressed, SameButDates;
    SameFound(a, b, RESPONSE_PARTICIPANT, Addressed(a, Participants, email), Participants, email);
    SameFound(a, b, ANSWER_RESPONSE, ResponsesOf(a, email), Suppressions, email);
    SameFound(a, b, TRANSLATION_ANSWER, Referring(a, ANSWER_RESPONSE, ResponsesOf(a, email)), MagicLinks, email);
  }

  lemma {:induction false} ErasedByThen(db: DB, email: string, k: nat, n: nat)
    requires 3 <= k < n <= ERASE_STEPS
    ensures OfTheParticipant(db, email, k) <= ErasedBefore(db, email, n)
  {
    hide OfTheParticipant;
    if k < n - 1 {
      ErasedByThen(db, email, k, n - 1);
    }
  }
}
