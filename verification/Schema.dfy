/** The database as the purge sees it: rows of tables, the references between them, and what deleting
    rows does to the rows that refer to them. */
module Schema {
  import opened Wrappers

  type Id = nat

  datatype Table =
    | Users | Workspaces | Members | Sessions | MagicLinks | Suppressions | AbuseLog | BetaCodes
    | Surveys | Identities | Drafts | Revisions | Versions | VersionQuestions | Localizations
    | Participants | Responses | AnswerRows | AnswerTranslations | Insights | Stats | DailyStats | Images
    | Usage | Jobs | AccountStyles | AccountImages

  /** A column by which rows of one table refer to rows of another. No table refers to another by two. */
  datatype Ref = Ref(child: Table, parent: Table)

  const MEMBER_WORKSPACE := Ref(Members, Workspaces)
  const MEMBER_USER := Ref(Members, Users)
  const SESSION_USER := Ref(Sessions, Users)
  const CODE_USER := Ref(BetaCodes, Users)
  const SURVEY_WORKSPACE := Ref(Surveys, Workspaces)
  const SURVEY_CREATOR := Ref(Surveys, Users)
  const IDENTITY_SURVEY := Ref(Identities, Surveys)
  const DRAFT_SURVEY := Ref(Drafts, Surveys)
  const DRAFT_UPDATER := Ref(Drafts, Users)
  const REVISION_DRAFT := Ref(Revisions, Drafts)
  const REVISION_SAVER := Ref(Revisions, Users)
  const VERSION_SURVEY := Ref(Versions, Surveys)
  const VERSION_PUBLISHER := Ref(Versions, Users)
  const QUESTION_VERSION := Ref(VersionQuestions, Versions)
  const LOCALIZATION_VERSION := Ref(Localizations, Versions)
  const PARTICIPANT_SURVEY := Ref(Participants, Surveys)
  const RESPONSE_SURVEY := Ref(Responses, Surveys)
  const RESPONSE_PARTICIPANT := Ref(Responses, Participants)
  const ANSWER_RESPONSE := Ref(AnswerRows, Responses)
  const TRANSLATION_ANSWER := Ref(AnswerTranslations, AnswerRows)
  const INSIGHT_SURVEY := Ref(Insights, Surveys)
  const STATS_SURVEY := Ref(Stats, Surveys)
  const DAILY_SURVEY := Ref(DailyStats, Surveys)
  const IMAGE_SURVEY := Ref(Images, Surveys)
  const USAGE_WORKSPACE := Ref(Usage, Workspaces)
  const USAGE_SURVEY := Ref(Usage, Surveys)
  const JOB_WORKSPACE := Ref(Jobs, Workspaces)
  const JOB_REQUESTER := Ref(Jobs, Users)
  const STYLE_WORKSPACE := Ref(AccountStyles, Workspaces)
  const ACCOUNT_IMAGE_WORKSPACE := Ref(AccountImages, Workspaces)

  /** The tables that refer to a table. */
  function ChildrenOf(parent: Table): set<Table> {
    match parent
    case Workspaces => {Members, Surveys, Usage, Jobs, AccountStyles, AccountImages}
    case Users => {Members, Sessions, BetaCodes, Surveys, Workspaces, Drafts, Revisions, Versions, Jobs, AccountStyles}
    case Surveys => {Identities, Drafts, Versions, Participants, Responses, Insights, Stats, DailyStats, Images, Usage}
    case Drafts => {Revisions}
    case Versions => {VersionQuestions, Localizations, Responses}
    case Identities => {VersionQuestions, AnswerRows}
    case VersionQuestions => {Localizations, AnswerRows}
    case Participants => {Responses}
    case Responses => {AnswerRows}
    case AnswerRows => {AnswerTranslations}
    case _ => {}
  }

  predicate InSchema(r: Ref) { r.child in ChildrenOf(r.parent) }

  /** The references the database empties by itself when the row they name is deleted. */
  predicate EmptiedByDelete(r: Ref) { r.parent.Users? && (r.child.Workspaces? || r.child.AccountStyles?) }

  /** The references the purge empties of people whose time is up. */
  predicate Detached(r: Ref) { r.parent.Users? && (r.child.Drafts? || r.child.BetaCodes?) }

  /** The tables a trigger refuses every update of, in a purge too. */
  predicate NeverUpdated(t: Table) {
    t in {Revisions, Versions, VersionQuestions, Localizations, AnswerRows, Insights, Images, AccountImages}
  }

  /** The references nothing ever empties. */
  predicate Firm(r: Ref) { !EmptiedByDelete(r) && !Detached(r) }

  /** A row, with what the purge looks at of it: when it was soft-deleted; its one time of its own (created,
      saved, logged, or when it expires); an export's own expiry and whether its archive is still there; an
      address, in lower case; a picture's hash, and the hashes a style shows. */
  datatype Row = Row(table: Table, refs: map<Ref, Id>, deletedAt: Option<int>, at: int, expires: Option<int>,
                     archive: bool, email: string, hash: string, shows: set<string>)

  type DB = map<Id, Row>

  predicate Refers(row: Row, r: Ref, to: Id) { r in row.refs && row.refs[r] == to }

  /** Every reference is of its table, and names a row there is, of the table it refers to. */
  ghost predicate Sound(db: DB) {
    forall id, r :: id in db && r in db[id].refs ==>
      InSchema(r) && db[id].table == r.child && db[id].refs[r] in db && db[db[id].refs[r]].table == r.parent
  }

  lemma SoundAt(db: DB, id: Id, r: Ref)
    requires Sound(db) && id in db && r in db[id].refs
    ensures InSchema(r) && db[id].table == r.child && db[id].refs[r] in db && db[db[id].refs[r]].table == r.parent
  {
  }

  /** A row that stays refers to one of these by a reference deleting does not empty. */
  predicate Blocks(db: DB, dead: set<Id>, id: Id)
    requires id in db
  {
    id !in dead && exists r <- db[id].refs :: !EmptiedByDelete(r) && db[id].refs[r] in dead
  }

  function Emptied(row: Row, dead: set<Id>): Row {
    row.(refs := map r | r in row.refs && !(EmptiedByDelete(r) && row.refs[r] in dead) :: row.refs[r])
  }

  /** Deletes rows, or is refused because one that stays refers to one of them. */
  function Delete(db: DB, dead: set<Id>): Option<DB> {
    if exists id <- db :: Blocks(db, dead, id) then None
    else Some(map id | id in db && id !in dead :: Emptied(db[id], dead))
  }

  function Referring(db: DB, r: Ref, among: set<Id>): set<Id> {
    set id | id in db && r in db[id].refs && db[id].refs[r] in among
  }

  lemma ReferringIs(db: DB, r: Ref, among: set<Id>, id: Id)
    requires id in db
    ensures id in Referring(db, r, among) <==> r in db[id].refs && db[id].refs[r] in among
  {
  }

  /** The rows with one reference emptied wherever it names one of these. */
  function Without(db: DB, ref: Ref, of: set<Id>): DB {
    map id | id in db ::
      if ref in db[id].refs && db[id].refs[ref] in of then db[id].(refs := db[id].refs - {ref}) else db[id]
  }

  /** Empties one reference wherever it names one of these, or is refused because it does on a row that is
      never updated. */
  function Detach(db: DB, ref: Ref, of: set<Id>): Option<DB> {
    if NeverUpdated(ref.child) && Referring(db, ref, of) != {} then None else Some(Without(db, ref, of))
  }

  /** Deleting keeps every reference that stays whole. */
  lemma DeleteKeepsSound(db: DB, dead: set<Id>)
    requires Sound(db) && Delete(db, dead).Some?
    ensures Sound(Delete(db, dead).value)
  {
    var after := Delete(db, dead).value;
    forall id, r | id in after && r in after[id].refs
      ensures after[id].table == r.child && after[id].refs[r] in after && after[after[id].refs[r]].table == r.parent
    {
      assert !Blocks(db, dead, id);
      assert r in db[id].refs && after[id].refs[r] == db[id].refs[r];
    }
  }

  lemma WithoutKeepsSound(db: DB, ref: Ref, of: set<Id>)
    requires Sound(db)
    ensures Sound(Without(db, ref, of))
  {
    var after := Without(db, ref, of);
    forall id, r | id in after && r in after[id].refs
      ensures InSchema(r) && after[id].table == r.child && after[id].refs[r] in after && after[after[id].refs[r]].table == r.parent
    {
      hide Sound, InSchema;
      assert r in db[id].refs && after[id].refs[r] == db[id].refs[r];
      SoundAt(db, id, r);
    }
  }
}
