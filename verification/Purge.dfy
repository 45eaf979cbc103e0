/** The retention sweep: an ordered program of deletes and updates over the tables, in one transaction. */
module Purge {
  import opened Wrappers
  import opened Schema
  import opened Transactions

  const HOUR := 3600
  const DAY := 24 * HOUR
  const SOFT_DELETE_WINDOW := 30 * DAY
  const ABUSE_LOG_WINDOW := 30 * DAY
  const DRAFT_REVISION_WINDOW := 90 * DAY
  const UNUSED_IMAGE_WINDOW := 7 * DAY
  const EXPIRED_TOKEN_GRACE := 24 * HOUR

  /** When a run happens, the surveys and account styles being saved as it does, and which of a draft's
      revisions the database takes for the newest, where several were saved at the same time. */
  datatype Env = Env(now: int, held: set<Id>, newest: map<Id, int> -> Id)

  predicate IsNewest(saves: map<Id, int>, id: Id) {
    id in saves && forall other <- saves :: saves[other] <= saves[id]
  }

  ghost predicate Fair(env: Env) {
    forall saves: map<Id, int> :: saves != map[] ==> IsNewest(saves, env.newest(saves))
  }

  // --- what a step picks out --------------------------------------------------

  datatype Select =
    | Due(table: Table)
    | Doomed
    | Via(ref: Ref, of: Select)
    | Before(table: Table, age: int)
    | OldRevisions
    | UnusedImages
    | UnusedAccountImages

  function TableOf(q: Select): Table {
    match q
    case Due(t) => t
    case Doomed => Surveys
    case Via(r, _) => r.child
    case Before(t, _) => t
    case OldRevisions => Revisions
    case UnusedImages => Images
    case UnusedAccountImages => AccountImages
  }

  predicate IsDue(row: Row, env: Env) {
    row.deletedAt.Some? && row.deletedAt.value < env.now - SOFT_DELETE_WINDOW
  }

  /** When each revision of a draft was saved. */
  function Saves(db: DB, draft: Id): map<Id, int> {
    map id | id in db && db[id].table.Revisions? && Refers(db[id], REVISION_DRAFT, draft) :: db[id].at
  }

  predicate IsOldRevision(db: DB, env: Env, id: Id)
    requires id in db
  {
    && db[id].table.Revisions? && db[id].at < env.now - DRAFT_REVISION_WINDOW && REVISION_DRAFT in db[id].refs
    && var saves := Saves(db, db[id].refs[REVISION_DRAFT]);
       id != env.newest(saves)
  }

  /** Some row, of one table and by one reference, shows a picture. */
  predicate ShownBy(db: DB, table: Table, ref: Ref, of: Id, hash: string) {
    exists id <- db :: db[id].table == table && Refers(db[id], ref, of) && hash in db[id].shows
  }

  predicate IsUnusedImage(db: DB, env: Env, id: Id)
    requires id in db
  {
    && db[id].table.Images? && db[id].at < env.now - UNUSED_IMAGE_WINDOW && IMAGE_SURVEY in db[id].refs
    && var survey := db[id].refs[IMAGE_SURVEY];
       && survey in db && survey !in env.held
       && !ShownBy(db, Versions, VERSION_SURVEY, survey, db[id].hash)
       && !ShownBy(db, Drafts, DRAFT_SURVEY, survey, db[id].hash)
  }

  /** The account has a style, and it is not being saved. */
  predicate HasFreeStyle(db: DB, env: Env, workspace: Id) {
    exists style <- db :: db[style].table.AccountStyles? && Refers(db[style], STYLE_WORKSPACE, workspace) && style !in env.held
  }

  predicate IsUnusedAccountImage(db: DB, env: Env, id: Id)
    requires id in db
  {
    && db[id].table.AccountImages? && db[id].at < env.now - UNUSED_IMAGE_WINDOW && ACCOUNT_IMAGE_WORKSPACE in db[id].refs
    && var workspace := db[id].refs[ACCOUNT_IMAGE_WORKSPACE];
       && HasFreeStyle(db, env, workspace)
       && !ShownBy(db, AccountStyles, STYLE_WORKSPACE, workspace, db[id].hash)
  }

  function DueRows(db: DB, t: Table, env: Env): set<Id> {
    set id | id in db && db[id].table == t && IsDue(db[id], env)
  }

  /** The surveys whose time is up: deleted themselves, or of a workspace that was. */
  function DoomedIn(db: DB, env: Env): set<Id> {
    DueRows(db, Surveys, env) + Referring(db, SURVEY_WORKSPACE, DueRows(db, Workspaces, env))
  }

  function Selected(db: DB, q: Select, env: Env): set<Id> {
    match q
    case Due(t) => DueRows(db, t, env)
    case Doomed => DoomedIn(db, env)
    case Via(r, of) => Referring(db, r, Selected(db, of, env))
    case Before(t, age) => set id | id in db && db[id].table == t && db[id].at < env.now - age
    case OldRevisions => set id | id in db && IsOldRevision(db, env, id)
    case UnusedImages => set id | id in db && IsUnusedImage(db, env, id)
    case UnusedAccountImages => set id | id in db && IsUnusedAccountImage(db, env, id)
  }

  // --- the steps --------------------------------------------------------------

  datatype StepName =
    | AnswerTranslationsOfDeletedResponses | AnswersOfDeletedResponses | DeletedResponses
    | AnswerTranslationsOfDoomedSurveys | AnswersOfDoomedSurveys | ResponsesOfDoomedSurveys | InsightsOfDoomedSurveys
    | LocalizationsOfDoomedSurveys | QuestionsOfDoomedSurveys | VersionsOfDoomedSurveys | ImagesOfDoomedSurveys
    | QuestionIdentitiesOfDoomedSurveys | DraftRevisionsOfDoomedSurveys | DraftsOfDoomedSurveys
    | ParticipantsOfDoomedSurveys | StatsOfDoomedSurveys | DailyStatsOfDoomedSurveys | AiUsageOfDoomedSurveys
    | DoomedSurveys
    | ExportJobsOfDeletedWorkspaces | AiUsageOfDeletedWorkspaces | WorkspaceImagesOfDeletedWorkspaces
    | WorkspaceStylesOfDeletedWorkspaces | MembershipsOfDeletedWorkspaces | DeletedWorkspaces
    | DetachFromVersions | DetachFromRevisions | DetachFromDrafts | DetachFromBetaCodes
    | SessionsOfDeletedUsers | MembershipsOfDeletedUsers | DeletedUsers
    | ExpiredMagicLinks | ExpiredSessions | OldAbuseLog | OldDraftRevisions | UnusedStyleImages | UnusedWorkspaceImages
    | ExpiredExportArchives | OldExportJobs

  const STEPS := 40

  function StepAt(k: nat): StepName
    requires k < STEPS
  {
    if k < 10 then
      if k == 0 then AnswerTranslationsOfDeletedResponses else if k == 1 then AnswersOfDeletedResponses
      else if k == 2 then DeletedResponses else if k == 3 then AnswerTranslationsOfDoomedSurveys
      else if k == 4 then AnswersOfDoomedSurveys else if k == 5 then ResponsesOfDoomedSurveys
      else if k == 6 then InsightsOfDoomedSurveys else if k == 7 then LocalizationsOfDoomedSurveys
      else if k == 8 then QuestionsOfDoomedSurveys else VersionsOfDoomedSurveys
    else if k < 20 then
      if k == 10 then ImagesOfDoomedSurveys else if k == 11 then QuestionIdentitiesOfDoomedSurveys
      else if k == 12 then DraftRevisionsOfDoomedSurveys else if k == 13 then DraftsOfDoomedSurveys
      else if k == 14 then ParticipantsOfDoomedSurveys else if k == 15 then StatsOfDoomedSurveys
      else if k == 16 then DailyStatsOfDoomedSurveys else if k == 17 then AiUsageOfDoomedSurveys
      else if k == 18 then DoomedSurveys else ExportJobsOfDeletedWorkspaces
    else if k < 30 then
      if k == 20 then AiUsageOfDeletedWorkspaces else if k == 21 then WorkspaceImagesOfDeletedWorkspaces
      else if k == 22 then WorkspaceStylesOfDeletedWorkspaces else if k == 23 then MembershipsOfDeletedWorkspaces
      else if k == 24 then DeletedWorkspaces else if k == 25 then DetachFromVersions
      else if k == 26 then DetachFromRevisions else if k == 27 then DetachFromDrafts
      else if k == 28 then DetachFromBetaCodes else SessionsOfDeletedUsers
    else
      if k == 30 then MembershipsOfDeletedUsers else if k == 31 then DeletedUsers
      else if k == 32 then ExpiredMagicLinks else if k == 33 then ExpiredSessions
      else if k == 34 then OldAbuseLog else if k == 35 then OldDraftRevisions
      else if k == 36 then UnusedStyleImages else if k == 37 then UnusedWorkspaceImages
      else if k == 38 then ExpiredExportArchives else OldExportJobs
  }

  function Rank(n: StepName): (k: nat)
    ensures k < STEPS && StepAt(k) == n
  {
    match n
    case AnswerTranslationsOfDeletedResponses => 0
    case AnswersOfDeletedResponses => 1
    case DeletedResponses => 2
    case AnswerTranslationsOfDoomedSurveys => 3
    case AnswersOfDoomedSurveys => 4
    case ResponsesOfDoomedSurveys => 5
    case InsightsOfDoomedSurveys => 6
    case LocalizationsOfDoomedSurveys => 7
    case QuestionsOfDoomedSurveys => 8
    case VersionsOfDoomedSurveys => 9
    case ImagesOfDoomedSurveys => 10
    case QuestionIdentitiesOfDoomedSurveys => 11
    case DraftRevisionsOfDoomedSurveys => 12
    case DraftsOfDoomedSurveys => 13
    case ParticipantsOfDoomedSurveys => 14
    case StatsOfDoomedSurveys => 15
    case DailyStatsOfDoomedSurveys => 16
    case AiUsageOfDoomedSurveys => 17
    case DoomedSurveys => 18
    case ExportJobsOfDeletedWorkspaces => 19
    case AiUsageOfDeletedWorkspaces => 20
    case WorkspaceImagesOfDeletedWorkspaces => 21
    case WorkspaceStylesOfDeletedWorkspaces => 22
    case MembershipsOfDeletedWorkspaces => 23
    case DeletedWorkspaces => 24
    case DetachFromVersions => 25
    case DetachFromRevisions => 26
    case DetachFromDrafts => 27
    case DetachFromBetaCodes => 28
    case SessionsOfDeletedUsers => 29
    case MembershipsOfDeletedUsers => 30
    case DeletedUsers => 31
    case ExpiredMagicLinks => 32
    case ExpiredSessions => 33
    case OldAbuseLog => 34
    case OldDraftRevisions => 35
    case UnusedStyleImages => 36
    case UnusedWorkspaceImages => 37
    case ExpiredExportArchives => 38
    case OldExportJobs => 39
  }

  /** What a step does with the rows it picks out. */
  datatype Action = DeleteRows(q: Select) | Empty(ref: Ref, q: Select) | DropArchives

  /** The table a step deletes rows of, if it deletes any. */
  function TableOfStep(n: StepName): Option<Table> {
    match n
    case AnswerTranslationsOfDeletedResponses | AnswerTranslationsOfDoomedSurveys => Some(AnswerTranslations)
    case AnswersOfDeletedResponses | AnswersOfDoomedSurveys => Some(AnswerRows)
    case DeletedResponses | ResponsesOfDoomedSurveys => Some(Responses)
    case InsightsOfDoomedSurveys => Some(Insights)
    case LocalizationsOfDoomedSurveys => Some(Localizations)
    case QuestionsOfDoomedSurveys => Some(VersionQuestions)
    case VersionsOfDoomedSurveys => Some(Versions)
    case ImagesOfDoomedSurveys | UnusedStyleImages => Some(Images)
    case QuestionIdentitiesOfDoomedSurveys => Some(Identities)
    case DraftRevisionsOfDoomedSurveys | OldDraftRevisions => Some(Revisions)
    case DraftsOfDoomedSurveys => Some(Drafts)
    case ParticipantsOfDoomedSurveys => Some(Participants)
    case StatsOfDoomedSurveys => Some(Stats)
    case DailyStatsOfDoomedSurveys => Some(DailyStats)
    case AiUsageOfDoomedSurveys | AiUsageOfDeletedWorkspaces => Some(Usage)
    case DoomedSurveys => Some(Surveys)
    case ExportJobsOfDeletedWorkspaces | OldExportJobs => Some(Jobs)
    case WorkspaceImagesOfDeletedWorkspaces | UnusedWorkspaceImages => Some(AccountImages)
    case WorkspaceStylesOfDeletedWorkspaces => Some(AccountStyles)
    case MembershipsOfDeletedWorkspaces | MembershipsOfDeletedUsers => Some(Members)
    case DeletedWorkspaces => Some(Workspaces)
    case SessionsOfDeletedUsers | ExpiredSessions => Some(Sessions)
    case DeletedUsers => Some(Users)
    case ExpiredMagicLinks => Some(MagicLinks)
    case OldAbuseLog => Some(AbuseLog)
    case DetachFromVersions | DetachFromRevisions | DetachFromDrafts | DetachFromBetaCodes | ExpiredExportArchives => None
  }

  /** A step deletes rows of its table, or of none. */
  predicate IsOf(a: Action, t: Option<Table>) {
    t == if a.DeleteRows? then Some(TableOf(a.q)) else None
  }

  function ActionOf(n: StepName): (a: Action)
    ensures IsOf(a, TableOfStep(n))
  {
    match n
    case AnswerTranslationsOfDeletedResponses => DeleteRows(Via(TRANSLATION_ANSWER, Via(ANSWER_RESPONSE, Due(Responses))))
    case AnswersOfDeletedResponses => DeleteRows(Via(ANSWER_RESPONSE, Due(Responses)))
    case DeletedResponses => DeleteRows(Due(Responses))
    case AnswerTranslationsOfDoomedSurveys => DeleteRows(Via(TRANSLATION_ANSWER, Via(ANSWER_RESPONSE, Via(RESPONSE_SURVEY, Doomed))))
    case AnswersOfDoomedSurveys => DeleteRows(Via(ANSWER_RESPONSE, Via(RESPONSE_SURVEY, Doomed)))
    case ResponsesOfDoomedSurveys => DeleteRows(Via(RESPONSE_SURVEY, Doomed))
    case InsightsOfDoomedSurveys => DeleteRows(Via(INSIGHT_SURVEY, Doomed))
    case LocalizationsOfDoomedSurveys => DeleteRows(Via(LOCALIZATION_VERSION, Via(VERSION_SURVEY, Doomed)))
    case QuestionsOfDoomedSurveys => DeleteRows(Via(QUESTION_VERSION, Via(VERSION_SURVEY, Doomed)))
    case VersionsOfDoomedSurveys => DeleteRows(Via(VERSION_SURVEY, Doomed))
    case ImagesOfDoomedSurveys => DeleteRows(Via(IMAGE_SURVEY, Doomed))
    case QuestionIdentitiesOfDoomedSurveys => DeleteRows(Via(IDENTITY_SURVEY, Doomed))
    case DraftRevisionsOfDoomedSurveys => DeleteRows(Via(REVISION_DRAFT, Via(DRAFT_SURVEY, Doomed)))
    case DraftsOfDoomedSurveys => DeleteRows(Via(DRAFT_SURVEY, Doomed))
    case ParticipantsOfDoomedSurveys => DeleteRows(Via(PARTICIPANT_SURVEY, Doomed))
    case StatsOfDoomedSurveys => DeleteRows(Via(STATS_SURVEY, Doomed))
    case DailyStatsOfDoomedSurveys => DeleteRows(Via(DAILY_SURVEY, Doomed))
    case AiUsageOfDoomedSurveys => DeleteRows(Via(USAGE_SURVEY, Doomed))
    case DoomedSurveys => DeleteRows(Doomed)
    case ExportJobsOfDeletedWorkspaces => DeleteRows(Via(JOB_WORKSPACE, Due(Workspaces)))
    case AiUsageOfDeletedWorkspaces => DeleteRows(Via(USAGE_WORKSPACE, Due(Workspaces)))
    case WorkspaceImagesOfDeletedWorkspaces => DeleteRows(Via(ACCOUNT_IMAGE_WORKSPACE, Due(Workspaces)))
    case WorkspaceStylesOfDeletedWorkspaces => DeleteRows(Via(STYLE_WORKSPACE, Due(Workspaces)))
    case MembershipsOfDeletedWorkspaces => DeleteRows(Via(MEMBER_WORKSPACE, Due(Workspaces)))
    case DeletedWorkspaces => DeleteRows(Due(Workspaces))
    case DetachFromVersions => Empty(VERSION_PUBLISHER, Due(Users))
    case DetachFromRevisions => Empty(REVISION_SAVER, Due(Users))
    case DetachFromDrafts => Empty(DRAFT_UPDATER, Due(Users))
    case DetachFromBetaCodes => Empty(CODE_USER, Due(Users))
    case SessionsOfDeletedUsers => DeleteRows(Via(SESSION_USER, Due(Users)))
    case MembershipsOfDeletedUsers => DeleteRows(Via(MEMBER_USER, Due(Users)))
    case DeletedUsers => DeleteRows(Due(Users))
    case ExpiredMagicLinks => DeleteRows(Before(MagicLinks, EXPIRED_TOKEN_GRACE))
    case ExpiredSessions => DeleteRows(Before(Sessions, 0))
    case OldAbuseLog => DeleteRows(Before(AbuseLog, ABUSE_LOG_WINDOW))
    case OldDraftRevisions => DeleteRows(OldRevisions)
    case UnusedStyleImages => DeleteRows(UnusedImages)
    case UnusedWorkspaceImages => DeleteRows(UnusedAccountImages)
    case ExpiredExportArchives => DropArchives
    case OldExportJobs => DeleteRows(Before(Jobs, SOFT_DELETE_WINDOW))
  }

  predicate HasExpiredArchive(row: Row, env: Env) {
    row.table.Jobs? && row.archive && row.expires.Some? && row.expires.value < env.now
  }

  /** The rows a step counts as affected. */
  function Affected(db: DB, a: Action, env: Env): set<Id> {
    match a
    case DeleteRows(q) => Selected(db, q, env)
    case Empty(ref, q) => Selected(db, Via(ref, q), env)
    case DropArchives => set id | id in db && HasExpiredArchive(db[id], env)
  }

  function Exec(db: DB, a: Action, env: Env): Option<DB> {
    match a
    case DeleteRows(q) => Delete(db, Selected(db, q, env))
    case Empty(ref, q) => Detach(db, ref, Selected(db, q, env))
    case DropArchives =>
      Some(map id | id in db :: if HasExpiredArchive(db[id], env) then db[id].(archive := false) else db[id])
  }

  // --- the run ----------------------------------------------------------------

  /** The whole sweep, step by step. */
  function SweepAction(k: nat): Action {
    if k < STEPS then ActionOf(StepAt(k)) else DropArchives
  }

  function Sweep(env: Env): Steps<DB> {
    (db: DB, k: nat) => Exec(db, SweepAction(k), env)
  }

  function Swept(env: Env): (DB, nat) -> nat {
    (db: DB, k: nat) => |Affected(db, SweepAction(k), env)|
  }

  /** One sweep of the database, for real or dry. */
  method RunSweep(db: DB, env: Env, dryRun: bool) returns (end: DB, report: Report)
    ensures report.Report? <==> After(db, Sweep(env), STEPS).Some?
    ensures report.Report? ==> report.counts == CountsAfter(db, Sweep(env), Swept(env), STEPS)
    ensures end == if report.Report? && !dryRun then After(db, Sweep(env), STEPS).value else db
  {
    end, report := Run(db, Sweep(env), Swept(env), STEPS, dryRun);
  }
}
