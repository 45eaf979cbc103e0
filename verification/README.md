# Verification of Earful's published surveys, and of six smaller cores

Earful lets a creator write a survey, follow an account-wide style or override parts of it, translate both
sides, and publish frozen versions that can be published again when the account changes. This project models
that machine in Dafny and proves what its documentation promises of it, over every run; and, beside it, six
smaller cores with one hard promise each.

Check it with `dafny verify dfyconfig.toml`.

## The main model

| file | what it holds |
|---|---|
| `Text`, `Styles`, `Questions`, `Drafts` | the values: text, styles and their words, questions, the draft, its translations, its gates, the account |
| `StyleForm` | what saving the Style tab promises, and what adopting the account's words keeps |
| `Versions`, `Refreeze`, `Fixpoint`, `Refreshes` | freezing a draft, reading a version back as a draft, freezing it again; when a refresh changes anything |
| `Readings`, `Publishing`, `Runs` | the log of what was saved as reviewed, and the state machine over every run |
| `Applying` | one request to publish again from the account, with other requests' steps between its surveys |
| `WorkingDraft`, `AccountStyles`, `Freezing`, `Store` | the same operations as the source has them: objects updated in place and loops, each proved equal to its value |

A run is any sequence of steps: edits made from any earlier revision of a draft, account saves, publishes,
refreshes, closings, deletions. `Readings` keeps a log with an entry for every wording saved as reviewed: on which
survey's or account's page, in which language, of which source wording, beside which options; the invariant of `Runs` ties every reviewed translation, every account
translation and every word of every published version to it. `Rules` carries the two checks the model takes as
given: which questions a draft accepts and which addresses a link may have.

## The smaller cores

| file | what it holds |
|---|---|
| `Answers`, `ReadOptions` | answers given in a translated form, mapped back to the creator's wording; over every run, which options a translated set was read beside and when it stands for them |
| `XmlText`, `Budget` | the streaming text extractor against a tree semantics, and the budget all parts of a document share |
| `Antibot` | the rate limiter and the single-use set, with sweeping |
| `Admission` | the admission of Style forms: one each, few at once, decodes within a budget of memory |
| `Results` | the fold of results across versions, and the bars of a choice question |
| `Schema`, `Transactions`, `Purge`, `Retention`, `Sweeping`, `Promises`, `Erasure`, `Cases` | the retention sweep as an ordered program over related tables, the erasure of one person, and databases on which they fail |

The sweep is modelled step by step, each step with its own nested selection, over a database of rows with
references; a delete that would leave a reference to a deleted row is refused, an update of a row its table's
trigger keeps immutable is refused, and references declared `ON DELETE SET NULL` are emptied. `Coherent` says of the database what the code that writes it keeps: what a
row of a survey refers to of a survey is of the same survey (an answer's question of its response's survey, a
response's participant of the response's survey, and so on).

## Where the code does not do what is said of it

- Taking parts over unchanged does not always keep a ready language ready. A part with no words takes nothing
  over, so a translation the survey had from words of its own there counts as stale
  (internal/domain/style_choice.go:173-211). `StyleForm.AdoptionKeepsReady` gives the exact condition,
  `StyleForm.WordlessTakeoverMakesReadyLanguageWait` an instance.
- A purged author is meant never to block an erasure, their work being attributed to nobody
  (internal/purge/purge.go:241-243). Versions and revisions refuse every update, purging or not
  (db/migrations/00003_surveys.sql:118-141), so a run that finds a due publisher or saver on one that stays is
  refused at the step meant to empty the name; and the creator of a survey (db/migrations/00003_surveys.sql:24)
  and whoever asked for an export (db/migrations/00012_export_jobs.sql:19) are not detached, so a run that finds
  one of them due is refused at the deletion of people. `Promises.SweepRunsExactlyWhenNobodyIsStillNamed` says
  exactly how far a run gets, `Cases.ANameStopsASweep` and `Cases.ANameStopsAnErasure` give a database for each.
- An erasure is meant to take everything at once (internal/purge/purge.go:348-351). Rows soft-deleted before keep
  their date, so one deleted within the window stays until it is past: `Erasure.ErasureTakesPeopleAndAccounts`,
  `Erasure.ErasureTakesSurveys`, with `Cases.ADeletedPersonOutlivesTheirErasure` and
  `Cases.AKeptAccountOutlivesTheErasure`.
- The total of a report is said to be the rows removed (internal/purge/purge.go:80-87). It also counts rows
  emptied of a name and archives dropped: `Promises.TheReportAddsUp`.
- Four forms at once is explained as two decoding at the largest and two waiting
  (internal/http/styleimages.go:71-77). With the headroom two of the largest do not fit the budget:
  `Admission.TwoOfTheLargestNeverDecodeTogether`.
- A localized option set is said to be served only when complete and in the creator's order
  (internal/http/localizations.go:530-534). The gate compares texts and not options, so options changed or turned
  round under the same text keep the translated set, which then stands for others than it was read for:
  `ReadOptions.OptionsTurnedRound` is a run that ends so, and `ReadOptions.ReplacedOptionsStandExactlyWhen` says
  exactly when a replacement does not.
- A fixed window does not bound a sliding one: fewer than twice the limit, and that is reached
  (`Antibot.AWindowAdmitsFewerThanTwiceTheLimit`, `Antibot.OneFewerThanTwiceTheLimitIsReached`).

## Model

| member | source | states |
|---|---|---|
| `Runs.NothingUnreadIsEverPublished` | internal/domain/style_refresh.go:64-125 | over every run of edits, style-form saves, resets, translation saves (read or drafted), account saves, publishes and refreshes, each question text, thanks word and style word a published version carries in a language was saved as reviewed while exactly the source wording that version shows stood, on that survey's own pages or, of style words, on its own workspace's, or, of thanks and style words, is that wording itself |
| `Runs.EveryVersionReadsBackReady` | internal/domain/style_refresh.go:64-152 | every version of any run, turned back into a draft, has nothing pending of the survey's own in any language, and is ready exactly when the account has no language pending |
| `Runs.RefreshIsOnlyHeldByTheAccount` | internal/store/account_refresh.go:257-268 | for a version of any run a refresh never ends in the unreviewed-translation error: it leaves the version alone, is held by an account language, or publishes exactly the refreeze, which is again a good version |
| `Runs.RefreshOneIs` | internal/store/account_refresh.go:214-290 | over every run one survey's refresh fails only because the account's style changed since it was asked for, and what it publishes is the refreeze of the live version against the account as it stands |
| `Runs.StepKeepsInv` | internal/domain/style_choice.go:108-211 | every step, whatever revision of the draft it was made from, keeps the invariant: distinct identities, settled styles, translations that fit their source, every reviewed wording in the log of readings of its own survey or account, every version read |
| `Runs.RunKeepsInv` | internal/domain/localization.go:119-178 | the invariant holds after any sequence of steps |
| `Runs.EditsKeepOK` | internal/domain/survey.go:80-143 | each edit of a draft keeps the draft's part of the invariant, the log growing only by what the edit saved as reviewed |
| `Publishing.PublishedVersionOK` | internal/store/surveys.go:353-464 | what a publish makes of a good draft and a good account is a good version: well frozen, valid and read throughout |
| `Publishing.RefreshedVersionOK` | internal/store/account_refresh.go:226-290 | so is what a refresh makes of a good version, and neither the survey's gates nor the style's validity can refuse it |
| `Publishing.FrozenIsRead` | internal/domain/style_choice.go:288-321 | a ready draft frozen against an account whose translations are read shows nothing unread: own words read against the survey's style, followed words against the account's |
| `Publishing.ReadBackIsRead` | internal/domain/style_refresh.go:64-125 | a version read back marks as reviewed only what was read: un-freezing fakes no review |
| `Readings.AdoptionFakesNoReading` | internal/domain/style_choice.go:173-211 | adopting the account's words never makes a language reviewed that carries a word not read against its source |
| `StyleForm.AdoptionKeepsReady` | internal/domain/style_choice.go:173-211 | making parts the survey's own without changing their words keeps a ready language ready exactly when the survey had no translation there, or one made from no words in the parts that now have none; otherwise the language waits |
| `StyleForm.WordlessTakeoverMakesReadyLanguageWait` | internal/domain/style_choice.go:173-211 | the excluded case exists: a concrete draft and account where taking over a wordless header unchanged makes a ready language wait |
| `StyleForm.AdoptedIsRead` | internal/domain/style_choice.go:190-209 | adoption leaves a translation reviewed exactly when it was and the account's words taken over are read there |
| `StyleForm.FormShowsWhatWasSubmitted` | internal/domain/style_choice.go:108-159 | after a successful save the form shows every carried part drawn as submitted and every other as before, the switches as given, questions, thanks and languages untouched |
| `StyleForm.FollowedPartsTrackAndOwnPartsDoNot` | internal/domain/style_choice.go:63-159 | from then on a carried part equal to the account's at the save is the account's under every later account style, and one that differed, or was own before, is unaffected by any |
| `StyleForm.ResetFollowsEverything` | internal/domain/style_choice.go:163-165 | after a reset every part is the account's under every account, header and footer shown |
| `StyleForm.CarriedPartsShow` | internal/domain/style_choice.go:113-150 | what carrying a part does to whose it is and to the form under any account, part by part |
| `Refreeze.ReadBackFollowsTheSameParts` | internal/domain/style_refresh.go:64-125 | a version turned into a draft follows exactly the parts the version followed, and against any account resolves to the version's own parts and the account's others |
| `Refreeze.ReadBackPassesTheGatesExactlyWhen` | internal/domain/style_refresh.go:96-125 | exactly when a version read back passes the survey's own gates in a language: its identities say one thing each and what it carries there misses no word |
| `Refreeze.ResolvedWordsAreADisjointUnion` | internal/domain/style_choice.go:223-246 | the words of a resolved style are the disjoint union of the survey's own words and the followed words of the account |
| `Refreeze.ReadyLanguagesShowTheirWords` | internal/domain/style_choice.go:288-321 | when the gate passes, in every language with words to translate the localized style exists, its words are exactly the resolved words, it has a word precisely where the original has one, and theme, name, pictures, addresses and link counts are the original's |
| `Refreeze.ReadyWordsResolve` | internal/domain/style_choice.go:288-305 | in a ready language the resolved words exist, cover and fit the resolved style's words |
| `Fixpoint.PublishingFreezesWell` | internal/store/surveys.go:353-464 | what a publishable draft freezes into is well frozen: settled, labelled, one wording for each identity in every language, words that fit and cover the style's |
| `Fixpoint.WellFrozenReadsBackReady` | internal/domain/style_refresh.go:64-125 | a well-frozen version read back has nothing pending of the survey's own in any language |
| `Fixpoint.PublishedIsUpToDate` | internal/domain/style_refresh.go:142-152 | freezing any ready draft against an account gives a version whose refresh against that account changes nothing and is held by nothing |
| `Fixpoint.RefrozenWordsAreTheSame` | internal/domain/style_refresh.go:195-201 | in each language of a version, reading back and freezing again against the account it was frozen against gives the words it has |
| `Fixpoint.FrozenStyleTranslationsAre` | internal/store/style.go:43-63 | publishing a ready draft freezes in each of its languages exactly the resolved words, and none where the style has none |
| `Refreshes.RefreshKeepsWhatIsTheSurveys` | internal/store/account_refresh.go:257-289 | publishing a version again against any account keeps its questions, their wordings, its thank you page in every language, the parts it follows and every part of its own; only followed parts may differ, and they become the account's |
| `Refreshes.ChangedExactlyWhenARefreshChanges` | internal/domain/style_refresh.go:142-175 | for a version up to date with one account, the cheap comparison of two accounts says changed exactly when a refresh against the second would change it |
| `Refreshes.ListingDecidesAsARefresh` | internal/store/account_refresh.go:295-321 | both tests on the version read without its questions equal the tests on the whole version, for distinct identities |
| `Styles.DrawingAlikeIsAnEquivalence` | internal/domain/style.go:397-444 | drawing alike is an equivalence on styles, and of settled styles it fixes the words |
| `Styles.UnsettledStylesDrawAlikeWithOtherWords` | internal/domain/style.go:113-120 | without settling, styles that draw alike can have different words |
| `Styles.WordedStyleShowsTheTranslation` | internal/domain/style.go:709-738 | a style given words that cover and fit its own shows exactly those words, with a word precisely where it had one, and keeps everything else |
| `Styles.WordsArePartwise` | internal/domain/style.go:601-680 | words are the words of their parts: none belongs to no part or to two |
| `Styles.CoversIsPartwise` | internal/domain/style.go:683-706 | covering is decided part by part |
| `Styles.NewLocalizedStyle` | internal/domain/style.go:807-850 | a stored translation fits its source: no word where the source has none and as many labels, marked as reviewed exactly as asked |
| `Styles.RelabelLinks` | internal/domain/style.go:727-738 | the in-place relabelling gives each link its label, its own where the translation has none, and keeps addresses and count |
| `Styles.FitLabelsTo` | internal/domain/style.go:854-868 | the loop fits a list of labels to the source's count |
| `Questions.FrozenTwiceIsFrozen` | internal/domain/question.go:190-203 | a question frozen, read back and frozen again is the same row, and its effective bounds are those the draft had |
| `Drafts.MovedAt` | internal/domain/survey.go:121-143 | a move takes one question to its clamped place, shifts those between by one and keeps the rest in order |
| `Drafts.MovingBackRestores` | internal/domain/survey.go:121-143 | moving a question and moving it back restores the list |
| `Applying.OneCallOneAccount` | internal/store/account_refresh.go:172-212 | with any steps of others before each survey, every version one call publishes is frozen from the one account style asked about and is up to date with it; a survey already up to date is not published |
| `Applying.RequestsPublishFromTheStyleAskedAbout` | internal/store/account_refresh.go:172-240 | a request naming another workspace's survey, or made about a style since changed, publishes nothing and changes nothing; any other publishes from that one style |
| `Applying.LaterRequestsPublishNothingAgain` | internal/store/account_refresh.go:214-256 | a later request about the same style, whatever went on since, publishes again no survey an earlier one published |
| `Applying.RepeatedAtOnceDoesNothing` | internal/store/account_refresh.go:172-212 | a request that ran to its end, repeated at once, publishes nothing and changes nothing |
| `Applying.ApplyingTouchesNoDraft` | internal/store/account_refresh.go:214-290 | the drafts, accounts and readings after a request are those the others' steps alone would have left |
| `Applying.TitlesNameWhatWentOut` | internal/store/account_refresh.go:190-211 | whatever steps of others go on between the surveys, the titles reported are, one for each version published and in order, those the surveys had when their turn came, and each version is what refreshing the survey came to in the world as it then was |
| `Applying.TitlesNobodyChanges` | internal/store/account_refresh.go:190-211 | where nobody renames a survey named while the request runs, they are the titles the surveys had as it was made |
| `Applying.EachSurveyGainsItsOwn` | internal/store/account_refresh.go:190-211 | with nothing between, each survey gains exactly the versions published for it |
| `Applying.ListedAsARefreshWouldDo` | internal/store/account_refresh.go:64-119 | a survey is listed exactly when refreshing it now would publish it or find it held, and as held by the language that would hold it |
| `Applying.ChangeListsWhatItMadeStale` | internal/store/account_refresh.go:76-119 | asked about one change of the account, the listing names, among surveys up to date before it, those a refresh would change |
| `Applying.StepStaysUpToDate` | internal/store/account_refresh.go:214-290 | whatever anybody does next, a survey up to date with a stamp of the account stays so until that account's style changes |
| `WorkingDrafts.WorkingDraft.Add` | internal/domain/survey.go:80-92 | the draft object after adding a question is the value Add gives, or unchanged with the refusal |
| `WorkingDrafts.WorkingDraft.Replace` | internal/domain/survey.go:94-108 | likewise for replacing a question under its identity |
| `WorkingDrafts.WorkingDraft.Remove` | internal/domain/survey.go:110-119 | likewise for removing one in place |
| `WorkingDrafts.WorkingDraft.Move` | internal/domain/survey.go:121-143 | the two in-place splices are the specified move |
| `WorkingDrafts.WorkingDraft.SetThanks` | internal/domain/thanks.go:144-150 | the thank you page is recorded when valid and refused otherwise |
| `WorkingDrafts.WorkingDraft.AddLanguage` | internal/domain/localization.go:74-91 | a language starts empty, or is refused as invalid, present or one too many |
| `WorkingDrafts.WorkingDraft.RemoveLanguage` | internal/domain/localization.go:93-100 | a language goes with its translations |
| `WorkingDrafts.WorkingDraft.SetTranslation` | internal/domain/localization.go:119-139 | one question's translation is recorded against its current text |
| `WorkingDrafts.WorkingDraft.SetThanksTranslation` | internal/domain/localization.go:223-253 | the thanks translation is recorded against the current page, without words the page does not have |
| `WorkingDrafts.WorkingDraft.SetStyleTranslation` | internal/domain/style.go:788-803 | the style translation is recorded against the survey's own words |
| `WorkingDrafts.WorkingDraft.Pending` | internal/domain/localization.go:145-158 | the loop collects exactly the questions whose translation is missing, unreviewed or of another text, in order |
| `WorkingDrafts.WorkingDraft.ReadyToPublish` | internal/domain/localization.go:166-178 | the two loops over the sorted languages give the gate, the account language named being the first in order |
| `WorkingDrafts.WorkingDraft.SetStyleFromForm` | internal/domain/style_choice.go:108-159 | the draft object after a form save is the specified save, adoption included |
| `WorkingDrafts.WorkingDraft.ResetStyle` | internal/domain/style_choice.go:163-165 | the object is left with no style of its own |
| `WorkingDrafts.WorkingDraft.AdoptStyleTranslations` | internal/domain/style_choice.go:173-211 | the loops over parts and languages take over exactly the account's words still the same |
| `AccountStyles.AccountStyle.SetStyle` | internal/domain/workspace_style.go:30-37 | the account's style is stored settled when valid |
| `AccountStyles.AccountStyle.SetTranslationOf` | internal/domain/workspace_style.go:80-98 | a translation naming the wording it was made from is stored only while that is the account's wording |
| `AccountStyles.AccountStyle.RemoveLanguage` | internal/domain/workspace_style.go:100-106 | a language goes |
| `AccountStyles.TranslationsAreOfTheWordsTheyName` | internal/domain/workspace_style.go:80-126 | a translation saved as reviewed that names its wording is stored against exactly the account's words, and where there are any leaves nothing of the account pending in that language exactly when it covers them |
| `Freezing.WriteThanks` | internal/store/thanks.go:22-43 | the columns hold the page and, for each language that has one, its translation |
| `Freezing.ReadThanks` | internal/store/thanks.go:46-63 | the columns read back |
| `Freezing.ThanksRoundTrip` | internal/store/thanks.go:22-63 | written and read back, the page is the draft's, and so is the page in every language |
| `Freezing.WriteStyle` | internal/store/style.go:43-63 | the style column is absent exactly when nothing is shown or followed, and else holds the resolved style, the words of each language and the followed parts |
| `Freezing.WriteWordings` | internal/store/surveys.go:420-455 | the nested loops store every wording of every known question that has a text, and no other |
| `Freezing.PublishResolved` | internal/store/surveys.go:353-464 | every column written and read back is the frozen version |
| `Freezing.ReadBack` | internal/domain/style_refresh.go:64-125 | the step-by-step read-back builds the specified draft |
| `Freezing.IsDrawnAs` | internal/domain/style_refresh.go:178-192 | the loop with early return decides drawing equality |
| `Freezing.WouldRefresh` | internal/domain/style_refresh.go:142-152 | the refresh answer, from the read-back, the comparison and the gate |
| `Freezing.IsChangedBetween` | internal/domain/style_refresh.go:158-175 | the comparison of two accounts |
| `Stores.Store.RefreshOneSurvey` | internal/store/account_refresh.go:214-290 | one survey's transaction changes the world exactly as specified |
| `Stores.Store.RefreshFromAccountStyle` | internal/store/account_refresh.go:172-212 | the whole request, its loop appending to what was updated and skipped, is the specified request under any steps of others |
| `Stores.Store.StaleSurveys` | internal/store/account_refresh.go:92-119 | the loop lists the stale surveys in the order they were made, each with what holds it |
| `Answers.AcceptedStaysAccepted` | internal/http/localizations.go:538-581 | a submission accepted against the questions as shown is, made canonical, accepted against the creator's exactly when every single-choice question was answered by naming a choice or left empty |
| `Answers.ValidStaysValid` | internal/domain/answer.go:131-205 | the same for one answer, over every question type |
| `Answers.PicksAreStoredAlike` | internal/http/localizations.go:543-577 | picking the same positions in any language that tells its options apart stores the creator's options at those positions; Other and what was written beside it pass through |
| `Answers.PositionIsKept` | internal/http/localizations.go:543-557 | picking position i stores the creator's option i exactly when no earlier shown option reads the same and the option is not read as Other |
| `Answers.CanonicalIsAnOption` | internal/http/localizations.go:543-557 | a choice becomes one of the creator's options exactly when it was shown or is one already |
| `Answers.CanonicalAnswer` | internal/http/localizations.go:538-577 | one answer's choice and choices turned back into the creator's options, the list kept in order and length |
| `Answers.CanonicalAnswers` | internal/http/localizations.go:538-581 | the loops rewrite exactly the answers of shown questions |
| `Answers.EachAnswerGoesItsOwnWay` | internal/http/localizations.go:564-580 | each question's answer is rewritten by its own question; unanswered stays unanswered |
| `Answers.LocalizedQuestions` | internal/store/localizations.go:33-72 | what is shown: the stored wording, and the stored options only when there is one for each of the creator's |
| `Answers.NewOptionsKeepTheOldTranslation` | internal/domain/localization.go:145-158 | new options under an unchanged text leave every language exactly as pending as it was and its stored options in place: the gate does not look at options |
| `ReadOptions.ReplacedOptionsStandExactlyWhen` | internal/domain/localization.go:119-158 | a translated question is replaced: either the gate then holds the language, or picking any option shown of what is published stores the option it was read for, exactly when the text changed, or the number of options did, or the options are the same |
| `ReadOptions.PublishedOptionsWereReadBesideSome` | internal/store/localizations.go:33-72 | over every run, what a version stores of a question in a language was read on that survey's page against the question's text and beside some options, and picking an option shown stores the one it was read for exactly when the question's options are those, or are not as many and the translated set is not served |
| `ReadOptions.OptionsTurnedRound` | internal/http/localizations.go:530-557 | the failing input, as a run: Yes and No, read as Ja and Nee, are turned round under the same text and published, and picking Ja stores No |
| `ReadOptions.StandsExactlyWhenReadBesideThose` | internal/http/localizations.go:538-557 | options served that tell themselves apart stand for those they were read beside exactly when those are the question's own |
| `Answers.Validate` | internal/domain/answer.go:238-251 | every problem at once, each with its question and position |
| `Answers.NoProblemsWhenAccepted` | internal/domain/answer.go:238-251 | no problems exactly when every question accepts its answer |
| `XmlText.TheWalkReadsTheTree` | internal/attach/extract.go:135-182 | on the tokens of any trees, by any rules, the two counters write exactly the text inside collecting elements and outside skipped subtrees, between the marks |
| `XmlText.WalkTokens` | internal/attach/extract.go:135-182 | the token loop writes that text, refused exactly when it passes the limit |
| `XmlText.ReadDocument` | internal/attach/extract.go:26-37 | a document's text, or a refusal exactly when the text of its trees is longer than the limit |
| `XmlText.ReadSlides` | internal/attach/extract.go:200-228 | several parts into one buffer, each closed by a line of its own: their text together, or a refusal exactly when that is longer than the limit |
| `XmlText.OneLineForEachOfTheSlides` | internal/attach/extract.go:200-228 | the text of slides has one line break for each element that ends a line, and one more for each slide |
| `XmlText.OneLineForEachOf` | internal/attach/extract.go:77-106 | where no text breaks a line itself, the text extracted has exactly one line break for each element that ends a line outside every skipped subtree |
| `XmlText.WhatEndsALine` | internal/attach/extract.go:77-106 | the elements that end a line in each of the four vocabularies, and that no other mark does |
| `XmlText.TextOut.Write` | internal/attach/extract.go:31-37 | a text is added whole or refused for passing the limit |
| `Budgets.Budget.Read` | internal/attach/archive.go:169-184 | one read pays for exactly what it hands out; a part that goes on after the budget is spent is refused, one that ends there is not |
| `Budgets.Budget.ReadAll` | internal/attach/archive.go:151-184 | reads of any size at any pace get the whole part, or are refused exactly when it is larger than what is left |
| `Budgets.Budget.ReadDocument` | internal/attach/archive.go:151-184 | the parts of a document together never draw more than the shared budget, and are refused exactly when they are larger |
| `Antibot.AWindowAdmitsFewerThanTwiceTheLimit` | internal/antibot/ratelimit.go:49-76 | under a clock that never goes back, any stretch of one window's length admits fewer than twice the limit of a key, and the answers are those of a limiter that never sweeps |
| `Antibot.OneFewerThanTwiceTheLimitIsReached` | internal/antibot/ratelimit.go:49-67 | that bound is met, under every limit and every window longer than one tick |
| `Antibot.FirstUseExactlyWhenExpired` | internal/antibot/seen.go:30-47 | a call is a first use exactly when every earlier first use of its key is at least the time to live old, however often the set was swept |
| `Antibot.SeenAnswersAsIfNeverSwept` | internal/antibot/seen.go:37-44 | the set answers as one that never sweeps |
| `Antibot.Limiter.Allow` | internal/antibot/ratelimit.go:49-67 | one call on the bucket map is the specified step |
| `Antibot.Limiter.Sweep` | internal/antibot/ratelimit.go:70-76 | the loop removes exactly the expired buckets |
| `Antibot.Seen.FirstUse` | internal/antibot/seen.go:30-47 | one call on the entry map, its sweep included, is the specified step |
| `Admission.FormsAreFewAndGiveEverythingBack` | internal/http/styleimages.go:94-140 | under any interleaving nobody has two forms being handled, the saver set is exactly the people who have one, places and memory out are what the forms hold and within their bounds, and when every form has ended everything is back |
| `Admission.EveryFormCanFinish` | internal/http/styleimages.go:49-140 | from every reachable state there is a way on, with nobody arriving or giving up, to every form having gone |
| `Admission.SomebodyDecodesWhileAnybodyWaits` | internal/http/styleimages.go:275-290 | no state has every form waiting: while one waits, another is decoding |
| `Admission.NobodyIsOvertaken` | internal/http/styleimages.go:275-290 | memory is given in the order it was asked for |
| `Admission.TwoOfTheLargestNeverDecodeTogether` | internal/http/styleimages.go:49-66 | decodes together stay within the budget, so two of the largest are never under way at once |
| `Admission.EventKeepsInv` | internal/http/styleimages.go:100-140 | every event keeps the books, the queue and the rule that its head is one that does not fit |
| `Admission.StyleSavers.Begin` | internal/http/styleimages.go:100-111 | a person's place is taken unless they have it |
| `Admission.StyleSavers.End` | internal/http/styleimages.go:114-118 | the place is given back |
| `Results.SurveyResults` | internal/store/results.go:85-146 | one result for each identity in first-seen order, shaped by its own rows and holding its own answers in order; each response with what it answered |
| `Results.FoldQuestions` | internal/store/results.go:170-211 | the loop over a map of objects updated in place gathers the rows as specified |
| `Results.Entry.Take` | internal/store/results.go:189-208 | a later row wins for the shape, bounds stay where a row has none, a wording is kept unless it repeats the last |
| `Results.OneMoreRow` | internal/store/results.go:189-208 | taking rows one by one gives the last row's type, text, options and flags, the last bounds any row had, the first and last version |
| `Results.SeenInOrder` | internal/store/results.go:171-184 | the order has every identity once, before those that first come later |
| `Results.AnswersAreConserved` | internal/store/results.go:106-136 | the questions together hold every answer once exactly when every answer is to a question some version asked |
| `Results.AnswerLandsWithItsQuestion` | internal/store/results.go:106-126 | each answer is held by the question it is to and by no other |
| `Results.NoWordingTwiceRunning` | internal/store/results.go:204-208 | no wording is listed twice running |
| `Results.WordingsAreTheTexts` | internal/store/results.go:204-208 | no wording is lost and none made up |
| `Results.ChoiceDistribution` | internal/http/results.go:164-209 | a bar for every option, then in alphabetical order for every choice only earlier versions offered, then for Other where offered or chosen, each counting its picks |
| `Results.BarsSumToThePicks` | internal/http/results.go:164-209 | the bars never sum to less than the picks made, and to exactly those if and only if no choice that was picked has two bars |
| `Results.DistinctOptionsSumToThePicks` | internal/http/results.go:164-209 | so they sum to the picks for options as a question's check leaves them, none twice |
| `Promises.SweepRunsExactlyWhenNobodyIsStillNamed` | db/migrations/00003_surveys.sql:118-141 | for every k the first k steps of a sweep run exactly when no row that stays names a person whose time is up so that one of them cannot: a version of a survey not doomed its publisher, from the step that would empty it (internal/purge/purge.go:244-247); a revision of one its saver, from the next (internal/purge/purge.go:248-251); such a survey its creator, or an export of a workspace that stays who asked for it, from the deletion of people (internal/purge/purge.go:268-271) |
| `Promises.WhereASweepStops` | internal/purge/purge.go:241-271 | a sweep stops at a step exactly when a row that stays names a person so that this step cannot run, and none so that an earlier one cannot; nothing is then removed at all |
| `Cases.ANameStopsASweep` | db/migrations/00003_surveys.sql:118-141 | failing inputs: for each of the four names a coherent database in which nobody else is due and nothing is doomed, whose sweep is refused at that name's step |
| `Cases.ANameOnADraftIsEmptied` | internal/purge/purge.go:252-255 | the same name on a draft is emptied: the sweep runs, the person goes, the draft stays without the name |
| `Promises.TheSweepRemovesExactlyWhatIsPastItsTime` | internal/purge/purge.go:140-346 | a sweep removes exactly the rows past their time, by one policy stated table by table of the database as the run began: forty ordered steps come to that policy |
| `Promises.WhatStaysIsAsItWas` | internal/purge/purge.go:241-338 | a row that stays is as it was, but that it names nobody whose time is up and an expired archive is dropped; outside drafts, invite codes, workspaces, account styles and exports it is exactly as it was, versions and revisions included |
| `Promises.EveryReferenceStaysWhole` | internal/purge/purge.go:140-346 | after each step every reference there is names a row there is |
| `Promises.TheDoomedStayTheSame` | internal/purge/purge.go:141-146 | every survey-scoped step finds the same surveys doomed |
| `Promises.NothingOfADoomedSurveyRemains` | internal/purge/purge.go:166-224 | after a sweep nothing that belonged to a doomed survey remains |
| `Promises.ALiveSurveyLosesOnlyThat` | internal/purge/purge.go:148-330 | a survey not doomed stays, and of its rows exactly the separately deleted responses with their answers, old revisions and unused pictures go; the rest are as they were but for names of the due |
| `Promises.EveryDraftKeepsItsNewest` | internal/purge/purge.go:278-291 | every draft that had a revision still has one, its newest |
| `Promises.TheReportAddsUp` | internal/purge/purge.go:70-88 | the counts reported add up to the rows removed and, besides, the rows emptied of a name and the archives dropped |
| `Sweeping.SweepStands` | internal/purge/purge.go:140-346 | where no row that stays names a person so that one of the first k steps cannot run, none is refused, and the database after them is the first one less exactly what they would have removed of it: each step finds what it would have found at first |
| `Retention.ChildGoesFirst` | internal/purge/purge.go:136-140 | children before parents: whatever refers to a row a step removes was removed by an earlier step, but for what names a person as its publisher, saver, creator or requester |
| `Retention.DoomedStepsFollowOwnership` | internal/purge/purge.go:166-224 | each survey-scoped step, by its own nested selection, picks out exactly its table's rows that belong to a doomed survey |
| `Schema.WithoutKeepsSound` | db/migrations/00003_surveys.sql:11-141 | emptying a reference leaves every other reference whole |
| `Schema.DeleteKeepsSound` | db/migrations/00003_surveys.sql:11-100 | a delete that is not refused leaves every reference whole |
| `Purge.RunSweep` | internal/purge/purge.go:92-128 | the run is the steps in order in one transaction, or none of them; a dry run reports the same and keeps the database |
| `Transactions.Run` | internal/purge/purge.go:103-127 | the loop over steps, its counts and its refusal |
| `Erasure.EraseSubject` | internal/purge/purge.go:355-434 | the erasure is its own steps and then the whole sweep, or nothing |
| `Erasure.ErasureRunsExactlyWhenTheSweepDoes` | internal/purge/purge.go:355-434 | up to the sweep an erasure is never refused; from there it goes, step for step, exactly as far as a sweep of the database so prepared, and leaves what that leaves |
| `Cases.ANameStopsAnErasure` | db/migrations/00003_surveys.sql:118-141 | failing inputs: for each of the four names a coherent database in which the erasure of a person so named, who is a member of no account, is refused at that name's step |
| `Cases.ADeletedPersonOutlivesTheirErasure` | internal/purge/purge.go:370-379 | a coherent database in which a person soft-deleted a day ago is still there after their erasure |
| `Cases.AKeptAccountOutlivesTheErasure` | internal/purge/purge.go:376-385 | one in which a workspace and its survey, soft-deleted a day ago, outlive the erasure of the workspace's only member |
| `Erasure.ErasureTakesPeopleAndAccounts` | internal/purge/purge.go:370-379 | a person's user row and workspaces are gone afterwards exactly when they had not been soft-deleted before within the window |
| `Erasure.ErasureTakesSurveys` | internal/purge/purge.go:380-385 | a survey of theirs stays exactly when both it and its workspace had been soft-deleted before within the window |
| `Erasure.ErasureTakesWhatNamesThem` | internal/purge/purge.go:260-268 | memberships and sessions go with the person |
| `Erasure.ErasureTakesWhatIsAddressedToThem` | internal/purge/purge.go:386-410 | their participants, responses, answers and answer translations, suppressions and magic links are gone, whatever was deleted before |

## Left out

- Picture files, image limits, and the holds on pictures taken while a style is saved: of a picture the model keeps its identity, and a picture without one is the one empty picture.
- Which addresses a link may have and which questions a draft accepts: given as `Rules`; lengths, counts and the rest of the validation of styles and thank you pages are modelled.
- The spelling of language codes: languages are taken as already normalised, and their order as that of their characters.
- SQL, JSON and row locks: tables are maps and sequences, a transaction is one step, and the account's `UpdatedAt` is the number of its revisions.
- Runs.StepKeepsInv: a new question's identity is taken as one the draft does not have, since identities are minted.
- Drafts.Draft: paragraphs of a thank you message and other display helpers are not modelled.
- Answers.ValidStaysValid: takes the creator's options as its question's check leaves them, none empty and none spelled like the marker of Other; an option list on a question type that has none is not modelled.
- Answers.NewOptionsKeepTheOldTranslation: speaks of the survey's pending questions only; what is then served and stored is in `ReadOptions`.
- ReadOptions.ReplacedOptionsStandExactlyWhen: of a translation with an option for each of the question's, told apart from one another and from the marker of Other; a set that repeats one is in `Answers.PositionIsKept`.
- Runs.RefreshIsOnlyHeldByTheAccount: the two holds a refresh can end in for pictures, too many of them or one stored nowhere, are not modelled.
- Runs.RefreshOneIs: nor here; and a survey that closes at a date closes by a step of somebody's.
- Applying.ListedAsARefreshWouldDo: the listing's holds for pictures are not modelled.
- Stores.Store.RefreshOneSurvey: leaves out the holds for pictures, and takes closing at a date as a closing.
- Stores.Store.RefreshFromAccountStyle: surveys skipped for their pictures are not modelled.
- Stores.Store.StaleSurveys: holds for pictures are not modelled, and closing at a date is a closing.
- XmlText.ReadDocument: of one part; several are `ReadSlides`, which takes the slides in their numbered order.
- XmlText.WalkTokens: reads well-formed documents; what a malformed one comes to, and worksheets, which are read by another loop, are not modelled.
- Budgets.Part.Read: a decompressor that reports the end together with its last bytes is not modelled.
- Antibot.AWindowAdmitsFewerThanTwiceTheLimit: the clock is taken never to go back; a limiter under one that does is not modelled.
- Admission.After: the semaphore is modelled after its published behaviour (first come, first served); the deadline for reading a body is not.
- Results.SurveyResults: the loops over answers and responses are methods of their own.
- Results.Entry.Take: entries are distinct objects updated in place as in the source; rounding of percentages and the other charts are left out.
- Purge.RunSweep: a step's name in the report is its place in the order; columns the purge does not look at are left out, and composite keys are single ones.
- Purge.Selected: of a style the model keeps the set of hashes it shows at any depth; of several revisions saved at the same moment any may be taken for the newest.
- Erasure.EraseSubject: addresses are held in lower case, and the preview shown before an erasure is not modelled.
- Statuses over time, statistics, exports, insights, email and everything served over HTTP would only add easy members.
