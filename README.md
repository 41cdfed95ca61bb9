# Hackathon judging platform — a Dafny model

The platform lets organisers run hackathon events. Juries score teams
against weighted criteria. Once every jury has locked a score sheet for
every team, the results are published. There are three programs:

- a Django back end (`backend/jury_api`). It stores one score sheet per
  (jury, team) pair, refuses to change a sheet once it is locked, and
  computes results, completion and jury progress.
- an older React client (`src/`) that keeps all its data in the browser's
  local storage.
- a newer React client (`frontend/`) that talks to the back end.

This project models the logic of all three that is not layout: score
sheets and their lock, totals and rankings, the client data stores,
data migration, passage-order scheduling and the spinning wheel, the
spreadsheet import, the admin forms (teams, juries, criteria, events,
password change), the live queue and the public reveal of results.

Values are `datatype`s. Pages and stores whose fields the source updates
in place are `class`es with `modifies` clauses. Loops in the source are
methods with loop invariants, proved against reference functions.

Conventions:

- Scores, weights and maximum scores are exact rationals (`real`).
- Percentages use integer arithmetic. JavaScript's `Math.round` is
  modelled as rounding halves up. Python's `round` is modelled as rounding
  halves to even.
- Every JavaScript and Python sort in the core is one stable insertion
  sort keyed by a sequence of reals in lexicographic order
  (`Sorting.SortByKey`). JavaScript sorts are stable since ES2019, and
  Python's `sort` is stable.
- JavaScript objects used as maps (score maps, comment maps) are
  association lists. They follow spread-update order: an existing key
  keeps its place, a new key goes at the end.
- Randomness (`Math.random`), the clock (`Date.now`, `timezone.now`) and
  the user's choices are parameters of the operations that use them.

Modules, one per source area:

| module | file | models |
|---|---|---|
| `Util`, `ListOps`, `Assoc`, `Sorting` | util.dfy, lists.dfy, assoc.dfy, sorting.dfy | string, list, map and sort primitives of JavaScript and Python |
| `Backend` | backend.dfy | `models.py`, `serializers.py`, `views.py` |
| `ClientTypes` | client_types.dfy | the clients' record shapes |
| `Calculations` | calculations.dfy | both `calculations.ts` |
| `ScoreRules`, `ScorePages` | score_entry.dfy, score_pages.dfy | both `ScoreTeam.tsx` and both `JuryScoring.tsx` |
| `DataStores` | data_stores.dfy | both `DataContext.tsx` |
| `Storage` | storage.dfy | both `storage.ts` |
| `Randomizer`, `SpinningWheel` | randomizer.dfy, spinning_wheel.dfy | `randomizer.ts`, `SpinningWheel.tsx` |
| `ExcelImport` | excel_import.dfy | both `excelImport.ts` |
| `ManageTeams`, `ManageJuries`, `Auth`, `ManageCriteria` | manage_teams.dfy, manage_juries.dfy, auth.dfy, manage_criteria.dfy | the admin pages for teams, juries and criteria, and `auth.ts` |
| `LiveQueue` | live_queue.dfy | `LiveQueue.tsx` |
| `Events` | events.dfy | both `EventDashboard.tsx` and both `EventsList.tsx` |
| `PublicResults` | public_results.dfy | the older client's `PublicResults.tsx` |
| `ChangePassword` | change_password.dfy | `ChangePasswordModal.tsx` |

## Model

| member | source | states |
|---|---|---|
| Backend.GetTotalIgnoresWeights | backend/jury_api/models.py:65-67 | `get_total` is a plain sum. On the weighted test's sheet (10 and 12 under weights 1.0 and 2.5) it yields 22, not the 40 the test expects. |
| Backend.FindCriterion | backend/jury_api/serializers.py:61 | With the key taken as a criterion id written exactly as stored, the lookup finds a criterion iff one has that id, and the one found has it. The source's integer cast of other spellings is not modelled; see "## Left out". |
| Backend.EntryError | backend/jury_api/serializers.py:59-67 | An entry raises nothing iff its criterion exists and 0 ≤ score ≤ max_score. A missing criterion and an out-of-range score raise different errors, never the lock error. |
| Backend.FirstScoreError | backend/jury_api/serializers.py:58-67 | No error iff every submitted entry is acceptable. An error is the one raised by the first bad entry, and every earlier entry is acceptable. |
| Backend.Validate | backend/jury_api/serializers.py:52-69 | A write to a locked instance is refused with "Cannot modify locked scores" before any score is looked at. Otherwise the data passes unchanged iff no score errs. |
| Backend.ValidatedTotalBounds | backend/jury_api/serializers.py:58-65 | Scores that pass validation sum to between 0 and the sum of their criteria's maxima. |
| Backend.CreateStep | backend/jury_api/views.py:109-113 | A jury caller's record always has jury = caller; an admin's has the jury it sent. The create succeeds iff the owner and team are present, their pair is free (unique_together) and every sent score passes validation; each failure is its own error, as an iff: a missing field, a taken pair, an invalid score. Team, scores, `locked` and `submitted_at` are the ones sent; by default the record is unlocked, with no submission time and empty scores. |
| Backend.UpdateStep | backend/jury_api/views.py:115-122 | A record the caller cannot see is 404. A locked record is 403. A full update without `jury` or `team` is refused. Past these, the update succeeds iff the new (jury, team) pair is the old one or free and every sent score passes validation; a taken pair and an invalid score each come out as their own error, as an iff. On success every field sent (jury, team, scores, `locked`, `submitted_at`) replaces the stored one and the rest stay. |
| Backend.UpdateCanChangeOwner | backend/jury_api/serializers.py:45-47 | Because `jury` is a writable field, a jury can move its unlocked sheet to another jury, unless that jury already has a sheet for the team. |
| Backend.LockStep | backend/jury_api/views.py:124-136 | 404 for an unseen record and 400 "Already locked" for a locked one. A visible unlocked record always becomes locked with `submitted_at` = now, its other fields unchanged. |
| Backend.LockIsFinal | backend/jury_api/views.py:115-133 | After a successful lock, every later update is 403 and every later lock is 400. |
| Backend.ScoreStore.constructor | backend/jury_api/models.py:59 | The table starts empty; each record sits under its own (jury, team) key. |
| Backend.ScoreStore.Listing | backend/jury_api/views.py:93-107 | The listing is exactly the records that pass the optional jury and team filters. A jury caller gets only its own records. |
| Backend.ScoreStore.Create | backend/jury_api/views.py:109-113 | The table gains the created record under its pair, or stays unchanged on error. The pair key invariant is kept. |
| Backend.ScoreStore.Update | backend/jury_api/views.py:115-122 | The addressed record is replaced by its updated form, filed under its possibly new (jury, team) pair; the table keeps its size and one record per pair, and a locked record never changes. |
| Backend.ScoreStore.Lock | backend/jury_api/views.py:124-136 | Only the addressed record changes, to its locked form. An already-locked record stays unchanged. |
| Backend.Juries | backend/jury_api/views.py:144 | Exactly the jury-role users, in table order. |
| Backend.JuryLines | backend/jury_api/views.py:156-175 | One line per jury, in jury order. |
| Backend.TeamLines | backend/jury_api/views.py:148-177 | One result per team, in table order; result i is team i's. |
| Backend.TeamResultOf | backend/jury_api/views.py:148-177 | The inner loop appends one line per jury and accumulates `total_score`. It equals the reference line of the team. |
| Backend.ResultsView | backend/jury_api/views.py:141-182 | The nested loops followed by the sort give the ranked reference results. |
| Backend.RankedResultsOnePerTeam | backend/jury_api/views.py:148-177 | The ranking is a permutation of the per-team results. Each result has one line per jury-role user. |
| Backend.RankedResultsDescending | backend/jury_api/views.py:180 | Results are ordered by `total_score`, highest first. |
| Backend.RankedResultsStable | backend/jury_api/views.py:180 | Teams with equal totals keep the team-table order. |
| Backend.JuryLineTotal | backend/jury_api/views.py:157-175 | A missing record gives empty scores and total 0. Otherwise the line's total is the plain sum of the record's values, draft or locked. |
| Backend.CheckCompletion | backend/jury_api/views.py:187-210 | With no teams or no juries, not complete and both counts 0. Otherwise required = teams × juries, the count is the number of locked records, and complete iff the two are equal. |
| Backend.CheckCompletionSound | backend/jury_api/views.py:201-205 | When every record belongs to an existing team and a jury user: complete iff there is at least one of each and every jury has a locked record for every team. |
| Backend.FindJury | backend/jury_api/views.py:217-220 | Found iff some user has the id and the jury role. |
| Backend.JuryProgress | backend/jury_api/views.py:215-231 | 404 (None) iff the id is not a jury-role user. Otherwise the reply names that user (id and username), scored = that jury's locked records, and the percentage is round-half-even of scored/teams × 100: within half a unit, and even on an exact half. It is 0 without teams. |
| Backend.ScoredAtMostTeams | backend/jury_api/views.py:222-223 | Without stray records, a jury's locked records are at most the team count. |
| Backend.JuryProgressBounds | backend/jury_api/views.py:225-231 | Without stray records, scored ≤ teams and 0 ≤ percentage ≤ 100. |
| Calculations.CalculateTeamTotal | frontend/src/utils/calculations.ts:3-17 | The two nested `forEach` loops compute the reference total: every value of every record of the team. |
| Calculations.TeamTotalAppend | frontend/src/utils/calculations.ts:7-14 | The total over two record lists is the sum of the two totals. |
| Calculations.TeamTotalOfRecord | frontend/src/utils/calculations.ts:7-14 | A record of another team adds nothing. A record of the team adds the sum of its values, locked or not. |
| Calculations.TeamTotalNoRecords | frontend/src/utils/calculations.ts:7 | A team without records totals 0. |
| Calculations.JuryLines | frontend/src/utils/calculations.ts:28-42 | One line per jury. |
| Calculations.JuryLineFacts | frontend/src/utils/calculations.ts:28-42 | Line i names jury i. Without a record it holds `{}` and total 0. Otherwise it holds some record of the pair, draft or locked, and that record's sum. |
| Calculations.CriterionScoresAt | frontend/src/utils/calculations.ts:49-55 | The map has one key per criterion id and no other key. Each holds its column sum, where a missing entry counts 0. |
| Calculations.FillCriterionScores | frontend/src/utils/calculations.ts:50-55 | The `forEach` loop builds the reference map. |
| Calculations.PerfectInBounds | frontend/src/utils/calculations.ts:61-65 | A criterion is maxed by at most every jury, and by all of them iff each line scores it at exactly `max_score`. |
| Calculations.PerfectCountBounds | frontend/src/utils/calculations.ts:59-66 | perfectScoresCount ≤ criteria × juries. Equality holds iff every jury gave every criterion its maximum. |
| Calculations.CountPerfectScores | frontend/src/utils/calculations.ts:59-66 | The nested counting loop computes the reference count. |
| Calculations.SquaredDeviationsNonNegative | frontend/src/utils/calculations.ts:70-72 | The sum of squared deviations is ≥ 0, and 0 when every total equals the mean. |
| Calculations.Average | frontend/src/utils/calculations.ts:57 | With juries, average × juries = total. Without juries, 0. |
| Calculations.VarianceZero | frontend/src/utils/calculations.ts:68-73 | The spread is ≥ 0, and 0 when all juries gave the same total. |
| Calculations.Results | frontend/src/utils/calculations.ts:27-86 | One result per team, in team order. |
| Calculations.KeyOrderIsComparator | frontend/src/utils/calculations.ts:88-104 | The sort key orders two results exactly as the comparator does: total, then criterion sums in priority order, then perfect count, then spread. |
| Calculations.RankedResultsPermutation | frontend/src/utils/calculations.ts:88 | The ranking is a permutation of the per-team results. |
| Calculations.RankedResultsOrdered | frontend/src/utils/calculations.ts:88-104 | Every earlier result beats or ties every later one under the comparator. |
| Calculations.RankedResultsStable | frontend/src/utils/calculations.ts:88-104 | Results the comparator cannot separate keep the team order. |
| Calculations.ResultForFacts | frontend/src/utils/calculations.ts:27-86 | Result fields: total = sum of jury totals; one line per jury; each criterion sum is its column sum; perfect count ≤ criteria × juries; spread ≥ 0; platform name has no whitespace. |
| Calculations.ComputeResult | frontend/src/utils/calculations.ts:27-86 | The `map` callback with its loops builds the reference result. |
| Calculations.CalculateResults | frontend/src/utils/calculations.ts:19-105 | The loops plus the sort give the ranked reference results. |
| Calculations.LegacyResults | src/utils/calculations.ts:24-49 | One result per team, in team order. |
| Calculations.LegacyRankedPermutation | src/utils/calculations.ts:52 | The older ranking is a permutation of its per-team results. |
| Calculations.LegacyRankedDescending | src/utils/calculations.ts:52 | Highest total first. |
| Calculations.LegacyRankedStable | src/utils/calculations.ts:52 | Equal totals keep the team order. |
| Calculations.GenerationsAgree | src/utils/calculations.ts:25-41 | Both clients give a team the same jury lines and the same total. |
| Calculations.AreAllTeamsScored | frontend/src/utils/calculations.ts:107-124 | The loops with early `return false` decide: at least one team and one jury, and a locked record for every pair. |
| Calculations.GetJuryProgress | frontend/src/utils/calculations.ts:126-141 | total = teams and scored = that jury's locked records. The percentage is `Math.round` (half up) of scored/total × 100, and 0 without teams. |
| Calculations.LockedTeamsCount | frontend/src/utils/calculations.ts:132-134 | The teams a jury has locked are at most its locked-record count. |
| Calculations.AllScoredMeansFullProgress | frontend/src/utils/calculations.ts:107-141 | When all teams are scored, each jury's scored count reaches the team count and its percentage reaches 100. |
| Calculations.JuryProgressBounds | frontend/src/utils/calculations.ts:136-140 | While scored ≤ teams, 0 ≤ percentage ≤ 100. |
| ClientTypes.OrNum | frontend/src/pages/jury/ScoreTeam.tsx:76 | `x \|\| d` on an optional number: x when truthy (present and non-zero), else d. |
| ClientTypes.OrStr | frontend/src/pages/admin/ManageTeams.tsx:73 | `x \|\| d` on an optional string: x when present and non-empty, else d. |
| ClientTypes.FindCriterion | frontend/src/pages/jury/ScoreTeam.tsx:61 | `criteria.find`: absent iff no criterion has the id; otherwise a criterion of the list with that id. |
| ClientTypes.FindCriterionFirst | frontend/src/pages/jury/ScoreTeam.tsx:61 | The criterion found is the first with the id: none before it has that id. |
| ClientTypes.FindScore | frontend/src/utils/calculations.ts:29-31 | `teamScores.find` on (jury, team): absent iff no record of the pair; otherwise a record of the pair. |
| ClientTypes.FindScoreFirst | frontend/src/utils/calculations.ts:29-31 | The record found is the first of the pair: no earlier record belongs to it. |
| ClientTypes.FindLockedScore | frontend/src/utils/calculations.ts:116-118 | The same with `&& ts.locked`: absent iff no locked record of the pair. |
| ClientTypes.FindLockedScoreFirst | frontend/src/utils/calculations.ts:116-118 | The record found is the first locked one of the pair. |
| ScoreRules.Clamp | frontend/src/pages/jury/ScoreTeam.tsx:63 | `Math.max(0, Math.min(value, max))` lies in [0, max]. An in-range value is kept, a negative one becomes 0 and a too-large one becomes max. |
| ScoreRules.CriterionIdsMembers | frontend/src/pages/jury/ScoreTeam.tsx:32-35 | The initialised keys are exactly the criteria's ids. |
| ScoreRules.ZeroScoresClamped | frontend/src/pages/jury/ScoreTeam.tsx:30-36 | The initial all-zero sheet has one key per criterion and lies within every maximum. |
| ScoreRules.ScoreChangeKeepsClamped | frontend/src/pages/jury/ScoreTeam.tsx:59-65 | Storing a clamped value under a known criterion keeps the sheet in range with distinct keys. It changes only that key. |
| ScoreRules.WeightOf | frontend/src/pages/jury/ScoreTeam.tsx:75-76 | A missing criterion, an absent weight and a zero weight all weigh 1.0. Otherwise the criterion's weight is used. |
| ScoreRules.RoundCents | frontend/src/pages/jury/ScoreTeam.tsx:79 | `Math.round(x*100)/100` is the nearest hundredth, halves up: within 0.005 of x, and non-negative for non-negative x. |
| ScoreRules.WeightedTotalSnoc | frontend/src/pages/jury/ScoreTeam.tsx:74-78 | Each entry adds `score × weight` to the total. |
| ScoreRules.WeightedTotalAtMostMax | frontend/src/pages/jury/ScoreTeam.tsx:72-84 | A clamped sheet's weighted total lies between 0 and `calculateMaxTotal`. |
| ScoreRules.RoundedTotalAtMostMax | frontend/src/pages/jury/ScoreTeam.tsx:79-84 | After rounding, the shown total exceeds the maximum by at most 0.005. |
| ScoreRules.WeightedTotalExamples | frontend/src/pages/jury/ScoreTeam.tsx:72-78 | The rule gives the sums the back-end tests expect: 10×1.0 + 12×2.5 = 40, and 10 for an unknown criterion id. |
| ScoreRules.UnweightedTotal | src/pages/jury/ScoreTeam.tsx:61-63 | The older page's raw sum is the weighted rule with every weight absent. |
| ScoreRules.UnweightedMax | src/pages/jury/ScoreTeam.tsx:87 | The older maximum is the same rule's maximum with every weight absent. |
| ScoreRules.UnweightedTotalAtMostMax | src/pages/jury/ScoreTeam.tsx:50-63 | A clamped sheet's raw sum lies between 0 and the sum of the maxima. |
| ScoreRules.AssignedOnly | frontend/src/pages/jury/JuryScoring.tsx:47 | The filtered criteria are those whose id is assigned. |
| ScoreRules.VisibleMatchesTable | frontend/src/pages/jury/JuryScoring.tsx:46-52 | The criteria that get a starting 0 are exactly the rows the table shows (line 180's filter). |
| ScoreRules.FeedbackRule | frontend/src/pages/jury/JuryScoring.tsx:72-75 | Feedback passes iff it has at least 10 characters after trimming. Passing feedback has ≥ 10 characters, and all-blank feedback never passes. |
| ScorePages.FillIds | frontend/src/pages/jury/ScoreTeam.tsx:30-35 | The `forEach` fill gives one entry per criterion id, each holding the value. |
| ScorePages.WeightedSheetTotal | frontend/src/pages/jury/ScoreTeam.tsx:72-80 | The accumulation loop returns the rounded weighted total, which stays within the maximum plus 0.005 on a clamped sheet. |
| ScorePages.FindStart | frontend/src/pages/jury/JuryScoring.tsx:21-36 | The search loop: completed iff there are teams and the jury has locked every one; the index is then 0. Otherwise it is the first team without a locked sheet. |
| ScorePages.ScoredByMeansLocked | frontend/src/pages/jury/JuryScoring.tsx:25-26 | With one sheet per pair, `getTeamScore` returns a locked sheet iff the jury holds a locked sheet for the team. |
| ScorePages.FindStartMatchesCompletion | frontend/src/pages/jury/JuryScoring.tsx:21-36 | The page opens on its completion screen iff `areAllTeamsScored` holds for this jury. |
| ScorePages.ScoreTeamPage.constructor | frontend/src/pages/jury/ScoreTeam.tsx:20-40 | An existing sheet is loaded (locked if it is locked). Otherwise every criterion starts at 0 with an empty comment. |
| ScorePages.ScoreTeamPage.HandleScoreChange | frontend/src/pages/jury/ScoreTeam.tsx:59-65 | Ignored when locked or for an unknown criterion. Otherwise the key gets the clamped value, and the sheet stays in range. |
| ScorePages.ScoreTeamPage.HandleCommentChange | frontend/src/pages/jury/ScoreTeam.tsx:67-70 | Ignored when locked; otherwise the comment is stored. Nothing else changes. |
| ScorePages.ScoreTeamPage.HandleGlobalCommentChange | frontend/src/pages/jury/ScoreTeam.tsx:17 | The global comment changes only when unlocked. |
| ScorePages.ScoreTeamPage.CalculateTotal | frontend/src/pages/jury/ScoreTeam.tsx:72-80 | The shown total is the rounded weighted total, within [0, max + 0.005] on a valid sheet. |
| ScorePages.ScoreTeamPage.HandleSubmit | frontend/src/pages/jury/ScoreTeam.tsx:86-89 | The confirmation opens unless the sheet is locked. |
| ScorePages.ScoreTeamPage.CloseModal | frontend/src/pages/jury/ScoreTeam.tsx:105 | Closes the confirmation; nothing else changes. |
| ScorePages.ScoreTeamPage.ConfirmSubmit | frontend/src/pages/jury/ScoreTeam.tsx:91-107 | Saves iff there is a user, a team id and a current event. The saved sheet is locked, carries the page's scores and comments and the confirmation time as `submitted_at`, and the modal closes. |
| ScorePages.LegacyScoreTeamPage.constructor | src/pages/jury/ScoreTeam.tsx:19-34 | An existing sheet is loaded; otherwise every criterion starts at 0. |
| ScorePages.LegacyScoreTeamPage.HandleScoreChange | src/pages/jury/ScoreTeam.tsx:50-59 | Ignored when locked or for an unknown criterion; otherwise the value is stored clamped. |
| ScorePages.LegacyScoreTeamPage.Total | src/pages/jury/ScoreTeam.tsx:61-63 | The raw sum, within [0, Σ maxScore] on a valid sheet. |
| ScorePages.LegacyScoreTeamPage.HandleSubmit | src/pages/jury/ScoreTeam.tsx:65-68 | Opens the confirmation unless locked. |
| ScorePages.LegacyScoreTeamPage.ConfirmSubmit | src/pages/jury/ScoreTeam.tsx:70-84 | Saves iff there is a user and a team id. The sheet is locked, stamped with the confirmation time and filed under the default event. |
| ScorePages.SheetTotalAtMostMax | src/pages/jury/ScoreTeam.tsx:86-87 | On a valid sheet, 0 ≤ total ≤ maxTotal. |
| ScorePages.JuryScoringPage.constructor | frontend/src/pages/jury/JuryScoring.tsx:12-17 | The page starts on team 0 with an empty sheet, no modal, no error and not completed. |
| ScorePages.JuryScoringPage.Start | frontend/src/pages/jury/JuryScoring.tsx:21-36 | With teams: it moves to the first team without a locked sheet, or marks the page completed when there is none. |
| ScorePages.JuryScoringPage.LoadTeam | frontend/src/pages/jury/JuryScoring.tsx:38-57 | A draft sheet is taken as it is. Otherwise the visible criteria start at 0 and the feedback is cleared. |
| ScorePages.JuryScoringPage.HandleScoreChange | frontend/src/pages/jury/JuryScoring.tsx:59-65 | No lock check: for a known criterion the clamped value is stored. |
| ScorePages.JuryScoringPage.HandleFeedbackChange | frontend/src/pages/jury/JuryScoring.tsx:223-226 | The feedback is stored; the error clears once the feedback would pass. |
| ScorePages.JuryScoringPage.Total | frontend/src/pages/jury/JuryScoring.tsx:67-69 | The raw sum, within [0, Σ max_score] on a valid sheet. |
| ScorePages.JuryScoringPage.HandleSubmit | frontend/src/pages/jury/JuryScoring.tsx:71-78 | Short feedback sets the error and leaves the modal alone. Passing feedback clears the error and opens the modal. |
| ScorePages.JuryScoringPage.ConfirmSubmit | frontend/src/pages/jury/JuryScoring.tsx:80-103 | Saves a locked sheet stamped with the confirmation time iff there is a user, a team and a current event. Then it advances to the next team, or completes after the last. |
| ScorePages.LegacyJuryScoringPage.constructor | src/pages/jury/JuryScoring.tsx:11-14 | Team 0, empty sheet, not completed. |
| ScorePages.LegacyJuryScoringPage.Start | src/pages/jury/JuryScoring.tsx:18-35 | The same first-unscored search as the newer page. |
| ScorePages.LegacyJuryScoringPage.LoadTeam | src/pages/jury/JuryScoring.tsx:37-51 | A draft sheet is taken as it is; otherwise every criterion starts at 0. |
| ScorePages.LegacyJuryScoringPage.HandleScoreChange | src/pages/jury/JuryScoring.tsx:53-59 | A known criterion gets the clamped value; an unknown one is ignored. |
| ScorePages.LegacyJuryScoringPage.Total | src/pages/jury/JuryScoring.tsx:61-63 | The raw sum, within [0, Σ maxScore] on a valid sheet. |
| ScorePages.LegacyJuryScoringPage.HandleSubmit | src/pages/jury/JuryScoring.tsx:65-67 | Always opens the confirmation. |
| ScorePages.LegacyJuryScoringPage.ConfirmSubmit | src/pages/jury/JuryScoring.tsx:69-91 | Saves a locked sheet stamped with the confirmation time iff there is a user, a team and a current event, then advances or completes. |
| DataStores.InitialEvent | src/contexts/DataContext.tsx:59-67 | No event without events. Otherwise the default event when it is present, else the first event; always the id of an event in the list. |
| DataStores.DeleteEventData | src/contexts/DataContext.tsx:95-103 | The event and exactly the users, teams, criteria and sheets filed under it are removed; everything else is kept. |
| DataStores.CurrentAfterDelete | src/contexts/DataContext.tsx:105-109 | Deleting another event keeps the selection. Deleting the current one selects a remaining event, or none iff no other event exists. |
| DataStores.DeleteTeamData | src/contexts/DataContext.tsx:163-170 | Exactly the team and its sheets are removed; the other lists are untouched. |
| DataStores.DeleteUserData | src/contexts/DataContext.tsx:139-145 | Only the user is removed; that jury's sheets stay. |
| DataStores.DeleteCriterionData | src/contexts/DataContext.tsx:188-194 | Only the criterion is removed; sheets keep their entries for it. |
| DataStores.SaveScoreData | src/contexts/DataContext.tsx:196-210 | Only the sheet list changes. |
| DataStores.SaveByPairFacts | src/contexts/DataContext.tsx:196-216 | Saving keeps one sheet per (jury, team). `getTeamScore` then returns the saved sheet. Other pairs' sheets are unchanged, and the list grows by at most one. |
| DataStores.FindFirstOfPair | src/contexts/DataContext.tsx:212-216 | `find` returns the sheet at the first index holding its pair. |
| DataStores.UsersView | src/contexts/DataContext.tsx:113-115 | The users shown are every admin, plus, with a current event, exactly the users filed under it. |
| DataStores.TeamsView | src/contexts/DataContext.tsx:117-119 | No teams without a current event; otherwise exactly that event's teams. |
| DataStores.CriteriaView | src/contexts/DataContext.tsx:121-123 | The same for criteria. |
| DataStores.ScoresView | src/contexts/DataContext.tsx:125-127 | The same for sheets. |
| DataStores.DeletedEventViewsEmpty | src/contexts/DataContext.tsx:95-127 | After an event is deleted, selecting it shows no teams, criteria or sheets, and only admins. |
| DataStores.LegacyDataStore.constructor | src/contexts/DataContext.tsx:57-67 | The loaded data, with the initial event selected. |
| DataStores.LegacyDataStore.SetCurrentEvent | src/contexts/DataContext.tsx:220 | Only the selection changes. |
| DataStores.LegacyDataStore.AddEvent | src/contexts/DataContext.tsx:78-86 | The event, with the given id and creation time, is appended and returned; nothing else changes. |
| DataStores.LegacyDataStore.UpdateEvent | src/contexts/DataContext.tsx:88-93 | The merge is applied to the events with that id only. |
| DataStores.LegacyDataStore.DeleteEvent | src/contexts/DataContext.tsx:95-111 | The data becomes `DeleteEventData`; the selection becomes `CurrentAfterDelete`. |
| DataStores.LegacyDataStore.AddUser | src/contexts/DataContext.tsx:130-137 | The user with the given id is appended and returned. |
| DataStores.LegacyDataStore.DeleteUser | src/contexts/DataContext.tsx:139-145 | The data becomes `DeleteUserData`. |
| DataStores.LegacyDataStore.AddTeam | src/contexts/DataContext.tsx:147-154 | The team with the given id is appended and returned. |
| DataStores.LegacyDataStore.UpdateTeam | src/contexts/DataContext.tsx:156-161 | The merge is applied to the teams with that id only. |
| DataStores.LegacyDataStore.DeleteTeam | src/contexts/DataContext.tsx:163-170 | The data becomes `DeleteTeamData`. |
| DataStores.LegacyDataStore.AddCriterion | src/contexts/DataContext.tsx:172-179 | The criterion with the given id is appended and returned. |
| DataStores.LegacyDataStore.UpdateCriterion | src/contexts/DataContext.tsx:181-186 | The merge is applied to the criteria with that id only. |
| DataStores.LegacyDataStore.DeleteCriterion | src/contexts/DataContext.tsx:188-194 | The data becomes `DeleteCriterionData`. |
| DataStores.LegacyDataStore.SaveTeamScore | src/contexts/DataContext.tsx:196-210 | Replace-or-append by pair. It keeps one sheet per pair, and the saved sheet is then the one found. |
| DataStores.LegacyDataStore.GetTeamScore | src/contexts/DataContext.tsx:212-216 | Some sheet of the pair, from any event; none iff the pair has no sheet. |
| DataStores.ChooseEvent | frontend/src/contexts/DataContext.tsx:74-77 | The first event that is the default or whose name contains "2025", else the first event. |
| DataStores.SaveByIdFacts | frontend/src/contexts/DataContext.tsx:266-278 | Replace-or-append by id: ids stay distinct, the returned sheet is present, other ids are unchanged, and the list grows by at most one. |
| DataStores.DataStore.constructor | frontend/src/contexts/DataContext.tsx:57-62 | Empty lists; the selection comes from the session. |
| DataStores.DataStore.EventsLoaded | frontend/src/contexts/DataContext.tsx:66-87 | The events are stored. An event is chosen only when there are events and none is selected. |
| DataStores.DataStore.EventDataLoaded | frontend/src/contexts/DataContext.tsx:89-120 | The event's four lists are replaced; the events and the selection stay. |
| DataStores.DataStore.SetCurrentEvent | frontend/src/contexts/DataContext.tsx:148-156 | Only the selection changes. |
| DataStores.DataStore.AddEvent | frontend/src/contexts/DataContext.tsx:158-163 | The created event is appended. |
| DataStores.DataStore.UpdateEvent | frontend/src/contexts/DataContext.tsx:165-172 | The returned event replaces the events with that id. |
| DataStores.DataStore.DeleteEvent | frontend/src/contexts/DataContext.tsx:174-185 | The event is filtered out, and a deleted current event clears the selection. The other lists are kept as they were. |
| DataStores.DataStore.AddUser | frontend/src/contexts/DataContext.tsx:187-192 | The created user is appended. |
| DataStores.DataStore.UpdateUser | frontend/src/contexts/DataContext.tsx:194-197 | The returned user replaces the users with that id. |
| DataStores.DataStore.DeleteUser | frontend/src/contexts/DataContext.tsx:199-202 | The user is filtered out. |
| DataStores.DataStore.AddTeam | frontend/src/contexts/DataContext.tsx:205-210 | The created team is appended. |
| DataStores.DataStore.BulkAddTeams | frontend/src/contexts/DataContext.tsx:212-225 | Without a current event nothing changes; otherwise the created teams are appended. |
| DataStores.DataStore.UpdateTeam | frontend/src/contexts/DataContext.tsx:227-230 | The returned team replaces the teams with that id. |
| DataStores.DataStore.DeleteTeam | frontend/src/contexts/DataContext.tsx:232-235 | Only the team is filtered out; the sheet list is untouched. |
| DataStores.DataStore.DeleteAllTeams | frontend/src/contexts/DataContext.tsx:237-245 | Without a current event nothing changes. Otherwise the teams and the sheets become empty. |
| DataStores.DataStore.AddCriterion | frontend/src/contexts/DataContext.tsx:248-253 | The created criterion is appended. |
| DataStores.DataStore.UpdateCriterion | frontend/src/contexts/DataContext.tsx:255-258 | The returned criterion replaces the criteria with that id. |
| DataStores.DataStore.DeleteCriterion | frontend/src/contexts/DataContext.tsx:260-263 | The criterion is filtered out. |
| DataStores.DataStore.SaveTeamScore | frontend/src/contexts/DataContext.tsx:266-278 | Replace-or-append by id, which keeps ids distinct and leaves the saved sheet present. |
| DataStores.DataStore.GetTeamScore | frontend/src/contexts/DataContext.tsx:280-284 | A sheet of the pair; none iff the pair has no sheet. |
| Storage.MigrateLegacy | src/utils/storage.ts:33-64 | Data with events is returned unchanged. Otherwise the migration gives exactly one default event. Every team, criterion and sheet keeps its order and other fields and gains an event id: its own, else the default. Missing users become the default admin, and every jury ends up filed under an event. |
| Storage.MigrateLegacyIdempotent | src/utils/storage.ts:33-64 | Migrating twice equals migrating once, whatever the clock says. |
| Storage.Migrate | frontend/src/utils/storage.ts:30-59 | The same for the newer format. The new `event` field falls back to `eventId`, then to the default. A non-jury user with neither field keeps no event. |
| Storage.MigrateIdempotent | frontend/src/utils/storage.ts:30-59 | Migrating twice equals migrating once. |
| Randomizer.ShuffleArray | frontend/src/utils/randomizer.ts:6-13 | Fisher–Yates on a copy, driven by the given draws: the result is a permutation of the input. |
| Randomizer.AssignPassageOrder | frontend/src/utils/randomizer.ts:18-30 | The result is a permutation of the teams. The i-th team is stamped with order i + 1 and, given a start time, with the slot i × interval minutes later. |
| Randomizer.ClearPassageOrder | frontend/src/utils/randomizer.ts:68-74 | Same teams, same order, with no passage order and no time. |
| Randomizer.ClearUndoesStamp | frontend/src/utils/randomizer.ts:25-29 | Clearing a stamped list gives back the cleared list. (With lines 68-74 of the same file.) |
| Randomizer.SortByPassageOrderFacts | frontend/src/utils/randomizer.ts:79-86 | The sort is a permutation. Ordered teams come first, ascending. Teams with equal orders, or with none, keep their relative order. |
| Randomizer.MatchAt | frontend/src/utils/randomizer.ts:37 | A match of `(\d{1,2})[:h](\d{2})` at a position captures an hour and a minute below 100. |
| Randomizer.ParseTime | frontend/src/utils/randomizer.ts:37-41 | The leftmost match is taken: a match at the first position is the result. |
| Randomizer.JsRem | frontend/src/utils/randomizer.ts:44-45 | JavaScript's `%`: the remainder lies in [0, b) for a non-negative dividend and in (−b, 0] for a negative one. |
| Randomizer.SlotFallback | frontend/src/utils/randomizer.ts:35-48 | A start time in which no time can be found comes back unchanged. From a readable start and a non-negative total, the result is itself a readable time. |
| Randomizer.SlotIsClock | frontend/src/utils/randomizer.ts:35-48 | From a readable start and a non-negative total, the slot shows the hour of the day (mod 24) and the minute of the hour. |
| Randomizer.RenderFormat | frontend/src/utils/randomizer.ts:47 | A time of day is written as two digits, `h`, two digits. |
| Randomizer.RenderParses | frontend/src/utils/randomizer.ts:37-47 | A rendered time reads back as the hour and minute it shows. |
| Randomizer.ClockPeriodic | frontend/src/utils/randomizer.ts:44-45 | The displayed clock repeats every 1440 minutes. |
| Randomizer.DaysHoursMinutes | frontend/src/utils/randomizer.ts:43-45 | A count of minutes is whole days plus the hour and minute displayed. |
| Randomizer.SlotCompose | frontend/src/utils/randomizer.ts:35-48 | Moving a slot on by b minutes equals moving the start on by a + b. |
| Randomizer.SlotReadsBack | frontend/src/utils/randomizer.ts:35-48 | A slot computed from a readable start reads back as the hour and minute of the day it shows. |
| Randomizer.GenerateTimeSlots | frontend/src/utils/randomizer.ts:53-63 | There are max(count, 0) slots, and the i-th is the start moved on by i × interval. |
| Randomizer.SlotsStep | frontend/src/utils/randomizer.ts:53-63 | From a readable start and a non-negative interval, the slot at i × interval + interval is the slot at i × interval moved on by the interval. |
| SpinningWheel.RotationIndex | src/components/SpinningWheel.tsx:142 | `(winner + i) % n` is a valid index. |
| SpinningWheel.GenerateOrderFromWinner | src/components/SpinningWheel.tsx:138-151 | Position i holds team `(winner + i) % n`, stamped with order i + 1. |
| SpinningWheel.RotationOnto | src/components/SpinningWheel.tsx:141-143 | Every team is reached at some position. |
| SpinningWheel.RotationInjective | src/components/SpinningWheel.tsx:141-143 | No team is reached twice. |
| SpinningWheel.WheelOrderIsPermutation | src/components/SpinningWheel.tsx:138-151 | The wheel's order holds each input team exactly once, with orders 1..n. |
| SpinningWheel.View | src/components/SpinningWheel.tsx:153-168 | The wheel is shown iff there are 1 to 20 teams, and the empty notice iff there are none. |
| SpinningWheel.Spinner.constructor | src/components/SpinningWheel.tsx:10-12 | The wheel is not spinning at first. |
| SpinningWheel.Spinner.SpinWheel | src/components/SpinningWheel.tsx:105-108 | A click during a spin is ignored; otherwise the wheel starts spinning. |
| SpinningWheel.Spinner.FinishSpin | src/components/SpinningWheel.tsx:126-132 | The spin ends, and the order is read round the wheel from the winning segment. |
| ExcelImport.OrEmpty | frontend/src/utils/excelImport.ts:55 | `c \|\| ''` keeps a truthy cell and replaces a falsy one with ''. |
| ExcelImport.Headers | frontend/src/utils/excelImport.ts:46-48 | One header per first-row cell: the cell's text, or `Colonne <idx+1>` for a falsy cell. |
| ExcelImport.RowObjectKeys | frontend/src/utils/excelImport.ts:52-57 | The row object's keys are exactly the headers, each appearing once. |
| ExcelImport.RowObjectGet | frontend/src/utils/excelImport.ts:54-56 | A header's value is the cell of its last column, or '' when that cell is falsy. |
| ExcelImport.BuildRowObject | frontend/src/utils/excelImport.ts:53-57 | The `forEach` loop builds that row object. |
| ExcelImport.BuildRowObjects | frontend/src/utils/excelImport.ts:52-58 | One object per data row, in order: the k-th is the k-th row read under the headers. |
| ExcelImport.DataRows | frontend/src/utils/excelImport.ts:51 | `slice(1)`: every row but the first, in order. |
| ExcelImport.PreviewOf | frontend/src/utils/excelImport.ts:40-65 | Empty input gives an empty preview. Otherwise the headers come from the first row and `totalRows` counts the data rows. The preview holds the objects of the first min(totalRows, 10) data rows. |
| ExcelImport.ParseExcelPreview | frontend/src/utils/excelImport.ts:40-65 | The loop computes that preview. |
| ExcelImport.PreviewCells | frontend/src/utils/excelImport.ts:46-62 | With distinct headers, preview row r maps header i to data row r's cell i, or ''. |
| ExcelImport.IndexOf | frontend/src/utils/excelImport.ts:78 | `indexOf`: −1 iff the column is absent; otherwise an index holding it. |
| ExcelImport.FieldAt | frontend/src/utils/excelImport.ts:92-94 | An optional field is absent iff its column index is −1. |
| ExcelImport.ExtractTeamsFromColumn | frontend/src/utils/excelImport.ts:68-100 | No entries when the name column is missing. Otherwise there is one entry per data row with a non-blank name, in row order. |
| ExcelImport.ExtractedFacts | frontend/src/utils/excelImport.ts:85-97 | There are no more entries than rows, and every name is trimmed and non-blank. An optional field is absent iff its column is. When every row is named, there is one entry per row. |
| ExcelImport.LegacyExtractTeamsFromColumn | src/utils/excelImport.ts:70-89 | The older extraction runs over `preview.rows`, keeping the rows whose name is non-blank. |
| ExcelImport.LegacyExtractedFacts | src/utils/excelImport.ts:70-89 | The older extraction returns at most 10 entries, however long the sheet, and every name is trimmed and non-blank. |
| ExcelImport.ElevenRowsNewer | frontend/src/utils/excelImport.ts:85-97 | A sheet with eleven named data rows gives eleven entries. |
| ExcelImport.ElevenRowsOlder | src/utils/excelImport.ts:78-86 | The same sheet gives only ten entries in the older client. (With line 62 of the same file.) |
| ExcelImport.LastIndexOf | frontend/src/utils/excelImport.ts:107 | `lastIndexOf`: −1 iff the character is absent; otherwise the last index holding it. |
| ExcelImport.SliceFrom | frontend/src/utils/excelImport.ts:107 | `slice(start)`: a negative start counts from the end, clamped at 0. |
| ExcelImport.ValidateExcelFile | frontend/src/utils/excelImport.ts:105-125 | The file is valid iff the extension is accepted and the size is at most 5 MB. The extension is checked first, and the error is present iff the file is invalid. |
| ExcelImport.SuffixAccepted | frontend/src/utils/excelImport.ts:106-109 | A name ending in an accepted extension, in any ASCII letter case, passes the extension check. |
| ExcelImport.NoDotRejected | frontend/src/utils/excelImport.ts:107-113 | A name without a '.' is always refused with the format error. |
| ManageTeams.PlatformEmail | frontend/src/pages/admin/ManageTeams.tsx:15-20 | The address is '' iff the base is empty or has no '@'. |
| ManageTeams.NoAtInPlatformName | frontend/src/pages/admin/ManageTeams.tsx:18-19 | A platform name built from a name without '@' contains no '@'. |
| ManageTeams.PlatformEmailSplits | frontend/src/pages/admin/ManageTeams.tsx:15-20 | The generated address splits at its '@' into the base's local part plus `+` and the platform name, and the base's domain. |
| ManageTeams.PlatformNameDistinct | frontend/src/pages/admin/ManageTeams.tsx:32-35 | Two positions never share a platform name. |
| ManageTeams.PlatformEmailDistinct | frontend/src/pages/admin/ManageTeams.tsx:15-20 | Two positions never share a generated address. |
| ManageTeams.SubmitIndex | frontend/src/pages/admin/ManageTeams.tsx:41-43 | A new team gets `teams.length`. An edited team gets the first index holding its id, or −1 when the id is gone. |
| ManageTeams.HandleSubmit | frontend/src/pages/admin/ManageTeams.tsx:37-66 | Nothing is written iff the name or the current event is missing. It is an update iff a team is being edited, otherwise an add. The fields carry the name and the event. The e-mail and the generated address are absent iff no e-mail was entered. An added team is marked as never logged in and carries the given origin (`manual` in the older client); an update sends neither field. |
| ManageTeams.SubmitTagMatchesCard | frontend/src/pages/admin/ManageTeams.tsx:41-45 | The generated address's tag is the platform name that the team's own card shows. (With lines 189-194 of the same file.) |
| ManageTeams.ImportFields | frontend/src/pages/admin/ManageTeams.tsx:72-81 | The address is the item's e-mail, else its description. A generated address exists iff the address is truthy. The team is marked as never logged in. |
| ManageTeams.HandleImport | frontend/src/pages/admin/ManageTeams.tsx:68-83 | Nothing is imported without an event. Otherwise entry i is added as position `teams.length + i`. |
| ManageTeams.ImportedEmailsDistinct | frontend/src/pages/admin/ManageTeams.tsx:71-81 | Imported duplicates still get distinct generated addresses, and none collides with an existing position's. |
| ManageTeams.LegacyImportFields | src/pages/admin/ManageTeams.tsx:66-74 | The description doubles as the address, and a generated address exists iff it is truthy. The team is marked as never logged in and as imported from a spreadsheet. |
| ManageTeams.LegacyHandleImport | src/pages/admin/ManageTeams.tsx:63-76 | The same import for the older client. |
| ManageTeams.HandleRandomize | frontend/src/pages/admin/ManageTeams.tsx:85-93 | One write per team, in shuffled order. Each write carries the team's existing snake_case order and time, which the shuffler never sets. |
| ManageTeams.SendApiFields | frontend/src/pages/admin/ManageTeams.tsx:86-91 | One write per team, in list order, carrying that team's id and its snake_case order and time. |
| ManageTeams.StampedWrites | frontend/src/utils/randomizer.ts:18-30 | The writes of a draw: the i-th gives a shuffled team order i + 1 and the slot i × interval after the start. |
| ManageTeams.LegacyHandleRandomize | src/pages/admin/ManageTeams.tsx:78-86 | The older client writes order i + 1 and the slot i × 15 minutes after '09h00', in shuffled order. |
| ManageTeams.SendStampedFields | src/pages/admin/ManageTeams.tsx:80-85 | One write per team, in list order, carrying that team's id and the order and time the shuffler set. |
| ManageTeams.HandleClearOrder | frontend/src/pages/admin/ManageTeams.tsx:95-103 | One write per team, in list order, each clearing that team's order and time; the older client does the same (src/pages/admin/ManageTeams.tsx:88-96). |
| ManageTeams.JuryUsers | frontend/src/pages/admin/ManageTeams.tsx:135 | Exactly the users with the jury role. |
| ManageTeams.GetTeamProgress | frontend/src/pages/admin/ManageTeams.tsx:134-139 | The total is the number of jury users. With no juries nothing is scored; otherwise the locked records of the team are counted. |
| ManageTeams.ProgressPercentage | frontend/src/pages/admin/ManageTeams.tsx:191-193 | 0 without juries; otherwise `Math.round(scored/total × 100)`, i.e. the nearest integer, halves up. |
| ManageTeams.LockedJuriesCount | frontend/src/pages/admin/ManageTeams.tsx:137 | The juries holding a locked record are no more than the locked records. |
| ManageTeams.UserIdsCard | frontend/src/pages/admin/ManageTeams.tsx:135 | Distinct ids: as many ids as users. |
| ManageTeams.DistinctJuryUsers | frontend/src/pages/admin/ManageTeams.tsx:135 | Filtering keeps ids distinct. |
| ManageTeams.TeamFullyScored | frontend/src/pages/admin/ManageTeams.tsx:134-139 | Once every jury has locked a record for the team, the card shows at least 100 %. (With lines 191-193 of the same file.) |
| ManageTeams.TeamProgressBounds | frontend/src/pages/admin/ManageTeams.tsx:191-193 | With no more locked records than juries, the percentage lies in [0, 100]. |
| Auth.LeadingZero | frontend/src/utils/auth.ts:5 | A leading zero does not change the value of a digit string. |
| Auth.PadKeepsValue | frontend/src/utils/auth.ts:5 | `padStart` with zeros keeps the digits and their value. |
| Auth.AtMostThreeDigits | frontend/src/utils/auth.ts:5 | A number below 1000 has at most three digits. |
| Auth.Suffix | frontend/src/utils/auth.ts:5 | The random suffix is exactly three characters. |
| Auth.SuffixRoundTrip | frontend/src/utils/auth.ts:5 | The suffix is three digits that read back as the draw. |
| Auth.GenerateJuryCredentials | frontend/src/utils/auth.ts:1-16 | The user name is the cleaned name followed by the three-digit suffix. The password has 8 characters, the i-th drawn from the alphabet. |
| Auth.CredentialsShape | frontend/src/utils/auth.ts:4-13 | The alphabet has 67 characters, and every password character is in it. The user name is lower-case letters and digits followed by three digits that read back as the draw. |
| ManageJuries.CandidateInjective | frontend/src/pages/admin/ManageJuries.tsx:55-62 | Different turns of the loop try different user names. |
| ManageJuries.TriedCount | frontend/src/pages/admin/ManageJuries.tsx:55-62 | The first n turns try n distinct names. |
| ManageJuries.UsernamesCount | frontend/src/pages/admin/ManageJuries.tsx:59 | There are no more distinct user names than users. |
| ManageJuries.UniqueUsername | frontend/src/pages/admin/ManageJuries.tsx:54-62 | The loop ends on a name no user has, found within |users| + 1 turns. |
| ManageJuries.HandleSaveJury | frontend/src/pages/admin/ManageJuries.tsx:40-89 | Nothing is saved iff the trimmed name is empty or there is no event. An edit renames to the typed name, keeps the selection, and sets the trimmed password only when one is typed. A new jury gets the first candidate user name (the cleaned name, then with 2, 3, …) that no user has, the selected criteria, the event, and the typed password trimmed, or else a generated 8-character one. |
| ManageCriteria.SubmitCriterion | frontend/src/pages/admin/ManageCriteria.tsx:28-50 | Nothing is written iff the name, a positive maximum, a positive priority or the event is missing. It is an update iff a criterion is being edited. The fields carry the form's values, and only an add sends the weight. |
| ManageCriteria.ApplyEdit | frontend/src/pages/admin/ManageCriteria.tsx:35-40 | An edit keeps the stored criterion's id and weight and sets its other fields. |
| ManageCriteria.AssignCriterion | frontend/src/pages/admin/ManageCriteria.tsx:52-71 | The loop writes once for each jury whose list changes, in order, and never more than once per jury. |
| ManageCriteria.OneJuryPerCriterion | frontend/src/pages/admin/ManageCriteria.tsx:53-70 | Afterwards the criterion belongs to the selected jury and to no other. Every other assignment is kept, and a jury is written to iff its list changes. |
| ManageCriteria.AssignmentWritesFacts | frontend/src/pages/admin/ManageCriteria.tsx:53-70 | The writes are exactly the changed juries with their new lists. |
| ManageCriteria.MaxPriority | frontend/src/pages/admin/ManageCriteria.tsx:108 | The maximum is at least every priority and is one of them. |
| ManageCriteria.NextPriority | frontend/src/pages/admin/ManageCriteria.tsx:106-110 | It is 1 for no criteria; otherwise one more than the largest priority, hence above every priority. |
| ManageCriteria.NextPriorityComesLast | frontend/src/pages/admin/ManageCriteria.tsx:26 | A criterion added with the offered priority comes last in the sorted list, and the next offer is one higher. (With lines 106-110 of the same file.) |
| ManageCriteria.SortedCriteriaFacts | frontend/src/pages/admin/ManageCriteria.tsx:26 | The sort is ascending by priority, a permutation, and stable for equal priorities. |
| ManageCriteria.TotalMaxScoreAppend | frontend/src/pages/admin/ManageCriteria.tsx:121 | The total of a concatenation is the sum of the totals. |
| ManageCriteria.TotalMaxScorePermutation | frontend/src/pages/admin/ManageCriteria.tsx:121 | Permuting the criteria does not change the total. |
| ManageCriteria.SortedTotalUnchanged | frontend/src/pages/admin/ManageCriteria.tsx:26 | The sorted list has the same total maximum as the list. (With line 121 of the same file.) |
| LiveQueue.OrderOr | frontend/src/pages/admin/LiveQueue.tsx:19 | `passage_order \|\| d`: the order when set and non-zero, else d. |
| LiveQueue.FirstPending | frontend/src/pages/admin/LiveQueue.tsx:22-26 | `find`: none iff no team is ordered and still short of a jury; otherwise a queue member that is. |
| LiveQueue.Take | frontend/src/pages/admin/LiveQueue.tsx:31 | `slice(0, n)`: a prefix of at most n elements, the whole list when it is short. |
| LiveQueue.OrderedTeamsFacts | frontend/src/pages/admin/LiveQueue.tsx:19 | The queue is a permutation of the teams, ascending with 999 for a missing order. |
| LiveQueue.NextTeamsFacts | frontend/src/pages/admin/LiveQueue.tsx:28-31 | The list holds min(5, number of upcoming teams) teams, all ordered and after the current team (any ordered team when none is current), ascending; an upcoming team left out means five are shown, none of them later than it. |
| LiveQueue.CompletedTeamsFacts | frontend/src/pages/admin/LiveQueue.tsx:33-37 | The list is a permutation of exactly the ordered teams judged by all juries (each as often as in the team list), highest order first; the current team is never among them. |
| LiveQueue.NoJuries | frontend/src/pages/admin/LiveQueue.tsx:22-37 | With no jury users no team is current, and every ordered team counts as completed. |
| Events.FindEvent | frontend/src/pages/admin/EventDashboard.tsx:15 | The current event is an event with the selected id; none iff there is no selection or no event has the id. |
| Events.AsJuries | frontend/src/pages/admin/EventDashboard.tsx:16 | One jury per jury user. |
| Events.AutoTransition | frontend/src/pages/admin/EventDashboard.tsx:15-23 | The current event is marked completed iff it exists, is ongoing, has teams and juries, and every team holds a locked sheet from every jury. |
| Events.MarkCompleted | frontend/src/pages/admin/EventDashboard.tsx:21 | Only the status changes, to completed. |
| Events.AutoTransitionOnce | frontend/src/pages/admin/EventDashboard.tsx:19-23 | A found event that is not ongoing never fires the rule, so after it has fired once it does not fire again. |
| Events.CompletedMeansFullProgress | frontend/src/pages/admin/EventDashboard.tsx:15-23 | When the rule fires, every jury's progress is at least 100 %. |
| Events.SortedEventsFacts | frontend/src/pages/admin/EventsList.tsx:82-85 | The sort is a permutation: ongoing events first, then upcoming, then completed, with list order kept within a status. |
| Events.DatePart | frontend/src/pages/admin/EventsList.tsx:48 | `split('T')[0]`: a prefix of the date without 'T'. |
| Events.DatePartOfStamp | frontend/src/pages/admin/EventsList.tsx:48 | The date part of `day + 'T' + time` is `day`, and taking it again changes nothing. |
| Events.EventForm.constructor | frontend/src/pages/admin/EventsList.tsx:17-23 | The form starts empty and upcoming, with nothing edited and the modal closed. |
| Events.EventForm.ResetForm | frontend/src/pages/admin/EventsList.tsx:37-44 | The same empty state. |
| Events.EventForm.HandleEdit | frontend/src/pages/admin/EventsList.tsx:46-53 | The form takes the event's fields, with the date cut at the first 'T', and the modal opens on that event. |
| Events.EventForm.Submit | frontend/src/pages/admin/EventsList.tsx:25-33 | Nothing is written iff the name or the date is empty. It is an update iff an event is being edited; the form's fields are sent; an add carries the older client's creation stamp. |
| Events.EventForm.HandleSubmit | frontend/src/pages/admin/EventsList.tsx:25-35 | It makes that write and then resets the form. An incomplete form changes nothing. |
| Events.EditThenSave | frontend/src/pages/admin/EventsList.tsx:25-53 | Editing an event and saving it untouched writes back its own fields, with the date cut to its calendar date. |
| PublicResults.CompletedEvents | src/pages/PublicResults.tsx:14-15 | Exactly the completed events. |
| PublicResults.EventJuries | src/pages/PublicResults.tsx:71 | The juries counted for an event are the jury users filed under it or under no event. |
| PublicResults.PageFor | src/pages/PublicResults.tsx:13-109 | Without an event id the page lists exactly the completed events. An unknown id shows "not found". An event with no teams shows "not yet available". Otherwise the page shows the event's ranking over its own teams, sheets and juries. |
| PublicResults.OtherEventsIgnored | src/pages/PublicResults.tsx:69-71 | Appending other events' teams and sheets does not change an event's ranking. (With line 90 of the same file.) |
| PublicResults.ResultsBelongToEvent | src/pages/PublicResults.tsx:69 | Every ranking line is one of the event's own teams. (With line 90 of the same file.) |
| PublicResults.GetRankDisplay | src/pages/PublicResults.tsx:111-125 | The three podium labels and colours. The "Coup de Cœur" label is shown iff rank 3 is displayed among at least 4 results. Any other rank gets `${rank+1}ème Place` in indigo with no emoji. |
| PublicResults.WinnerLabelNumber | src/pages/PublicResults.tsx:115 | The winner's label starts with 1. |
| PublicResults.SecondLabelNumber | src/pages/PublicResults.tsx:116 | The second label starts with 2. |
| PublicResults.ThirdLabelNumber | src/pages/PublicResults.tsx:117 | The third label starts with 3. |
| PublicResults.FavouriteLabelNumber | src/pages/PublicResults.tsx:120-122 | The favourite's label starts with 4. |
| PublicResults.PlainLabelNumber | src/pages/PublicResults.tsx:124 | A plain label starts with rank + 1. |
| PublicResults.RankNumberInLabel | src/pages/PublicResults.tsx:111-125 | Every label starts with its place number, rank + 1, written before the first 'è'. |
| PublicResults.RankLabelsDistinct | src/pages/PublicResults.tsx:111-125 | Two ranks never share a label. |
| PublicResults.NextRevealed | src/pages/PublicResults.tsx:127-131 | A click adds one iff fewer than all results are shown, and never goes past the count. |
| PublicResults.RevealedAfterClicks | src/pages/PublicResults.tsx:127-131 | k clicks from the start reveal min(k, count) results. |
| PublicResults.Reveal.constructor | src/pages/PublicResults.tsx:10-11 | Nothing is revealed and the full list is hidden. |
| PublicResults.Reveal.HandleRevealNext | src/pages/PublicResults.tsx:127-131 | The counter moves by `NextRevealed`; the full-list flag is kept. |
| PublicResults.Reveal.HandleShowFullList | src/pages/PublicResults.tsx:133-135 | The full list is shown; the counter is kept. |
| PublicResults.Reveal.BackToAnimated | src/pages/PublicResults.tsx:171 | Leaves the full list for the animated view; the reveal count is kept. |
| PublicResults.DisplayOrder | src/pages/PublicResults.tsx:184 | Position i shows rank n − 1 − i. |
| PublicResults.DisplayOrderFacts | src/pages/PublicResults.tsx:184 | Every rank appears exactly once. The first `revealed` entries are exactly the `revealed` lowest places. (With line 241 of the same file.) |
| PublicResults.CurrentReveal | src/pages/PublicResults.tsx:185-186 | A result is on display iff 0 < revealed ≤ n, and it is the one at rank n − revealed. (With line 210 of the same file.) |
| PublicResults.LastRevealIsWinner | src/pages/PublicResults.tsx:184-186 | The last click shows rank 0, labelled as the winner. (With line 115 of the same file.) |
| ChangePassword.HandleSubmit | src/components/admin/ChangePasswordModal.tsx:21-46 | The checks run in order. With no user nothing happens. A wrong old password is reported first, then a new password shorter than 4, then a confirmation mismatch. The password is changed to the new one iff all three pass. |
| ChangePassword.ApplyOutcome | src/components/admin/ChangePasswordModal.tsx:41 | Only the matching user's password changes, and only on success. |
| ChangePassword.ChangeTakesEffect | src/components/admin/ChangePasswordModal.tsx:26 | After a change, the new password is the one the old-password check accepts. (With line 41 of the same file.) |
| ChangePassword.FirstFailureReported | src/components/admin/ChangePasswordModal.tsx:26-39 | A wrong old password is reported whatever the other fields hold, and a short one before a mismatch. |
| Util.RoundHalfUp | frontend/src/utils/calculations.ts:139 | `Math.round(n/d)` is the integer nearest n/d, with halves rounded up. |
| Util.RoundHalfEven | backend/jury_api/views.py:230 | Python's `round(n/d)` is the integer nearest n/d, with halves rounded to the even neighbour. |
| Util.PercentageBounds | frontend/src/utils/calculations.ts:139 | A rounded percentage of scored ≤ total lies in [0, 100] under both roundings. |
| Util.Trim | frontend/src/pages/jury/JuryScoring.tsx:72 | `trim()` is no longer than its input, and it neither starts nor ends with white space. |
| Util.TrimIdempotent | frontend/src/utils/excelImport.ts:91 | Trimming twice equals trimming once. |
| Util.CleanName | frontend/src/utils/auth.ts:4 | `toLowerCase().replace(/[^a-z0-9]/g, '')` yields only lower-case letters and digits, never more than the name's length. |
| Util.LowerCase | frontend/src/utils/auth.ts:4 | `toLowerCase` leaves no ASCII capital; it never shortens the text, and without a dotted capital I it is the character-by-character lower-casing. |
| Util.CleanNameDottedI | frontend/src/utils/auth.ts:4 | A leading `İ` (U+0130) becomes `i` in the user-name base, as JavaScript lower-cases it to `i` plus a combining dot that the filter drops. |
| Util.CleanNameKelvin | frontend/src/utils/auth.ts:4 | A leading Kelvin sign (U+212A) becomes `k` in the user-name base. |
| Util.ReplaceWhitespaceRuns | frontend/src/pages/admin/ManageTeams.tsx:18 | `replace(/\s+/g, '_')` leaves no white space and never lengthens the text. |
| Util.ReplaceWhitespaceRunsIdempotent | frontend/src/pages/admin/ManageTeams.tsx:33 | Rewriting an already rewritten name changes nothing. |
| Util.NatToString | frontend/src/pages/admin/ManageTeams.tsx:34 | `String(n)`: at least one digit, no leading zero except for 0 itself, and one digit iff n < 10. |
| Util.NatToStringRoundTrip | frontend/src/pages/admin/ManageTeams.tsx:34 | The decimal text reads back as the number. |
| Util.PadStartZero | frontend/src/utils/auth.ts:5 | `padStart(w, '0')` pads the text to width w, and leaves a longer text as it is. |
| Assoc.Put | frontend/src/pages/jury/ScoreTeam.tsx:64 | `{...m, [k]: v}`: the map grows by one iff the key is new. |
| Assoc.GetPut | frontend/src/pages/jury/ScoreTeam.tsx:64 | Reading back the written key gives the new value; any other key is unchanged. |
| ListOps.FindIndex | src/contexts/DataContext.tsx:198-200 | `findIndex`: −1 iff no element matches; otherwise the first matching index. |
| ListOps.Upsert | src/contexts/DataContext.tsx:202-208 | The first match is replaced in place and nothing else changes; with no match the value is appended. |
| Sorting.SortByKeySortedPermutation | frontend/src/utils/calculations.ts:88 | The insertion sort that stands for `Array.prototype.sort` returns a sorted permutation. |
| Sorting.SortByKeyStable | frontend/src/utils/calculations.ts:88 | That sort is stable: elements with equal keys keep their order. |

## Left out

- Rendering: JSX, CSS, canvas drawing, charts, modals, routing and the `useEffect`/`useState` wiring of every page. Only the rules the pages compute are modelled.
- Form-loading UI state: `handleOpenModal` in ManageJuries, `handleEdit` in ManageTeams and ManageCriteria (including ManageCriteria's lookup of the selected juries), and the error, success and delayed-close state of the password dialog. They copy values into form fields and decide nothing.
- Confirmation dialogs (`window.confirm` before deletions and before randomizing): the model follows the path where the user agrees; declining does nothing.
- Network and REST plumbing: `frontend/src/services/api.ts` and its 401 interceptor, the awaited API calls in `frontend/src/contexts/DataContext.tsx`, Django REST framework permissions and routers, and the login and logout views. The store methods take the server's reply as a parameter.
- `verify_backend.py` is an HTTP smoke script with no logic of its own.
- Authentication sessions: both `AuthContext.tsx` files mix login with network and storage calls.
- Django ORM queries are in-memory maps keyed by the (jury, team) pair. `unique_together` is the map's key.
- Backend.CreateStep: does not check that the `jury` and `team` ids name an existing jury-role user and an existing team (the foreign keys and `limit_choices_to`), because the model keeps no user or team tables beside the score table.
- Backend.UpdateStep: likewise does not check that a new `jury` or `team` id names an existing jury-role user or team.
- Backend.EntryError: a `scores` key is compared with the criterion ids as text. The source casts it to an integer (`Criterion.objects.get(id=...)`). So keys such as `"01"` or `" 1"` that the cast reads as an existing id are reported here as unknown criteria. A key the cast cannot read (`"abc"`) and a score that is not a number (`"5"`) make the source fail with an uncaught exception (a server error), which this model neither represents nor distinguishes from a 400.
- `log_action` is a database write whose errors are swallowed, so it has no observable effect to state.
- Persistence: `loadData`, `saveData`, `clearData`, `exportData`, `importData` and their JSON parsing, the legacy-key cleanup in `frontend/src/main.tsx`, and session storage. A stored session is a constructor parameter of the data stores.
- Floating point: scores, weights and averages are exact rationals, so binary rounding error (in percentages, for example) is not modelled.
- Calculations.VarianceZero: states the spread as the variance rather than the standard deviation. `Math.sqrt` is monotone and zero only at zero, so both order results and vanish alike.
- SpinningWheel.Spinner.FinishSpin: takes the winning segment as a parameter. `getWinningTeamIndex` and the easing animation are floating-point geometry over the random rotation.
- SpinningWheel.Spinner.SpinWheel: states only the spinning flag. The random target rotation is not modelled.
- Randomness (`Math.random` in `shuffleArray`, `generateRandomPassword` and the wheel) and the clock (`Date.now`, `timezone.now`) are parameters with their stated ranges.
- Spreadsheet libraries: reading a workbook (`readExcelFile`, FileReader) and both `excelExport.ts` files. A sheet reaches the import as a grid of cells.
- ExcelImport: numeric cells hold integers; decimal cell values are not modelled.
- Util.ToLowerAscii: `toLowerCase` is modelled only for the characters whose lower case is an ASCII letter (A–Z and the Kelvin sign); other characters, such as `É`, are kept as they are. The extension check compares against ASCII-only extensions, so its verdict is the same. `Util.LowerCase`, used for user names, also expands the dotted capital I; any other character dropped by the `[^a-z0-9]` filter is dropped whether it is lower-cased or not.
- String lengths are counted in characters, not in UTF-16 code units.
- Form number parsing (`Number(...)`, `parseInt`, `NaN`): form fields arrive as optional values, with an absent value standing for an empty or unparsable field.
- DataStores.DataStore.DeleteAllTeams: states only the end state of the loop of server deletes, not the order of the individual requests.
- Randomizer.ParseTime: states only that a match at the starting position is the result. That it is the leftmost match follows from its definition.
- Randomizer.SlotFallback: says nothing about a negative total (a start time moved back past midnight), for which JavaScript's negative remainders give texts such as `-2h-30` (from `00h00` moved back 90 minutes).
- `src/utils/randomizer.ts` is not part of this model. The older ManageTeams page is modelled against `frontend/src/utils/randomizer.ts`, on the assumption that the older copy exports the same `assignPassageOrder` with the same behaviour; that assumption is not checked.
- The older `ChangePasswordModal.tsx` calls an `updateUser` that the older DataContext does not provide. ChangePassword.ApplyOutcome models the update the dialog asks for.
- Display-only files: `admin.py`, the UI kit, layouts, navigation bars, login pages, dashboards, `src/pages/admin/Results.tsx`, `frontend/src/pages/PublicResults.tsx`, the import modals, `PassageOrderDisplay.tsx` and `TeamPerformanceRadar.tsx`. The `types.ts` files only guide the record shapes.

Behaviour kept as written, each shown by a lemma of the model:

- `TeamScore.get_total` in `backend/jury_api/models.py` sums raw scores without weights, while the back end's tests expect weighted totals.
- The results view counts every sheet, draft or locked, and does not restrict teams to the current event.
- The older spreadsheet extraction reads only the ten preview rows.
- The newer ManageTeams `handleRandomize` reads `passage_order` while the randomizer writes `passageOrder`, so its updates resend the old values.
