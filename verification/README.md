# Verified model of the mail indexing and case back end

A Dafny 4.11 model of the parts of the system whose correctness is hardest to
see by reading: indexing a mailbox folder by bisecting its date range, the
cancellable indexing run, the case files with their links and timeline, the
optimistic lock on a case, and several smaller pieces of the back end and the
front end. `dafny verify dfyconfig.toml` checks everything.

| module | what it models |
|---|---|
| `DateBisection` | date windows as closed intervals of microseconds, the fetch ceiling, the tree of windows that bisection visits, and how many windows there can be |
| `WindowSharpness` | folders that need as many windows as the bounds allow |
| `FolderIndexing` | the queue loop of one folder, as a method on the folder's row |
| `IndexRun` | a run, an administrator who cancels, the workflow engine, job deletion and a restart, as one interleaving state machine |
| `IndexReach`, `IndexRows`, `IndexCancel`, `IndexFlights`, `IndexTotals` | that machine: what it can reach under a policy of the engine, what the run's row shows, when a cancel is honoured, how many jobs are in flight and what becomes of cancelled and finished ones, what the total of a successful run means |
| `CaseTables`, `CaseStore` | the tables of the case files, and every operation that links, unlinks, searches, refreshes, reopens |
| `CaseMerge`, `MailboxDeletion` | merging cases; deleting cases, messages, attachments and mailboxes, the last with its preview |
| `CaseHistory` | arbitrary sequences of requests to that store, merging and deleting included |
| `CaseLock` | edits of one case: read, validate, guarded write and audit entries of several requests, interleaved in any way |
| `FolderForest` | linking a flat folder list into a forest, and the three-valued selection |
| `MessageQuery` | the condition builder of the message search, and pages |
| `Sessions`, `LoginLimiter` | sliding sessions with a fixed maximal age; the pruned failure dictionary |
| `TemplateScanner`, `TimelineGroups` | one-pass substitution of variables; grouping documents under their messages |
| `Subjects` | removing reply and forward prefixes from a subject |
| `Options`, `Texts` | shared: optional values, white space |

## What was found

Some statements in the repository's comments, or that one would expect, are
not true of the code. Each has a proved condition or a proved counterexample.

- A folder's reported total can exceed the true number of messages. The
  workflow asks for `sentDateTime ge` the lower and `le` the upper bound
  (n8n/WorkFlows/02-mailingai-fetch-message-series.json:77), so a message on
  the midpoint of a split window is counted in both halves.
  `DateBisection.TotalBalance` gives the exact balance. The total of a range is
  never too high, whatever was sent at some given times, if and only if none of
  them is a cut of the range (`NeverTooHighIff`); every range longer than a day
  has a folder that is reported twice over (`DoubleCounted`).
- For the same reason the 64-window valve is unreachable only below 3800
  messages in general, and below 5700 when no message sits on a cut
  (`WindowSharpness.LimitIff`, for every range of 2^13 to 2^14 days). The
  general bounds behind it are reached, for every number of messages until
  bisection runs out of windows to cut (`WindowBoundReached`,
  `OffCutBoundReached`).
- The comment that no two fetches are ever in flight
  (backend/app/services/mailbox_index_service.py:308-309) holds for a run with
  folders to index exactly if the engine starts only queued jobs and finishes
  each before the run gives up on it (`IndexFlights.NeverTwoIff`). Neither is
  certain: the workflow step that marks a job as running has no guard on the
  job's status (n8n/WorkFlows/07-mailingai-execute-analysis-job.json:32), so a
  late one revives a finished job (`LateStartPutsTwoInFlight`); and a job that
  outlives the twenty-minute wait is abandoned, not stopped
  (`TimeoutPutsTwoInFlight`).
- For the same reason two more comments hold exactly if the engine starts only
  queued jobs: that a cancelled job keeps its status
  (backend/app/repositories/jobs_repository.py:107-110; `CancelSticksIff`), and
  that only finished jobs are deleted
  (backend/app/services/jobs_service.py:109-113; `OnlyFinishedAreDeletedIff`).
- A request to cancel is honoured, whatever happens next, exactly when the run
  will look at the flag again before it is over
  (`IndexCancel.CancelHonouredIff`). It can be missed between the two reads of
  one poll, by discovery or by the last fetch of the last folder, and from there
  on; the run then ends as failed, partial or successful
  (`CancelledRunEndsFailed`).
- Merging keeps one timeline row for each linked message exactly when no
  message was linked in two of the merged cases (`CaseMerge.MergedInStepIff`);
  no other request puts a case out of step (`CaseHistory.Run`). A
  user who could edit one source and only read another may end up with either;
  whether "edit" survives every order of the rows is decided by
  `CaseMerge.EditSurvivesEveryOrder`. The comment that owners of the sources
  keep an explicit permission (backend/app/repositories/cases_repository.py:1008-1011)
  is not what the code does: they always get "edit" (`CaseMerge.MergeAccess`).
- Edits without the version stamp never leave a closed case without a closing
  note, or closed without findings, exactly if they leave the status, the
  outcome and the note alone (`CaseLock.HarmlessIff`). One such edit among
  stamped ones is enough to break it otherwise (`OneLooseEdit`).
- The audit log tells just the values that were overwritten exactly if no
  reopening replaced a row that somebody else had reopened in the meantime
  (`CaseLock.LogIsTrueIff`, `ReopenedTwice`).
- Folders whose parent pointers run in a circle are dropped from the folder
  tree (`FolderForest.PermutationIff`).
- Pages of a search can repeat or miss messages exactly when rows of equal rank
  are split between two pages (`MessageQuery.NextPageIff`, and
  `PagesCompleteIff` for any number of pages).
- Login requests that overlap pass the limit together: with k of an address
  under way at once, 4 + k failures are possible at one moment and no more
  (`LoginLimiter.FailuresAreSpread`, `OverlappingRequests`).

## Assumptions

Jobs are environment steps: the workflow engine may start, finish or fail a job
at any time, subject to the guards of its own statements. A fetch that finishes
reports the number of messages in the closed window, up to 2000 (20 pages of
100, n8n/WorkFlows/00-mailingai-graph-fetch-subworkflow.json:114). The searches
that find messages for a case are arbitrary functions that only return indexed
messages; so are the patterns of the exclusion rules and the matching operators
of the database. Every update of a case row gets a later stamp than the one
before. Clocks do not run backwards. Foreign keys behave as in
config/postgres/init/20260716_0004_mailing_cases_timeline.sql:29-53. One request
to the case store is one atomic step; `CaseLock` models the steps inside an edit.

## Model

| member | source | states |
|---|---|---|
| DateBisection.HalvesCount | backend/app/services/mailbox_index_service.py:269-272 | the midpoint lies strictly inside, and the two halves hold the messages of the window and those on the midpoint once more |
| DateBisection.MidpointIs | backend/app/services/mailbox_index_service.py:270 | the cut is the middle of the window, rounded to the nearest microsecond and on a tie to the even one |
| DateBisection.CutIff | backend/app/services/mailbox_index_service.py:262-274 | a window is cut iff it holds 1900 messages or more and is longer than a day; else it is fetched once and reports what it holds, up to 2000 |
| DateBisection.TotalBalance | backend/app/services/mailbox_index_service.py:262-274 | what a complete bisection reports plus what the ceiling cut off is the number of messages in range plus those counted twice |
| DateBisection.TotalOffCut | backend/app/services/mailbox_index_service.py:262-274 | with no message on a cut the total never exceeds the true number, and equals it iff no accepted window is over the ceiling |
| DateBisection.LossIffOverfull | backend/app/services/mailbox_index_service.py:21-23 | messages are lost iff some accepted window holds more than a fetch returns |
| DateBisection.OverfullLeafIsShort | backend/app/services/mailbox_index_service.py:264 | such a window is at most one day long |
| DateBisection.BurstOnCutTotal | backend/app/services/mailbox_index_service.py:262-274 | 1900 messages sent at any cut of any range are reported as 3800 |
| DateBisection.NeverTooHighIff | backend/app/services/mailbox_index_service.py:262-274 | for any set of sending times, the total is never above the true number iff none of the times is a cut of the range |
| DateBisection.DoubleCounted | backend/app/services/mailbox_index_service.py:270-272 | every range longer than a day has a folder that is reported twice over |
| DateBisection.SizeBySplits | backend/app/services/mailbox_index_service.py:222-274 | windows fetched are one plus twice the number of splits over all depths, and splitting stops when windows are a day long |
| DateBisection.SplitsAtDepth | backend/app/services/mailbox_index_service.py:262-272 | at one depth at most 2^d windows split, and at most twice N/1900 |
| DateBisection.SplitsAtDepthOffCut | backend/app/services/mailbox_index_service.py:262-272 | at most N/1900 split when no message sits on a cut |
| DateBisection.WindowBound | backend/app/services/mailbox_index_service.py:16-23 | the bound on the number of windows for any folder and range |
| DateBisection.SmallFolderFewWindows | backend/app/services/mailbox_index_service.py:16-23 | fewer than 3800 messages, or 5700 off the cuts, need at most 55 windows until 2044 |
| WindowSharpness.WindowBoundReached | backend/app/services/mailbox_index_service.py:262-272 | for every range that takes just k halvings and every n below 1900 * (2^(k-1) + 1), some folder of n messages needs as many windows as the bound allows |
| WindowSharpness.OffCutBoundReached | backend/app/services/mailbox_index_service.py:262-272 | and the same off the cuts, for every n below 1900 * (2^k + 1) |
| WindowSharpness.LimitIff | backend/app/services/mailbox_index_service.py:23 | for a range of 2^13 to 2^14 days, no folder of n messages exceeds the valve of 64 iff n is below 3800, and none off the cuts iff it is below 5700 |
| WindowSharpness.ManyWindows | backend/app/services/mailbox_index_service.py:229-232 | any number of messages from 3800 on can need 103 windows |
| WindowSharpness.ManyWindowsOffCut | backend/app/services/mailbox_index_service.py:229-232 | any number from 5700 on can need 79 with none on a cut |
| FolderIndexing.CoversSplit | backend/app/services/mailbox_index_service.py:270-272 | replacing a window of a tiling by its halves tiles the same range |
| FolderIndexing.LevelsNext | backend/app/services/mailbox_index_service.py:236-272 | the queue is always windows of one depth followed by windows of the next |
| FolderIndexing.NodeSpan | backend/app/services/mailbox_index_service.py:270-272 | at depth d a window is a 2^d-th of the range long, but for less than a microsecond |
| FolderIndexing.TurnSplits | backend/app/services/mailbox_index_service.py:264-272 | a split keeps tiling, levels and accounts |
| FolderIndexing.TurnAccepts | backend/app/services/mailbox_index_service.py:273-274 | an accepted count moves from what is queued to what is counted |
| FolderIndexing.TurnFails | backend/app/services/mailbox_index_service.py:258-260 | a failed window leaves the total alone and stays accounted for |
| FolderIndexing.HonestIff | backend/app/services/mailbox_index_service.py:262 | a fetch is honest iff it reports the messages of its window, 2000 if there are more, or nothing at all if there are none |
| FolderIndexing.FolderRow.Walk | backend/app/services/mailbox_index_service.py:222-286 | the loop keeps tiling, levels and accounts; the flag was down before every fetch it made; it fetches windows in the order in which they joined the queue, adds exactly the counts that are not refused and notes exactly the failures; it stops only for the valve, the flag, a cancelled job or an empty queue |
| FolderIndexing.FolderRow.Index | backend/app/services/mailbox_index_service.py:205-297 | accepted, failed and remaining windows tile the range; no fetch was made with the flag up; a completed folder's total and window count are those of the full bisection; undisturbed, it completes iff at most 64 windows are needed |
| FolderIndexing.IndexSmallFolder | backend/app/services/mailbox_index_service.py:205-297 | a small undisturbed folder ends complete within 55 fetches, with the right total iff no accepted window is over the ceiling |
| IndexRun.AtMostOneJobAfterCancel | backend/app/services/mailbox_index_service.py:121-181 | in every interleaving, once the flag is up the run creates no job but one it was about to create, and starts no folder but one it was about to start |
| IndexRun.OnlyFlaggedAreCancelled | backend/app/services/mailbox_index_service.py:325-386 | only a run whose flag went up ends as cancelled |
| IndexRun.StoppingStep | backend/app/repositories/mailbox_index_repository.py:195-205 | every single step of any actor keeps that |
| IndexRun.BooksBalance | backend/app/repositories/mailbox_index_repository.py:118-186 | in every state the run's row agrees with the folders' rows and the number of jobs is bounded |
| IndexRun.RunOutcome | backend/app/services/mailbox_index_service.py:325-386 | at most 1 + 64 jobs a folder; over, the total is the sum of the folders, and it is a success iff discovery succeeded and every folder is complete |
| IndexRun.TotalAtBoundary | backend/app/services/mailbox_index_service.py:355-371 | at every folder boundary the run's total is the sum of the folders' totals |
| IndexRun.RunEnds | backend/app/services/mailbox_index_service.py:145-181 | whatever the others do, a run is over when it has taken 31045 steps of its own for each folder and 487 more |
| IndexRun.JobMoves | n8n/WorkFlows/07-mailingai-execute-analysis-job.json:534 | in every step of any actor, a job that is gone stays gone, and a cancelled one gets no result, though it may be started again |
| IndexReach.RunSucceeds | backend/app/services/mailbox_index_service.py:300-386 | runs do succeed: for any counts below 1900, one for each folder, an orderly run ends as a success with these folders complete and their sum as its total |
| IndexRows.RowShows | backend/app/repositories/mailbox_index_repository.py:118-210 | in every interleaving the run's row shows whether the run is over, names the job it waits for, and counts the finished folders, which are the first ones |
| IndexRows.CancelReachesJob | backend/app/services/mailbox_index_service.py:121-142 | so a cancel request reaches just the job that the run waits for, and stops it if it is active |
| IndexRows.CancelHeardIff | backend/app/repositories/mailbox_index_repository.py:195-205 | a cancel request raises the flag iff the run is not over, else changes nothing |
| IndexRows.RestartFails | backend/app/repositories/mailbox_index_repository.py:256-275 | a restart fails a run that was not over, and changes nothing else |
| IndexRows.DispatchMarks | backend/app/repositories/jobs_repository.py:122-136 | a job that could not be dispatched is marked as failed if it is still queued, and a dispatched one is left alone |
| IndexFlights.NeverTwoIff | backend/app/services/mailbox_index_service.py:306-309 | no run ever has two jobs in flight iff there is no folder, or the engine starts only queued jobs and no poll gives up on an active one |
| IndexFlights.OnlyFinishedAreDeletedIff | backend/app/services/jobs_service.py:105-114 | no active job is ever deleted iff the engine starts only queued jobs |
| IndexFlights.RunningJobIsDeleted | backend/app/services/jobs_service.py:105-114 | else a finished job that is started again after the check is deleted while it runs |
| IndexFlights.CancelSticksIff | backend/app/repositories/jobs_repository.py:104-120 | a cancelled job stays cancelled until it is deleted iff the engine starts only queued jobs |
| IndexFlights.CancelledJobSucceeds | n8n/WorkFlows/07-mailingai-execute-analysis-job.json:32 | else a job cancelled while queued is started all the same, and its success replaces the cancellation |
| IndexFlights.OneJobAtATime | backend/app/services/mailbox_index_service.py:306-309 | under both conditions no two jobs are in flight |
| IndexFlights.LateStartPutsTwoInFlight | backend/app/services/mailbox_index_service.py:306-309 | an unguarded late start puts two jobs in flight, even if every job ends in time |
| IndexFlights.TimeoutPutsTwoInFlight | backend/app/services/mailbox_index_service.py:161-181 | a fetch still running after 240 polls is left running while the next window of the same folder is fetched |
| IndexCancel.CancelHonouredIff | backend/app/services/mailbox_index_service.py:161-172 | from any state with the flag up, every continuation that ends the run ends it as cancelled iff the run looks at the flag again before it is over |
| IndexCancel.StaysCaught | backend/app/services/mailbox_index_service.py:234-256 | no step of any actor lets a caught cancel go |
| IndexCancel.CancelledRunEndsFailed | backend/app/services/mailbox_index_service.py:161-180 | a cancel between the two reads of a poll of discovery ends the run as failed |
| IndexTotals.SuccessCountsAll | backend/app/services/mailbox_index_service.py:300-386 | with honest fetches, a run that ends as a success reports the sum over all folders of what a complete bisection of the folder reports |
| IndexTotals.SuccessIsRightIff | backend/app/services/mailbox_index_service.py:300-386 | and with no message on a cut that is the true number of messages iff no accepted window was over the ceiling |
| IndexTotals.ReportedAtMost | backend/app/services/mailbox_index_service.py:300-386 | with honest fetches, at every moment and however the run ends, its total is at most the messages of the folders walked, each cut message counted once more for each cut |
| IndexTotals.NeverTooMany | backend/app/services/mailbox_index_service.py:300-386 | so with no message on a cut no run ever reports too many |
| CaseTables.UpsertAllWins | backend/app/repositories/cases_repository.py:194-214 | the old link, if any, and rows in any order decide together: highest confidence with the source that gave it first, relationship of the first mention |
| CaseTables.UpsertAllFrame | backend/app/repositories/cases_repository.py:194-214 | linking to one case changes no other case and never unlinks |
| CaseTables.KeptAfterLinking | backend/app/services/cases_service.py:510-546 | linking and telling the timeline keeps every case in step that was: one row for each link, none for other messages |
| CaseTables.KeptAfterUnlinking | backend/app/repositories/cases_repository.py:260-275 | so does unlinking and deleting the message's rows |
| CaseTables.KeptAfterDocument | backend/app/repositories/cases_repository.py:324-348 | and adding a document row that was missing |
| CaseStore.GuardIff | backend/app/services/cases_service.py:501-505 | the guard of every change: not found without access, closed, denied for a share that is read only, and passed exactly for an open case by an administrator, its owner or a share with edit |
| CaseStore.CaseStore.AccessIff | backend/app/repositories/cases_repository.py:69-92 | who can read a case and who can edit it |
| CaseStore.RuledOutIff | backend/app/repositories/cases_repository.py:1257-1287 | a rule takes a message out iff it is enabled, matches, and is local to the case or global to its owner |
| CaseStore.IsNewIff | backend/app/services/cases_service.py:415-488 | a message is new iff the conversation, the code or the heuristic search finds it, it is not linked and no rule takes it out |
| CaseStore.NewLinkIs | backend/app/services/cases_service.py:426-488 | it is linked with 1.0 if the conversation has it, else 0.7 if the code finds it, else 0.4 |
| CaseStore.CaseStore.FindNewMatches | backend/app/services/cases_service.py:415-488 | exactly the messages that a route finds, that are not linked and that no rule of the case or its owner excludes, each once with the best route |
| CaseStore.CaseStore.Refresh | backend/app/services/cases_service.py:491-555 | links exactly the new matches of an open case the user may edit, tells each once, and otherwise changes nothing |
| CaseStore.CaseStore.RefreshTwice | backend/app/services/cases_service.py:491-555 | on a fixed index, refreshing twice does what refreshing once does |
| CaseStore.RefreshLeavesNothing | backend/app/services/cases_service.py:415-488 | after linking the new matches there are none |
| CaseStore.SameNewMatches | backend/app/services/cases_service.py:587-659 | two counts of the new matches agree |
| CaseStore.NewMatchesLocal | backend/app/services/cases_service.py:426-488 | the new matches of a case depend on no other case |
| CaseStore.CaseStore.Create | backend/app/services/cases_service.py:208-412 | a new case, or the existing one if the user may edit it, gets the seeds that the creator's rules allow and the heuristic finds that the rules of the case and its owner allow; messages linked before are not told again; a closed or read-only case is left alone |
| CaseStore.AllowedAre | backend/app/services/cases_service.py:136-153 | the filter keeps exactly the messages that no applicable rule matches, and all of them for a case without owner |
| CaseStore.AllowedFirst | backend/app/services/cases_service.py:228-247 | the first message kept, which becomes the primary one, is the first of the list that no rule takes out |
| CaseStore.SeedsAre | backend/app/services/cases_service.py:223-251 | the seeds are the finds that no rule of the creator takes out, or the named message if it is indexed and visible |
| CaseStore.RelatedAre | backend/app/services/cases_service.py:341-359 | the further finds are those that no rule of the case or of its owner takes out |
| CaseStore.NewCaseLinks | backend/app/services/cases_service.py:309-373 | a new case links its seeds with the confidence and the source of their route, the first as primary, and its further finds with 0.4 |
| CaseStore.CaseStore.LinkSeeds | backend/app/services/cases_service.py:309-409 | seeds are linked with the confidence of their route, further finds with 0.4, and only what was not linked gets rows |
| CaseStore.CaseStore.Add | backend/app/services/cases_service.py:694-760 | links one visible message by hand with confidence 1, once |
| CaseStore.CaseStore.Unlink | backend/app/repositories/cases_repository.py:260-275 | removes a link with every row that came from the message, and says whether there was one |
| CaseStore.CaseStore.Remove | backend/app/services/cases_service.py:763-781 | the same behind the access checks, marking the case stale iff something was removed |
| CaseStore.CaseStore.BulkRemove | backend/app/services/cases_service.py:801-826 | removes exactly the named links and their rows, and counts a message named twice once |
| CaseStore.CaseStore.Backfill | backend/app/repositories/cases_repository.py:324-348 | each missing document row of the message is added once in every case linked to it, and no other count changes |
| CaseStore.CaseStore.RecoverAttachment | backend/app/api/messages.py:165-177 | an attachment that appears later breaks nothing |
| CaseStore.CaseStore.Reopen | backend/app/services/cases_service.py:666-687 | opens a closed case, forgets the count and links exactly the new matches |
| CaseStore.CaseStore.Scan | backend/app/services/cases_service.py:636-649 | a closed case only gets the number of its new matches |
| CaseStore.CaseStore.RefreshAll | backend/app/services/cases_service.py:587-659 | every open case the user may change, and whose searches work, ends with its old links and those to its new messages; other cases keep their links, and closed ones carry the number of their new matches; the report counts cases asked, cases that gained links, links gained, failures, and closed cases with new messages |
| CaseStore.CaughtUpNext | backend/app/services/cases_service.py:611-626 | refreshing one more case leaves what the others have caught up with as it is |
| CaseStore.CaseStore.RefreshAllThenReopen | backend/app/services/cases_service.py:636-687 | the stored number is the number of the case's new messages, and reopening links exactly these |
| CaseHistory.Serve | backend/app/services/cases_service.py:208-826 | every request, merging and deleting included, does what it is for if its user may, else nothing; it keeps references intact and every case in step but those merged from cases that shared a message; a closed case keeps its links until it is opened, merged or deleted, but for deleted messages |
| CaseHistory.Run | backend/app/services/cases_service.py:208-826 | the same at every moment of every run: one "email sent" row for each linked message and none for others, at most one document row for each attachment |
| CaseHistory.NoMergeNoDouble | backend/app/repositories/cases_repository.py:992-996 | in a run without a merge of cases that shared a message, every case is in step |
| CaseMerge.InsertedIsMerged | backend/app/repositories/cases_repository.py:965-990 | whatever the row order, the new case links the union, each message with its highest confidence, a source that gave it and a relationship that it had |
| CaseMerge.NestedMerge | backend/app/repositories/cases_repository.py:965-990 | merging in two rounds links the same messages with the same confidences as merging once |
| CaseMerge.MoveTimes | backend/app/repositories/cases_repository.py:992-996 | no timeline row is lost or invented |
| CaseMerge.MergedInStepIff | backend/app/repositories/cases_repository.py:992-996 | from sources in step comes a case with one row for each link iff no message was linked in two sources |
| CaseMerge.OthersInStep | backend/app/repositories/cases_repository.py:992-996 | merging puts no other case out of step |
| CaseMerge.MergeAccess | backend/app/repositories/cases_repository.py:1008-1030 | exactly the people of the sources get in, owners with edit |
| CaseMerge.EditSurvivesEveryOrder | backend/app/repositories/cases_repository.py:1024-1026 | edit survives every row order iff none of the user's shares is read only |
| CaseMerge.Merge | backend/app/services/cases_service.py:558-584 | refuses fewer than two distinct cases or one the user may not edit, else moves links, timeline, notes, evidence and access to a new case, adds one merge event, and leaves the new case in step iff no message was shared |
| CaseMerge.MergeRows | backend/app/repositories/cases_repository.py:932-1065 | the transaction, with all references intact |
| MailboxDeletion.TouchedAre | backend/app/repositories/cases_repository.py:831-851 | the touched cases are split into those that hold nothing else and those that do; a message of no known mailbox counts as other |
| MailboxDeletion.Preview | backend/app/repositories/cases_repository.py:854-865 | how many messages the mailbox has, how many cases hold messages of it and no others, and how many hold both |
| MailboxDeletion.Delete | backend/app/repositories/cases_repository.py:868-929 | no message or attachment of the mailbox and no link to it is left, other links are untouched, only cases without other messages disappear, with their shares, notes and evidence and no others, and each case that stays is told once of every link it loses |
| MailboxDeletion.PreviewThenDelete | backend/app/repositories/cases_repository.py:854-929 | the preview is exactly the effect on the same state |
| MailboxDeletion.KeptAfterForgetting | backend/app/repositories/cases_repository.py:920-923 | rows that lose their message or their attachment leave every case in step that was |
| MailboxDeletion.ForgetIs | backend/app/repositories/cases_repository.py:920-923 | such a row loses nothing but its origin |
| MailboxDeletion.DropMessages | backend/app/repositories/messages_repository.py:386-424 | deleting any messages takes their attachments and links, leaves the rows without their origin, and keeps cases in step |
| MailboxDeletion.DropAttachment | backend/app/repositories/messages_repository.py:258-269 | deleting an attachment keeps links, and the rows without their origin |
| MailboxDeletion.DeleteCases | backend/app/repositories/cases_repository.py:381-389 | exactly the cases in the scope that the user can see go, with all their rows; links, shares, notes and evidence of the others stay |
| CaseLock.ValidateIff | backend/app/services/cases_service.py:1168-1188 | an edit of a case that is not closed passes iff it leaves a closed case justified; an edit of a closed one iff it reopens it or sets only the status |
| CaseLock.RefusedWith | backend/app/services/cases_service.py:1168-1188 | which of the three errors an edit gets, told by the row it would leave |
| CaseLock.BlankIff | backend/app/services/cases_service.py:1182-1183 | a note is blank iff it is missing or nothing but white space |
| CaseLock.WriteGoesThroughIff | backend/app/repositories/cases_repository.py:404-450 | a write goes through iff the row has the expected stamp, or none was sent, and the edit leaves a status; else nothing changes |
| CaseLock.WriteLeaves | backend/app/services/cases_service.py:1188-1192 | it sets just the fields of the edit; closing and reopening for new messages forget the count of new messages, reopening by an edit does not |
| CaseLock.StatusStays | backend/app/repositories/cases_repository.py:404-450 | no run leaves a case without a status |
| CaseLock.ValidatedAgainstReplaced | backend/app/repositories/cases_repository.py:404-450 | in every interleaving a write that carried a stamp was validated against exactly the row it replaced |
| CaseLock.HarmlessIff | backend/app/services/cases_service.py:1155-1200 | for any set of fields: if edits without a stamp set only these, no interleaving closes a case unjustified, iff status, outcome and closing note are not among them |
| CaseLock.LooseEditsAreHarmless | backend/app/services/cases_service.py:1174-1188 | such edits never leave a closed case without a closing note or without findings |
| CaseLock.OneLooseEdit | backend/app/services/cases_service.py:1155-1200 | for each of the three fields there are an edit of it alone and another edit that both pass on the same row and together leave the case unjustified |
| CaseLock.ClosedIsJustified | backend/app/services/cases_service.py:1174-1188 | if every accepted edit carried a stamp, a closed case always has a closing note and is never one without findings |
| CaseLock.UnguardedEditsCloseWithoutNote | backend/app/services/cases_service.py:1155-1200 | without stamps two edits can close a case without a note |
| CaseLock.LogIsComplete | backend/app/services/cases_service.py:1202-1219 | in every interleaving each change occurs in the log and among the entries still to be written exactly as often as it was made |
| CaseLock.LogTellsOverwrittenValues | backend/app/services/cases_service.py:1202-1219 | at rest, an entry occurs as often as some write changed that field from the value it overwrote |
| CaseLock.LogIsTrueIff | backend/app/services/cases_service.py:666-687 | at rest, the log counts exactly the overwritten values iff every reopening replaced a closed row |
| CaseLock.ReopenedTwice | backend/app/services/cases_service.py:674-686 | two reopenings that both read the closed case: the second logs a value it did not overwrite |
| CaseLock.ReplayEdit | backend/app/services/cases_service.py:1202-1219 | the entries of an edit say what the edit does |
| CaseLock.SerialRunsReplay | backend/app/services/cases_service.py:1155-1221 | runs of requests that do not overlap can be replayed from the log |
| FolderForest.Link | backend/app/services/messages_service.py:305-312 | every folder stands once, in its parent's list or among the roots, in the order of the list |
| FolderForest.ForestExists | backend/app/services/messages_service.py:289-313 | the lists always describe a finite forest |
| FolderForest.ForestHolds | backend/app/services/messages_service.py:289-313 | a folder stands in it once if its parents lead to a root, else not at all |
| FolderForest.PermutationIff | backend/app/services/messages_service.py:289-313 | the forest is a permutation of the folders iff no parents run in a circle |
| FolderForest.CountSelected | frontend/src/components/FolderTree.tsx:15-24 | counting agrees with collecting |
| FolderForest.Show | frontend/src/components/FolderTree.tsx:41-43 | checked iff the whole subtree is selected, unchecked iff none of it |
| FolderForest.Toggle | frontend/src/components/FolderTree.tsx:45-54 | selects the whole subtree, or takes it out if all of it was selected, and nothing else |
| FolderForest.ToggleTwice | frontend/src/components/FolderTree.tsx:45-54 | twice is as if nothing happened iff the box was not in between |
| FolderForest.ToggleApart | frontend/src/components/FolderTree.tsx:45-54 | a click changes no box of a node that is neither above nor below |
| FolderForest.ToggleBelow | frontend/src/components/FolderTree.tsx:45-54 | and every box below follows it |
| MessageQuery.Build | backend/app/repositories/messages_repository.py:23-86 | under its parameters, and any appended later, the conditions select what the filters ask for; the k-th condition names the k-th parameter |
| MessageQuery.Builder.Add | backend/app/repositories/messages_repository.py:43-45 | one more filter restricts by just that filter |
| MessageQuery.PageQuery | backend/app/repositories/messages_repository.py:93-154 | limit and offset get numbers of their own and disturb no condition |
| MessageQuery.Count | backend/app/repositories/messages_repository.py:157-195 | the number of messages the filters ask for |
| MessageQuery.NextPageIff | backend/app/repositories/messages_repository.py:127-154 | the next page completes every beginning iff the rank changes at the cut |
| MessageQuery.PagesInOrder | backend/app/repositories/messages_repository.py:127-154 | consecutive pages come in the asked order, wherever they are cut |
| MessageQuery.PagesShowEverything | backend/app/repositories/messages_repository.py:127-195 | if no rank is split between pages, consecutive pages show every row once, in order |
| MessageQuery.PagesCompleteIff | backend/app/repositories/messages_repository.py:127-154 | for distinct rows, n pages are complete whatever listings the database answers with iff no cut between them splits a rank |
| MessageQuery.PagesAreTheListing | backend/app/repositories/messages_repository.py:127-154 | under a total order consecutive pages concatenate to the full result |
| Sessions.Session.GetValid | backend/app/auth/sessions.py:41-56 | a use is accepted iff not revoked, within the sliding time of the last accepted use and before the deadline; the stored expiry never passes the deadline, and a session found too old is revoked |
| Sessions.Session.Revoke | backend/app/repositories/sessions_repository.py:48-55 | nothing is accepted afterwards |
| Sessions.RejectedForGood | backend/app/auth/sessions.py:41-56 | after one rejected use every later use is rejected |
| Sessions.KeptAlive | backend/app/auth/sessions.py:53-55 | uses close enough to each other are all accepted until the deadline |
| LoginLimiter.FreshLater | backend/app/api/auth.py:49-56 | pruning at one time changes no later answer |
| LoginLimiter.FreshAre | backend/app/api/auth.py:51-56 | pruning keeps each failure of the last 300 seconds and drops every other |
| LoginLimiter.Limiter.Check | backend/app/api/auth.py:49-61 | an address is blocked iff five of its failures since the last success happened in the last 300 seconds; addresses without any are forgotten |
| LoginLimiter.Serve | backend/app/api/auth.py:139-157 | over any sequence of overlapping requests the service remembers what decides as the full history would |
| LoginLimiter.FailuresAreSpread | backend/app/api/auth.py:139-157 | with at most k requests of an address under way, any 5 + k failures in a row span at least 300 seconds |
| LoginLimiter.SpreadNext | backend/app/api/auth.py:57-65 | one more failure that leaves few enough fresh keeps that |
| LoginLimiter.OverlappingRequests | backend/app/api/auth.py:139-157 | 4 + k failures at one moment are reached with k requests under way |
| TemplateScanner.PrintParse | backend/app/services/mail_templates_service.py:24 | printing the parse of any text gives back the text |
| TemplateScanner.MatchesAreApart | backend/app/services/mail_templates_service.py:24 | variables neither nest nor overlap |
| TemplateScanner.VarsAreMatches | backend/app/services/mail_templates_service.py:24 | every segment stands at its place, and a variable is a match there |
| TemplateScanner.MatchesAreVars | backend/app/services/mail_templates_service.py:24 | every match of the text is a variable of the parse |
| TemplateScanner.Substitute | backend/app/services/mail_templates_service.py:125-136 | one pass is parse, fill in, concatenate; inserted values are never looked at again |
| TemplateScanner.OneVariable | backend/app/services/mail_templates_service.py:125-132 | a variable becomes the case's own value, else the one typed in, else nothing |
| TemplateScanner.NoVariables | backend/app/services/mail_templates_service.py:134 | a text without variables stays as it is |
| Subjects.NormalizeSubject | backend/app/services/cases_service.py:54-63 | the loop ends where no prefix is left, and trims what remains; a subject without prefix and outer white space comes back as it is |
| Subjects.PrefixIff | backend/app/services/cases_service.py:46 | the scan takes a whole text iff it is "re", "rv", "fw" or "fwd" in any case, then a colon, with any white space around them |
| Subjects.NormalIff | backend/app/services/cases_service.py:46-63 | the normal subject is the one text, bare and without prefix, from which the subject is made by putting prefixes in front and white space around |
| Subjects.ReplyHasSameSubject | backend/app/services/cases_service.py:46-63 | any reply or forward prefix in front leaves the normal subject as it is |
| Subjects.NormalIsNormal | backend/app/services/cases_service.py:46-63 | the normal subject has no prefix left, and normalising it again changes nothing |
| Texts.SpacesAre | backend/app/services/cases_service.py:63 | the 29 characters of white space |
| Texts.StripIs | backend/app/services/cases_service.py:63 | stripping takes the white space at both ends and nothing else |
| TimelineGroups.GroupForView | frontend/src/utils/timeline.ts:18-38 | the pass over the timeline computes the grouping |
| TimelineGroups.NamelessAlone | frontend/src/utils/timeline.ts:18-38 | a row without a message, or with an empty one, is shown by itself |
| TimelineGroups.GroupForReport | backend/app/case_export.py:109-131 | so does the one of the report |
| TimelineGroups.ReportIsView | backend/app/case_export.py:109-131 | the report shows the messages of the view with the same documents |
| TimelineGroups.PermutationIff | frontend/src/utils/timeline.ts:18-38 | every row is shown exactly once iff the message of each attached document has exactly one "email sent" row |
| TimelineGroups.CaseInStepIsShownWhole | frontend/src/utils/timeline.ts:18-38 | a case whose timeline is in step with its links is shown whole, documents of deleted attachments included |
| TimelineGroups.DocumentUnderItsMessage | frontend/src/utils/timeline.ts:18-38 | in such a case every shared document is shown under the message it came with |

## Left out

- Old AI runs, batch rows and notifications of merged cases: they keep a null case and are not part of this model.
- CaseStore.CaseStore.Create: the lookup of an existing case by code or title is an argument; a seed found by a search is not checked against the local rules of an existing case, because the code does not either.
- CaseStore.CaseStore.RefreshAll: a failing search is a set of cases; errors that occur after a search, while links are written, are not modelled.
- MailboxDeletion.DropMessages: which messages a folder or a date range selects is not modelled; any set may be deleted.
- IndexTotals.SuccessCountsAll: what a folder holds does not change while it is being indexed.
- CaseMerge.Merge: the type, title and texts of the new case are not modelled.
- CaseLock.ClosedIsJustified: access checks and the vanishing of the case between read and write are not modelled.
- FolderForest.Link: children are lists of ids in a map rather than nodes that point at each other.
- MessageQuery.Build: the text of the conditions, ILIKE, full-text search and regular expressions are arbitrary functions; an invalid attachment pattern is not modelled.
- TimelineGroups.GroupForView: message ids that coincide with names every JavaScript object has are not modelled.
- IndexRun.BooksBalance: the read of the folder list and the writes of the folder rows after discovery are one step, and so are a folder's final status and its last progress.
- Starting a run and retrying a job: that at most one run is active is the unique index of config/postgres/init/20260729_0008_mailing_mailbox_index_runs.sql:43-44, and a retry only inserts a new row.
- Overlapping refreshes of one case: the code does not protect them.
- Sent mail, reminders, AI runs, charts, PDF layout, HTML and Markdown conversion, encryption, password hashing, cookies, OAuth.
- Tenants, presets, provider roles, notification flags, batch counters, CRUD wrappers: each reads or writes single rows of its own table, and nothing modelled here depends on them.
- Concurrent transactions on the case tables other than the edit of one case.
