# Verification of the scheduling platform's hard core

This project models the parts of the lunch scheduling platform in which a mistake is hard to
see by reading one function, and proves what they promise for all inputs, all runs and all
interleavings. `dafny verify dfyconfig.toml` checks everything.

## What is modelled

**Schedule-solve jobs** (`apps/worker/main.py`). Workers race over job rows with execution
tokens, expiring leases, at-least-once delivery, retry queues and a ledger of paid credits.

- `Credits`, `Shifts`, `Jobs`: the database as a value, and each SQL transaction of the worker
  as one atomic step on it (claim, commit, terminalize with refund, retry mark). Row locks make
  that atomicity real. The refund itself follows the SQL function
  `settle_positive_credit_value` of the repository's migration.
- `Database`: the same transactions as methods that change a database object field by field,
  each proved equal to the step it stands for.
- `JobHistory`, `JobGuarantees`: runs of these steps by any workers with any tokens, together
  with new jobs, outside credit movements, plan edits, subscription changes and clock ticks.
- `JobEffects`: the same steps told in columns: when each takes effect and every value it writes.
- `DraftCommit`, `DraftMeaning`: what a commit leaves in the draft, row by row, and what the draft
  then says about who works when.
- `RetryQueues`, `Delivery`, `DeliveryInvariant`, `NoStranding`, `StrandingExamples`: messages,
  handlers, crashes, lost connections, publishes of unknown outcome, and transactions whose
  commit is rolled back or not reported.
- `HandlingOutcomes`: over whole runs, why a job fails or is retried, which messages come from
  which event, and what a handler still owes after it.
- `CompletedKeys`, `MessageHandler`: the local cache of finished jobs and the settlement of one
  message.

**The solved-timetable checker** (`apps/worker/main.py`): `Ordering`, `Coalesce`,
`CoalesceMeaning`, `Normalize`, `Coverage`. Times are whole microseconds.

**The rollback gate for schema diffs** (`scripts/verify-rollback-schema-compatibility.py`):
`SqlLexer`, `SqlRoundTrip` and `SqlContext` work on characters; `RollbackDdl` works on parsed
statements and adds what the database does with them.

**The wall-clock solver** (`apps/web/lib/location-timezone.ts`): `Calendar`, `ClockSearch`,
`WallClock`, `DateValues`. A time zone is any function from instants to offsets; times are
whole seconds.

**Break planning** (`old/src/breaks.php`): `BreakSearch`, `GroupBreaks`, in exact minutes.

**Chore assignment** (`old/src/print_schedule.php`): `Chores` says who gets what, counting anew
at every decision; `ChoreRun` edits the schedule in place with running counters and is proved to
do the same; `ChoreGuarantees` says what that is worth, and `ChoreOutcomes` tells every turn of a
run in the fields of the chores, the profiles and the tasks.

**The session client** (`apps/web/lib/client-api.ts`): `Sessions`, `SessionGuarantees`,
`SessionAnswers`. Every function of `Sessions` is one uninterrupted piece of the client's code;
anything else may happen between two of them.

## What the proofs found

- A refund id is the debit id with `refund-` in front of the job's part, so a job whose id is
  `refund-` followed by another job's id uses that job's refund row as its debit row. The
  invariants assume no such pair; `ClashingJobsNeverBothProven` shows that such a pair can never
  both pass the provenance check.
- Replaying a commit that succeeded changes nothing, but not through the early return for
  finished jobs: the revision it advanced already fails the draft guard
  (`ReplayChangesNothing`).
- A job can be stranded. `StrandedOnlyIfGivenUp` says by what alone, in every run: a handler gives
  the job up, because its commit finds the token replaced or because it may not store FAILED for a
  refused claim (`CommitLeavesExactly`, `FailureLeavesExactly`). `NeverStranded` gives two operating
  conditions that rule this out, `PaidIsEnough` shows that paid subscriptions imply one of them, and
  `LapseStrands` and `OverrunStrands` are complete runs that strand a job while keeping the other one.
- The gate accepts some diffs that break old writers. `OldWritersSurviveExactly` says which, and
  `ReusedNameIsATrap`, `ClashingKeysAreATrap` and `NewColumnIsSafeExactly` show the three ways.
- Behind an open `$` and a tag's name, a dollar-quoted text is read from the wrong place and its
  semicolons can split (`DanglingTagTakesOver`, `DanglingTagsSplit`).
- An ambiguous wall clock goes unnoticed exactly when the transition is not a whole number of
  quarter-hours or is more than three hours (`AmbiguityExactly`); `OddFoldsGoUnnoticed` names two.
- At the start of the year 100 the solver never finds an instant whose search begins with a reading
  from the year 99, because `Date.UTC` takes that year for 1999. `SolvesExactly` says exactly when,
  and `FirstReadingFails` and `SecondReadingFails` are the two cases at concrete zones.
- In the two-employee branch of the break planner, two breaks of a kind can overlap when
  rounding to five minutes shortens the duration (`SecondWaitsExactly`,
  `ShortenedBreaksOverlap`).
- On a shift across midnight the second break's window is empty, so its place depends neither on
  the wish nor on anybody else's breaks (`OvernightSecondBreakIsFixed`).
- A chore stays unassigned if the person it goes to holds its key already, even though somebody
  else could take it (`HolderBlocksTheChore`); `HandedOutExactly` says when it is handed out.
- With no chores left, the chore run returns before it removes old automatic tasks, so they stay
  (the first case of `Run`).

## Model

| member | source | states |
|---|---|---|
| Credits.IdsInjective | apps/worker/main.py:1408-1472 | debit and refund ids of different jobs differ within their kind |
| Credits.IdsClashExactly | apps/worker/main.py:1481-1536 | a debit id equals a refund id exactly when one job's id is `refund-` and the other's |
| Credits.Settle | packages/db/prisma/migrations/20260717_credit_refund_debt.sql:93-218 | a refund first pays debt, then raises the balance: balance minus debt grows by exactly the credited value, and neither part turns negative |
| JobHistory.StepKeepsInv | apps/worker/main.py:1232-1862 | every step, by whomever and with whatever token, keeps the invariant of rows, tokens, ledger and wallets |
| JobHistory.RefundKeepsInv | apps/worker/main.py:1613-1665 | terminal state, refund row and wallet change together or not at all |
| JobGuarantees.RunKeepsInv | apps/worker/main.py:1232-1862 | the invariant holds in every state of every run |
| JobGuarantees.RefundedExactlyWhenFailed | apps/worker/main.py:1481-1536 | in every run a job has its one refund row, worth exactly its consumed credits, if and only if it is FAILED or DEAD_LETTERED |
| JobGuarantees.ClashingJobsNeverBothProven | apps/worker/main.py:1408-1472 | two jobs whose ids clash can never both pass the provenance check |
| JobGuarantees.BooksBalance | apps/worker/main.py:1613-1665 | balance minus debt is always the tenant's base minus the credits of its jobs that did not fail |
| JobGuarantees.OutsideCreditExplainsAll | apps/worker/main.py:1613-1665 | between any two points of a run, net credit plus spending moves by exactly the sum of the outside movements in between |
| JobGuarantees.BaseMovesOnlyOutside | apps/worker/main.py:1613-1665 | without outside credit movements, net credit plus spending is the same at any two points of a run |
| JobGuarantees.StepKeepsTerminal | apps/worker/main.py:1330-1335 | no step changes a terminal job row |
| JobGuarantees.TerminalForever | apps/worker/main.py:1330-1335 | a terminal job and all ledger rows of that moment are unchanged for the rest of the run |
| JobGuarantees.ClaimWonExactly | apps/worker/main.py:1316-1363 | a claim is won exactly on a live job that no unexpired lease protects, is busy exactly under a live lease, and otherwise changes nothing |
| JobGuarantees.LeaseExcludesOthers | apps/worker/main.py:1333-1360 | while a lease is unexpired, a step that changes the job's row carries its token |
| JobGuarantees.StaleChangesNothing | apps/worker/main.py:1641-1647 | a transaction with a replaced token changes nothing at all, neither job nor shifts nor revision |
| JobGuarantees.StaysStale | apps/worker/main.py:1834-1840 | a token once replaced is never a job's token again |
| JobGuarantees.FencedForever | apps/worker/main.py:910-911 | in every run, every later transaction with a replaced token is without effect |
| JobGuarantees.CommitEffect | apps/worker/main.py:1003-1064 | a commit that changed anything ended a RUNNING job under its own token and advanced the revision by exactly one |
| JobGuarantees.AtMostOneCommit | apps/worker/main.py:906-911 | of all commits for one job in a run, at most one has an effect |
| JobGuarantees.OnlyCommitsTouchThePlan | apps/worker/main.py:946-1034 | of the worker's steps only a commit changes shifts, breaks or revisions |
| JobEffects.ProvenanceInFields | apps/worker/main.py:1408-1472 | the provenance check asks for exactly one debit row of the charge, and for the one refund row of a failed job or none, column by column |
| JobEffects.ClaimInFields | apps/worker/main.py:1296-1364 | a claim is refused, late, busy or won exactly by the tenant's standing, the job's status and its running lease |
| JobEffects.ClaimRowInFields | apps/worker/main.py:1333-1364 | a won claim writes RUNNING, its token, its lease end and its retry count, and any other claim writes nothing |
| JobEffects.TerminalizeInFields | apps/worker/main.py:1539-1707 | storing a failure succeeds, is lost or must be tried again exactly by status, right to change, and room in the wallet |
| JobEffects.FailureInFields | apps/worker/main.py:1613-1665 | a stored failure has the very status and retry count asked for, beside its refund row and the wallet with the debt paid first |
| JobEffects.MarkInFields | apps/worker/main.py:1813-1857 | the retry mark writes RETRYING and its count on an unfinished job of the schedule that the caller may change, and otherwise nothing |
| JobEffects.CommitInFields | apps/worker/main.py:784-945 | a commit is refused for good exactly when draft, staff or snapshot changed or the job failed, and otherwise lost exactly when the token is another |
| JobEffects.CommitRowInFields | apps/worker/main.py:1003-1064 | a commit that is carried out writes SUCCEEDED, its retry count and the number of shifts |
| Database.WorkerDatabase.ClaimJob | apps/worker/main.py:1232-1364 | the claim transaction, updating rows in place, is the claim step |
| Database.WorkerDatabase.CheckProvenance | apps/worker/main.py:1408-1472 | accepts exactly when the job's debit row is the expected one and its refund row matches its status |
| Database.WorkerDatabase.SettlePositiveCredit | packages/db/prisma/migrations/20260717_credit_refund_debt.sql:93-218 | the in-place settlement is `Settle`: it inserts one ledger row, recognises a replay of the same row, rejects a conflicting one, and changes nothing in the last two cases |
| Database.WorkerDatabase.TerminalizeWithRefund | apps/worker/main.py:1539-1707 | the terminalizing transaction is the terminalize step: all of it or nothing |
| Database.WorkerDatabase.MarkJobRetrying | apps/worker/main.py:1813-1857 | the RETRYING mark is the retry step, which asks for the tenant and the schedule but not for the location |
| Database.WorkerDatabase.ReplaceDraftRows | apps/worker/main.py:946-1000 | the loops that soft-delete, upsert and rewrite breaks are the draft replacement step |
| Database.WorkerDatabase.PersistSolvedSchedule | apps/worker/main.py:784-1068 | the commit transaction, guard by guard, is the commit step |
| DraftCommit.DraftIsExactlyTheSolution | apps/worker/main.py:946-1000 | afterwards the live shifts of the draft and their breaks are exactly the solved ones, whatever was there before |
| DraftCommit.ShiftsAreStoredAsSolved | apps/worker/main.py:955-1000 | every solved shift is stored live, in the payload's scope, with its own person, role, start and end, and each of its breaks with its shift, kind, start, end and paid mark |
| DraftCommit.RestIsUntouched | apps/worker/main.py:946-1000 | shifts and breaks outside the old and new draft are as they were; stale shifts are only marked deleted |
| DraftCommit.CommitIsExactOrNothing | apps/worker/main.py:818-1064 | a commit applies all of the solution on the very snapshot the job was queued with, each shift and break stored field by field, or changes nothing |
| DraftCommit.ChangedDraftIsRefused | apps/worker/main.py:818-945 | any change of revision or snapshot since queueing makes the commit fail without effect |
| DraftCommit.ReplayChangesNothing | apps/worker/main.py:818-911 | replaying a commit right after it succeeded, with any solution and token, changes nothing |
| DraftMeaning.DraftWorksAsSolved | apps/worker/main.py:946-1000 | after the replacement the draft has a person at work in a role at an instant exactly when the solution does |
| DraftMeaning.DraftRestsAsSolved | apps/worker/main.py:946-1000 | the same for breaks, with their kind and paid mark |
| DraftMeaning.CommittedDraftSaysTheAnswer | apps/worker/main.py:1876-1942 | after the commit of an accepted answer the draft says of every person, role, break kind and instant exactly what the engine's answer said |
| RetryQueues.ReplacementsAreRouted | apps/worker/main.py:2802-2826 | one to three queues are declared, and every replacement within the budget goes to one of them, with the first, second or third delay by its retry count |
| RetryQueues.DelaysNeverShrink | apps/worker/main.py:2802-2826 | with delays configured in order, a later retry never waits less |
| DeliveryInvariant.NextKeepsInv | apps/worker/main.py:2616-2740 | every event of delivery keeps books, wiring, retry counts and cache sound |
| DeliveryInvariant.CommitRemembersSuccess | apps/worker/main.py:1126-1164 | a key enters the cache only for a job that the database calls SUCCEEDED |
| NoStranding.CommitLeavesExactly | apps/worker/main.py:906-911 | a clean commit attempt ends in acknowledging an unfinished job if and only if its guards pass and the job's token is no longer the handler's |
| NoStranding.FailureLeavesExactly | apps/worker/main.py:1641-1647 | storing FAILED ends in acknowledging an unfinished job if and only if the handler may not change the job |
| NoStranding.LeavesOnlyBy | apps/worker/main.py:2616-2740 | a handler comes to acknowledge an unfinished job only by giving it up or after a confirmed copy |
| NoStranding.RememberedIsFinished | apps/worker/main.py:1126-1151 | the cached-duplicate exit is taken only for jobs that are already finished, so it never leaves one RUNNING |
| NoStranding.MessageVanishesExactly | apps/worker/main.py:2674-2740 | a message disappears if and only if the handler that owns it finishes other than by requeueing |
| NoStranding.StrandedOnlyIfGivenUp | apps/worker/main.py:2616-2740 | in every run whatever, through crashes between any two steps, uncertain publishes, lapsed subscriptions and failed marks, an unfinished job has a live message unless some handler gave it up |
| NoStranding.DroppedExactly | apps/worker/main.py:2674-2740 | in every run a message of an unfinished job disappears if and only if its owner finishes after giving the job up or after a confirmed copy |
| NoStranding.NeverStranded | apps/worker/main.py:2616-2740 | no unfinished job is ever without a live message while claims and retry marks find no other handler working beyond its lease, and failures of refused claims meet no live lease |
| NoStranding.PaidIsEnough | apps/worker/main.py:1316-1330 | where every tenant stays paid, leases that outlast their handlers are all that this takes |
| NoStranding.RetriesStayInBudget | apps/worker/main.py:2674-2740 | in every run no message's retry count passes the maximum, and a delayed message waits in the queue of its count |
| NoStranding.DeadLettersAreFinished | apps/worker/main.py:2674-2740 | in every run a handler about to dead-letter its message belongs to a finished job |
| NoStranding.CompletedKeysAgree | apps/worker/main.py:1126-1151 | in every run a cached key belongs to a job that is SUCCEEDED |
| HandlingOutcomes.RowsMoveAsTold | apps/worker/main.py:1232-1862 | in every run a job's row changes only by a transaction of a handler of that job, and to the whole row that this transaction writes |
| HandlingOutcomes.RowsAreWrittenExactly | apps/worker/main.py:1232-1862 | in every run a transaction writes its row exactly when it reaches the database and finds that it may, also where it reports an error |
| HandlingOutcomes.FailedHasCause | apps/worker/main.py:1166-1178 | in every run a job becomes FAILED only by a handler whose last step met a refusal: an engine rejection, or a claim or commit refused for good |
| HandlingOutcomes.DeadLetteredHasCause | apps/worker/main.py:2675-2697 | in every run a job becomes DEAD_LETTERED only by a handler whose last step met a retryable fault with its retries used up |
| HandlingOutcomes.MessagesHaveCauses | apps/worker/main.py:2622-2708 | in every run a new message is the first of a job, the first again, a copy counted one higher after a fault with retries left, or a copy with the same count for a busy job |
| HandlingOutcomes.RefusalsAreStored | apps/worker/main.py:1166-1178 | after a refusal the next step of the handler is to store FAILED |
| HandlingOutcomes.FaultsAreRetriedOrDeadLettered | apps/worker/main.py:2669-2708 | after a fault the next step is a copy while retries are left, and otherwise to store DEAD_LETTERED |
| HandlingOutcomes.RetryableFaultsAreRetried | apps/worker/main.py:2699-2740 | a handler that meets a fault with retries left, and finishes without a lost or unconfirmed copy, has published one copy of the job counted one higher, and has done nothing else but mark the retry |
| HandlingOutcomes.BusyJobsAreCopied | apps/worker/main.py:2622-2643 | a handler that finds its job busy, and finishes likewise, has published one copy with the same count |
| HandlingOutcomes.NothingFollowsTheEnd | apps/worker/main.py:2618-2740 | after a step that ends its work a handler takes no other |
| HandlingOutcomes.FinishSettlesExactly | apps/worker/main.py:2618-2740 | in every run a finishing handler takes its message away for good, unless its copy was not confirmed or its dead letter not stored: then the message is ready again with the same count |
| HandlingOutcomes.OwedStepsCanHappen | apps/worker/main.py:1113-1190 | a handler that lives on can take the step it owes, however that step then ends |
| HandlingOutcomes.WinnersCanCommit | apps/worker/main.py:1153-1160 | a winner can try to commit any answer for its job |
| HandlingOutcomes.BeginningCanClaim | apps/worker/main.py:1126-1135 | a ready message can be delivered, and its handler can claim the job of the message with the message's count |
| HandlingOutcomes.OnlyWinnersSolve | apps/worker/main.py:1126-1164 | a handler solves and commits only right after it has won the claim |
| HandlingOutcomes.HeldTokenWasWon | apps/worker/main.py:1129-1135 | the token a handler shows is the one its own claim won |
| HandlingOutcomes.CommitsAreRemembered | apps/worker/main.py:1162-1162 | a worker comes to remember a job exactly when a commit is reported done to it |
| StrandingExamples.LapseStrands | apps/worker/main.py:1113-1190 | a complete run, with leases that outlast handlers, that strands a job once the subscription lapses under a crashed claim |
| StrandingExamples.OverrunStrands | apps/worker/main.py:2674-2740 | a complete run, always paid, that strands a job once a handler outstays its lease |
| CompletedKeys.Cache.Remember | apps/worker/main.py:2248-2252 | the key becomes the newest, keeps one entry per key, and the bound is never exceeded |
| CompletedKeys.RememberingAddsOne | apps/worker/main.py:2248-2252 | remembering adds that key alone, as the newest, and forgets none while there is room |
| CompletedKeys.ForgottenOnlyForNewer | apps/worker/main.py:2248-2252 | a key is forgotten only after as many other keys as the bound allows were remembered |
| MessageHandler.Channel.Handle | apps/worker/main.py:2616-2740 | a handling that completes settles its message exactly once, and publishes a replacement only before acknowledging |
| Coalesce.CoalesceAdjacent | apps/worker/main.py:1945-1996 | the loop over the sorted shifts is the fold |
| Coalesce.JoinIsValid | apps/worker/main.py:1965-1990 | joining two touching valid shifts gives a valid shift with ordered, disjoint breaks inside it |
| Coalesce.JoinMeans | apps/worker/main.py:1965-1990 | a joined shift means, at every instant, what the two meant |
| CoalesceMeaning.FailsExactlyOnOverlap | apps/worker/main.py:1945-1964 | coalescing fails if and only if two shifts of one person overlap |
| CoalesceMeaning.CoalescingKeepsMeaning | apps/worker/main.py:1945-1996 | for every person, role and instant, being on duty and on break is unchanged; the result is valid, disjoint per person and has nothing left to join |
| CoalesceMeaning.OrderDoesNotMatter | apps/worker/main.py:1945-1955 | reordering the input changes nothing |
| CoalesceMeaning.CoalescingIsIdempotent | apps/worker/main.py:1945-1996 | coalescing the result again gives it back |
| Normalize.NormalizeBreaks | apps/worker/main.py:1999-2029 | accepts exactly the breaks that lie inside the shift and are pairwise apart, and returns them in order |
| Normalize.NormalizeShift | apps/worker/main.py:1885-1925 | accepts exactly the shifts of known staff, inside the period, of at most a day, with acceptable breaks |
| Normalize.NormalizeShifts | apps/worker/main.py:1876-1942 | accepts exactly the nonempty solutions whose shifts are acceptable, pairwise free of overlap, and after coalescing neither too long nor in collision with existing shifts |
| Normalize.AcceptedExactly | apps/worker/main.py:1876-1942 | an answer is accepted exactly when it is not empty, its shifts are of known staff, begin in the window, last at most 24 hours and hold their breaks apart, nobody is in two at once, and the joined shifts last at most 24 hours and meet no existing one |
| Normalize.CollisionsAreThoseOfTheSegments | apps/worker/main.py:1926-1942 | checking collisions after coalescing finds exactly those of the uncoalesced shifts |
| Normalize.DerivedIdsAreDistinct | apps/worker/main.py:2182-2185 | in an accepted solution no two shifts and no two breaks share an id |
| Normalize.AcceptedSolutionsCommitExactly | apps/worker/main.py:1876-1942 | what the checker accepts, a commit stores exactly, every shift and break field by field |
| Coverage.SegmentIsInstant | apps/worker/main.py:2060-2075 | where nothing begins or ends inside a segment, working through it is working at any of its instants |
| Coverage.SegmentDecides | apps/worker/main.py:2055-2086 | a segment's two counts decide coverage for all of its instants |
| Coverage.SegmentsCovered | apps/worker/main.py:2055-2086 | the sweep over the sorted boundaries accepts if and only if every instant is covered |
| Coverage.WindowBoundaries | apps/worker/main.py:2040-2055 | the boundary set of a window holds its ends and every start or end of a shift or break within it |
| Coverage.OnDateOccurrences | apps/worker/main.py:2094-2097 | a day's list holds every shift of that date as often as the solution, and no other |
| Coverage.ValidateWindows | apps/worker/main.py:2032-2086 | accepts if and only if at every instant of every demand window enough people, and enough qualified ones, work |
| Coverage.ValidateDays | apps/worker/main.py:2089-2123 | accepts if and only if, for every date and every instant between a start and an end of its shifts, as many of them are at work as the date demands |
| Coverage.ValidateDemand | apps/worker/main.py:2032-2123 | chooses windows when there are any and days otherwise |
| Coverage.CountsArePeople | apps/worker/main.py:2032-2086 | on a coalesced solution the counted shifts are distinct people |
| Coverage.AcceptedMeansEnoughPeople | apps/worker/main.py:2032-2086 | a coalesced solution passes a window if and only if at every instant of it the required number of different people work, and of people with the skill |
| Coverage.AcceptedDaysMeanEnoughPeople | apps/worker/main.py:2089-2123 | where nobody overlaps with themselves, the day check accepts if and only if enough different people with shifts of the date work at every instant between a start and an end of them |
| SqlLexer.SplitSqlStatements | scripts/verify-rollback-schema-compatibility.py:54-146 | the index-driven loop with its four state variables is the recursive lexer |
| SqlLexer.TagIsItsOwn | scripts/verify-rollback-schema-compatibility.py:49-51 | a dollar tag cut out of the text is a tag by itself |
| SqlLexer.TagsExactly | scripts/verify-rollback-schema-compatibility.py:49-51 | a dollar-quote tag is recognised exactly where two dollars enclose a name that starts with no digit, or nothing |
| SqlLexer.StripExactly | scripts/verify-rollback-schema-compatibility.py:54-146 | a statement loses the space around it and nothing else |
| SqlLexer.SpacesInAscii | scripts/verify-rollback-schema-compatibility.py:54-146 | blanks, tabs and line ends are space, and what is printed in ASCII is not |
| SqlRoundTrip.SplitIsScans | scripts/verify-rollback-schema-compatibility.py:54-146 | splitting is scanning the first statement, then splitting the rest |
| SqlRoundTrip.StatementsAreClean | scripts/verify-rollback-schema-compatibility.py:54-146 | every statement of an accepted text splits to exactly itself |
| SqlRoundTrip.SplitUndoesJoin | scripts/verify-rollback-schema-compatibility.py:54-146 | splitting statements joined by semicolons gives the same list back |
| SqlRoundTrip.SplitJoinSplit | scripts/verify-rollback-schema-compatibility.py:54-146 | splitting, joining and splitting again gives the first result |
| SqlContext.SplitReportsTheEnd | scripts/verify-rollback-schema-compatibility.py:141-146 | the result is what the lexer's state at the end of the text says: finished statements and the current one, or an error inside a quote or comment |
| SqlContext.SplitGoesOn | scripts/verify-rollback-schema-compatibility.py:54-146 | where two texts meet without forming a token together, the first is split as it is and the second read from the state it leaves |
| SqlContext.QuotedTextNeverSplits | scripts/verify-rollback-schema-compatibility.py:98-107 | anywhere outside quotes and comments, a quoted literal or identifier joins the current statement whole, whatever it holds and whatever follows |
| SqlContext.DollarTextNeverSplits | scripts/verify-rollback-schema-compatibility.py:88-96 | the same for dollar-quoted text whose tag does not come earlier in it, unless an open `$` stands before it |
| SqlContext.DanglingTagTakesOver | scripts/verify-rollback-schema-compatibility.py:122-128 | an open `$` with a tag's name takes the next `$` for its end, and a dollar quote begins there |
| SqlContext.DanglingTagsSplit | scripts/verify-rollback-schema-compatibility.py:122-128 | a concrete text in which a semicolon of a dollar-quoted text splits behind such a `$` |
| SqlContext.CommentsActAsSpace | scripts/verify-rollback-schema-compatibility.py:74-86 | anywhere outside quotes and comments, a block comment, however nested and whatever it holds, is one space |
| SqlContext.LineCommentsActAsSpace | scripts/verify-rollback-schema-compatibility.py:67-72 | the same for a line comment that does not stand right behind a `-` |
| RollbackDdl.Classify | scripts/verify-rollback-schema-compatibility.py:273-282 | the loop with its growing set of created tables is the recursive classification |
| RollbackDdl.AcceptedExactly | scripts/verify-rollback-schema-compatibility.py:220-282 | a diff is accepted if and only if every statement is allowed at its place: new tables and enums, plain indexes, new columns without constraint that are nullable or have a DEFAULT, and on tables created earlier in the diff also unique indexes and any ADD |
| RollbackDdl.LabelsInOrder | scripts/verify-rollback-schema-compatibility.py:220-282 | an accepted diff is labelled in order, one label for each statement or each action of an ALTER TABLE, by what it creates and whether a column has a DEFAULT |
| RollbackDdl.OldWritersSurviveExactly | scripts/verify-rollback-schema-compatibility.py:232-282 | after an accepted diff of any length, every insert that worked before still works if and only if no statement bites |
| RollbackDdl.AcceptedDiffsKeepOldWriters | scripts/verify-rollback-schema-compatibility.py:232-282 | new names for created tables, keys that tell tables apart and non-null defaults are enough for that |
| RollbackDdl.NewColumnIsSafeExactly | scripts/verify-rollback-schema-compatibility.py:220-229 | an accepted new column keeps old inserts working if and only if it is not NOT NULL with a null default |
| RollbackDdl.ReusedNameIsATrap | scripts/verify-rollback-schema-compatibility.py:232-252 | an accepted diff that creates an existing table and then breaks its writers |
| RollbackDdl.ClashingKeysAreATrap | scripts/verify-rollback-schema-compatibility.py:192-193 | an accepted diff that breaks old writers because two quoted names share a key |
| Calendar.ReadsBackExactly | apps/web/lib/location-timezone.ts:117-121 | a date reads back from its moment exactly when the calendar has it |
| Calendar.MomentsAreDistinct | apps/web/lib/location-timezone.ts:137-157 | different dates with times of day are different moments |
| Calendar.YearStartsInNumbers | apps/web/lib/location-timezone.ts:137-157 | years start on the days of the Gregorian calendar, in closed form |
| Calendar.MonthLengths | apps/web/lib/location-timezone.ts:117-121 | the months have their lengths, with 29 days in February exactly in leap years |
| Calendar.DaysFollow | apps/web/lib/location-timezone.ts:137-157 | the next calendar day is the next day number, across months and years |
| Calendar.MomentsInNumbers | apps/web/lib/location-timezone.ts:137-157 | a moment counts the seconds of its day after its days, and two-digit years are read as the twentieth century |
| ClockSearch.Search | apps/web/lib/location-timezone.ts:122-128 | the bounded loop is four iterations of the correction |
| ClockSearch.FourIterations | apps/web/lib/location-timezone.ts:122-128 | with one transition in reach, four iterations end at an instant that reads the target, if there is one |
| ClockSearch.SearchExactly | apps/web/lib/location-timezone.ts:122-133 | for a clock that is misread before some moment, the search hits if and only if the clock reads the target somewhere and the first two readings are not misread |
| ClockSearch.Scan | apps/web/lib/location-timezone.ts:103-114 | the nested loops look at exactly the twelve quarter-hours on either side |
| ClockSearch.ScanExactly | apps/web/lib/location-timezone.ts:103-114 | the scan hits exactly when a second instant exists and the transition is detectable |
| WallClock.ZonedDateTimeToUtc | apps/web/lib/location-timezone.ts:116-135 | the method is the solver function that the lemmas speak of |
| WallClock.UnambiguousLocalDateTimeToIso | apps/web/lib/location-timezone.ts:35-44 | the method is the unambiguous solver that the lemmas speak of |
| WallClock.InvalidExactly | apps/web/lib/location-timezone.ts:117-121 | a date is refused exactly when the calendar lacks it or its year is below 100 |
| WallClock.SolvesExactly | apps/web/lib/location-timezone.ts:116-135 | with one transition nearby, the solver returns an instant if and only if some instant shows the target and its first two readings show no year below 100; what it returns shows the target, and else the target is called nonexistent |
| WallClock.LaterYearsAreLegible | apps/web/lib/location-timezone.ts:122-128 | from the year 101 on the condition on readings always holds, so four iterations suffice in every zone |
| WallClock.FirstReadingFails | apps/web/lib/location-timezone.ts:122-128 | a fixed offset of minus five hours at 0100-01-01 00:00 is such a failure by the first reading |
| WallClock.SecondReadingFails | apps/web/lib/location-timezone.ts:122-128 | a zone that goes forward an hour at 0100-01-01 00:30 is one by the second reading |
| WallClock.AmbiguityExactly | apps/web/lib/location-timezone.ts:35-44 | the ambiguity error comes if and only if the target is legible, two instants show it and the transition is whole quarter-hours, at most three hours |
| WallClock.ReturnsOnlyUnambiguous | apps/web/lib/location-timezone.ts:35-44 | for such transitions and a legible target a result is the only instant that shows it, and the error means there are two |
| WallClock.OddFoldsGoUnnoticed | apps/web/lib/location-timezone.ts:103-114 | when clocks go back by ten minutes or by four hours, an ambiguous wall clock is returned as if it were not |
| DateValues.DatesReadBackExactly | apps/web/lib/location-timezone.ts:53-56 | a written date parses back exactly when its year has four digits |
| DateValues.TimesReadBack | apps/web/lib/location-timezone.ts:58-61 | a written time of day parses back |
| DateValues.RepliesExactly | apps/web/lib/location-timezone.ts:29-61 | a date or time text is refused, the date first, exactly when it is not digits in their places with an hour to 23 and a minute to 59 |
| DateValues.TextsInOrder | apps/web/lib/location-timezone.ts:46-61 | 2024-03-05 is written and read as the fifth of March 2024, and 07:30 as half past seven |
| DateValues.ResultsShowTheirInput | apps/web/lib/location-timezone.ts:29-33 | in any zone whatever, the instant found for a date and time shows that date and time |
| DateValues.InstantsRoundTrip | apps/web/lib/location-timezone.ts:29-61 | the texts of an instant lead back to the same texts, and to the instant itself unless another shows the same local time |
| BreakSearch.FindNonConflict | old/src/breaks.php:31-50 | the two-sided search returns the clamped ideal if free, else the nearest open quarter-hour, the earlier of two, else the clamped ideal |
| BreakSearch.HasConflict | old/src/breaks.php:16-29 | counts each person with some break in the interval once |
| BreakSearch.ClashingCountsPeople | old/src/breaks.php:16-29 | the count is the number of people with a first break, lunch or second break that overlaps the interval |
| BreakSearch.OverlapMeansShared | old/src/breaks.php:4-7 | two breaks overlap exactly when they share an instant |
| BreakSearch.AnswerIsGood | old/src/breaks.php:31-50 | the answer stays in a window that can hold it, and is busy only when no quarter-hour of it is free |
| BreakSearch.AnswerIsNearest | old/src/breaks.php:31-50 | the answer is unique, and no open quarter-hour is nearer, or as near and earlier |
| BreakSearch.AvoidBreakConflicts | old/src/breaks.php:52-67 | the three breaks are searched in the shift's thirds |
| BreakSearch.BreaksKeepTheirThirds | old/src/breaks.php:52-67 | on a long enough day shift the three breaks follow one another inside the shift, whatever the others do |
| BreakSearch.LengthInMinutes | old/src/breaks.php:52-54 | a shift that does not end later than it starts ends the next day |
| BreakSearch.Break1WishIsGranted | old/src/breaks.php:52-67 | the first break stays at its wish if that lies in the first third of the shift, an hour in, and few enough are away |
| BreakSearch.LunchWishIsGranted | old/src/breaks.php:52-67 | the same for the lunch in the second third |
| BreakSearch.Break2WishIsGranted | old/src/breaks.php:52-67 | the same for the second break in the last third, up to an hour before the end |
| BreakSearch.OvernightSecondBreakIsFixed | old/src/breaks.php:52-63 | across midnight the second break ends an hour before the shift's end, whatever is wanted |
| GroupBreaks.ScheduleEvent | old/src/breaks.php:97-116 | terminates with the first free five-minute slot at or after the ideal |
| GroupBreaks.PlacingKeepsBound | old/src/breaks.php:97-116 | an event so placed starts in the earliest free slot of the grid and keeps the bound on running events at every instant |
| GroupBreaks.ByStartSorts | old/src/breaks.php:132-133 | the employees are a permutation in order of their start |
| GroupBreaks.ScheduleGroupBreaks | old/src/breaks.php:118-176 | every employee's breaks are placed earliest with respect to the employees before, or the two-employee plan is used |
| GroupBreaks.NeverTooManyOnBreak | old/src/breaks.php:156-172 | at every instant at most the allowed number of first breaks, lunches and second breaks run, for any durations |
| GroupBreaks.FewAtATime | old/src/breaks.php:156-172 | at any instant at most one employee is on each kind of break; two may be at lunch from four employees on, and on a break from five on |
| GroupBreaks.BreaksFollowTheWishes | old/src/breaks.php:163-172 | no break comes more than two and a half minutes before its wish, and whoever is placed first has all of them within that |
| GroupBreaks.PairFollowsTheWishes | old/src/breaks.php:135-151 | of two employees, the first has every break within two and a half minutes of its wish, and the second of the later of wish and end of the first one's break |
| GroupBreaks.RoundsToTheNearest | old/src/breaks.php:92-95 | rounding goes to the nearest multiple of five minutes, and from halfway away from zero |
| GroupBreaks.SecondWaitsExactly | old/src/breaks.php:135-151 | the second employee's break always waits for the first's if and only if rounding does not shorten the duration |
| GroupBreaks.PairNeverTogether | old/src/breaks.php:135-153 | two employees are never on the same kind of break together unless rounding shortens a duration |
| GroupBreaks.MultiplesOfFiveStand | old/src/breaks.php:92-95 | multiples of five minutes are not shortened |
| GroupBreaks.ShortenedBreaksOverlap | old/src/breaks.php:135-142 | a shortened first break makes two employees with the same start overlap |
| ChoreGuarantees.RunningAgainChangesNothing | old/src/print_schedule.php:186-203 | a second run with the same chores and staff changes nothing |
| ChoreGuarantees.ManualTasksStay | old/src/print_schedule.php:186-203 | everyone keeps all manual tasks, in order and in front |
| ChoreGuarantees.NoKeyTwice | old/src/print_schedule.php:1112-1139 | no automatic task repeats a key of an earlier task of the same person |
| ChoreGuarantees.OptedOutGetNothing | old/src/print_schedule.php:740-750 | people who opted out end a run with their manual tasks and no other |
| ChoreGuarantees.OnePersonChoresOnce | old/src/print_schedule.php:864-883 | a key whose chores are for one person is handed out at most once, and never when it counts as assigned by hand |
| ChoreGuarantees.ChoiceIsFair | old/src/print_schedule.php:965-1094 | exclusions are lifted only when nobody satisfies them, and nobody who prefers the chore, or nobody at all, has less to do than the one chosen |
| ChoreGuarantees.NobodyChosenExactly | old/src/print_schedule.php:1020-1110 | a chore goes to nobody exactly when the pool is empty |
| ChoreGuarantees.PoolExactly | old/src/print_schedule.php:933-1013 | the pool is everyone who may take the chore, or with lifted exclusions a single person |
| ChoreGuarantees.SortKeeps | old/src/print_schedule.php:117-124 | the chores are handed out by descending priority and then id, each once |
| ChoreOutcomes.TurnIsTold | old/src/print_schedule.php:850-1154 | what a turn leaves, in full: a chore that is enabled, captioned, not covered and within its daily maximum and staff minimum goes to its person as one new task unless that person holds its key, and nothing else changes |
| ChoreOutcomes.HandedOutExactly | old/src/print_schedule.php:850-1154 | a chore is handed to a person if and only if it is to be done, goes to that person, and that person does not hold its key |
| ChoreOutcomes.SomebodyGetsIt | old/src/print_schedule.php:850-1154 | a chore to be done is handed to somebody who may take it under the exclusions whenever there is one and none of them holds its key |
| ChoreOutcomes.HolderBlocksTheChore | old/src/print_schedule.php:1112-1130 | a chore that nobody gets although somebody who lacks its key may take it |
| ChoreOutcomes.SomebodyIsChosen | old/src/print_schedule.php:1020-1094 | of those who may take the chore the assignee is chosen, or else whoever comes first by preference, burden and place |
| ChoreOutcomes.OnlyTheLiftedIsChosen | old/src/print_schedule.php:965-1013 | where nobody may take it, exactly the one person that lifting the opener exclusion, the closer exclusion or both leaves is chosen |
| ChoreOutcomes.RunIsTold | old/src/print_schedule.php:106-1155 | a run in full: automatic tasks go, then each chore has one such turn, by descending priority and id |
| ChoreOutcomes.QuietRunIsTold | old/src/print_schedule.php:106-116 | without chores nothing changes, and without people only the automatic tasks go |
| ChoreOutcomes.NothingUnasked | old/src/print_schedule.php:850-860 | every automatic task that a run leaves is that of an enabled chore with a caption |
| ChoreRun.NotingAgrees | old/src/print_schedule.php:1141-1151 | updating the counter maps after an assignment gives what counting anew would |
| ChoreRun.SameChoice | old/src/print_schedule.php:1049-1094 | a decision depends on the counts alone |
| ChoreRun.CountAll | old/src/print_schedule.php:270-314 | the counter maps built from the schedule say what counting says |
| ChoreRun.Schedule.StripAutomatic | old/src/print_schedule.php:186-203 | every automatic task is taken out, in place |
| ChoreRun.Schedule.AssignOne | old/src/print_schedule.php:850-1154 | one turn of the loop, with its counters, is the placement that counts anew, and leaves what a turn is told to leave |
| ChoreRun.Schedule.AssignChores | old/src/print_schedule.php:106-1155 | the in-place run with running counters is the run that counts anew at every decision |
| SessionGuarantees.RunKeepsInv | apps/web/lib/client-api.ts:32-79 | counts of sends, the one refresh, the registry and the abort marks stay consistent in every run |
| SessionGuarantees.AtMostOneRefresh | apps/web/lib/client-api.ts:195-207 | in every run at most one refresh is unsettled |
| SessionGuarantees.SendsAreBounded | apps/web/lib/client-api.ts:417-459 | every request is sent at most twice, the second time only after a successful refresh, and at most once when unsafe without an idempotency key |
| SessionGuarantees.AbortIsPrivate | apps/web/lib/client-api.ts:64-79 | after one caller aborts, in any further run of its own request and of others, everything but that request is as in the run with that request's events erased and without the abort |
| SessionGuarantees.AbortCostsOthersNothing | apps/web/lib/client-api.ts:64-79 | every run that the others could take without the abort they can take after it |
| SessionGuarantees.WaitersGetTheRefresh | apps/web/lib/client-api.ts:443-458 | in every run, once a refresh has succeeded, a waiter that is not aborted can take it up after any other events short of logout, and is then sent again if it may be |
| SessionGuarantees.LogoutIsFinal | apps/web/lib/client-api.ts:31-45 | logout aborts everything under way, and in every run after it nothing is sent or fulfilled and no refresh starts |
| SessionAnswers.RefreshStartsExactly | apps/web/lib/client-api.ts:441-446 | after any run, a refresh starts exactly at a first answer 401 with a CSRF cookie, to a request nothing has stopped, while every earlier refresh is settled |
| SessionAnswers.ComesToWaitExactly | apps/web/lib/client-api.ts:438-446 | after any run, a request comes to wait exactly at its first answer, when that is 401 and nothing has stopped it; with a CSRF cookie it waits for the one refresh that is not settled |
| SessionAnswers.FulfilledWithTheLastAnswer | apps/web/lib/client-api.ts:438-459 | in every run a request is fulfilled with its last answer, and was sent once unless its first answer was 401 |
| SessionAnswers.OtherAnswersAreResults | apps/web/lib/client-api.ts:438-441 | any answer but a first 401, to a request nothing has stopped, is what the caller gets, however long other events go on short of logout |
| SessionAnswers.WaitersLearnTheAnswer | apps/web/lib/client-api.ts:443-458 | a settled refresh has the result its endpoint gave; a waiter nothing has stopped is then sent again, gets its 401, or fails with it |
| SessionAnswers.NoCookieNoRefresh | apps/web/lib/client-api.ts:195-198 | a request that waits without a CSRF cookie gets its 401 and is not sent again |
| SessionAnswers.RefreshesCanSettle | apps/web/lib/client-api.ts:195-207 | a refresh under way can always go on to settle with its answer and make room for the next one |
| SessionAnswers.RejectedHasCause | apps/web/lib/client-api.ts:417-446 | in every run a request is rejected only if its caller or logout aborted it, its own fetch failed, or a refresh got no answer |
| SessionAnswers.BeginSendsExactly | apps/web/lib/client-api.ts:43-55 | a new request is sent at once, and may be answered, unless the user has logged out or its caller has aborted it |
| SessionAnswers.AbortedIsNeverFulfilled | apps/web/lib/client-api.ts:64-79 | once aborted, a request is neither sent again nor fulfilled |
| SessionAnswers.AbortFreesTheWaiter | apps/web/lib/client-api.ts:64-79 | a waiter whose caller aborts can leave at once, without its refresh |

## Left out

- SolvesExactly: zones with two transitions within a day of the target are not covered. The same holds for AmbiguityExactly and ReturnsOnlyUnambiguous.
- NeverStranded: assumes its two operating conditions, which the code leaves to its operators; what holds without them is StrandedOnlyIfGivenUp and DroppedExactly.
- AcceptedDiffsKeepOldWriters: speaks of inserts; updates and deletes by old writers, and errors raised by an index expression of a non-unique index, are not modelled.
- Execution tokens are drawn from a counter, and uuid5 ids and sha256 keys are kept as the parts they are made from: their randomness and collision resistance are assumed.
- Row locks, row-level security contexts and advisory locks: each transaction is one atomic step.
- A job row and its first message come into being together; the outbox that publishes messages again is one event of the delivery model. Malformed messages appear only in `MessageHandler`.
- The cache of completed keys is unbounded in the delivery model, with arbitrary forgetting; its bound and order are proved in `CompletedKeys`.
- Argument checks of `settle_positive_credit_value` on the lengths of ids and reasons.
- The solver engine, gRPC, RabbitMQ, metrics, tracing and signals: only their outcomes appear.
- ISO parsing, time zones and the daily demand of the worker are parameters of the coverage checks; skills are taken as normalised, and text is compared by code point.
- The final tie-break of the shift order on ids, which valid input never reaches.
- The regular expressions that parse single SQL statements, and `split_top_level` and `scrub_literals`: the classifier works on parsed statements.
- `Intl.DateTimeFormat` and `Date` internals beyond what is stated in `Calendar`; `instantToWallClockDate` and `wallClockDateToIso`, which depend on the browser's own zone; fractions of a second.
- Rounding errors of floating-point hours in the break planner: times are exact minutes. `calculateBreaks` is not modelled.
- Opener and closer detection, parsing of task texts and preferences, and warnings in the chore run: profiles, preferences and trimmed lower-case labels are inputs.
- The session client is modelled on values, as steps of a state machine over its module state, because its promises interleave; response sanitising, redirects, cookies and time limits appear only as outcomes.
- Print layout sizing, rendering, configuration, permissions and user-interface code.
