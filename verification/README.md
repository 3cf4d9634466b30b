# Judge0 and its platform: the asynchronous judging pipeline

A Dafny model of how a submission is judged, and proofs about every interleaving of the parties involved. A submission
on the platform fans out into one Judge0 job per test case. A worker takes each job from a queue, runs the program in a
sandbox, stores a status and puts the result to a callback URL. Callbacks come back in any order, more than once, early
or never, and several of them are handled at the same time by the same Node process. The handlers fold the case
verdicts into one status, a passed count, two maxima and a contest score.

`dafny verify dfyconfig.toml` checks everything.

## How the model is laid out

| files | what they hold |
|---|---|
| `Wrappers`, `Grader`, `Judge0Batch`, `Platform` | nullable values; verdicts and their fold; a batch and the rows it creates; the platform's tables, its queries, and each single database call as a function on the tables |
| `Protocol` | the step system: submit handlers, jobs, deliveries and callback handlers of any number of submissions; a step is one database call, one transaction or one message, and `Run` is any interleaving of them |
| `ProtocolInvariant`, `ProtocolTheorems`, `ProtocolHistory` | the invariants all interleavings keep; what follows for statuses and completion; what the order of lookups and transactions in a run decides |
| `ProtocolScores`, `ProtocolLastWrites`, `ProtocolOrder`, `ProtocolExact` | what interleaving does to counts and scores; which write, and which order of updates, snapshots and writes, decides what a run ends with; what is exact where handlers do not overlap, per submission and per contest and user |
| `ProtocolRuns`, `ProtocolRaces` | two concrete runs, step by step from the empty tables: a submission that stays RUNNING for good, and stale writes that land last |
| `Backend` | the platform's handlers as a class that updates its tables call by call; an uninterrupted callback handler and an uninterrupted submission are schedules of the protocol, a registration is one step of it |
| `RubyText`, `OutputNormaliser`, `SubmissionRecord` | Ruby's `split`, the output normaliser and the metadata parser; which characters the normaliser drops; the encoded attributes behind memoised getters |
| `IsolateJob`, `JobVerdicts`, `IsolateRunner` | the worker job as a class, with an arbitrary outcome at every external call; what its verdicts mean; the polling loop |
| `Judge0Queue`, `Judge0Workers`, `Judge0Admission`, `Judge0Controller` | what a batch does to the queue; any number of workers over it; admission split into its check and its saves; the controller as a class |
| `EndToEnd` | the two halves joined: Judge0's rows are the protocol's jobs, and accepted submissions are those whose programs pass |
| `Leaderboard` | the two in-place sorts and the cut between them |

Where the repository updates something in place, the model has a class or an array and methods whose contracts equate the
new state with a function of the old one (`CallbackEffect`, `Act`, `Outcome`, `Enqueue`, `SortDesc`); the laws are then
proved about those functions. Calls whose result the code does not control are parameters or steps: the order of rows in
an unordered query, which row a `distinct` query keeps, what the sandbox reports, whether a request arrives and whether a
response does.

## What is true of every interleaving, and what is not

* A stored final status is never premature and never wrong, and a status only goes PENDING, RUNNING, final. Once every
  case had a delivery that was carried through to its write, the status and both maxima are those of grading all results
  at once, even if other handlers have died half way. What makes this work: as long as a complete submission is RUNNING,
  some case has no handler past a complete snapshot, so whoever delivers that case finishes the submission.
* The passed count and the contest score do not share this. They never exceed the true values. What a run ends with is
  right exactly when the snapshot behind the last write shows every accepted case (the rows behind the last score every
  solved problem worth points), and there is a run that ends with 1 of 2 cases counted on an accepted submission and with
  half of the score. The count is exact where the handlers of that submission do not overlap between update and write, the
  score where the handlers of that contest and user do not overlap between write and upsert, whatever all others do.
  Verdicts agree between any two runs that accept callbacks for the same cases.
* A callback is answered 404 exactly when its lookup comes before the transaction of its submission. Any response ends the
  retries, so the result is lost: a case whose job calls back no more before it was graded leaves its submission RUNNING in
  every continuation, whatever becomes of the other cases and handlers. When nothing is under way, a
  submission is final exactly if each case had a delivery with a final verdict whose lookup followed the transaction.
* With several runs per job, every run after the first accepted one is compared with the output of the first run, because
  assigning `stdout` leaves the remembered decoded value in place. The column, the stored row and the callback carry the
  output of the last run. The documentation (`docs/api/submissions/submissions.md`) promises repeated runs and averages;
  the model follows the code.
* One request at a time, the queue keeps its limit at every moment. Requests that check its size before each other's saves
  leave no limit at all: `n` of them at a time fill the queue `n` times over.
* The leaderboard lists a solver whatever order its query returns exactly when at most 100 groups have as many accepted
  submissions; the number of problems solved, by which the list is ranked, plays no part in the cut.

## Assumptions

These are preconditions of the model, visible as `requires` clauses or as guards of steps.

* A job is enqueued once. `lib/tasks/run_submissions_in_queue.rake` can break this; `RequeueSafeIff` says exactly when, and
  `RequeueIsNeverSafe` that every row the script selects is such a case as long as the queue has lost no entry.
* A job finishes once, so that all its deliveries carry one result; cases of one submission have distinct test cases.
* Contests, their problems and points, and test cases do not change; points are not negative (where a lemma says so) and a
  problem occurs once in a contest (the primary key of the table).
* Database writes of the worker succeed and model validations keep holding when it saves.
* Ids fit the serial column where sandboxes are concerned; `number_of_runs` is positive, as validated.

## Model

| member | source | states |
|---|---|---|
| Grader.Judge0StatusToVerdict | platform/backend/src/lib/grader.ts:21-46 | each verdict exactly for its ids: RUNNING for 1 and 2, AC 3, WA 4, TLE 5, CE 6, RE for 7 to 12 and 14, IE for every other number; a callback never turns a case back to PENDING |
| Grader.CombineIsTheWorst | platform/backend/src/lib/grader.ts:61-64 | the fold over a non-empty list is the one member that no other member outranks, and nothing else is |
| Grader.CombineByMembership | platform/backend/src/lib/grader.ts:49-64 | the verdict of any list by membership alone: IE exactly if IE is in it, CE exactly if CE is and IE is not, and so on through RE, MLE, TLE, WA, RUNNING, PENDING and AC; PENDING for no cases |
| Grader.AcCountIsCount | platform/backend/src/routes/internal.ts:65 | the count is the number of places whose status is AC |
| Grader.CombinePermutation | platform/backend/src/lib/grader.ts:61-64 | the order of the cases does not matter, the empty list included |
| Grader.CombineConcat | platform/backend/src/lib/grader.ts:61-64 | grading two non-empty parts and combining the two verdicts is grading the whole |
| Grader.CombineAcceptedIff | platform/backend/src/routes/internal.ts:64-81 | the finalising write stores AC exactly when the passed count equals the number of cases |
| Judge0Batch.CreatedAligned | app/controllers/submissions_controller.rb:139-152 | the row behind the i-th token is the i-th item of the request, and no other rows come into being |
| Platform.FindCase | platform/backend/src/routes/internal.ts:40-46 | finds a row of the test case if there is one, and nothing exactly when there is none |
| Platform.RecomputeOrderFree | platform/backend/src/routes/internal.ts:61-91 | the submission update depends on the set of case rows with multiplicity, not on the order the unordered query returns |
| Platform.RuntimeIsLargest | platform/backend/src/routes/internal.ts:69-77 | the stored run time is null when the largest of the rows' run times, missing ones read as 0, is 0, and otherwise one that some row has and no row exceeds |
| Platform.MemoryIsLargest | platform/backend/src/routes/internal.ts:70-78 | the same of the memory, over the rows' memory |
| Platform.SolvedByValue | platform/backend/src/routes/internal.ts:103-112 | the problems solved are those with a submission of that user to that contest with status AC, created within the window, both ends included |
| Platform.ScoreAfterOneMore | platform/backend/src/routes/internal.ts:103-119 | one more submission adds its problem when it is an accepted one of that user and contest inside the window, and otherwise leaves the score as it was |
| Platform.ScoreIsPoints | platform/backend/src/routes/internal.ts:103-119 | the summed score is the points of the contest problems that were solved; it depends on the problems, not on the rows `distinct` keeps |
| Platform.PointsAddUp | platform/backend/src/routes/internal.ts:113-119 | the points of a list add up: each problem gives its own points if it is solved and nothing else |
| Platform.LatestIsMax | platform/backend/src/routes/internal.ts:120-122 | the last submission time is the maximum of the finish times, missing ones counted as now, and null exactly for no rows |
| ProtocolInvariant.StepInv | platform/backend/src/routes/internal.ts:34-129 | every step of every party keeps the invariants: rows, jobs and tokens correspond, rows only go from blank to graded, snapshots are earlier states, statuses are right, and a complete unfinished submission has a handler bound to finish it |
| ProtocolInvariant.ReachableInv | platform/backend/src/routes/problems.ts:144-208 | the invariants hold after every run from the empty tables |
| ProtocolInvariant.SnapshotFacts | platform/backend/src/routes/internal.ts:61-65 | a snapshot in which all cases are final is still current however much later it is used, and no snapshot overcounts |
| ProtocolTheorems.CaseCoherence | platform/backend/src/routes/problems.ts:171-202 | after the transaction rows, test cases and jobs correspond one to one in order, the token of row i being that of the job whose callback names test case i; before it, or without it, there are no rows |
| ProtocolTheorems.FinalStatusIsRight | platform/backend/src/routes/internal.ts:64-81 | in every reachable state a final status is the combined verdict of all job results, none missing |
| ProtocolTheorems.InterleavedFinalisation | platform/backend/src/routes/internal.ts:40-93 | for any interleaving, and whatever other handlers died: when every case had a delivery that was carried through to its write, each row shows the mapped status, time and memory of its own job, and the submission is RUNNING without results, or, if no row is, has the combined status, a finish time, and the largest run time and memory that some row has and no row exceeds (null for 0) |
| ProtocolTheorems.Completion | app/jobs/isolate_job.rb:325-338 | a final delivery of every case, carried through to its write, makes the submission final with status, finish time and maxima, with nothing assumed about other handlers |
| ProtocolTheorems.StatusStep | platform/backend/src/routes/internal.ts:64-91 | one step moves a status at most one level up, never down and never sideways, and leaves user, problem, contest and creation time alone |
| ProtocolTheorems.StatusMonotone | platform/backend/src/routes/problems.ts:188-202 | over any run a status only goes PENDING, RUNNING, one final verdict; RUNNING never overwrites a verdict |
| ProtocolTheorems.ExhaustedForever | app/jobs/isolate_job.rb:325-338 | a submission with nothing under way keeps its row and its cases in every continuation |
| ProtocolTheorems.LostForGood | app/jobs/isolate_job.rb:325-338 | a row that is blank while its job has been answered or has used up its tries, with no delivery under way, stays blank and keeps its submission RUNNING in every continuation, whatever happens to other cases and handlers |
| ProtocolHistory.CompletionIff | platform/backend/src/routes/internal.ts:40-81 | when none of its handlers is under way a submission is final exactly if each of its cases had a delivery with a final verdict whose lookup followed the transaction |
| ProtocolTheorems.FoundAfterCommit | platform/backend/src/routes/internal.ts:40-46 | a callback that looks for its case after the transaction finds it |
| ProtocolHistory.EarlyIff | platform/backend/src/routes/internal.ts:40-46 | over any run a callback ends in 404 exactly when its lookup came before the transaction of its submission |
| ProtocolHistory.CompletionBounds | platform/backend/src/routes/internal.ts:40-91 | over any run: a final submission had a final delivery of each case that looked after the transaction, and one such delivery per case that came to its end makes it final |
| ProtocolHistory.OnTimeCompletion | platform/backend/src/routes/problems.ts:186-202 | if no callback of a submission looks before the transaction, one completed final delivery per case makes it final |
| ProtocolRuns.EarlyCallbackIsLost | platform/backend/src/routes/internal.ts:43-46 | a run in which the only callback gets 404 before the transaction: the job is done and answered, and the submission is RUNNING in every continuation |
| ProtocolRaces.StaleWritesLandLast | platform/backend/src/routes/internal.ts:61-128 | a run in which all is delivered, answered and done, yet an accepted submission shows 1 of 2 cases passed for good and the contest score lacks a solved problem |
| ProtocolScores.PassedNeverOvercounts | platform/backend/src/routes/internal.ts:65-90 | in every reachable state the stored count is at most the number of accepted cases |
| ProtocolScores.WriteExactIff | platform/backend/src/routes/internal.ts:61-91 | one submission write stores the true count exactly when its snapshot shows every case accepted by now |
| ProtocolScores.TrueScoreMonotone | platform/backend/src/routes/internal.ts:103-119 | over any run the points of the problems solved in the window never decrease |
| ProtocolScores.ScoresNeverExceed | platform/backend/src/routes/internal.ts:96-129 | in every reachable state a stored score is at most the points solved, and so at most the contest total |
| ProtocolScores.UpsertExactIff | platform/backend/src/routes/internal.ts:103-128 | one score upsert is right exactly when no problem worth points was solved after its query |
| ProtocolLastWrites.CountExactIff | platform/backend/src/routes/internal.ts:61-91 | the count a run ends with is right exactly when the snapshot behind the last write to the submission shows every case accepted at the end; without a write, exactly when none is |
| ProtocolOrder.CountRightIff | platform/backend/src/routes/internal.ts:48-91 | the count a run ends with is right exactly when, for every case accepted at the end, an update of its row comes before the snapshot of the handler whose write comes last |
| ProtocolLastWrites.ScoreExactIff | platform/backend/src/routes/internal.ts:103-128 | the score a run ends with is right exactly when the rows behind the last stored score lack no solved problem worth points; without one, exactly when no solved problem is worth points |
| ProtocolExact.NonOverlappingIsExact | platform/backend/src/routes/internal.ts:48-91 | if the handlers of a submission never overlap between update and write, its result is that of grading the whole set of case rows at once: the combined status, the largest run time and memory of the rows, and as passed count the number of rows with status AC, whatever handlers of other submissions do |
| ProtocolExact.NonOverlappingScores | platform/backend/src/routes/internal.ts:96-129 | if the handlers that rescore a user in a contest never overlap, the score is, when none is under way, the points of the problems with an accepted submission created within the window, and a user without a row has solved nothing, whatever other handlers do |
| ProtocolExact.NonOverlappingScoresGrow | platform/backend/src/routes/internal.ts:124-128 | if the handlers that rescore a user in a contest never overlap and points are not negative, the row stays and the score never falls, in between included |
| ProtocolExact.VerdictConfluence | platform/backend/src/routes/internal.ts:48-81 | any two runs that accept callbacks for the same cases of a submission, in any order, number and interleaving, end in the same case rows, status, run time and memory |
| ProtocolExact.Confluence | platform/backend/src/routes/internal.ts:48-91 | two runs that accept callbacks for the same cases of a submission, in any order and number, and in which its own handlers do not overlap, end in the same case rows and the same four result columns |
| ProtocolExact.ScoreConfluence | platform/backend/src/routes/internal.ts:96-129 | two runs with the same submissions of a user to a contest and callbacks accepted for the same cases, in which the handlers that rescore the user do not overlap, give the same score, and the true one |
| Backend.Backend.FindAccepted | platform/backend/src/routes/internal.ts:103-112 | every row returned is a stored AC submission of this user to this contest, created neither before its start nor after its end; each such submission has its problem in exactly one row |
| Backend.Backend.UpdateContestScore | platform/backend/src/routes/internal.ts:96-129 | stores the points of the problems with an accepted submission created within the window, and the latest finish time of the rows found, and touches nothing else; an unknown contest changes nothing |
| Backend.Backend.HandleCallback | platform/backend/src/routes/internal.ts:34-94 | 404 and nothing changed exactly when no row is of that test case; otherwise 204, a row with the mapped status, time and memory, the passed count as the number of AC rows, and if all rows are final the combined status, the largest run time and memory, the finish time and, for an accepted contest submission, the points of the window; no other row changes |
| Backend.CallbackMeaning | platform/backend/src/routes/internal.ts:40-128 | the same of the tables that find, update, snapshot, write and rescore leave, whatever order and rows the two unordered queries return |
| Backend.Backend.Submit | platform/backend/src/routes/problems.ts:144-208 | 404, 400, 500 and 202 with the tables each leaves: nothing (also for a contest that does not exist), a PENDING row of that user and problem, or RUNNING with one blank row per test case under the token at its position; no other row changes |
| Backend.Backend.Register | platform/backend/src/routes/contests.ts:88-107 | 404 for an unknown contest; otherwise adds a participant with score 0 and no last submission, and leaves an existing one alone |
| Backend.UpToWrite | platform/backend/src/routes/internal.ts:40-91 | from the receipt to the submission write a handler's steps can follow each other, and leave the tables the three calls leave |
| Backend.UninterruptedHandler | platform/backend/src/routes/internal.ts:34-129 | the handler executed as one atomic step is one schedule of its awaited steps: same tables, same response, nobody else touched |
| Backend.UninterruptedSubmit | platform/backend/src/routes/problems.ts:155-202 | a stored submission executed without interruption, however it ends, is one schedule of create, send and transaction: same tables, and besides them only its own handler and the jobs of its batch |
| RubyText.PiecesOfJoin | app/jobs/isolate_job.rb:343-344 | splitting what was joined gives the pieces back |
| RubyText.StripIsLines | app/jobs/isolate_job.rb:365-370 | the normal form of a text is its right-trimmed lines without the empty ones at the end |
| OutputNormaliser.NoSpaceAtLineEnds | app/jobs/isolate_job.rb:365-370 | no line of the result, nor the result, ends in a blank, tab, newline, carriage return, vertical tab, form feed or NUL |
| OutputNormaliser.SpaceBeforeNewline | app/jobs/isolate_job.rb:365-370 | a blank, tab, carriage return, vertical tab, form feed or NUL before a newline makes no difference |
| OutputNormaliser.SpaceAtEnd | app/jobs/isolate_job.rb:365-370 | nor does one of these, or a newline, at the end of the text |
| OutputNormaliser.StripUnchangedIff | app/jobs/isolate_job.rb:365-370 | a text stays as it is exactly when no line of it ends in one of these characters and its last line is not empty, or it is empty |
| OutputNormaliser.DifferentEnds | app/jobs/isolate_job.rb:358-367 | two lines that end in different characters, neither of them one of these, compare as different |
| RubyText.StripIdempotent | app/jobs/isolate_job.rb:365-370 | normalising twice is normalising once |
| RubyText.StripEqualIff | app/jobs/isolate_job.rb:358-367 | two texts compare equal exactly when they agree line by line after right-trimming, missing lines read as empty |
| RubyText.MetadataRaisesIff | app/jobs/isolate_job.rb:342-347 | parsing raises exactly when a line, trailing empty lines aside, is empty or consists of colons only |
| RubyText.MetadataRoundTrip | app/jobs/isolate_job.rb:342-347 | parsing printed `key:value` lines gives exactly the printed keys, each with the value of its last line, less the colons at the end of that value and nothing else |
| RubyText.MetadataIdentityIff | app/jobs/isolate_job.rb:342-347 | every printed value comes back exactly when no value ends in a colon and equal keys have equal values |
| SubmissionRecord.Attribute.Get | app/models/submission.rb:108-110 | returns the remembered value if there is one, else decodes the column and remembers the result unless it is nil |
| SubmissionRecord.Attribute.Set | app/models/submission.rb:112-115 | stores the new value in the column, nil for nil, and leaves the remembered value |
| SubmissionRecord.ActsLeave | app/models/submission.rb:108-125 | any accesses leave the value assigned last in the column and the first non-nil value read in the memo |
| SubmissionRecord.GetterAgreesIff | app/models/submission.rb:108-125 | the getter agrees with the column exactly when the first non-nil value ever read, if any, is the value assigned last |
| IsolateJob.Job.InitializeWorkdir | app/jobs/isolate_job.rb:54-75 | success leaves a sandbox, an exception keeps its message and may leave one |
| IsolateJob.Job.Compile | app/jobs/isolate_job.rb:111-203 | a failed compilation stores a row with status CE and no measurements at once; success and exceptions store nothing |
| IsolateJob.Job.DetermineStatusOf | app/jobs/isolate_job.rb:349-363 | the verdict through the memoised getters, and what they remember afterwards |
| IsolateJob.Job.Verify | app/jobs/isolate_job.rb:254-292 | reads the metadata, which may raise and then changes nothing; otherwise the whole record after a run, judged on the remembered output when there is one |
| IsolateJob.Job.Cleanup | app/jobs/isolate_job.rb:294-302 | a removed sandbox is gone; one left behind raises only when asked to |
| IsolateJob.Job.RunOnce | app/jobs/isolate_job.rb:25-37 | one pass of the loop for every combination of outcomes: exception, stored compilation error, or a judged run with its sandbox removed |
| IsolateJob.TimesInjected | app/jobs/isolate_job.rb:40 | Ruby's fold of the times with `+` raises exactly when one of several is nil; otherwise it gives the sum used for the average, 0 for a single nil |
| IsolateJob.MemoriesInjected | app/jobs/isolate_job.rb:41 | the same of the memories |
| IsolateJob.TruncateTowardsZero | app/jobs/isolate_job.rb:41 | the average stored in the integer column is off by less than one, towards zero |
| IsolateJob.Job.StoreAverages | app/jobs/isolate_job.rb:40-42 | stores the verdict with the averages, or raises when several runs include a missing measurement |
| IsolateJob.Job.RunLoop | app/jobs/isolate_job.rb:24-38 | the loop ends where the recursive reading of the same outcomes ends |
| IsolateJob.Job.CallCallback | app/jobs/isolate_job.rb:313-340 | one sequence of identical deliveries of the record as it is, of the length the responses determine |
| IsolateJob.TriesMeaning | app/jobs/isolate_job.rb:325-338 | deliveries stop at the first response, and otherwise when the tries run out; without a URL there is none |
| IsolateJob.Job.Perform | app/jobs/isolate_job.rb:17-50 | for every outcome of every external call: after 2 a status id from 3 to 14 is stored, once except when the cleanup after a compilation error (6) fails (13); an end without exception leaves no sandbox and stores the output of the last run with the averages, or nothing but 6; an exception stores 13 with its message; the callback carries the stored row |
| IsolateJob.OutcomeTerminal | app/jobs/isolate_job.rb:24-46 | no outcome of the external calls leaves a submission in queue or processing |
| JobVerdicts.MultiRunVerdict | app/jobs/isolate_job.rb:24-38 | for every outcome of every external call: after an accepted and compared first run only clean endings count, and in all other cases the job ends as if every run were judged on its own output |
| JobVerdicts.OneRunVerdict | app/jobs/isolate_job.rb:254-292 | from the printed metadata of a job with one run to the stored id and the platform's verdict: TO 5 and TLE; RE 11 and RE; SG 7, 8, 9, 10 for the exit signals 11, 25, 8, 6 and 12 for any other, each RE; XX 14 and RE for a failed `execve` with one of three reasons, else 13 and IE; otherwise 3 and AC when nothing is expected or the lines agree, else 4 and WA |
| JobVerdicts.RunStatusByValue | app/jobs/isolate_job.rb:349-363 | the id of one run, for any message of one line, by the same table |
| JobVerdicts.ExecveLineIff | app/jobs/isolate_job.rb:284-288 | the pattern matches a line exactly when it is `execve(`, something, `): ` and the reason |
| JobVerdicts.OneRunEnd | app/jobs/isolate_job.rb:24-46 | how a job of one run ends by what its calls answered: judged, stored as 6 exactly for a failed compilation that is cleaned up, or 13 with the message of the call that raised first |
| JobVerdicts.AcceptedIff | app/jobs/isolate_job.rb:349-363 | for every outcome of every external call: AC exactly when all runs are judged and end cleanly, the first one is accepted on its output, and no measurement is missing among several |
| JobVerdicts.IntendedIff | app/models/submission.rb:108-115 | the status is the one that judging each run on its own output gives, exactly when no later run reached through accepted runs is a wrong answer, unless a missing measurement has spoilt the job by then and no later compilation is rejected |
| JobVerdicts.WrongSecondRunIsAccepted | app/models/submission.rb:108-115 | a job whose second run prints something else is stored as AC, with that output in the column |
| JobVerdicts.UnreadableFile | app/jobs/isolate_job.rb:342-347 | a run is spoilt by its metadata file exactly when a line of it, trailing empty lines aside, is empty or consists of colons only |
| JobVerdicts.PrintedStatus | app/jobs/isolate_job.rb:254-273 | from the lines the sandbox writes to the status the verdict starts from: that of the last `status` line less the colons at its end, and none exactly when there is no such line |
| JobVerdicts.EndVerdict | app/jobs/isolate_job.rb:44-47 | a case shows CE exactly for a rejected compilation, and IE for every exception in the worker |
| JobVerdicts.JobGivesFinalVerdict | app/enumerations/status.rb:1-25 | every job that ends gives its case a final verdict |
| JobVerdicts.CaseAcceptedIff | platform/backend/src/lib/judge0.ts:54-66 | for every outcome of every external call: a case is accepted exactly when all runs of its job are judged and end cleanly, the first prints the expected lines and no measurement is missing among several; an empty expected output, being omitted from the request, accepts any output |
| IsolateRunner.SleptClosedForm | app/helpers/isolate_runner.rb:15-29 | after k rounds, k at least 2, twice the seconds slept are k(k-1)/2 + 5 |
| IsolateRunner.FiftyRounds | app/helpers/isolate_runner.rb:2-17 | the ten minutes are used up after exactly fifty rounds, at 615 seconds |
| IsolateRunner.PerformNow | app/helpers/isolate_runner.rb:2-33 | ends after at most 50 sleeps and 615 seconds, having found no row or status 1 or 2 in every earlier round, at the first other status or with ten minutes used up |
| Judge0Queue.EnqueueFacts | app/helpers/isolate_runner.rb:35-38 | a batch appends fresh consecutive ids to the queue, one queued row for each, and changes no other row and no worker |
| Judge0Queue.EnqueueAligned | app/controllers/submissions_controller.rb:144-152 | the new row with the token at position i of the reply holds entry i of the request |
| Judge0Queue.EnqueuedIsCreated | app/controllers/submissions_controller.rb:139-152 | the new rows of the queue are the rows the batch creates: the same tokens with the same items |
| Judge0Queue.BatchCoherence | platform/backend/src/lib/judge0.ts:54-73 | from test cases through request, rows and reply: the job behind the token stored for case i has the callback, input and expected output of case i |
| Judge0Controller.SubmissionsController.GenerateToken | app/models/submission.rb:228-232 | the token is new |
| Judge0Controller.SubmissionsController.SaveAndPerformLater | app/helpers/isolate_runner.rb:35-38 | adds one row with status 1 and a new token under the next id, and that id at the end of the queue; nothing else changes |
| Judge0Controller.SubmissionsController.SaveAll | app/controllers/submissions_controller.rb:141-152 | a new distinct token for each valid entry and for no other, each saved and enqueued in order |
| Judge0Controller.SubmissionsController.BatchCreate | app/controllers/submissions_controller.rb:124-155 | the five replies and when each is given; refusals change nothing, the reply is created exactly when some entry is valid, and an answered request is a step of the worker system, whose invariants it keeps |
| Judge0Admission.SerialIsBounded | app/controllers/submissions_controller.rb:207-212 | when no request is admitted while another one has entries to save, the queue keeps its limit at every moment, whatever the workers do |
| Judge0Admission.UninterruptedRequest | app/controllers/submissions_controller.rb:124-155 | the check and the saves of a request that nothing interrupts are the one step the worker system takes it for |
| Judge0Admission.LimitExceeded | app/controllers/submissions_controller.rb:207-212 | for any limit and any number n there is a run in which n requests pass the check and then fill the queue n times over |
| Judge0Workers.StepInv | app/controllers/submissions_controller.rb:37-55 | submitting, taking, finishing and deleting keep every id in the queue or with one worker at most, and every queued id with its row |
| Judge0Workers.QueueBounded | app/controllers/submissions_controller.rb:207-212 | over any run the queue never exceeds its limit, and a worker finds the row of the job it takes |
| Judge0Workers.FirstComeFirstServed | app/helpers/isolate_runner.rb:35-38 | over any run jobs wait in the order in which they were submitted, and no worker has a job submitted after one that still waits |
| Judge0Workers.BoxesExclusive | app/jobs/isolate_job.rb:54-57 | in any state that keeps the invariants, two workers never use the same sandbox as long as ids fit the serial column |
| Judge0Workers.RunBoxesExclusive | app/jobs/isolate_job.rb:54-57 | over any run from the empty queue two workers never use the same sandbox as long as ids fit the serial column |
| Judge0Workers.RequeueSafeIff | lib/tasks/run_submissions_in_queue.rake:4-13 | enqueuing a row again keeps the invariants exactly when its id is neither queued nor running and the queue has room |
| Judge0Workers.RequeueIsNeverSafe | lib/tasks/run_submissions_in_queue.rake:4-13 | in every state a run reaches, each row the script selects is in the queue already, so that enqueuing it breaks the invariants |
| Judge0Workers.RequeueBreaksExclusivity | lib/tasks/run_submissions_in_queue.rake:4-13 | from any state in which an id is queued or with a worker, enqueuing it again lets two workers come to hold the same sandbox |
| Leaderboard.SolvedAtMostAccepted | platform/backend/src/routes/leaderboard.ts:8-22 | nobody has solved more problems than they have accepted submissions, and whoever has one has solved one |
| Leaderboard.Sort | platform/backend/src/routes/leaderboard.ts:15-34 | sorts an array in place, as the sorting function does |
| Leaderboard.SortIsSorted | platform/backend/src/routes/leaderboard.ts:15-34 | the sorted list is sorted and a permutation |
| Leaderboard.SortPlaces | platform/backend/src/routes/leaderboard.ts:15-34 | every element ends up behind those before it that are not smaller and those after it that are larger |
| Leaderboard.SortIsStable | platform/backend/src/routes/leaderboard.ts:15-34 | elements with equal keys keep their order |
| Leaderboard.List | platform/backend/src/routes/leaderboard.ts:13-37 | sort by accepted submissions, cut to 100, sort by problems solved, rank from 1 |
| Leaderboard.RankingOfAll | platform/backend/src/routes/leaderboard.ts:13-37 | the first 100 solvers or all of them, best first, ranked 1, 2, 3 and so on, each with its own solved count; up to 100 nobody is missing |
| Leaderboard.EveryoneListed | platform/backend/src/routes/leaderboard.ts:8-37 | up to 100 solvers: everyone with an accepted submission is listed with the number of distinct problems solved |
| Leaderboard.KeptIff | platform/backend/src/routes/leaderboard.ts:15-16 | for the order the query returned: a solver is kept exactly when fewer than 100 groups have more accepted submissions or as many and come before |
| Leaderboard.AlwaysKeptIff | platform/backend/src/routes/leaderboard.ts:15-16 | a solver is kept in every order of the groups exactly when at most 100 groups have as many accepted submissions |
| Leaderboard.NeverKeptIff | platform/backend/src/routes/leaderboard.ts:15-16 | a solver is cut in every order of the groups exactly when at least 100 groups have more accepted submissions |
| Leaderboard.CutByAccepted | platform/backend/src/routes/leaderboard.ts:15-16 | beyond 100 the cut keeps the largest numbers of accepted submissions |
| Leaderboard.CutBySolved | platform/backend/src/routes/leaderboard.ts:15-16 | a kept solver who was never accepted twice on one problem has solved at least as many problems as anyone cut |
| Leaderboard.CutIsFairIff | platform/backend/src/routes/leaderboard.ts:15-34 | every kept solver has solved at least as many problems as every cut one, in every order of the groups, exactly when no solver can displace another one who has solved more |
| Leaderboard.FewestAcceptedIsCut | platform/backend/src/routes/leaderboard.ts:15-16 | in any order of the groups: whoever has at most 100 groups with as many accepted submissions is kept, and whoever has 100 with more is cut |
| Leaderboard.BestSolverMissing | platform/backend/src/routes/leaderboard.ts:8-34 | accepted submissions and their groups, 101 of them, from which the one who solved most is missing in every order |
| EndToEnd.JobsAreRows | platform/backend/src/lib/judge0.ts:54-73 | the rows a batch adds to Judge0's queue are the jobs the platform waits for: the same tokens with the same callbacks |
| EndToEnd.AcceptedWhenProgramsPass | platform/backend/src/routes/internal.ts:34-94 | from programs to the stored status: when every case had a delivery that was carried through, the submission is final, and AC exactly when the job of every case compiles, ends cleanly in all runs, prints the expected lines in the first and lacks no measurement among several |

## Left out

- HTTP, routing, Prisma, ActiveRecord, Resque and Redis: only atomic reads, writes, enqueues and messages remain.
- Authentication: callbacks and requests are taken as authenticated; signatures, tokens and limits on addresses are not modelled.
- Shell commands and `isolate`: each group of commands is one external call with an arbitrary outcome. A call that raises leaves the record as it was, so a `compile` that fails half way through its assignments is not distinguished; the row is rewritten with Internal Error in either case.
- IsolateJob.Job.InitializeWorkdir: creating the sandbox, its files and the archive is one outcome, success or an exception that may leave a sandbox behind.
- IsolateJob.Job.Compile: whether there is anything to compile, the compiler's output and its metadata are inside the outcome.
- IsolateJob.Job.Verify: the numeric entries of the metadata file are parameters beside its text, since the casts of the columns are not modelled; stderr, wall time and exit code play no part in the verdict.
- IsolateJob.Job.Cleanup: the commands that remove files are not modelled, nor what they do when the sandbox was never named.
- IsolateJob.Job.Perform: host names and timestamps are left out; exception texts are abstract for a missing measurement and for a failed cleanup (the box number is not spelled out).
- Retries of a whole job (`retry_on`): the only exceptions of that class come from a missing row, and `QueueBounded` shows that a queued row is there.
- Base64 as bits: an abstract pair in which decoding inverts encoding. The callback carries the raw column, as the serializer does.
- The `ArgumentError` branch of `strip`: text in an invalid encoding is not modelled.
- Other memoised attributes of a submission: they follow the class `Attribute`; `set_defaults` and the validations are reduced to one flag per entry.
- Text columns of case rows (stdout, stderr, compiler output): stored and shown, never read by grading.
- Platform.LatestIsMax: which finish times count depends on the rows `distinct` keeps, so the last submission time has no order-free value as the score has.
- Crashes: a handler, submit handler or worker that dies is one that takes no further step. Timeouts of the batch request are a `Send` that is not received.
- Deletion of platform rows and editing of contests, problems and test cases while submissions are under way.
- Judge0Controller.SubmissionsController.BatchCreate: executed without interruption (`Judge0Admission` has the interleaved form). A single `create` is a batch of one; the bodies of error replies are not modelled.
- IsolateRunner.PerformNow: time is what the loop sleeps, not what the queries take.
- Leaderboard.List: user names and ratings, and accepted submissions that arrive between its queries.
- Time and averages use exact numbers; rounding of floating point is not modelled.
- Serializers, `batch_show`, the contest pages, tags, discussions, users, the daily problem, administration, seeds and the whole user interface: queries and forms without state of their own.
