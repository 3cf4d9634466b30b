/** What survives every interleaving of the callback handlers, what does not, and when a submission completes. */
module ProtocolTheorems {
  import opened Wrappers
  import opened Grader
  import opened Judge0Batch
  import opened Platform
  import opened Protocol
  import opened ProtocolInvariant

  /***** the final status *****/

  /** Row `i` shows test case `i`, the token of its job, and what that job's result says, for every test case. */
  ghost predicate GradedAtOnce(s: State, k: Id, rows: seq<CaseRow>)
    requires k in s.submits
  {
    var sb := s.submits[k];
    && |rows| == |sb.tests| == |sb.replies|
    && forall i :: 0 <= i < |rows| ==>
         && sb.replies[i].Some? && sb.replies[i].value in s.jobs
         && s.jobs[sb.replies[i].value].callback == Callback(k, sb.tests[i].id)
         && s.jobs[sb.replies[i].value].result.Some?
         && var result := s.jobs[sb.replies[i].value].result.value;
            rows[i] == CaseRow(sb.tests[i].id, sb.replies[i].value, Judge0StatusToVerdict(result.statusId.GetOr(13)),
                               result.runtimeMs, result.memoryKb)
  }

  lemma RowFacts(s: State, k: Id, i: nat)
    requires Structure(s) && Cases(s) && k in s.db.cases && i < |s.db.cases[k]|
    ensures k in s.submits && SubmitOk(s, k) && |s.db.cases[k]| == |s.submits[k].tests| == |s.submits[k].replies|
    ensures CaseOk(s.db.cases[k][i], s.submits[k].tests[i], s.submits[k].replies[i], s.jobs)
  {
    assert RowsOk(s.db.cases[k], s.submits[k], s.jobs);
  }

  /** Row `i` is that of test case `i`, and its token is that of the job whose callback names test case `i`. */
  ghost predicate RowsFollowTests(s: State, k: Id, rows: seq<CaseRow>, tests: seq<TestCase>) {
    && |rows| == |tests|
    && (forall i :: 0 <= i < |rows| ==>
          rows[i].testCase == tests[i].id && rows[i].token in s.jobs
          && s.jobs[rows[i].token].callback == Callback(k, tests[i].id))
    && (forall i, j :: 0 <= i < j < |rows| ==> rows[i].token != rows[j].token && rows[i].testCase != rows[j].testCase)
  }

  lemma JobsHaveRows(s: State, k: Id)
    requires Structure(s) && k in s.db.cases && k in s.submits && |s.submits[k].replies| == |s.db.cases[k]|
    requires forall i :: 0 <= i < |s.db.cases[k]| ==> s.submits[k].replies[i] == Some(s.db.cases[k][i].token)
    ensures forall t :: t in s.jobs && s.jobs[t].callback.sub == k ==>
              exists i :: 0 <= i < |s.db.cases[k]| && s.db.cases[k][i].token == t
  {
    forall t | t in s.jobs && s.jobs[t].callback.sub == k
      ensures exists i :: 0 <= i < |s.db.cases[k]| && s.db.cases[k][i].token == t
    {
      assert HasReply(s.submits[k], t);
      var i :| 0 <= i < |s.submits[k].replies| && s.submits[k].replies[i] == Some(t);
      assert s.db.cases[k][i].token == t;
    }
  }

  lemma TokenOfRow(s: State, k: Id)
    requires Structure(s) && Cases(s) && k in s.db.cases
    ensures k in s.submits && |s.submits[k].replies| == |s.db.cases[k]|
    ensures RowsFollowTests(s, k, s.db.cases[k], s.submits[k].tests)
    ensures forall i :: 0 <= i < |s.db.cases[k]| ==> s.submits[k].replies[i] == Some(s.db.cases[k][i].token)
  {
    assert SubmitOk(s, k) && RowsOk(s.db.cases[k], s.submits[k], s.jobs);
    forall i | 0 <= i < |s.db.cases[k]|
      ensures s.submits[k].replies[i] == Some(s.db.cases[k][i].token)
      ensures s.db.cases[k][i].testCase == s.submits[k].tests[i].id
    {
      RowFacts(s, k, i);
    }
  }

  /** After the transaction rows, test cases and jobs correspond one to one, in order; before it there are no rows. */
  lemma CaseCoherence(s: State, k: Id)
    requires Reachable(s) && k in s.submits
    ensures k in s.db.cases <==> s.submits[k].phase.Committed?
    ensures k in s.db.cases ==> RowsFollowTests(s, k, s.db.cases[k], s.submits[k].tests)
    ensures k in s.db.cases ==> forall t :: t in s.jobs && s.jobs[t].callback.sub == k ==>
                                  exists i :: 0 <= i < |s.db.cases[k]| && s.db.cases[k][i].token == t
  {
    ReachableInv(s);
    assert SubmitOk(s, k);
    if k in s.db.cases {
      TokenOfRow(s, k);
      JobsHaveRows(s, k);
    }
  }

  lemma NonBlankIsGradedAtOnce(s: State, k: Id)
    requires Structure(s) && Cases(s) && k in s.db.cases
    requires forall i :: 0 <= i < |s.db.cases[k]| ==> s.db.cases[k][i].status != PENDING
    ensures k in s.submits && GradedAtOnce(s, k, s.db.cases[k])
  {
    assert SubmitOk(s, k) && RowsOk(s.db.cases[k], s.submits[k], s.jobs);
    forall i | 0 <= i < |s.db.cases[k]|
      ensures CaseOk(s.db.cases[k][i], s.submits[k].tests[i], s.submits[k].replies[i], s.jobs)
    {
      RowFacts(s, k, i);
    }
  }

  /** A final status is never premature and never wrong, in any reachable state. */
  lemma FinalStatusIsRight(s: State, k: Id)
    requires Reachable(s) && k in s.db.submissions && IsFinal(s.db.submissions[k].status)
    ensures k in s.db.cases && k in s.submits && GradedAtOnce(s, k, s.db.cases[k]) && AllDone(s.db.cases[k])
    ensures s.db.submissions[k].status == CombineVerdicts(Verdicts(s.db.cases[k]))
  {
    ReachableInv(s);
    assert Structure(s) && Statuses(s);
    assert k in s.db.cases;
    assert StatusOk(s.db.submissions[k], s.db.cases[k]);
    NonBlankIsGradedAtOnce(s, k);
  }

  ghost predicate HandlersDone(s: State, k: Id) {
    forall h :: h in s.handlers && s.handlers[h].callback.sub == k ==> s.handlers[h].phase.Done?
  }

  /** No handler of the submission is between its case update and its submission write. */
  ghost predicate AtRest(s: State, k: Id) {
    forall h :: h in s.handlers && s.handlers[h].callback.sub == k ==>
      !s.handlers[h].phase.Updated? && !s.handlers[h].phase.Snapped?
  }

  /** The handler has written the submission. */
  predicate HasWritten(p: Phase) {
    p.Scoring? || p.Summing? || p == Done(204)
  }

  /** A delivery of this job found its case and was carried through to the submission write. */
  ghost predicate AcceptedDelivery(s: State, token: Id) {
    exists h :: h in s.handlers && s.handlers[h].token == token && HasWritten(s.handlers[h].phase)
  }

  /** The status, the two maxima and the finish time of a submission whose cases are in these rows. */
  ghost predicate GradedResult(row: SubmissionRow, rows: seq<CaseRow>) {
    && rows != []
    && if AllFinal(rows) then
         && row.status == CombineVerdicts(Verdicts(rows)) && row.finishedAt.Some?
         && LargestRuntime(row.runtimeMs, rows) && LargestMemory(row.memoryKb, rows)
       else row.status == RUNNING && row.finishedAt.None? && row.runtimeMs.None? && row.memoryKb.None?
  }

  /** The handlers of the job whose token a row stores are those of the row's case, and its verdict is theirs. */
  lemma JobHandler(s: State, k: Id, i: nat, h: Id)
    requires Structure(s) && Cases(s) && Handlers(s) && k in s.db.cases && i < |s.db.cases[k]|
    requires h in s.handlers && s.handlers[h].token == s.db.cases[k][i].token
    ensures s.handlers[h].callback == Callback(k, s.db.cases[k][i].testCase) && HandlerOk(s, s.handlers[h])
    ensures s.db.cases[k][i].status != PENDING ==> s.db.cases[k][i].status == PayloadVerdict(s.handlers[h].payload)
  {
    RowFacts(s, k, i);
    assert HandlerOk(s, s.handlers[h]);
  }

  /** A delivery that was carried through has graded its row, and no longer leaves the case open. */
  lemma AcceptedRow(s: State, k: Id, i: nat)
    requires Structure(s) && Cases(s) && Handlers(s) && k in s.db.cases && i < |s.db.cases[k]|
    requires AcceptedDelivery(s, s.db.cases[k][i].token)
    ensures s.db.cases[k][i].status != PENDING
    ensures !Open(s, Callback(k, s.db.cases[k][i].testCase))
  {
    var h :| h in s.handlers && s.handlers[h].token == s.db.cases[k][i].token && HasWritten(s.handlers[h].phase);
    JobHandler(s, k, i, h);
    if s.db.cases[k][i].status == PENDING {
      BlankIsOpen(s, k, i);
      assert PastUpdate(s.handlers[h].phase);
    }
  }

  /** At rest, the graded rows are those with an accepted delivery. */
  lemma RowDelivered(s: State, k: Id, i: nat)
    requires Structure(s) && Cases(s) && Handlers(s) && Served(s) && AtRest(s, k)
    requires k in s.db.cases && i < |s.db.cases[k]|
    ensures s.db.cases[k][i].status != PENDING <==> AcceptedDelivery(s, s.db.cases[k][i].token)
  {
    var token := s.db.cases[k][i].token;
    if AcceptedDelivery(s, token) {
      AcceptedRow(s, k, i);
    }
    if s.db.cases[k][i].status != PENDING {
      assert ServedBy(s, token);
      var h :| h in s.handlers && s.handlers[h].token == token && PastUpdate(s.handlers[h].phase);
      JobHandler(s, k, i, h);
      assert HasWritten(s.handlers[h].phase);
    }
  }

  lemma SettledRow(row: SubmissionRow, rows: seq<CaseRow>)
    requires StatusOk(row, rows) && (AllDone(rows) ==> row.status != RUNNING)
    ensures GradedResult(row, rows)
  {
    AllFinalIsAllDone(rows, rows);
    RuntimeIsLargest(rows);
    MemoryIsLargest(rows);
  }

  lemma NotRunning(s: State, k: Id)
    requires Structure(s) && Cases(s) && Handlers(s) && Progress(s)
    requires k in s.db.cases && k in s.db.submissions && AllDone(s.db.cases[k])
    requires forall i :: 0 <= i < |s.db.cases[k]| ==> AcceptedDelivery(s, s.db.cases[k][i].token)
    ensures s.db.submissions[k].status != RUNNING
  {
    if s.db.submissions[k].status == RUNNING {
      assert SomeOpen(s, k);
      var i :| 0 <= i < |s.db.cases[k]| && Open(s, Callback(k, s.db.cases[k][i].testCase));
      AcceptedRow(s, k, i);
    }
  }

  lemma AcceptedResult(s: State, k: Id)
    requires Structure(s) && Cases(s) && Handlers(s) && Statuses(s) && Progress(s) && k in s.db.cases
    requires AllDone(s.db.cases[k]) ==> forall i :: 0 <= i < |s.db.cases[k]| ==>
             AcceptedDelivery(s, s.db.cases[k][i].token)
    ensures k in s.db.submissions && GradedResult(s.db.submissions[k], s.db.cases[k])
  {
    assert StatusOk(s.db.submissions[k], s.db.cases[k]);
    if AllDone(s.db.cases[k]) {
      NotRunning(s, k);
    }
    SettledRow(s.db.submissions[k], s.db.cases[k]);
  }

  lemma SettledResult(s: State, k: Id)
    requires Inv(s) && k in s.db.cases && AtRest(s, k)
    ensures k in s.db.submissions && GradedResult(s.db.submissions[k], s.db.cases[k])
  {
    if AllDone(s.db.cases[k]) {
      forall i | 0 <= i < |s.db.cases[k]|
        ensures AcceptedDelivery(s, s.db.cases[k][i].token)
      {
        RowDelivered(s, k, i);
      }
    }
    AcceptedResult(s, k);
  }

  /**
   Interleaved finalisation. However the awaited steps of the callback handlers interleave, and whatever other
   handlers have stopped half way: once every case had a delivery that was carried through to its write, the stored
   result is that of grading all job results at once.
   */
  lemma InterleavedFinalisation(s: State, k: Id)
    requires Reachable(s) && k in s.db.cases
    requires forall i :: 0 <= i < |s.db.cases[k]| ==> AcceptedDelivery(s, s.db.cases[k][i].token)
    ensures k in s.submits && GradedAtOnce(s, k, s.db.cases[k])
    ensures k in s.db.submissions && GradedResult(s.db.submissions[k], s.db.cases[k])
  {
    ReachableInv(s);
    forall i | 0 <= i < |s.db.cases[k]|
      ensures s.db.cases[k][i].status != PENDING
    {
      AcceptedRow(s, k, i);
    }
    NonBlankIsGradedAtOnce(s, k);
    AcceptedResult(s, k);
  }

  /***** status monotonicity *****/

  function Level(v: Verdict): nat {
    match v
    case PENDING => 0
    case RUNNING => 1
    case _ => 2
  }

  /** PENDING, then RUNNING, then one final verdict for good; everything else identifying the row is fixed. */
  ghost predicate Onward(a: SubmissionRow, b: SubmissionRow) {
    && (a.status == b.status || Level(a.status) < Level(b.status))
    && a.user == b.user && a.problem == b.problem && a.contest == b.contest && a.createdAt == b.createdAt
    && a.totalCount == b.totalCount
  }

  ghost predicate AllOnward(s: State, t: State) {
    t.db.contests == s.db.contests
    && forall k :: k in s.db.submissions ==> k in t.db.submissions && Onward(s.db.submissions[k], t.db.submissions[k])
  }

  ghost predicate OneLevel(s: State, t: State) {
    forall k :: k in s.db.submissions && k in t.db.submissions ==>
      Level(t.db.submissions[k].status) <= Level(s.db.submissions[k].status) + 1
  }

  /** A step that rewrites one submission is judged by that row. */
  lemma OneRowOnward(s: State, t: State, k: Id)
    requires t.db.contests == s.db.contests && k in s.db.submissions && k in t.db.submissions
    requires t.db.submissions == s.db.submissions[k := t.db.submissions[k]]
    requires Onward(s.db.submissions[k], t.db.submissions[k])
    requires Level(t.db.submissions[k].status) <= Level(s.db.submissions[k].status) + 1
    ensures AllOnward(s, t) && OneLevel(s, t)
  {
  }

  lemma CommitStatusStep(s: State, step: Step)
    requires Structure(s) && Statuses(s) && Enabled(s, step) && step.Commit?
    ensures AllOnward(s, Apply(s, step)) && OneLevel(s, Apply(s, step))
  {
    assert SubmitOk(s, step.sub);
    OneRowOnward(s, Apply(s, step), step.sub);
  }

  lemma WriteStatusStep(s: State, step: Step)
    requires step.Write? && Enabled(s, step) && Statuses(s) && HandlerOk(s, s.handlers[step.h])
    ensures AllOnward(s, Apply(s, step)) && OneLevel(s, Apply(s, step))
  {
    WriteKeeps(s, step);
    var k := s.handlers[step.h].callback.sub;
    assert StatusOk(s.db.submissions[k], s.db.cases[k]);
    WriteStatus(s.db.submissions[k], s.handlers[step.h].phase.snapshot, s.db.cases[k], step.now);
    OneRowOnward(s, Apply(s, step), k);
  }

  lemma SameTables(s: State, step: Step)
    requires Enabled(s, step)
    requires step.Register? || step.FinishJob? || step.Put? || step.Respond? || step.Send? || step.SendRefused?
             || step.CommitFailed?
    ensures Apply(s, step).db.submissions == s.db.submissions && Apply(s, step).db.contests == s.db.contests
  {
  }

  lemma SameSubmissions(s: State, step: Step)
    requires Enabled(s, step) && (step.Find? || step.Update? || step.Snapshot? || step.Read? || step.Upsert?)
    ensures Apply(s, step).db.submissions == s.db.submissions && Apply(s, step).db.contests == s.db.contests
  {
  }

  lemma SameOnward(s: State, t: State)
    requires t.db.submissions == s.db.submissions && t.db.contests == s.db.contests
    ensures AllOnward(s, t) && OneLevel(s, t)
  {
  }

  lemma OtherStatusStep(s: State, step: Step)
    requires Enabled(s, step) && !step.Commit? && !step.Write?
    requires s.submits.Keys == s.db.submissions.Keys
    ensures AllOnward(s, Apply(s, step)) && OneLevel(s, Apply(s, step))
  {
    if step.Create? {
    } else if step.Register? || step.FinishJob? || step.Put? || step.Respond? || step.Send? || step.SendRefused?
      || step.CommitFailed? {
      SameTables(s, step);
      SameOnward(s, Apply(s, step));
    } else {
      SameSubmissions(s, step);
      SameOnward(s, Apply(s, step));
    }
  }

  /** One step: a status changes only from PENDING to RUNNING or from RUNNING to a final verdict. */
  lemma StatusStep(s: State, step: Step)
    requires Inv(s) && Enabled(s, step)
    ensures AllOnward(s, Apply(s, step)) && OneLevel(s, Apply(s, step))
  {
    if step.Commit? {
      CommitStatusStep(s, step);
    } else if step.Write? {
      assert HandlerOk(s, s.handlers[step.h]);
      WriteStatusStep(s, step);
    } else {
      assert Structure(s);
      OtherStatusStep(s, step);
    }
  }

  lemma OnwardTransitive(s: State, m: State, t: State)
    requires AllOnward(s, m) && AllOnward(m, t)
    ensures AllOnward(s, t)
  {
  }

  lemma {:induction false} StatusMonotone(s: State, steps: seq<Step>, t: State)
    requires Inv(s) && Run(s, steps, t)
    ensures AllOnward(s, t)
    decreases |steps|
  {
    if steps != [] {
      var m := Apply(s, steps[0]);
      StatusStep(s, steps[0]);
      StepInv(s, steps[0]);
      StatusMonotone(m, steps[1..], t);
      OnwardTransitive(s, m, t);
    }
  }

  /***** completion *****/

  /** Nothing of the submission is under way: no handler runs, every job has finished and will not call back again. */
  ghost predicate Exhausted(s: State, k: Id) {
    && k in s.submits && k in s.db.submissions
    && (s.submits[k].phase.Committed? || s.submits[k].phase.Failed?)
    && HandlersDone(s, k)
    && (forall t :: t in s.jobs && s.jobs[t].callback.sub == k ==>
          s.jobs[t].result.Some? && (s.jobs[t].answered || s.jobs[t].tries >= s.maxTries))
  }

  ghost predicate SameSubmission(s: State, t: State, k: Id) {
    && k in s.db.submissions && k in t.db.submissions && t.db.submissions[k] == s.db.submissions[k]
    && (k in s.db.cases <==> k in t.db.cases)
    && (k in s.db.cases ==> t.db.cases[k] == s.db.cases[k])
  }

  lemma ExhaustedSend(s: State, step: Step, k: Id)
    requires Exhausted(s, k) && Enabled(s, step) && step.Send?
    requires k != step.sub
    ensures Exhausted(Apply(s, step), k)
  {
    NewJobsAligned(step.sub, s.submits[step.sub].tests, step.replies);
  }

  lemma ExhaustedHandlerStep(s: State, step: Step, k: Id)
    requires Exhausted(s, k) && Enabled(s, step)
    requires step.Update? || step.Write? || step.Find? || step.Snapshot? || step.Read? || step.Upsert?
    ensures Exhausted(Apply(s, step), k) && SameSubmission(s, Apply(s, step), k)
  {
    assert s.handlers[step.h].callback.sub != k;
  }

  lemma ExhaustedOtherStep(s: State, step: Step, k: Id)
    requires Exhausted(s, k) && Enabled(s, step) && !step.Send? && s.submits.Keys == s.db.submissions.Keys
    requires !(step.Update? || step.Write? || step.Find? || step.Snapshot? || step.Read? || step.Upsert?)
    ensures Exhausted(Apply(s, step), k) && SameSubmission(s, Apply(s, step), k)
  {
  }

  lemma ExhaustedStep(s: State, step: Step, k: Id)
    requires Structure(s) && Exhausted(s, k) && Enabled(s, step)
    ensures Exhausted(Apply(s, step), k) && SameSubmission(s, Apply(s, step), k)
  {
    if step.Send? {
      ExhaustedSend(s, step, k);
    } else if step.Update? || step.Write? || step.Find? || step.Snapshot? || step.Read? || step.Upsert? {
      ExhaustedHandlerStep(s, step, k);
    } else {
      ExhaustedOtherStep(s, step, k);
    }
  }

  /** An exhausted submission keeps its row and its cases in every continuation. */
  lemma {:induction false} ExhaustedForever(s: State, steps: seq<Step>, t: State, k: Id)
    requires Inv(s) && Exhausted(s, k) && Run(s, steps, t)
    ensures Exhausted(t, k) && SameSubmission(s, t, k)
    decreases |steps|
  {
    if steps != [] {
      ExhaustedStep(s, steps[0], k);
      StepInv(s, steps[0]);
      ExhaustedForever(Apply(s, steps[0]), steps[1..], t, k);
    }
  }

  /** An accepted delivery of the job that carried a final verdict. */
  ghost predicate FinalDelivery(s: State, token: Id) {
    exists h :: h in s.handlers && s.handlers[h].token == token && HasWritten(s.handlers[h].phase)
                && IsFinal(PayloadVerdict(s.handlers[h].payload))
  }

  lemma DeliveryFinalRow(s: State, k: Id, i: nat)
    requires Structure(s) && Cases(s) && Handlers(s) && k in s.db.cases && i < |s.db.cases[k]|
    requires FinalDelivery(s, s.db.cases[k][i].token)
    ensures AcceptedDelivery(s, s.db.cases[k][i].token) && IsFinal(s.db.cases[k][i].status)
  {
    var token := s.db.cases[k][i].token;
    var h :| h in s.handlers && s.handlers[h].token == token && HasWritten(s.handlers[h].phase)
              && IsFinal(PayloadVerdict(s.handlers[h].payload));
    assert AcceptedDelivery(s, token);
    AcceptedRow(s, k, i);
    JobHandler(s, k, i, h);
  }

  lemma FinalResultIff(row: SubmissionRow, rows: seq<CaseRow>)
    requires GradedResult(row, rows)
    ensures IsFinal(row.status) <==> AllDone(rows)
  {
    AllFinalIsAllDone(rows, rows);
    if AllDone(rows) {
      CombineIsTheWorst(Verdicts(rows), row.status);
    }
  }

  /**
   Completion. A final delivery of every case is enough, whatever happened to the other handlers: retries make up
   for handlers that stopped.
   */
  lemma Completion(s: State, k: Id)
    requires Reachable(s) && k in s.db.cases
    requires forall i :: 0 <= i < |s.db.cases[k]| ==> FinalDelivery(s, s.db.cases[k][i].token)
    ensures k in s.submits && GradedAtOnce(s, k, s.db.cases[k]) && AllDone(s.db.cases[k])
    ensures k in s.db.submissions && GradedResult(s.db.submissions[k], s.db.cases[k])
    ensures IsFinal(s.db.submissions[k].status)
  {
    ReachableInv(s);
    forall i | 0 <= i < |s.db.cases[k]|
      ensures AcceptedDelivery(s, s.db.cases[k][i].token) && IsFinal(s.db.cases[k][i].status)
    {
      DeliveryFinalRow(s, k, i);
    }
    InterleavedFinalisation(s, k);
    FinalResultIff(s.db.submissions[k], s.db.cases[k]);
  }

  /***** lost callbacks *****/

  /** No delivery of the job is under way, and none will follow. */
  ghost predicate Silent(s: State, token: Id) {
    && token in s.jobs && (s.jobs[token].answered || s.jobs[token].tries >= s.maxTries)
    && forall h :: h in s.handlers && s.handlers[h].token == token ==> s.handlers[h].phase.Done?
  }

  /** The row is blank, and its job calls back no more. */
  ghost predicate Lost(s: State, k: Id, i: nat) {
    k in s.db.cases && i < |s.db.cases[k]| && s.db.cases[k][i].status == PENDING && Silent(s, s.db.cases[k][i].token)
  }

  lemma SilentSend(s: State, step: Step, token: Id)
    requires Silent(s, token) && Enabled(s, step) && step.Send?
    ensures Silent(Apply(s, step), token)
  {
    NewJobsAligned(step.sub, s.submits[step.sub].tests, step.replies);
  }

  lemma SilentStep(s: State, step: Step, token: Id)
    requires Silent(s, token) && Enabled(s, step)
    ensures Silent(Apply(s, step), token)
  {
    if step.Send? {
      SilentSend(s, step, token);
    }
  }

  lemma RowUpdate(s: State, step: Step, k: Id, i: nat)
    requires Structure(s) && Cases(s) && Enabled(s, step) && step.Update? && HandlerOk(s, s.handlers[step.h])
    requires k in s.db.cases && i < |s.db.cases[k]| && Silent(s, s.db.cases[k][i].token)
    ensures k in Apply(s, step).db.cases && i < |Apply(s, step).db.cases[k]|
    ensures Apply(s, step).db.cases[k][i] == s.db.cases[k][i]
  {
    var hd := s.handlers[step.h];
    if hd.callback.sub == k && hd.phase.row == i {
      LocatedToken(s, hd, i);
    }
  }

  lemma SameCases(s: State, step: Step)
    requires Enabled(s, step) && !step.Update? && !step.Commit?
    ensures Apply(s, step).db.cases == s.db.cases
  {
  }

  /** Only deliveries of its own job touch a row. */
  lemma RowStep(s: State, step: Step, k: Id, i: nat)
    requires Structure(s) && Cases(s) && Handlers(s) && Enabled(s, step) && k in s.db.cases && i < |s.db.cases[k]|
    requires Silent(s, s.db.cases[k][i].token)
    ensures k in Apply(s, step).db.cases && i < |Apply(s, step).db.cases[k]|
    ensures Apply(s, step).db.cases[k][i] == s.db.cases[k][i]
  {
    if step.Update? {
      assert HandlerOk(s, s.handlers[step.h]);
      RowUpdate(s, step, k, i);
    } else if step.Commit? {
      assert SubmitOk(s, step.sub);
    } else {
      SameCases(s, step);
    }
  }

  lemma LostStep(s: State, step: Step, k: Id, i: nat)
    requires Structure(s) && Cases(s) && Handlers(s) && Lost(s, k, i) && Enabled(s, step)
    ensures Lost(Apply(s, step), k, i)
  {
    SilentStep(s, step, s.db.cases[k][i].token);
    RowStep(s, step, k, i);
  }

  lemma LostIsRunning(s: State, k: Id, i: nat)
    requires Statuses(s) && Lost(s, k, i)
    ensures k in s.db.submissions && s.db.submissions[k].status == RUNNING
  {
    assert StatusOk(s.db.submissions[k], s.db.cases[k]);
    assert !IsFinal(s.db.cases[k][i].status);
  }

  /**
   A case whose job calls back no more before it was graded leaves its submission RUNNING in every continuation,
   whatever becomes of the other cases and handlers.
   */
  lemma {:induction false} LostForGood(s: State, steps: seq<Step>, t: State, k: Id, i: nat)
    requires Inv(s) && Lost(s, k, i) && Run(s, steps, t)
    ensures Lost(t, k, i) && k in t.db.submissions && t.db.submissions[k].status == RUNNING
    decreases |steps|
  {
    if steps == [] {
      LostIsRunning(s, k, i);
    } else {
      LostStep(s, steps[0], k, i);
      StepInv(s, steps[0]);
      LostForGood(Apply(s, steps[0]), steps[1..], t, k, i);
    }
  }

  lemma CommittedIsFound(s: State, hd: Handler)
    requires Structure(s) && Cases(s) && HandlerOk(s, hd) && hd.callback.sub in s.db.cases
    ensures DbFind(s.db, hd.callback.sub, hd.callback.testCase).Some?
  {
    var k := hd.callback.sub;
    assert SubmitOk(s, k) && HasReply(s.submits[k], hd.token);
    var i :| 0 <= i < |s.submits[k].replies| && s.submits[k].replies[i] == Some(hd.token);
    assert RowsOk(s.db.cases[k], s.submits[k], s.jobs);
    RowFacts(s, k, i);
    assert s.db.cases[k][i].testCase == hd.callback.testCase;
  }

  /** A callback that looks for its case after the transaction always finds it. */
  lemma FoundAfterCommit(s: State, h: Id)
    requires Reachable(s) && Enabled(s, Find(h)) && s.handlers[h].callback.sub in s.db.cases
    ensures Apply(s, Find(h)).handlers[h].phase.Located?
  {
    ReachableInv(s);
    assert HandlerOk(s, s.handlers[h]);
    CommittedIsFound(s, s.handlers[h]);
  }
}
