/** The invariants that every interleaving of the protocol keeps. */
module ProtocolInvariant {
  import opened Wrappers
  import opened Grader
  import opened Judge0Batch
  import opened Platform
  import opened Protocol

  /** A submit handler and the jobs its batch created: entry `i` of the reply is the job of test case `i`. */
  ghost predicate SubmitOk(s: State, k: Id)
    requires k in s.submits
  {
    var sb := s.submits[k];
    && k in s.db.submissions
    && sb.tests != [] && DistinctTests(sb.tests)
    && (sb.phase.Creating? ==> sb.replies == [])
    && (sb.phase.Replied? || sb.phase.Committed? ==> |sb.replies| == |sb.tests|)
    && (sb.replies != [] ==> |sb.replies| == |sb.tests|)
    && (k in s.db.cases <==> sb.phase.Committed?)
    && (forall i :: 0 <= i < |sb.replies| && sb.replies[i].Some? ==>
          sb.replies[i].value in s.jobs && s.jobs[sb.replies[i].value].callback == Callback(k, sb.tests[i].id))
  }

  ghost predicate HasReply(sb: Submit, t: Id) {
    exists i :: 0 <= i < |sb.replies| && sb.replies[i] == Some(t)
  }

  ghost predicate Structure(s: State) {
    && s.submits.Keys == s.db.submissions.Keys
    && s.db.cases.Keys <= s.submits.Keys
    && (forall k :: k in s.submits ==> SubmitOk(s, k))
    && (forall t :: t in s.jobs ==> s.jobs[t].callback.sub in s.submits
                                    && HasReply(s.submits[s.jobs[t].callback.sub], t))
  }

  /** A case row is blank, or graded by the result of the very job whose token it stores. */
  ghost predicate CaseOk(row: CaseRow, test: TestCase, reply: Option<Id>, jobs: map<Id, Job>) {
    && reply.Some? && reply.value in jobs
    && (row == Blank(test.id, reply.value)
        || (jobs[reply.value].result.Some? && row == Graded(test.id, reply.value, jobs[reply.value].result.value)))
  }

  ghost predicate RowsOk(rows: seq<CaseRow>, sb: Submit, jobs: map<Id, Job>) {
    && |rows| == |sb.tests| == |sb.replies|
    && forall i :: 0 <= i < |rows| ==> CaseOk(rows[i], sb.tests[i], sb.replies[i], jobs)
  }

  ghost predicate Cases(s: State) {
    forall k :: k in s.db.cases ==> k in s.submits && RowsOk(s.db.cases[k], s.submits[k], s.jobs)
  }

  /** The handler has executed its case update. */
  ghost predicate PastUpdate(p: Phase) {
    !p.Received? && !p.Located? && p != Done(404)
  }

  ghost predicate IsGraded(s: State, hd: Handler) {
    hd.callback.sub in s.db.cases
    && Graded(hd.callback.testCase, hd.token, hd.payload) in s.db.cases[hd.callback.sub]
  }

  /** Case rows only ever go from blank to graded. */
  ghost predicate Grow(a: seq<CaseRow>, b: seq<CaseRow>) {
    |a| == |b| && forall i :: 0 <= i < |a| ==> a[i] == b[i] || a[i].status == PENDING
  }

  /** A snapshot is a reordering of an earlier state of the rows. */
  ghost predicate SnapshotOk(snapshot: seq<CaseRow>, rows: seq<CaseRow>) {
    rows != [] && exists base :: Grow(base, rows) && multiset(base) == multiset(snapshot)
  }

  ghost predicate HandlerOk(s: State, hd: Handler) {
    && hd.token in s.jobs
    && s.jobs[hd.token].callback == hd.callback
    && s.jobs[hd.token].result == Some(hd.payload)
    && (PastUpdate(hd.phase) ==> IsGraded(s, hd))
    && match hd.phase
       case Located(i) =>
         hd.callback.sub in s.db.cases && i < |s.db.cases[hd.callback.sub]|
         && s.db.cases[hd.callback.sub][i].testCase == hd.callback.testCase
       case Snapped(snapshot) => hd.callback.sub in s.db.cases && SnapshotOk(snapshot, s.db.cases[hd.callback.sub])
       case Done(code) => code == 204 || code == 404
       case _ => true
  }

  ghost predicate Handlers(s: State) {
    forall h :: h in s.handlers ==> HandlerOk(s, s.handlers[h])
  }

  ghost predicate ServedBy(s: State, token: Id) {
    exists h :: h in s.handlers && s.handlers[h].token == token && PastUpdate(s.handlers[h].phase)
  }

  /** Every graded row was graded by a handler of its own job. */
  ghost predicate Served(s: State) {
    forall k, i :: k in s.db.cases && 0 <= i < |s.db.cases[k]| && s.db.cases[k][i].status != PENDING ==>
      ServedBy(s, s.db.cases[k][i].token)
  }

  /** The status of a committed submission: RUNNING, or the combined verdict of cases that are all final. */
  ghost predicate StatusOk(row: SubmissionRow, rows: seq<CaseRow>) {
    && rows != []
    && row.passedCount <= Passed(rows)
    && row.totalCount == |rows|
    && (|| (row.status == RUNNING && row.runtimeMs.None? && row.memoryKb.None? && row.finishedAt.None?)
        || (&& AllDone(rows)
            && row.status == CombineVerdicts(Verdicts(rows))
            && row.runtimeMs == OrNull(Max(Runtimes(rows)))
            && row.memoryKb == OrNull(Max(Memories(rows)))
            && row.finishedAt.Some?))
  }

  /** An uncommitted submission has its initial result columns. */
  ghost predicate Initial(row: SubmissionRow, tests: seq<TestCase>) {
    && row.status == PENDING && row.passedCount == 0 && row.totalCount == |tests|
    && row.runtimeMs.None? && row.memoryKb.None? && row.finishedAt.None?
  }

  ghost predicate Statuses(s: State) {
    && (forall k :: k in s.db.submissions && k !in s.db.cases && k in s.submits ==>
          Initial(s.db.submissions[k], s.submits[k].tests))
    && (forall k :: k in s.db.cases ==> k in s.db.submissions && StatusOk(s.db.submissions[k], s.db.cases[k]))
  }

  /** The handler is not past a complete snapshot: unless it stops, it will still write the final status. */
  ghost predicate StillToFinish(hd: Handler) {
    || hd.phase.Received? || hd.phase.Located? || hd.phase.Updated? || hd.phase == Done(404)
    || (hd.phase.Snapped? && AllDone(hd.phase.snapshot))
  }

  /** No delivery of this callback is past a complete snapshot. */
  ghost predicate Open(s: State, cb: Callback) {
    forall h :: h in s.handlers && s.handlers[h].callback == cb ==> StillToFinish(s.handlers[h])
  }

  ghost predicate SomeOpen(s: State, k: Id)
    requires k in s.db.cases
  {
    exists i :: 0 <= i < |s.db.cases[k]| && Open(s, Callback(k, s.db.cases[k][i].testCase))
  }

  /** As long as a complete submission is RUNNING, one of its cases was not graded before the set was complete. */
  ghost predicate Progress(s: State) {
    forall k | k in s.db.cases && k in s.db.submissions && AllDone(s.db.cases[k])
               && s.db.submissions[k].status == RUNNING :: SomeOpen(s, k)
  }

  ghost predicate Inv(s: State) {
    Structure(s) && Cases(s) && Handlers(s) && Served(s) && Statuses(s) && Progress(s)
  }

  /***** growing case rows *****/

  lemma {:induction false} GrowPassed(a: seq<CaseRow>, b: seq<CaseRow>)
    requires Grow(a, b)
    ensures Passed(a) <= Passed(b)
  {
    if a != [] {
      GrowPassed(a[1..], b[1..]);
      assert Verdicts(a)[1..] == Verdicts(a[1..]);
      assert Verdicts(b)[1..] == Verdicts(b[1..]);
    }
  }

  lemma GrowAllDone(a: seq<CaseRow>, b: seq<CaseRow>)
    requires Grow(a, b) && AllDone(a)
    ensures a == b
  {
    assert forall i :: 0 <= i < |a| ==> IsFinal(a[i].status);
  }

  lemma AllDoneMultiset(a: seq<CaseRow>, b: seq<CaseRow>)
    requires multiset(a) == multiset(b)
    ensures AllDone(a) <==> AllDone(b)
  {
    assert AllDone(a) <==> forall r :: r in multiset(a) ==> IsFinal(r.status);
    assert AllDone(b) <==> forall r :: r in multiset(b) ==> IsFinal(r.status);
  }

  lemma SnapshotGrow(snapshot: seq<CaseRow>, a: seq<CaseRow>, b: seq<CaseRow>)
    requires SnapshotOk(snapshot, a) && Grow(a, b)
    ensures SnapshotOk(snapshot, b)
  {
    var base :| Grow(base, a) && multiset(base) == multiset(snapshot);
    assert Grow(base, b);
  }

  /** A complete snapshot is still current, and no snapshot overcounts. */
  lemma SnapshotFacts(snapshot: seq<CaseRow>, rows: seq<CaseRow>)
    requires SnapshotOk(snapshot, rows)
    ensures snapshot != []
    ensures AllDone(snapshot) ==> multiset(snapshot) == multiset(rows)
    ensures Passed(snapshot) <= Passed(rows)
  {
    var base :| Grow(base, rows) && multiset(base) == multiset(snapshot);
    assert base[0] in multiset(snapshot);
    PassedMultiset(base, snapshot);
    GrowPassed(base, rows);
    AllDoneMultiset(base, snapshot);
    if AllDone(snapshot) {
      GrowAllDone(base, rows);
    }
  }

  lemma TestIndexUnique(tests: seq<TestCase>, i: nat, j: nat)
    requires DistinctTests(tests) && i < |tests| && j < |tests| && tests[i].id == tests[j].id
    ensures i == j
  {
  }

  /** The token stored in a row is the token of every handler that finds the row. */
  lemma LocatedToken(s: State, hd: Handler, i: nat)
    requires Structure(s) && Cases(s)
    requires hd.token in s.jobs && s.jobs[hd.token].callback == hd.callback
    requires hd.callback.sub in s.db.cases && i < |s.db.cases[hd.callback.sub]|
    requires s.db.cases[hd.callback.sub][i].testCase == hd.callback.testCase
    ensures s.db.cases[hd.callback.sub][i].token == hd.token
  {
    var k := hd.callback.sub;
    var sb := s.submits[k];
    assert SubmitOk(s, k);
    assert RowsOk(s.db.cases[k], sb, s.jobs);
    assert CaseOk(s.db.cases[k][i], sb.tests[i], sb.replies[i], s.jobs);
    assert HasReply(sb, hd.token);
    var j :| 0 <= j < |sb.replies| && sb.replies[j] == Some(hd.token);
    TestIndexUnique(sb.tests, i, j);
  }

  /***** one lemma per step *****/

  lemma InitInv(contests: map<Id, Contest>, maxTries: nat)
    ensures Inv(Init(contests, maxTries))
  {
  }

  /***** what a step leaves alone, one invariant at a time *****/

  /** Jobs stay, with their callback, and a result never changes. */
  ghost predicate JobsKeep(s: State, t: State) {
    forall k :: k in s.jobs ==> k in t.jobs && s.jobs[k].callback == t.jobs[k].callback
                                && (s.jobs[k].result.Some? ==> s.jobs[k].result == t.jobs[k].result)
  }

  lemma StructureFrame(s: State, t: State)
    requires Structure(s) && JobsKeep(s, t) && t.jobs.Keys == s.jobs.Keys
    requires t.submits == s.submits && t.db.submissions.Keys == s.db.submissions.Keys
             && t.db.cases.Keys == s.db.cases.Keys
    ensures Structure(t)
  {
    forall k | k in t.submits
      ensures SubmitOk(t, k)
    {
      assert SubmitOk(s, k);
    }
    forall k | k in t.jobs
      ensures t.jobs[k].callback.sub in t.submits && HasReply(t.submits[t.jobs[k].callback.sub], k)
    {
      assert s.jobs[k].callback == t.jobs[k].callback;
    }
  }

  lemma RowsFrame(rows: seq<CaseRow>, sb: Submit, s: State, t: State)
    requires RowsOk(rows, sb, s.jobs) && JobsKeep(s, t)
    ensures RowsOk(rows, sb, t.jobs)
  {
    forall i | 0 <= i < |rows|
      ensures CaseOk(rows[i], sb.tests[i], sb.replies[i], t.jobs)
    {
      assert CaseOk(rows[i], sb.tests[i], sb.replies[i], s.jobs);
    }
  }

  lemma CasesFrame(s: State, t: State)
    requires Cases(s) && JobsKeep(s, t) && t.db.cases == s.db.cases
    requires forall k :: k in s.db.cases ==> k in t.submits && t.submits[k].tests == s.submits[k].tests
                                             && t.submits[k].replies == s.submits[k].replies
    ensures Cases(t)
  {
    forall k | k in t.db.cases
      ensures RowsOk(t.db.cases[k], t.submits[k], t.jobs)
    {
      RowsFrame(t.db.cases[k], s.submits[k], s, t);
      assert RowsOk(t.db.cases[k], s.submits[k], t.jobs);
      forall i | 0 <= i < |t.db.cases[k]|
        ensures CaseOk(t.db.cases[k][i], t.submits[k].tests[i], t.submits[k].replies[i], t.jobs)
      {
        assert CaseOk(t.db.cases[k][i], s.submits[k].tests[i], s.submits[k].replies[i], t.jobs);
      }
    }
  }

  ghost predicate SameTests(a: seq<CaseRow>, b: seq<CaseRow>) {
    |a| == |b| && forall i :: 0 <= i < |a| ==> a[i].testCase == b[i].testCase && a[i].token == b[i].token
  }

  /** Case rows only appear or grow, and a row is graded over only by an equal one. */
  ghost predicate CasesKeep(s: State, t: State) {
    forall k :: k in s.db.cases ==> k in t.db.cases && Grow(s.db.cases[k], t.db.cases[k])
                                    && SameTests(s.db.cases[k], t.db.cases[k])
  }

  lemma GradedFrame(s: State, t: State, hd: Handler)
    requires IsGraded(s, hd) && CasesKeep(s, t)
    ensures IsGraded(t, hd)
  {
    var k := hd.callback.sub;
    var g := Graded(hd.callback.testCase, hd.token, hd.payload);
    var i :| 0 <= i < |s.db.cases[k]| && s.db.cases[k][i] == g;
    assert Grow(s.db.cases[k], t.db.cases[k]);
    assert t.db.cases[k][i] == g;
  }

  lemma HandlerFrame(s: State, t: State, hd: Handler)
    requires HandlerOk(s, hd) && JobsKeep(s, t) && CasesKeep(s, t)
    ensures HandlerOk(t, hd)
  {
    var k := hd.callback.sub;
    if PastUpdate(hd.phase) {
      GradedFrame(s, t, hd);
    }
    if hd.phase.Snapped? {
      assert k in s.db.cases;
      SnapshotGrow(hd.phase.snapshot, s.db.cases[k], t.db.cases[k]);
    }
    if hd.phase.Located? {
      assert k in s.db.cases && SameTests(s.db.cases[k], t.db.cases[k]);
    }
  }

  /** All handlers but `h` are as before; `h` may be new. */
  ghost predicate HandlersKeep(s: State, t: State, h: Id) {
    && (forall j :: j in s.handlers && j != h ==> j in t.handlers && t.handlers[j] == s.handlers[j])
    && (forall j :: j in t.handlers && j != h ==> j in s.handlers)
  }

  lemma HandlersFrame(s: State, t: State, h: Id)
    requires Handlers(s) && JobsKeep(s, t) && CasesKeep(s, t) && HandlersKeep(s, t, h)
    requires h in t.handlers ==> HandlerOk(t, t.handlers[h])
    ensures Handlers(t)
  {
    forall j | j in t.handlers
      ensures HandlerOk(t, t.handlers[j])
    {
      if j != h {
        assert HandlerOk(s, s.handlers[j]);
        HandlerFrame(s, t, t.handlers[j]);
      }
    }
  }

  /** A handler keeps its identity and never forgets that it has updated its case. */
  ghost predicate Advances(s: State, t: State, h: Id) {
    h in s.handlers ==> h in t.handlers && t.handlers[h].token == s.handlers[h].token
                        && t.handlers[h].callback == s.handlers[h].callback
                        && (PastUpdate(s.handlers[h].phase) ==> PastUpdate(t.handlers[h].phase))
  }

  lemma ServedByFrame(s: State, t: State, h: Id, token: Id)
    requires ServedBy(s, token) && HandlersKeep(s, t, h) && Advances(s, t, h)
    ensures ServedBy(t, token)
  {
    var j :| j in s.handlers && s.handlers[j].token == token && PastUpdate(s.handlers[j].phase);
    assert j in t.handlers && t.handlers[j].token == token && PastUpdate(t.handlers[j].phase);
  }

  lemma ServedFrame(s: State, t: State, h: Id)
    requires Served(s) && HandlersKeep(s, t, h) && Advances(s, t, h)
    requires forall k :: k in t.db.cases && k in s.db.cases ==> t.db.cases[k] == s.db.cases[k]
    requires forall k, i :: k in t.db.cases && k !in s.db.cases && 0 <= i < |t.db.cases[k]| ==>
             t.db.cases[k][i].status == PENDING
    ensures Served(t)
  {
    forall k, i | k in t.db.cases && 0 <= i < |t.db.cases[k]| && t.db.cases[k][i].status != PENDING
      ensures ServedBy(t, t.db.cases[k][i].token)
    {
      assert s.db.cases[k][i].status != PENDING;
      ServedByFrame(s, t, h, t.db.cases[k][i].token);
    }
  }

  /** Handler `h` does not get past a complete snapshot of `k` now. */
  ghost predicate KeepsGoing(s: State, t: State, h: Id, k: Id) {
    h in t.handlers && t.handlers[h].callback.sub == k && k in t.db.cases && AllDone(t.db.cases[k])
    && (h in s.handlers ==> StillToFinish(s.handlers[h])) ==>
      StillToFinish(t.handlers[h])
  }

  lemma OpenFrame(s: State, t: State, h: Id, cb: Callback)
    requires Open(s, cb) && HandlersKeep(s, t, h) && Advances(s, t, h) && KeepsGoing(s, t, h, cb.sub)
    requires cb.sub in t.db.cases && AllDone(t.db.cases[cb.sub])
    ensures Open(t, cb)
  {
  }

  lemma SomeOpenFrame(s: State, t: State, h: Id, k: Id)
    requires HandlersKeep(s, t, h) && Advances(s, t, h) && KeepsGoing(s, t, h, k)
    requires k in s.db.cases && k in t.db.cases && AllDone(t.db.cases[k]) && SameTests(s.db.cases[k], t.db.cases[k])
    requires SomeOpen(s, k)
    ensures SomeOpen(t, k)
  {
    var i :| 0 <= i < |s.db.cases[k]| && Open(s, Callback(k, s.db.cases[k][i].testCase));
    OpenFrame(s, t, h, Callback(k, t.db.cases[k][i].testCase));
  }

  lemma ProgressFrame(s: State, t: State, h: Id)
    requires Progress(s) && HandlersKeep(s, t, h) && Advances(s, t, h) && forall k :: KeepsGoing(s, t, h, k)
    requires t.db.cases == s.db.cases && t.db.submissions == s.db.submissions
    ensures Progress(t)
  {
    forall k | k in t.db.cases && k in t.db.submissions && AllDone(t.db.cases[k])
           && t.db.submissions[k].status == RUNNING
      ensures SomeOpen(t, k)
    {
      assert KeepsGoing(s, t, h, k);
      SomeOpenFrame(s, t, h, k);
    }
  }

  /***** one lemma per step *****/

  /** A step that leaves submissions and case rows alone and moves at most handler `h`. */
  ghost predicate HandlerStep(s: State, t: State, h: Id) {
    && JobsKeep(s, t) && t.jobs.Keys == s.jobs.Keys
    && t.submits == s.submits && t.db.submissions == s.db.submissions && t.db.cases == s.db.cases
    && HandlersKeep(s, t, h) && Advances(s, t, h) && forall k :: KeepsGoing(s, t, h, k)
  }

  lemma CasesKeepSame(s: State, t: State)
    requires t.db.cases == s.db.cases
    ensures CasesKeep(s, t)
  {
  }

  lemma StatusesSame(s: State, t: State)
    requires Statuses(s) && t.db.submissions == s.db.submissions && t.db.cases == s.db.cases && t.submits == s.submits
    ensures Statuses(t)
  {
  }

  lemma HandlerStepInv(s: State, t: State, h: Id)
    requires Inv(s) && HandlerStep(s, t, h)
    requires h in t.handlers ==> HandlerOk(t, t.handlers[h])
    ensures Inv(t)
  {
    StructureFrame(s, t);
    CasesFrame(s, t);
    CasesKeepSame(s, t);
    HandlersFrame(s, t, h);
    ServedFrame(s, t, h);
    ProgressFrame(s, t, h);
    StatusesSame(s, t);
  }

  lemma PutStep(s: State, step: Step)
    requires Enabled(s, step) && step.Put?
    ensures HandlerStep(s, Apply(s, step), step.h)
  {
  }

  lemma ResultStep(s: State, step: Step, h: Id)
    requires Enabled(s, step) && (step.FinishJob? || step.Respond?)
    ensures HandlerStep(s, Apply(s, step), h)
  {
  }

  lemma MessageStep(s: State, step: Step, h: Id)
    requires Enabled(s, step)
    requires step.FinishJob? || step.Respond? || step.Register? || (step.Put? && h == step.h)
    ensures HandlerStep(s, Apply(s, step), h)
    ensures !step.Put? ==> Apply(s, step).handlers == s.handlers
    ensures Apply(s, step).db.cases == s.db.cases
  {
    if step.Put? {
      PutStep(s, step);
    } else if step.Register? {
    } else {
      ResultStep(s, step, h);
    }
  }

  /** Messages, responses, job results and registrations. */
  lemma MessageInv(s: State, step: Step)
    requires Inv(s) && Enabled(s, step)
    requires step.FinishJob? || step.Put? || step.Respond? || step.Register?
    ensures Inv(Apply(s, step))
  {
    var t := Apply(s, step);
    var h := if step.Put? then step.h else 0;
    MessageStep(s, step, h);
    assert h in t.handlers ==> HandlerOk(t, t.handlers[h]) by {
      if !step.Put? && h in t.handlers {
        assert HandlerOk(s, s.handlers[h]);
        CasesKeepSame(s, t);
        HandlerFrame(s, t, s.handlers[h]);
      }
    }
    HandlerStepInv(s, t, h);
  }

  /***** callback handlers: reads *****/

  lemma ReadStep(s: State, step: Step)
    requires step.Find? || step.Snapshot? || step.Read? || step.Upsert?
    requires Enabled(s, step) && HandlerOk(s, s.handlers[step.h])
    ensures HandlerStep(s, Apply(s, step), step.h)
  {
    if step.Snapshot? {
      AllDoneMultiset(step.order, s.db.cases[s.handlers[step.h].callback.sub]);
    }
  }

  lemma FreshSnapshotOk(order: seq<CaseRow>, rows: seq<CaseRow>)
    requires multiset(order) == multiset(rows) && rows != []
    ensures SnapshotOk(order, rows) && (AllDone(order) <==> AllDone(rows))
  {
    AllDoneMultiset(order, rows);
    assert Grow(rows, rows);
  }

  lemma ReadHandlerOk(s: State, step: Step)
    requires step.Find? || step.Snapshot? || step.Read? || step.Upsert?
    requires Enabled(s, step) && HandlerOk(s, s.handlers[step.h])
    ensures HandlerOk(Apply(s, step), Apply(s, step).handlers[step.h])
  {
    if step.Snapshot? {
      var rows := s.db.cases[s.handlers[step.h].callback.sub];
      assert rows != [];
      FreshSnapshotOk(step.order, rows);
    }
  }

  /** Reads and the score upsert of a callback handler. */
  lemma ReadInv(s: State, step: Step)
    requires Inv(s) && Enabled(s, step)
    requires step.Find? || step.Snapshot? || step.Read? || step.Upsert?
    ensures Inv(Apply(s, step))
  {
    assert HandlerOk(s, s.handlers[step.h]);
    ReadStep(s, step);
    ReadHandlerOk(s, step);
    HandlerStepInv(s, Apply(s, step), step.h);
  }

  /***** submit handlers *****/

  /** A submit handler's step before the transaction: no case row, no handler, no other submission changes. */
  ghost predicate SubmitStep(s: State, t: State, k: Id) {
    && JobsKeep(s, t) && t.db.cases == s.db.cases && t.handlers == s.handlers
    && k in t.submits && k in t.db.submissions
    && (forall j :: j != k && j in s.submits ==> j in t.submits && t.submits[j] == s.submits[j])
    && (forall j :: j != k && j in t.submits ==> j in s.submits)
    && (forall j :: j != k && j in s.db.submissions ==>
        j in t.db.submissions && t.db.submissions[j] == s.db.submissions[j])
    && (forall j :: j != k && j in t.db.submissions ==> j in s.db.submissions)
  }

  lemma SubmitterCases(s: State, t: State, k: Id)
    requires Structure(s) && Cases(s) && SubmitStep(s, t, k) && k !in s.db.cases
    ensures Cases(t)
  {
    CasesFrame(s, t);
  }

  lemma SomeOpenSame(s: State, t: State, k: Id)
    requires k in s.db.cases && k in t.db.cases && t.db.cases[k] == s.db.cases[k] && t.handlers == s.handlers
             && SomeOpen(s, k)
    ensures SomeOpen(t, k)
  {
    var i :| 0 <= i < |s.db.cases[k]| && Open(s, Callback(k, s.db.cases[k][i].testCase));
    assert Open(t, Callback(k, t.db.cases[k][i].testCase));
  }

  lemma ProgressSame(s: State, t: State)
    requires Progress(s) && s.db.cases == t.db.cases && s.handlers == t.handlers
    requires forall k :: k in s.db.cases ==>
             k in s.db.submissions && k in t.db.submissions && t.db.submissions[k] == s.db.submissions[k]
    ensures Progress(t)
  {
    forall k | k in t.db.cases && AllDone(t.db.cases[k]) && t.db.submissions[k].status == RUNNING
      ensures SomeOpen(t, k)
    {
      SomeOpenSame(s, t, k);
    }
  }

  lemma SubmitterProgress(s: State, t: State, k: Id)
    requires Structure(s) && Progress(s) && SubmitStep(s, t, k) && k !in s.db.cases
    ensures Progress(t)
  {
    ProgressSame(s, t);
  }

  lemma SubmitterStatuses(s: State, t: State, k: Id)
    requires Statuses(s) && SubmitStep(s, t, k) && k !in s.db.cases
    requires Initial(t.db.submissions[k], t.submits[k].tests)
    ensures Statuses(t)
  {
  }

  lemma SubmitterHandlers(s: State, t: State)
    requires Handlers(s) && JobsKeep(s, t) && CasesKeep(s, t) && t.handlers == s.handlers
    ensures Handlers(t)
  {
    forall j | j in t.handlers
      ensures HandlerOk(t, t.handlers[j])
    {
      assert HandlerOk(s, s.handlers[j]);
      HandlerFrame(s, t, s.handlers[j]);
    }
  }

  lemma ServedFrameSame(s: State, t: State)
    requires Served(s) && s.db.cases == t.db.cases && s.handlers == t.handlers
    ensures Served(t)
  {
    forall k, i | k in t.db.cases && 0 <= i < |t.db.cases[k]| && t.db.cases[k][i].status != PENDING
      ensures ServedBy(t, t.db.cases[k][i].token)
    {
      assert ServedBy(s, s.db.cases[k][i].token);
    }
  }

  lemma SubmitStepInv(s: State, t: State, k: Id)
    requires Inv(s) && SubmitStep(s, t, k) && k !in s.db.cases
    requires Structure(t)
    requires Initial(t.db.submissions[k], t.submits[k].tests)
    ensures Inv(t)
  {
    SubmitterCases(s, t, k);
    CasesKeepSame(s, t);
    SubmitterHandlers(s, t);
    ServedFrameSame(s, t);
    SubmitterProgress(s, t, k);
    SubmitterStatuses(s, t, k);
  }

  lemma NewJobsAligned(sub: Id, tests: seq<TestCase>, replies: seq<Option<Id>>)
    requires |tests| == |replies| && DistinctTokens(replies)
    ensures forall i :: 0 <= i < |replies| && replies[i].Some? ==>
              replies[i].value in NewJobs(sub, tests, replies)
              && NewJobs(sub, tests, replies)[replies[i].value] == Job(Callback(sub, tests[i].id), None, 0, false)
    ensures forall t :: t in NewJobs(sub, tests, replies) ==>
              NewJobs(sub, tests, replies)[t].callback.sub == sub
              && exists i :: 0 <= i < |replies| && replies[i] == Some(t)
  {
    CreatedAligned(Items(sub, tests), replies);
    forall t | t in NewJobs(sub, tests, replies)
      ensures NewJobs(sub, tests, replies)[t].callback.sub == sub
    {
      var i :| 0 <= i < |replies| && replies[i] == Some(t);
    }
  }

  lemma SendStep(s: State, step: Step)
    requires Enabled(s, step)
    requires step.Create? || step.Send? || step.SendRefused? || step.CommitFailed?
    ensures SubmitStep(s, Apply(s, step), step.sub)
  {
    if step.Send? {
      NewJobsAligned(step.sub, s.submits[step.sub].tests, step.replies);
    }
  }

  lemma CreateStructure(s: State, step: Step)
    requires Structure(s) && Enabled(s, step) && step.Create?
    ensures Structure(Apply(s, step))
  {
    var t := Apply(s, step);
    forall k | k in t.submits
      ensures SubmitOk(t, k)
    {
      if k != step.sub {
        assert SubmitOk(s, k);
      }
    }
  }

  lemma SubmitOkFrame(s: State, t: State, k: Id)
    requires k in s.submits && k in t.submits && SubmitOk(s, k) && t.submits[k] == s.submits[k] && JobsKeep(s, t)
    requires k in t.db.submissions && (k in t.db.cases <==> k in s.db.cases)
    ensures SubmitOk(t, k)
  {
  }

  lemma SubmitsFrame(s: State, t: State, k: Id)
    requires Structure(s) && SubmitStep(s, t, k) && SubmitOk(t, k) && s.submits.Keys == t.submits.Keys
    ensures t.submits.Keys == t.db.submissions.Keys && t.db.cases.Keys <= t.submits.Keys
    ensures forall j :: j in t.submits ==> SubmitOk(t, j)
  {
    forall j | j in t.submits
      ensures SubmitOk(t, j)
    {
      if j != k {
        SubmitOkFrame(s, t, j);
      }
    }
  }

  lemma JobReplies(s: State, step: Step, j: Id)
    requires Structure(s) && Enabled(s, step) && step.Send? && j in Apply(s, step).jobs
    ensures var t := Apply(s, step);
            t.jobs[j].callback.sub in t.submits && HasReply(t.submits[t.jobs[j].callback.sub], j)
  {
    var t := Apply(s, step);
    assert SubmitOk(s, step.sub);
    NewJobsAligned(step.sub, s.submits[step.sub].tests, step.replies);
    if j in NewJobs(step.sub, s.submits[step.sub].tests, step.replies) {
      assert HasReply(t.submits[step.sub], j);
    } else {
      assert HasReply(s.submits[s.jobs[j].callback.sub], j);
      assert s.submits[step.sub].replies == [];
    }
  }

  lemma SentOk(s: State, step: Step)
    requires Structure(s) && Enabled(s, step) && step.Send?
    ensures SubmitOk(Apply(s, step), step.sub)
  {
    assert SubmitOk(s, step.sub);
    NewJobsAligned(step.sub, s.submits[step.sub].tests, step.replies);
  }

  lemma SendStructure(s: State, step: Step)
    requires Structure(s) && Enabled(s, step) && step.Send?
    ensures Structure(Apply(s, step))
  {
    SendStep(s, step);
    SentOk(s, step);
    SubmitsFrame(s, Apply(s, step), step.sub);
    forall j | j in Apply(s, step).jobs
      ensures var t := Apply(s, step);
              t.jobs[j].callback.sub in t.submits && HasReply(t.submits[t.jobs[j].callback.sub], j)
    {
      JobReplies(s, step, j);
    }
  }

  lemma RefusedReplies(s: State, step: Step, j: Id)
    requires Structure(s) && Enabled(s, step) && (step.SendRefused? || step.CommitFailed?) && j in s.jobs
    ensures var t := Apply(s, step);
            j in t.jobs && t.jobs[j].callback.sub in t.submits && HasReply(t.submits[t.jobs[j].callback.sub], j)
  {
    assert HasReply(s.submits[s.jobs[j].callback.sub], j);
  }

  lemma RefusedOk(s: State, step: Step)
    requires Structure(s) && Enabled(s, step) && (step.SendRefused? || step.CommitFailed?)
    ensures SubmitOk(Apply(s, step), step.sub)
  {
    assert SubmitOk(s, step.sub);
  }

  lemma RefusedStructure(s: State, step: Step)
    requires Structure(s) && Enabled(s, step) && (step.SendRefused? || step.CommitFailed?)
    ensures Structure(Apply(s, step))
  {
    SendStep(s, step);
    RefusedOk(s, step);
    SubmitsFrame(s, Apply(s, step), step.sub);
    forall j | j in Apply(s, step).jobs
      ensures var t := Apply(s, step);
              t.jobs[j].callback.sub in t.submits && HasReply(t.submits[t.jobs[j].callback.sub], j)
    {
      RefusedReplies(s, step, j);
    }
  }

  lemma BeforeCommit(s: State, step: Step)
    requires Structure(s) && Statuses(s) && Enabled(s, step)
    requires step.Create? || step.Send? || step.SendRefused? || step.CommitFailed?
    ensures step.sub !in s.db.cases
    ensures var t := Apply(s, step);
            step.sub in t.db.submissions && Initial(t.db.submissions[step.sub], t.submits[step.sub].tests)
  {
    if !step.Create? {
      assert SubmitOk(s, step.sub);
    }
  }

  lemma SubmitterInv(s: State, step: Step)
    requires Inv(s) && Enabled(s, step)
    requires step.Create? || step.Send? || step.SendRefused? || step.CommitFailed?
    ensures Inv(Apply(s, step))
  {
    SendStep(s, step);
    BeforeCommit(s, step);
    if step.Create? {
      CreateStructure(s, step);
    } else if step.Send? {
      SendStructure(s, step);
    } else {
      RefusedStructure(s, step);
    }
    SubmitStepInv(s, Apply(s, step), step.sub);
  }

  lemma CommitKeeps(s: State, step: Step)
    requires Structure(s) && Enabled(s, step) && step.Commit?
    ensures CasesKeep(s, Apply(s, step)) && JobsKeep(s, Apply(s, step))
    ensures var t := Apply(s, step); t.handlers == s.handlers && HandlersKeep(s, t, 0) && Advances(s, t, 0)
    ensures var t := Apply(s, step); step.sub !in s.db.cases && t.db.cases.Keys == s.db.cases.Keys + {step.sub}
                                     && forall k :: k in s.db.cases ==> t.db.cases[k] == s.db.cases[k]
    ensures forall i :: 0 <= i < |Apply(s, step).db.cases[step.sub]| ==>
            Apply(s, step).db.cases[step.sub][i].status == PENDING
  {
    assert SubmitOk(s, step.sub);
  }

  lemma CommitStructure(s: State, step: Step)
    requires Structure(s) && Enabled(s, step) && step.Commit?
    ensures Structure(Apply(s, step))
  {
    var t := Apply(s, step);
    forall k | k in t.submits
      ensures SubmitOk(t, k)
    {
      assert SubmitOk(s, k);
    }
    forall j | j in t.jobs
      ensures HasReply(t.submits[t.jobs[j].callback.sub], j)
    {
      assert HasReply(s.submits[s.jobs[j].callback.sub], j);
    }
  }

  lemma CommitCases(s: State, step: Step)
    requires Structure(s) && Cases(s) && Enabled(s, step) && step.Commit?
    ensures Cases(Apply(s, step))
  {
    var t := Apply(s, step);
    assert SubmitOk(s, step.sub);
    forall k | k in t.db.cases
      ensures RowsOk(t.db.cases[k], t.submits[k], t.jobs)
    {
      if k != step.sub {
        assert RowsOk(s.db.cases[k], s.submits[k], s.jobs);
      }
    }
  }

  lemma CommitStatuses(s: State, step: Step)
    requires Structure(s) && Statuses(s) && Enabled(s, step) && step.Commit?
    ensures Statuses(Apply(s, step))
  {
    assert SubmitOk(s, step.sub);
    var t := Apply(s, step);
    assert StatusOk(t.db.submissions[step.sub], t.db.cases[step.sub]);
  }

  lemma CommitProgress(s: State, step: Step)
    requires Structure(s) && Progress(s) && Enabled(s, step) && step.Commit?
    ensures Progress(Apply(s, step))
  {
    var t := Apply(s, step);
    assert SubmitOk(s, step.sub);
    forall k | k in t.db.cases && k in t.db.submissions && AllDone(t.db.cases[k])
           && t.db.submissions[k].status == RUNNING
      ensures SomeOpen(t, k)
    {
      assert !AllDone(t.db.cases[step.sub]) by {
        assert t.db.cases[step.sub][0].status == PENDING;
      }
      SomeOpenSame(s, t, k);
    }
  }

  /** The transaction: RUNNING and blank rows for all cases appear together. */
  lemma CommitInv(s: State, step: Step)
    requires Inv(s) && Enabled(s, step) && step.Commit?
    ensures Inv(Apply(s, step))
  {
    var t := Apply(s, step);
    CommitStructure(s, step);
    CommitCases(s, step);
    CommitKeeps(s, step);
    SubmitterHandlers(s, t);
    assert Served(t) by { ServedFrame(s, t, 0); }
    CommitStatuses(s, step);
    CommitProgress(s, step);
  }

  /***** callback handlers: the case update *****/

  /** The row a handler updates is blank or already holds the very same result. */
  lemma UpdatedRow(s: State, step: Step)
    requires step.Update? && Enabled(s, step) && Structure(s) && Cases(s) && HandlerOk(s, s.handlers[step.h])
    ensures var hd := s.handlers[step.h];
            var k := hd.callback.sub;
            var rows := s.db.cases[k];
            var g := Graded(hd.callback.testCase, hd.token, hd.payload);
            Apply(s, step).db.cases == s.db.cases[k := rows[hd.phase.row := g]]
            && (rows[hd.phase.row] == g || rows[hd.phase.row] == Blank(hd.callback.testCase, hd.token))
            && RowsOk(rows[hd.phase.row := g], s.submits[k], s.jobs)
  {
    var hd := s.handlers[step.h];
    var k := hd.callback.sub;
    var i := hd.phase.row;
    LocatedToken(s, hd, i);
    assert RowsOk(s.db.cases[k], s.submits[k], s.jobs);
    assert CaseOk(s.db.cases[k][i], s.submits[k].tests[i], s.submits[k].replies[i], s.jobs);
    var g := Graded(hd.callback.testCase, hd.token, hd.payload);
    var rows := s.db.cases[k][i := g];
    forall j | 0 <= j < |rows|
      ensures CaseOk(rows[j], s.submits[k].tests[j], s.submits[k].replies[j], s.jobs)
    {
      assert CaseOk(s.db.cases[k][j], s.submits[k].tests[j], s.submits[k].replies[j], s.jobs);
    }
  }

  /** The update touches one row, which was blank or equal. */
  lemma UpdateGrows(s: State, t: State, k: Id, i: nat, g: CaseRow)
    requires k in s.db.cases && i < |s.db.cases[k]| && t.db.cases == s.db.cases[k := s.db.cases[k][i := g]]
    requires s.db.cases[k][i] == g || s.db.cases[k][i] == Blank(g.testCase, g.token)
    ensures CasesKeep(s, t) && t.db.cases.Keys == s.db.cases.Keys && g in t.db.cases[k]
  {
    assert t.db.cases[k][i] == g;
  }

  lemma UpdateRest(s: State, step: Step)
    requires step.Update? && Enabled(s, step)
    ensures var t := Apply(s, step);
            JobsKeep(s, t) && t.jobs == s.jobs && t.submits == s.submits && t.db.submissions == s.db.submissions
            && HandlersKeep(s, t, step.h) && Advances(s, t, step.h)
            && t.handlers[step.h] == s.handlers[step.h].(phase := Updated)
  {
  }

  lemma UpdateKeeps(s: State, step: Step)
    requires step.Update? && Enabled(s, step) && Structure(s) && Cases(s) && HandlerOk(s, s.handlers[step.h])
    ensures var t := Apply(s, step);
            CasesKeep(s, t) && JobsKeep(s, t) && t.jobs == s.jobs && t.submits == s.submits
            && t.db.submissions == s.db.submissions && t.db.cases.Keys == s.db.cases.Keys
            && HandlersKeep(s, t, step.h) && Advances(s, t, step.h)
            && HandlerOk(t, t.handlers[step.h]) && t.handlers[step.h] == s.handlers[step.h].(phase := Updated)
  {
    UpdatedRow(s, step);
    UpdateRest(s, step);
    var hd := s.handlers[step.h];
    UpdateGrows(s, Apply(s, step), hd.callback.sub, hd.phase.row, Graded(hd.callback.testCase, hd.token, hd.payload));
  }

  lemma UpdateCases(s: State, step: Step)
    requires step.Update? && Enabled(s, step) && Structure(s) && Cases(s) && HandlerOk(s, s.handlers[step.h])
    ensures Cases(Apply(s, step))
  {
    UpdatedRow(s, step);
    var t := Apply(s, step);
    forall k | k in t.db.cases
      ensures RowsOk(t.db.cases[k], t.submits[k], t.jobs)
    {
      if k != s.handlers[step.h].callback.sub {
        assert RowsOk(s.db.cases[k], s.submits[k], s.jobs);
      }
    }
  }

  lemma UpdatedServed(s: State, t: State, h: Id, k: Id, row: nat, g: CaseRow)
    requires Served(s) && HandlersKeep(s, t, h) && Advances(s, t, h)
    requires k in s.db.cases && row < |s.db.cases[k]| && t.db.cases == s.db.cases[k := s.db.cases[k][row := g]]
    requires h in t.handlers && t.handlers[h].phase.Updated? && t.handlers[h].token == g.token
    ensures Served(t)
  {
    forall j, i | j in t.db.cases && 0 <= i < |t.db.cases[j]| && t.db.cases[j][i].status != PENDING
      ensures ServedBy(t, t.db.cases[j][i].token)
    {
      if j != k || i != row {
        assert t.db.cases[j][i] == s.db.cases[j][i];
        ServedByFrame(s, t, h, t.db.cases[j][i].token);
      }
    }
  }

  lemma UpdateServed(s: State, step: Step)
    requires step.Update? && Enabled(s, step) && Structure(s) && Cases(s) && Served(s)
             && HandlerOk(s, s.handlers[step.h])
    ensures Served(Apply(s, step))
  {
    UpdatedRow(s, step);
    UpdateRest(s, step);
    var hd := s.handlers[step.h];
    UpdatedServed(s, Apply(s, step), step.h, hd.callback.sub, hd.phase.row,
                  Graded(hd.callback.testCase, hd.token, hd.payload));
  }

  lemma StatusGrow(row: SubmissionRow, a: seq<CaseRow>, b: seq<CaseRow>)
    requires StatusOk(row, a) && Grow(a, b)
    ensures StatusOk(row, b)
  {
    GrowPassed(a, b);
    if AllDone(a) {
      GrowAllDone(a, b);
    }
  }

  lemma UpdateStatuses(s: State, t: State)
    requires Statuses(s) && CasesKeep(s, t) && t.submits == s.submits
    requires t.db.submissions == s.db.submissions && t.db.cases.Keys == s.db.cases.Keys
    ensures Statuses(t)
  {
    forall k | k in t.db.cases
      ensures k in t.db.submissions && StatusOk(t.db.submissions[k], t.db.cases[k])
    {
      assert k in s.db.cases;
      assert StatusOk(s.db.submissions[k], s.db.cases[k]);
      StatusGrow(s.db.submissions[k], s.db.cases[k], t.db.cases[k]);
    }
  }

  lemma RowIndexUnique(s: State, k: Id, i: nat, j: nat)
    requires Structure(s) && Cases(s) && k in s.db.cases && i < |s.db.cases[k]| && j < |s.db.cases[k]|
    requires s.db.cases[k][i].testCase == s.db.cases[k][j].testCase
    ensures i == j
  {
    assert SubmitOk(s, k);
    var sb := s.submits[k];
    assert RowsOk(s.db.cases[k], sb, s.jobs);
    assert CaseOk(s.db.cases[k][i], sb.tests[i], sb.replies[i], s.jobs);
    assert CaseOk(s.db.cases[k][j], sb.tests[j], sb.replies[j], s.jobs);
    TestIndexUnique(sb.tests, i, j);
  }

  /** No handler has updated a row that is still blank. */
  lemma BlankIsOpen(s: State, k: Id, i: nat)
    requires Structure(s) && Cases(s) && Handlers(s) && k in s.db.cases && i < |s.db.cases[k]|
    requires s.db.cases[k][i].status == PENDING
    ensures forall h :: h in s.handlers && s.handlers[h].callback == Callback(k, s.db.cases[k][i].testCase) ==>
              !PastUpdate(s.handlers[h].phase)
  {
    forall h | h in s.handlers && s.handlers[h].callback == Callback(k, s.db.cases[k][i].testCase)
      ensures !PastUpdate(s.handlers[h].phase)
    {
      var hd := s.handlers[h];
      assert HandlerOk(s, hd);
      if PastUpdate(hd.phase) {
        var j :| 0 <= j < |s.db.cases[k]| && s.db.cases[k][j] == Graded(hd.callback.testCase, hd.token, hd.payload);
        RowIndexUnique(s, k, i, j);
      }
    }
  }

  /** The handler that completes the set leaves its own row open. */
  lemma CompletedIsOpen(s: State, t: State, h: Id, i: nat)
    requires Structure(s) && Cases(s) && Handlers(s) && HandlersKeep(s, t, h)
    requires h in s.handlers && h in t.handlers && s.handlers[h].callback.sub in s.db.cases
    requires s.handlers[h].callback.sub in t.db.cases
    requires t.handlers[h] == s.handlers[h].(phase := Updated)
    requires var k := s.handlers[h].callback.sub;
             && SameTests(s.db.cases[k], t.db.cases[k]) && i < |s.db.cases[k]| && s.db.cases[k][i].status == PENDING
    ensures SomeOpen(t, s.handlers[h].callback.sub)
  {
    var k := s.handlers[h].callback.sub;
    BlankIsOpen(s, k, i);
    assert Open(t, Callback(k, t.db.cases[k][i].testCase));
  }

  lemma CompletingRow(rows: seq<CaseRow>, i: nat, g: CaseRow)
    requires i < |rows| && (rows[i] == g || rows[i] == Blank(g.testCase, g.token))
    requires AllDone(rows[i := g]) && !AllDone(rows)
    ensures rows[i].status == PENDING
  {
    var updated := rows[i := g];
    assert updated[i] == g && forall j :: 0 <= j < |rows| && j != i ==> updated[j] == rows[j];
  }

  lemma UpdateProgress(s: State, step: Step)
    requires step.Update? && Enabled(s, step) && Structure(s) && Cases(s) && Handlers(s) && Progress(s)
    ensures Progress(Apply(s, step))
  {
    assert HandlerOk(s, s.handlers[step.h]);
    UpdatedRow(s, step);
    UpdateKeeps(s, step);
    var t := Apply(s, step);
    var hd := s.handlers[step.h];
    var g := Graded(hd.callback.testCase, hd.token, hd.payload);
    forall k | k in t.db.cases && k in t.db.submissions && AllDone(t.db.cases[k])
           && t.db.submissions[k].status == RUNNING
      ensures SomeOpen(t, k)
    {
      assert SameTests(s.db.cases[k], t.db.cases[k]);
      if AllDone(s.db.cases[k]) {
        assert SomeOpen(s, k);
        assert KeepsGoing(s, t, step.h, k);
        SomeOpenFrame(s, t, step.h, k);
      } else {
        CompletingRow(s.db.cases[hd.callback.sub], hd.phase.row, g);
        CompletedIsOpen(s, t, step.h, hd.phase.row);
      }
    }
  }

  lemma UpdateTables(s: State, step: Step)
    requires step.Update? && Enabled(s, step) && Structure(s) && Cases(s) && HandlerOk(s, s.handlers[step.h])
    ensures Structure(Apply(s, step))
  {
    UpdateKeeps(s, step);
    StructureFrame(s, Apply(s, step));
  }

  lemma UpdateHandlers(s: State, step: Step)
    requires step.Update? && Enabled(s, step) && Structure(s) && Cases(s) && Handlers(s) && Statuses(s)
    ensures Handlers(Apply(s, step)) && Statuses(Apply(s, step))
  {
    assert HandlerOk(s, s.handlers[step.h]);
    UpdateKeeps(s, step);
    HandlersFrame(s, Apply(s, step), step.h);
    UpdateStatuses(s, Apply(s, step));
  }

  lemma UpdateInv(s: State, step: Step)
    requires Inv(s) && Enabled(s, step) && step.Update?
    ensures Inv(Apply(s, step))
  {
    assert HandlerOk(s, s.handlers[step.h]);
    UpdateTables(s, step);
    UpdateProgress(s, step);
    UpdateCases(s, step);
    UpdateHandlers(s, step);
    UpdateServed(s, step);
  }

  /***** callback handlers: the submission write *****/

  lemma WriteStatus(row: SubmissionRow, snapshot: seq<CaseRow>, rows: seq<CaseRow>, now: Time)
    requires StatusOk(row, rows) && SnapshotOk(snapshot, rows)
    ensures snapshot != [] && StatusOk(Recompute(row, snapshot, now), rows)
    ensures AllDone(snapshot) ==> IsFinal(Recompute(row, snapshot, now).status)
    ensures IsFinal(row.status) ==> Recompute(row, snapshot, now).status == row.status
  {
    SnapshotFacts(snapshot, rows);
    if AllDone(snapshot) {
      RecomputeOrderFree(row, snapshot, rows, now);
      AllDoneMultiset(snapshot, rows);
      CombineIsTheWorst(Verdicts(snapshot), CombineVerdicts(Verdicts(snapshot)));
    }
  }

  lemma WriteKeeps(s: State, step: Step)
    requires step.Write? && Enabled(s, step) && HandlerOk(s, s.handlers[step.h])
    ensures var t := Apply(s, step);
            var k := s.handlers[step.h].callback.sub;
            t.db.cases == s.db.cases && JobsKeep(s, t) && t.jobs == s.jobs && t.submits == s.submits
            && (var row := Recompute(s.db.submissions[k], s.handlers[step.h].phase.snapshot, step.now);
                t.db.submissions == s.db.submissions[k := row])
            && HandlersKeep(s, t, step.h) && Advances(s, t, step.h)
            && HandlerOk(t, t.handlers[step.h])
  {
  }

  lemma WriteStatuses(s: State, step: Step)
    requires step.Write? && Enabled(s, step) && Statuses(s) && HandlerOk(s, s.handlers[step.h])
    ensures Statuses(Apply(s, step))
  {
    WriteKeeps(s, step);
    var t := Apply(s, step);
    var k := s.handlers[step.h].callback.sub;
    assert StatusOk(s.db.submissions[k], s.db.cases[k]);
    WriteStatus(s.db.submissions[k], s.handlers[step.h].phase.snapshot, s.db.cases[k], step.now);
    forall j | j in t.db.cases
      ensures j in t.db.submissions && StatusOk(t.db.submissions[j], t.db.cases[j])
    {
      assert StatusOk(s.db.submissions[j], s.db.cases[j]);
    }
  }

  lemma WriteProgress(s: State, step: Step)
    requires step.Write? && Enabled(s, step) && Statuses(s) && Progress(s) && HandlerOk(s, s.handlers[step.h])
    ensures Progress(Apply(s, step))
  {
    WriteKeeps(s, step);
    var t := Apply(s, step);
    var hd := s.handlers[step.h];
    assert StatusOk(s.db.submissions[hd.callback.sub], s.db.cases[hd.callback.sub]);
    WriteStatus(s.db.submissions[hd.callback.sub], hd.phase.snapshot, s.db.cases[hd.callback.sub], step.now);
    forall k | k in t.db.cases && k in t.db.submissions && AllDone(t.db.cases[k])
           && t.db.submissions[k].status == RUNNING
      ensures SomeOpen(t, k)
    {
      assert s.db.submissions[k].status == RUNNING;
      SomeOpenFrame(s, t, step.h, k);
    }
  }

  lemma WriteStructure(s: State, step: Step)
    requires step.Write? && Enabled(s, step) && Structure(s) && Cases(s) && HandlerOk(s, s.handlers[step.h])
    ensures Structure(Apply(s, step)) && Cases(Apply(s, step))
  {
    WriteKeeps(s, step);
    StructureFrame(s, Apply(s, step));
    CasesFrame(s, Apply(s, step));
  }

  lemma WriteHandlers(s: State, step: Step)
    requires step.Write? && Enabled(s, step) && Handlers(s) && Served(s)
    ensures Handlers(Apply(s, step)) && Served(Apply(s, step))
  {
    assert HandlerOk(s, s.handlers[step.h]);
    WriteKeeps(s, step);
    CasesKeepSame(s, Apply(s, step));
    HandlersFrame(s, Apply(s, step), step.h);
    ServedFrame(s, Apply(s, step), step.h);
  }

  lemma WriteInv(s: State, step: Step)
    requires Inv(s) && Enabled(s, step) && step.Write?
    ensures Inv(Apply(s, step))
  {
    assert HandlerOk(s, s.handlers[step.h]);
    WriteStructure(s, step);
    WriteHandlers(s, step);
    WriteStatuses(s, step);
    WriteProgress(s, step);
  }

  /***** every run *****/

  lemma StepInv(s: State, step: Step)
    requires Inv(s) && Enabled(s, step)
    ensures Inv(Apply(s, step))
  {
    if step.Create? || step.Send? || step.SendRefused? || step.CommitFailed? {
      SubmitterInv(s, step);
    } else if step.Commit? {
      CommitInv(s, step);
    } else if step.FinishJob? || step.Put? || step.Respond? || step.Register? {
      MessageInv(s, step);
    } else if step.Update? {
      UpdateInv(s, step);
    } else if step.Write? {
      WriteInv(s, step);
    } else {
      ReadInv(s, step);
    }
  }

  lemma {:induction false} RunInv(s: State, steps: seq<Step>, t: State)
    requires Inv(s) && Run(s, steps, t)
    ensures Inv(t)
    decreases |steps|
  {
    if steps != [] {
      StepInv(s, steps[0]);
      RunInv(Apply(s, steps[0]), steps[1..], t);
    }
  }

  /** A state some interleaving reaches from the empty tables. */
  ghost predicate Reachable(s: State) {
    exists steps: seq<Step> :: Run(Init(s.db.contests, s.maxTries), steps, s)
  }

  lemma ReachableInv(s: State)
    requires Reachable(s)
    ensures Inv(s)
  {
    var steps :| Run(Init(s.db.contests, s.maxTries), steps, s);
    InitInv(s.db.contests, s.maxTries);
    RunInv(Init(s.db.contests, s.maxTries), steps, s);
  }
}
