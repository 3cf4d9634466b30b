/**
 What is exact where handlers do not overlap: a count when the handlers of its submission do not, a score when the
 handlers of its contest and user do not, whatever all other handlers do.
 */
module ProtocolExact {
  import opened Wrappers
  import Grader
  import opened Judge0Batch
  import opened Platform
  import opened Protocol
  import opened ProtocolInvariant
  import opened ProtocolTheorems
  import Scores = ProtocolScores

  /***** results that no interleaving changes *****/

  /** The same jobs with the same results, and the same set of cases with an accepted delivery. */
  ghost predicate SameDeliveries(a: State, b: State, k: Id) {
    && k in a.submits && k in b.submits && a.submits[k] == b.submits[k]
    && forall i :: 0 <= i < |a.submits[k].replies| && a.submits[k].replies[i].Some? ==>
         var token := a.submits[k].replies[i].value;
         token in a.jobs && token in b.jobs && a.jobs[token].result == b.jobs[token].result
         && (AcceptedDelivery(a, token) <==> AcceptedDelivery(b, token))
  }

  lemma SameLength(a: State, b: State, k: Id)
    requires Cases(a) && Cases(b) && k in a.db.cases && k in b.db.cases && SameDeliveries(a, b, k)
    ensures |a.db.cases[k]| == |b.db.cases[k]|
  {
    assert RowsOk(a.db.cases[k], a.submits[k], a.jobs) && RowsOk(b.db.cases[k], b.submits[k], b.jobs);
  }

  lemma SameRow(a: State, b: State, k: Id, i: nat)
    requires Structure(a) && Cases(a) && Structure(b) && Cases(b)
    requires k in a.db.cases && k in b.db.cases && i < |a.db.cases[k]| && i < |b.db.cases[k]| && SameDeliveries(a, b, k)
    requires a.db.cases[k][i].status != Grader.PENDING <==> AcceptedDelivery(a, a.db.cases[k][i].token)
    requires b.db.cases[k][i].status != Grader.PENDING <==> AcceptedDelivery(b, b.db.cases[k][i].token)
    ensures a.db.cases[k][i] == b.db.cases[k][i]
  {
    RowFacts(a, k, i);
    RowFacts(b, k, i);
    assert a.submits[k].replies[i] == b.submits[k].replies[i];
  }

  lemma SameRows(a: State, b: State, k: Id)
    requires Inv(a) && Inv(b) && AtRest(a, k) && AtRest(b, k)
    requires k in a.db.cases && k in b.db.cases && SameDeliveries(a, b, k)
    ensures a.db.cases[k] == b.db.cases[k]
  {
    SameLength(a, b, k);
    forall i | 0 <= i < |a.db.cases[k]|
      ensures a.db.cases[k][i] == b.db.cases[k][i]
    {
      RowDelivered(a, k, i);
      RowDelivered(b, k, i);
      SameRow(a, b, k, i);
    }
  }

  lemma ResultIsUnique(x: SubmissionRow, y: SubmissionRow, rows: seq<CaseRow>)
    requires GradedResult(x, rows) && GradedResult(y, rows)
    ensures x.status == y.status && x.runtimeMs == y.runtimeMs && x.memoryKb == y.memoryKb
  {
  }

  /**
   Confluence of verdicts: any two runs that accept callbacks for the same cases of a submission, in any order, number
   and interleaving, end with the same case rows, status, run time and memory.
   */
  lemma VerdictConfluence(a: State, b: State, k: Id)
    requires Reachable(a) && Reachable(b) && k in a.db.cases && k in b.db.cases
    requires AtRest(a, k) && AtRest(b, k) && SameDeliveries(a, b, k)
    ensures a.db.cases[k] == b.db.cases[k] && k in a.db.submissions && k in b.db.submissions
    ensures var x, y := a.db.submissions[k], b.db.submissions[k];
            x.status == y.status && x.runtimeMs == y.runtimeMs && x.memoryKb == y.memoryKb
  {
    ReachableInv(a);
    ReachableInv(b);
    SameRows(a, b, k);
    SettledResult(a, k);
    SettledResult(b, k);
    ResultIsUnique(a.db.submissions[k], b.db.submissions[k], a.db.cases[k]);
  }

  /***** the count of one submission *****/

  /** The handler is between its case update and its write, for submission `k`. */
  predicate Recounting(hd: Handler, k: Id) {
    hd.callback.sub == k && (hd.phase.Updated? || hd.phase.Snapped?)
  }

  /** At most one handler of the submission is between its update and its write. */
  ghost predicate CountAlone(s: State, k: Id) {
    forall g, h | g in s.handlers && h in s.handlers && Recounting(s.handlers[g], k) && Recounting(s.handlers[h], k)
      :: g == h
  }

  ghost predicate RunCounting(s: State, steps: seq<Step>, t: State, k: Id)
    decreases |steps|
  {
    CountAlone(s, k) &&
    if steps == [] then s == t
    else Enabled(s, steps[0]) && RunCounting(Apply(s, steps[0]), steps[1..], t, k)
  }

  ghost predicate ReachableCounting(s: State, k: Id) {
    exists steps: seq<Step> :: RunCounting(Init(s.db.contests, s.maxTries), steps, s, k)
  }

  ghost predicate CountRight(db: Db, k: Id) {
    k in db.cases && k in db.submissions && db.submissions[k].passedCount == Passed(db.cases[k])
  }

  ghost predicate SomeoneRecounts(s: State, k: Id) {
    exists h :: h in s.handlers && Recounting(s.handlers[h], k)
  }

  /** Snapshots of the submission show its rows as they are now. */
  ghost predicate SnapshotsCurrent(s: State, k: Id) {
    forall h :: h in s.handlers && s.handlers[h].callback.sub == k && s.handlers[h].phase.Snapped? ==>
      k in s.db.cases && multiset(s.handlers[h].phase.snapshot) == multiset(s.db.cases[k])
  }

  ghost predicate CountInv(s: State, k: Id) {
    k in s.db.cases ==> (CountRight(s.db, k) || SomeoneRecounts(s, k)) && SnapshotsCurrent(s, k)
  }

  /** The step leaves the rows, the count and the recounting handlers of submission `k` alone. */
  ghost predicate CountUntouched(s: State, t: State, k: Id) {
    && k in s.db.cases && k in t.db.cases && t.db.cases[k] == s.db.cases[k]
    && k in s.db.submissions && k in t.db.submissions
    && t.db.submissions[k].passedCount == s.db.submissions[k].passedCount
    && (forall h :: h in s.handlers && Recounting(s.handlers[h], k) ==>
        h in t.handlers && t.handlers[h] == s.handlers[h])
    && (forall h :: h in t.handlers && Recounting(t.handlers[h], k) ==>
        h in s.handlers && t.handlers[h] == s.handlers[h])
  }

  lemma CountFrame(s: State, t: State, k: Id)
    requires CountInv(s, k) && CountUntouched(s, t, k)
    ensures CountInv(t, k)
  {
    if SomeoneRecounts(s, k) {
      var h :| h in s.handlers && Recounting(s.handlers[h], k);
      assert h in t.handlers && Recounting(t.handlers[h], k);
    }
    forall h | h in t.handlers && t.handlers[h].callback.sub == k && t.handlers[h].phase.Snapped?
      ensures multiset(t.handlers[h].phase.snapshot) == multiset(t.db.cases[k])
    {
      assert Recounting(t.handlers[h], k);
    }
  }

  lemma {:induction false} PassedBlank(rows: seq<CaseRow>)
    requires forall i :: 0 <= i < |rows| ==> rows[i].status == Grader.PENDING
    ensures Passed(rows) == 0
  {
    if rows != [] {
      PassedBlank(rows[1..]);
      assert Verdicts(rows)[1..] == Verdicts(rows[1..]);
    }
  }

  lemma NothingSnapped(s: State, k: Id)
    requires Handlers(s) && k !in s.db.cases
    ensures forall h :: h in s.handlers && s.handlers[h].callback.sub == k ==> !s.handlers[h].phase.Snapped?
  {
    forall h | h in s.handlers && s.handlers[h].callback.sub == k
      ensures !s.handlers[h].phase.Snapped?
    {
      assert HandlerOk(s, s.handlers[h]);
    }
  }

  lemma CommitCount(s: State, step: Step)
    requires Structure(s) && Statuses(s) && Handlers(s) && Enabled(s, step) && step.Commit?
    ensures CountInv(Apply(s, step), step.sub)
  {
    var t := Apply(s, step);
    assert SubmitOk(s, step.sub);
    NothingSnapped(s, step.sub);
    PassedBlank(t.db.cases[step.sub]);
    assert CountRight(t.db, step.sub) && t.handlers == s.handlers;
  }

  lemma UpdateCount(s: State, step: Step, k: Id)
    requires step.Update? && Enabled(s, step) && s.handlers[step.h].callback.sub == k
    requires CountAlone(Apply(s, step), k)
    ensures CountInv(Apply(s, step), k)
  {
    var t := Apply(s, step);
    assert step.h in t.handlers && Recounting(t.handlers[step.h], k);
    assert forall h :: h in t.handlers && Recounting(t.handlers[h], k) ==> h == step.h;
    assert forall h :: h in t.handlers && Recounting(t.handlers[h], k) ==> !t.handlers[h].phase.Snapped?;
  }

  lemma SnapshotCount(s: State, step: Step, k: Id)
    requires step.Snapshot? && Enabled(s, step) && s.handlers[step.h].callback.sub == k && CountInv(s, k)
    ensures CountInv(Apply(s, step), k)
  {
    var t := Apply(s, step);
    assert step.h in t.handlers && Recounting(t.handlers[step.h], k);
  }

  lemma WriteCount(s: State, step: Step, k: Id)
    requires step.Write? && Enabled(s, step) && s.handlers[step.h].callback.sub == k && k in s.db.cases
    requires CountInv(s, k)
    ensures CountInv(Apply(s, step), k)
  {
    PassedMultiset(s.handlers[step.h].phase.snapshot, s.db.cases[k]);
  }

  lemma ElsewhereCount(s: State, step: Step, k: Id)
    requires Enabled(s, step) && k in s.db.cases && k in s.db.submissions && k in s.submits
    requires step.Update? || step.Snapshot? || step.Write? ==> s.handlers[step.h].callback.sub != k
    requires step.Commit? ==> step.sub != k
    ensures CountUntouched(s, Apply(s, step), k)
  {
  }

  lemma OwnCount(s: State, step: Step, k: Id)
    requires step.Update? || step.Snapshot? || step.Write?
    requires k in s.db.cases && CountInv(s, k) && Enabled(s, step) && CountAlone(Apply(s, step), k)
    requires s.handlers[step.h].callback.sub == k
    ensures CountInv(Apply(s, step), k)
  {
    if step.Update? {
      UpdateCount(s, step, k);
    } else if step.Snapshot? {
      SnapshotCount(s, step, k);
    } else {
      WriteCount(s, step, k);
    }
  }

  lemma CommittedBefore(s: State, step: Step, k: Id)
    requires Inv(s) && Enabled(s, step) && k in Apply(s, step).db.cases && step != Commit(k)
    ensures k in s.db.cases && k in s.db.submissions && k in s.submits
    ensures step.Commit? ==> step.sub != k
  {
    if !step.Update? && !step.Commit? {
      SameCases(s, step);
    }
  }

  lemma CountStep(s: State, step: Step, k: Id)
    requires Inv(s) && CountInv(s, k) && Enabled(s, step) && CountAlone(Apply(s, step), k)
    ensures CountInv(Apply(s, step), k)
  {
    if k in Apply(s, step).db.cases {
      if step == Commit(k) {
        CommitCount(s, step);
      } else {
        CommittedBefore(s, step, k);
        if (step.Update? || step.Snapshot? || step.Write?) && s.handlers[step.h].callback.sub == k {
          OwnCount(s, step, k);
        } else {
          ElsewhereCount(s, step, k);
          CountFrame(s, Apply(s, step), k);
        }
      }
    }
  }

  lemma {:induction false} RunCount(s: State, steps: seq<Step>, t: State, k: Id)
    requires Inv(s) && CountInv(s, k) && RunCounting(s, steps, t, k)
    ensures Run(s, steps, t) && CountInv(t, k)
    decreases |steps|
  {
    if steps != [] {
      var m := Apply(s, steps[0]);
      assert CountAlone(m, k);
      CountStep(s, steps[0], k);
      StepInv(s, steps[0]);
      RunCount(m, steps[1..], t, k);
    }
  }

  lemma ReachableCount(s: State, k: Id)
    requires ReachableCounting(s, k)
    ensures Reachable(s) && CountInv(s, k)
  {
    var init := Init(s.db.contests, s.maxTries);
    var steps :| RunCounting(init, steps, s, k);
    InitInv(s.db.contests, s.maxTries);
    RunCount(init, steps, s, k);
  }

  /** A row as the submit handler's transaction leaves it. */
  function Fresh(row: SubmissionRow): SubmissionRow {
    row.(status := Grader.RUNNING, passedCount := 0, runtimeMs := None, memoryKb := None, finishedAt := None)
  }

  lemma RestingCount(s: State, k: Id)
    requires CountInv(s, k) && k in s.db.cases && AtRest(s, k)
    ensures CountRight(s.db, k)
  {
  }

  lemma ResultIsRecomputed(row: SubmissionRow, rows: seq<CaseRow>, now: Time)
    requires GradedResult(row, rows) && row.passedCount == Passed(rows)
    ensures SameResult(row, Recompute(Fresh(row), rows, now))
  {
    AllFinalIsAllDone(rows, rows);
    RuntimeIsLargest(rows);
    MemoryIsLargest(rows);
  }

  /**
   If the handlers of a submission have not overlapped between update and write and none is there now, its four result
   columns are those of grading the whole set of case rows at once. Nothing is assumed about other submissions.
   */
  lemma NonOverlappingIsExact(s: State, k: Id, now: Time)
    requires ReachableCounting(s, k) && k in s.db.cases && AtRest(s, k)
    ensures k in s.db.submissions && s.db.cases[k] != []
    ensures SameResult(s.db.submissions[k], Recompute(Fresh(s.db.submissions[k]), s.db.cases[k], now))
    // by value: the status and the maxima of the rows, and the number of rows with status AC
    ensures GradedResult(s.db.submissions[k], s.db.cases[k])
    ensures s.db.submissions[k].passedCount
         == |set i | 0 <= i < |s.db.cases[k]| && s.db.cases[k][i].status == Grader.AC|
  {
    PassedIsCount(s.db.cases[k]);
    ReachableCount(s, k);
    ReachableInv(s);
    SettledResult(s, k);
    RestingCount(s, k);
    ResultIsRecomputed(s.db.submissions[k], s.db.cases[k], now);
  }

  /** Confluence: if in addition the handlers of the submission do not overlap, the counts agree as well. */
  lemma Confluence(a: State, b: State, k: Id)
    requires ReachableCounting(a, k) && ReachableCounting(b, k) && k in a.db.cases && k in b.db.cases
    requires AtRest(a, k) && AtRest(b, k) && SameDeliveries(a, b, k)
    ensures a.db.cases[k] == b.db.cases[k]
    ensures k in a.db.submissions && k in b.db.submissions && SameResult(a.db.submissions[k], b.db.submissions[k])
  {
    ReachableCount(a, k);
    ReachableCount(b, k);
    VerdictConfluence(a, b, k);
    RestingCount(a, k);
    RestingCount(b, k);
  }

  /***** the score of one contest and user *****/

  /** The handler is between its submission write and its score upsert, for a contest and user. */
  predicate Rescoring(hd: Handler, c: Id, u: Id) {
    match hd.phase
    case Scoring(c', u') => c == c' && u == u'
    case Summing(c', u', _) => c == c' && u == u'
    case _ => false
  }

  /** At most one handler is about to rescore the user in the contest. */
  ghost predicate ScoreAlone(s: State, c: Id, u: Id) {
    forall g, h | g in s.handlers && h in s.handlers && Rescoring(s.handlers[g], c, u) && Rescoring(s.handlers[h], c, u)
      :: g == h
  }

  ghost predicate RunScoring(s: State, steps: seq<Step>, t: State, c: Id, u: Id)
    decreases |steps|
  {
    ScoreAlone(s, c, u) &&
    if steps == [] then s == t
    else Enabled(s, steps[0]) && RunScoring(Apply(s, steps[0]), steps[1..], t, c, u)
  }

  ghost predicate ReachableScoring(s: State, c: Id, u: Id) {
    exists steps: seq<Step> :: RunScoring(Init(s.db.contests, s.maxTries), steps, s, c, u)
  }

  /** A problem occurs once in the contest: the primary key of the table. */
  ghost predicate Regular(db: Db, c: Id) {
    c in db.contests && DistinctIds(db.contests[c].problems)
  }

  /** The stored score is the true one, and a missing participant has solved nothing. */
  ghost predicate ScoreRight(db: Db, c: Id, u: Id) {
    c in db.contests
    && if (c, u) in db.participants then db.participants[(c, u)].score == TrueScore(db, c, u)
       else Solved(db, c, u) == {}
  }

  ghost predicate SomeoneRescores(s: State, c: Id, u: Id) {
    exists h :: h in s.handlers && Rescoring(s.handlers[h], c, u)
  }

  /** Rows about to be summed up are those of all problems solved by now. */
  ghost predicate SumsCurrent(s: State, c: Id, u: Id) {
    forall h :: h in s.handlers && s.handlers[h].phase.Summing? && Rescoring(s.handlers[h], c, u) ==>
      DistinctProblems(s.handlers[h].phase.rows) && ProblemSet(s.handlers[h].phase.rows) == Solved(s.db, c, u)
  }

  ghost predicate ScoreInv(s: State, c: Id, u: Id) {
    Regular(s.db, c) ==> (ScoreRight(s.db, c, u) || SomeoneRescores(s, c, u)) && SumsCurrent(s, c, u)
  }

  ghost predicate RescorersKeep(s: State, t: State, c: Id, u: Id) {
    && (forall h :: h in s.handlers && Rescoring(s.handlers[h], c, u) ==>
        h in t.handlers && t.handlers[h] == s.handlers[h])
    && (forall h :: h in t.handlers && Rescoring(t.handlers[h], c, u) ==>
        h in s.handlers && t.handlers[h] == s.handlers[h])
  }

  /** The step leaves the solved problems, the participant and the rescoring handlers of a contest and user alone. */
  ghost predicate ScoreUntouched(s: State, t: State, c: Id, u: Id) {
    && t.db.contests == s.db.contests && Solved(t.db, c, u) == Solved(s.db, c, u)
    && ((c, u) in t.db.participants <==> (c, u) in s.db.participants)
    && ((c, u) in s.db.participants ==> t.db.participants[(c, u)] == s.db.participants[(c, u)])
    && RescorersKeep(s, t, c, u)
  }

  lemma ScoreFrame(s: State, t: State, c: Id, u: Id)
    requires ScoreInv(s, c, u) && ScoreUntouched(s, t, c, u)
    ensures ScoreInv(t, c, u)
  {
    if Regular(s.db, c) && SomeoneRescores(s, c, u) {
      var h :| h in s.handlers && Rescoring(s.handlers[h], c, u);
      assert h in t.handlers && Rescoring(t.handlers[h], c, u);
    }
  }

  lemma SolvedSame(s: State, t: State, c: Id, u: Id)
    requires t.db.contests == s.db.contests
    requires forall k :: k in s.db.submissions && Accepted(s.db.contests, c, u, s.db.submissions[k]) ==>
               k in t.db.submissions && Accepted(t.db.contests, c, u, t.db.submissions[k])
               && t.db.submissions[k].problem == s.db.submissions[k].problem
    requires forall k :: k in t.db.submissions && Accepted(t.db.contests, c, u, t.db.submissions[k]) ==>
               k in s.db.submissions && Accepted(s.db.contests, c, u, s.db.submissions[k])
               && t.db.submissions[k].problem == s.db.submissions[k].problem
    ensures Solved(t.db, c, u) == Solved(s.db, c, u)
  {
    forall p
      ensures p in Solved(t.db, c, u) <==> p in Solved(s.db, c, u)
    {
      if p in Solved(t.db, c, u) {
        var k :| k in t.db.submissions && Accepted(t.db.contests, c, u, t.db.submissions[k])
                 && t.db.submissions[k].problem == p;
        assert Accepted(s.db.contests, c, u, s.db.submissions[k]);
      }
      if p in Solved(s.db, c, u) {
        var k :| k in s.db.submissions && Accepted(s.db.contests, c, u, s.db.submissions[k])
                 && s.db.submissions[k].problem == p;
        assert Accepted(t.db.contests, c, u, t.db.submissions[k]);
      }
    }
  }

  /** Only submission writes change what is solved. */
  lemma SolvedElsewhere(s: State, step: Step, c: Id, u: Id)
    requires Enabled(s, step) && !step.Write? && s.submits.Keys == s.db.submissions.Keys
    requires step.Commit? ==> s.db.submissions[step.sub].status == Grader.PENDING
    ensures Apply(s, step).db.contests == s.db.contests && Solved(Apply(s, step).db, c, u) == Solved(s.db, c, u)
  {
    if step.Create? || step.Commit? {
      SolvedSame(s, Apply(s, step), c, u);
    } else if step.Find? || step.Update? || step.Snapshot? || step.Read? || step.Upsert? {
      SameSubmissions(s, step);
      SolvedSame(s, Apply(s, step), c, u);
    } else {
      SameTables(s, step);
      SolvedSame(s, Apply(s, step), c, u);
    }
  }

  lemma PendingBefore(s: State, step: Step)
    requires Structure(s) && Statuses(s) && Enabled(s, step) && step.Commit?
    ensures s.db.submissions[step.sub].status == Grader.PENDING
  {
    assert SubmitOk(s, step.sub);
  }

  /** Handlers start or end rescoring a contest and user only by steps that concern them. */
  lemma RescorersElsewhere(s: State, step: Step, c: Id, u: Id)
    requires Enabled(s, step)
    requires step.Read? || step.Upsert? ==> !Rescoring(s.handlers[step.h], c, u)
    requires step.Write? ==> !Rescoring(Apply(s, step).handlers[step.h], c, u)
    ensures RescorersKeep(s, Apply(s, step), c, u)
  {
  }

  lemma ParticipantsElsewhere(s: State, step: Step, c: Id, u: Id)
    requires Enabled(s, step) && step != Register(c, u)
    requires step.Upsert? ==> !Rescoring(s.handlers[step.h], c, u)
    ensures var p, q := s.db.participants, Apply(s, step).db.participants;
            ((c, u) in q <==> (c, u) in p) && ((c, u) in p ==> q[(c, u)] == p[(c, u)])
  {
  }

  lemma WrittenSolved(s: State, step: Step, c: Id, u: Id)
    requires step.Write? && Enabled(s, step) && !Rescoring(Apply(s, step).handlers[step.h], c, u)
    requires var k := s.handlers[step.h].callback.sub;
             Grader.IsFinal(s.db.submissions[k].status) ==>
               Apply(s, step).db.submissions[k].status == s.db.submissions[k].status
    ensures Apply(s, step).db.contests == s.db.contests && Solved(Apply(s, step).db, c, u) == Solved(s.db, c, u)
  {
    SolvedSame(s, Apply(s, step), c, u);
  }

  /** A write changes what is solved only for the contest and user it goes on to rescore. */
  lemma WriteSolved(s: State, step: Step, c: Id, u: Id)
    requires step.Write? && Enabled(s, step) && HandlerOk(s, s.handlers[step.h]) && Statuses(s)
    requires !Rescoring(Apply(s, step).handlers[step.h], c, u)
    ensures Apply(s, step).db.contests == s.db.contests && Solved(Apply(s, step).db, c, u) == Solved(s.db, c, u)
  {
    var hd := s.handlers[step.h];
    var k := hd.callback.sub;
    WriteKeeps(s, step);
    assert StatusOk(s.db.submissions[k], s.db.cases[k]);
    WriteStatus(s.db.submissions[k], hd.phase.snapshot, s.db.cases[k], step.now);
    WrittenSolved(s, step, c, u);
  }

  lemma WriteScore(s: State, step: Step, c: Id, u: Id)
    requires step.Write? && Enabled(s, step) && Handlers(s) && Statuses(s)
    requires ScoreInv(s, c, u) && ScoreAlone(Apply(s, step), c, u)
    ensures ScoreInv(Apply(s, step), c, u)
  {
    var t := Apply(s, step);
    if Rescoring(t.handlers[step.h], c, u) {
      assert step.h in t.handlers && !t.handlers[step.h].phase.Summing?;
      assert forall h :: h in t.handlers && Rescoring(t.handlers[h], c, u) ==> h == step.h;
    } else {
      assert HandlerOk(s, s.handlers[step.h]);
      WriteSolved(s, step, c, u);
      RescorersElsewhere(s, step, c, u);
      ParticipantsElsewhere(s, step, c, u);
      ScoreFrame(s, t, c, u);
    }
  }

  lemma ReadScore(s: State, step: Step, c: Id, u: Id)
    requires step.Read? && Enabled(s, step) && Rescoring(s.handlers[step.h], c, u) && ScoreInv(s, c, u)
    ensures ScoreInv(Apply(s, step), c, u)
  {
    var t := Apply(s, step);
    assert t.db == s.db;
    if Regular(s.db, c) {
      assert step.h in t.handlers && Rescoring(t.handlers[step.h], c, u);
    }
  }

  lemma UpsertScore(s: State, step: Step, c: Id, u: Id)
    requires step.Upsert? && Enabled(s, step) && Rescoring(s.handlers[step.h], c, u) && ScoreInv(s, c, u)
    requires Solved(Apply(s, step).db, c, u) == Solved(s.db, c, u)
    ensures ScoreInv(Apply(s, step), c, u)
  {
    var t := Apply(s, step);
    if Regular(s.db, c) {
      ScoreIsPoints(s.handlers[step.h].phase.rows, s.db.contests[c].problems);
      assert ScoreRight(t.db, c, u);
    }
  }

  lemma RegisterScore(s: State, step: Step, c: Id, u: Id)
    requires step == Register(c, u) && Enabled(s, step) && ScoreInv(s, c, u)
    requires Solved(Apply(s, step).db, c, u) == Solved(s.db, c, u)
    ensures ScoreInv(Apply(s, step), c, u)
  {
    var t := Apply(s, step);
    assert t.handlers == s.handlers && t.db.contests == s.db.contests;
    PointsOfNothing(s.db.contests[c].problems);
    if SomeoneRescores(s, c, u) {
      assert SomeoneRescores(t, c, u);
    }
  }

  lemma ScoreInvStep(s: State, step: Step, c: Id, u: Id)
    requires Inv(s) && ScoreInv(s, c, u) && Enabled(s, step) && ScoreAlone(Apply(s, step), c, u)
    ensures ScoreInv(Apply(s, step), c, u)
  {
    if step.Write? {
      WriteScore(s, step, c, u);
    } else {
      if step.Commit? {
        PendingBefore(s, step);
      }
      SolvedElsewhere(s, step, c, u);
      if step.Read? && Rescoring(s.handlers[step.h], c, u) {
        ReadScore(s, step, c, u);
      } else if step.Upsert? && Rescoring(s.handlers[step.h], c, u) {
        UpsertScore(s, step, c, u);
      } else if step == Register(c, u) {
        RegisterScore(s, step, c, u);
      } else {
        RescorersElsewhere(s, step, c, u);
        ParticipantsElsewhere(s, step, c, u);
        ScoreFrame(s, Apply(s, step), c, u);
      }
    }
  }

  lemma {:induction false} RunScore(s: State, steps: seq<Step>, t: State, c: Id, u: Id)
    requires Inv(s) && ScoreInv(s, c, u) && RunScoring(s, steps, t, c, u)
    ensures Run(s, steps, t) && ScoreInv(t, c, u)
    decreases |steps|
  {
    if steps != [] {
      var m := Apply(s, steps[0]);
      assert ScoreAlone(m, c, u);
      ScoreInvStep(s, steps[0], c, u);
      StepInv(s, steps[0]);
      RunScore(m, steps[1..], t, c, u);
    }
  }

  lemma ReachableScore(s: State, c: Id, u: Id)
    requires ReachableScoring(s, c, u)
    ensures Reachable(s) && ScoreInv(s, c, u)
  {
    var init := Init(s.db.contests, s.maxTries);
    var steps :| RunScoring(init, steps, s, c, u);
    InitInv(s.db.contests, s.maxTries);
    assert Solved(init.db, c, u) == {};
    RunScore(init, steps, s, c, u);
  }

  /**
   If the handlers that rescore a user in a contest have not overlapped and none is under way, the score is the true
   one, and a user without a row has solved nothing. Nothing is assumed about other contests, users and submissions.
   */
  lemma NonOverlappingScores(s: State, c: Id, u: Id)
    requires ReachableScoring(s, c, u) && Regular(s.db, c) && !SomeoneRescores(s, c, u)
    ensures ScoreRight(s.db, c, u)
    // by value: the points of the problems with an accepted submission of the window
    ensures (c, u) in s.db.participants ==> HasPointsOfWindow(s.db, c, u)
  {
    ReachableScore(s, c, u);
    SolvedByValue(s.db, c, u);
  }

  /** The participant stays, and the score does not fall. */
  ghost predicate ScoreGrows(s: State, t: State, c: Id, u: Id) {
    (c, u) in s.db.participants ==>
      (c, u) in t.db.participants && s.db.participants[(c, u)].score <= t.db.participants[(c, u)].score
  }

  lemma GrowingStep(s: State, step: Step, c: Id, u: Id)
    requires Enabled(s, step) && Scores.Bounded(s, c) && ScoreInv(s, c, u)
    requires c in s.db.contests ==> Scores.ContestOk(s.db.contests[c])
    ensures ScoreGrows(s, Apply(s, step), c, u)
  {
    if step.Upsert? && Rescoring(s.handlers[step.h], c, u) {
      ScoreIsPoints(s.handlers[step.h].phase.rows, s.db.contests[c].problems);
    } else if step != Register(c, u) {
      ParticipantsElsewhere(s, step, c, u);
    }
  }

  lemma {:induction false} RunGrows(s: State, steps: seq<Step>, t: State, c: Id, u: Id)
    requires Inv(s) && ScoreInv(s, c, u) && Scores.Sums(s) && Scores.Bounded(s, c) && RunScoring(s, steps, t, c, u)
    requires c in s.db.contests ==> Scores.ContestOk(s.db.contests[c])
    ensures ScoreGrows(s, t, c, u)
    decreases |steps|
  {
    if steps != [] {
      var m := Apply(s, steps[0]);
      assert ScoreAlone(m, c, u);
      GrowingStep(s, steps[0], c, u);
      ScoreInvStep(s, steps[0], c, u);
      StepInv(s, steps[0]);
      Scores.ScoreStep(s, steps[0], c);
      RunGrows(m, steps[1..], t, c, u);
    }
  }

  /** Without overlap for a contest and user the score never falls, not even in between. */
  lemma NonOverlappingScoresGrow(s: State, steps: seq<Step>, t: State, c: Id, u: Id)
    requires ReachableScoring(s, c, u) && RunScoring(s, steps, t, c, u)
    requires c in s.db.contests ==> Scores.ContestOk(s.db.contests[c])
    ensures ScoreGrows(s, t, c, u)
  {
    ReachableScore(s, c, u);
    ReachableInv(s);
    Scores.ReachableScores(s, c);
    RunGrows(s, steps, t, c, u);
  }

  /***** confluence of scores *****/

  /** A submission of a user to a contest. */
  predicate Belongs(row: SubmissionRow, c: Id, u: Id) {
    row.contest == Some(c) && row.user == u
  }

  /** Every submission of the user to the contest in `a` is one in `b`, with the same cases called back. */
  ghost predicate SubmissionsAgree(a: State, b: State, c: Id, u: Id) {
    forall k | k in a.db.submissions && Belongs(a.db.submissions[k], c, u) ::
      && k in b.db.submissions && Belongs(b.db.submissions[k], c, u)
      && a.db.submissions[k].problem == b.db.submissions[k].problem
      && a.db.submissions[k].createdAt == b.db.submissions[k].createdAt
      && (k in a.db.cases <==> k in b.db.cases)
      && (k in a.db.cases ==> SameDeliveries(a, b, k) && AtRest(a, k) && AtRest(b, k))
  }

  lemma Uncommitted(s: State, k: Id)
    requires Structure(s) && Statuses(s) && k in s.db.submissions && k !in s.db.cases
    ensures s.db.submissions[k].status == Grader.PENDING
  {
  }

  lemma SameStatus(a: State, b: State, k: Id, c: Id, u: Id)
    requires Reachable(a) && Reachable(b) && SubmissionsAgree(a, b, c, u)
    requires k in a.db.submissions && Belongs(a.db.submissions[k], c, u)
    ensures k in b.db.submissions && a.db.submissions[k].status == b.db.submissions[k].status
  {
    if k in a.db.cases {
      VerdictConfluence(a, b, k);
    } else {
      ReachableInv(a);
      ReachableInv(b);
      Uncommitted(a, k);
      Uncommitted(b, k);
    }
  }

  lemma SameSolved(a: State, b: State, c: Id, u: Id)
    requires Reachable(a) && Reachable(b) && a.db.contests == b.db.contests
    requires SubmissionsAgree(a, b, c, u) && SubmissionsAgree(b, a, c, u)
    ensures Solved(a.db, c, u) == Solved(b.db, c, u)
  {
    forall k | k in a.db.submissions && Belongs(a.db.submissions[k], c, u)
      ensures k in b.db.submissions && a.db.submissions[k].status == b.db.submissions[k].status
    {
      SameStatus(a, b, k, c, u);
    }
    forall k | k in b.db.submissions && Belongs(b.db.submissions[k], c, u)
      ensures k in a.db.submissions && a.db.submissions[k].status == b.db.submissions[k].status
    {
      SameStatus(b, a, k, c, u);
    }
    SolvedSame(a, b, c, u);
  }

  lemma RightScore(db: Db, c: Id, u: Id)
    requires ScoreRight(db, c, u)
    ensures Scores.StoredScore(db, c, u) == TrueScore(db, c, u)
  {
    PointsOfNothing(db.contests[c].problems);
  }

  /**
   Confluence of scores: two runs with the same submissions of a user to a contest, with callbacks accepted for the
   same cases in any order, number and interleaving, and no overlap in rescoring, give the user the same score.
   */
  lemma ScoreConfluence(a: State, b: State, c: Id, u: Id)
    requires ReachableScoring(a, c, u) && ReachableScoring(b, c, u) && a.db.contests == b.db.contests
    requires Regular(a.db, c) && !SomeoneRescores(a, c, u) && !SomeoneRescores(b, c, u)
    requires SubmissionsAgree(a, b, c, u) && SubmissionsAgree(b, a, c, u)
    ensures c in b.db.contests && TrueScore(a.db, c, u) == TrueScore(b.db, c, u)
    ensures Scores.StoredScore(a.db, c, u) == Scores.StoredScore(b.db, c, u) == TrueScore(a.db, c, u)
  {
    ReachableScore(a, c, u);
    ReachableScore(b, c, u);
    SameSolved(a, b, c, u);
    NonOverlappingScores(a, c, u);
    NonOverlappingScores(b, c, u);
    RightScore(a.db, c, u);
    RightScore(b.db, c, u);
  }
}
