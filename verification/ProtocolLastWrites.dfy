/** Which write decides what a run ends with: the stored count and score are right exactly when the last write is. */
module ProtocolLastWrites {
  import opened Wrappers
  import Grader
  import opened Judge0Batch
  import opened Platform
  import opened Protocol
  import opened ProtocolInvariant
  import Theorems = ProtocolTheorems
  import Scores = ProtocolScores

  /***** case rows over a run *****/

  lemma CasesKeepStep(s: State, step: Step)
    requires Inv(s) && Enabled(s, step)
    ensures CasesKeep(s, Apply(s, step))
  {
    if step.Update? {
      assert HandlerOk(s, s.handlers[step.h]);
      UpdateKeeps(s, step);
    } else if step.Commit? {
      CommitKeeps(s, step);
    } else {
      Theorems.SameCases(s, step);
      CasesKeepSame(s, Apply(s, step));
    }
  }

  lemma KeepTransitive(a: seq<CaseRow>, b: seq<CaseRow>, c: seq<CaseRow>)
    requires Grow(a, b) && SameTests(a, b) && Grow(b, c) && SameTests(b, c)
    ensures Grow(a, c) && SameTests(a, c)
  {
  }

  lemma CasesKeepTransitive(s: State, m: State, t: State)
    requires CasesKeep(s, m) && CasesKeep(m, t)
    ensures CasesKeep(s, t)
  {
    forall k | k in s.db.cases
      ensures k in t.db.cases && Grow(s.db.cases[k], t.db.cases[k]) && SameTests(s.db.cases[k], t.db.cases[k])
    {
      KeepTransitive(s.db.cases[k], m.db.cases[k], t.db.cases[k]);
    }
  }

  lemma {:induction false} RunKeepsCases(s: State, steps: seq<Step>, t: State)
    requires Inv(s) && Run(s, steps, t)
    ensures CasesKeep(s, t)
    decreases |steps|
  {
    if steps == [] {
      CasesKeepSame(s, t);
    } else {
      CasesKeepStep(s, steps[0]);
      StepInv(s, steps[0]);
      RunKeepsCases(Apply(s, steps[0]), steps[1..], t);
      CasesKeepTransitive(s, Apply(s, steps[0]), t);
    }
  }

  /***** the passed count *****/

  /** The snapshot that a step writes to submission `k`. */
  function SnapshotWritten(s: State, step: Step, k: Id): Option<seq<CaseRow>> {
    if step.Write? && step.h in s.handlers && s.handlers[step.h].phase.Snapped? && s.handlers[step.h].callback.sub == k
    then Some(s.handlers[step.h].phase.snapshot)
    else None
  }

  /** The snapshot behind the last write to submission `k` in a run. */
  function LastSnapshot(s: State, steps: seq<Step>, k: Id): Option<seq<CaseRow>>
    decreases |steps|
  {
    if steps == [] || !Enabled(s, steps[0]) then None
    else
      var later := LastSnapshot(Apply(s, steps[0]), steps[1..], k);
      if later.Some? then later else SnapshotWritten(s, steps[0], k)
  }

  function Count(db: Db, k: Id): nat {
    if k in db.submissions then db.submissions[k].passedCount else 0
  }

  lemma CountStep(s: State, step: Step, k: Id)
    requires Enabled(s, step) && s.submits.Keys == s.db.submissions.Keys
    ensures match SnapshotWritten(s, step, k)
            case None => Count(Apply(s, step).db, k) == Count(s.db, k)
            case Some(snapshot) => Count(Apply(s, step).db, k) == Passed(snapshot)
  {
  }

  lemma WrittenIsOk(s: State, step: Step, k: Id)
    requires Handlers(s) && SnapshotWritten(s, step, k).Some?
    ensures k in s.db.cases && SnapshotOk(SnapshotWritten(s, step, k).value, s.db.cases[k])
  {
    assert HandlerOk(s, s.handlers[step.h]);
  }

  lemma {:induction false} RunCount(s: State, steps: seq<Step>, t: State, k: Id)
    requires Inv(s) && Run(s, steps, t)
    ensures match LastSnapshot(s, steps, k)
            case None => Count(t.db, k) == Count(s.db, k)
            case Some(snapshot) =>
              k in t.db.cases && SnapshotOk(snapshot, t.db.cases[k]) && Count(t.db, k) == Passed(snapshot)
    decreases |steps|
  {
    if steps != [] {
      var m := Apply(s, steps[0]);
      StepInv(s, steps[0]);
      RunCount(m, steps[1..], t, k);
      CountStep(s, steps[0], k);
      if SnapshotWritten(s, steps[0], k).Some? {
        WrittenIsOk(s, steps[0], k);
        RunKeepsCases(s, steps, t);
        SnapshotGrow(SnapshotWritten(s, steps[0], k).value, s.db.cases[k], t.db.cases[k]);
      }
    }
  }

  lemma {:induction false} PassedZeroIff(rows: seq<CaseRow>)
    ensures Passed(rows) == 0 <==> forall r :: r in rows ==> r.status != Grader.AC
  {
    if rows != [] {
      PassedZeroIff(rows[1..]);
      assert Verdicts(rows)[1..] == Verdicts(rows[1..]);
      assert forall r :: r in rows <==> r == rows[0] || r in rows[1..];
    }
  }

  /**
   The count a run ends with is right exactly when the last write to the submission was computed from a snapshot
   that shows every row accepted at the end; without any write, exactly when no row is accepted.
   */
  lemma CountExactIff(contests: map<Id, Contest>, maxTries: nat, steps: seq<Step>, t: State, k: Id)
    requires Run(Init(contests, maxTries), steps, t) && k in t.db.cases
    ensures k in t.db.submissions
    ensures t.db.submissions[k].passedCount == Passed(t.db.cases[k]) <==>
            forall r :: r in t.db.cases[k] && r.status == Grader.AC ==>
              r in LastSnapshot(Init(contests, maxTries), steps, k).GetOr([])
  {
    var init := Init(contests, maxTries);
    InitInv(contests, maxTries);
    RunCount(init, steps, t, k);
    RunInv(init, steps, t);
    assert StatusOk(t.db.submissions[k], t.db.cases[k]);
    match LastSnapshot(init, steps, k) {
      case None => PassedZeroIff(t.db.cases[k]);
      case Some(snapshot) =>
        Scores.RowsDistinct(t, k);
        Scores.SnapshotPassedIff(snapshot, t.db.cases[k]);
    }
  }

  /***** contest scores *****/

  /** The rows that a step sums up for a contest and user. */
  function RowsSummed(s: State, step: Step, c: Id, u: Id): Option<seq<SubmissionRow>> {
    if step.Upsert? && step.h in s.handlers && s.handlers[step.h].phase.Summing?
       && s.handlers[step.h].phase.contest == c && s.handlers[step.h].phase.user == u
    then Some(s.handlers[step.h].phase.rows)
    else None
  }

  /** The rows behind the last score stored for a contest and user in a run. */
  function LastRows(s: State, steps: seq<Step>, c: Id, u: Id): Option<seq<SubmissionRow>>
    decreases |steps|
  {
    if steps == [] || !Enabled(s, steps[0]) then None
    else
      var later := LastRows(Apply(s, steps[0]), steps[1..], c, u);
      if later.Some? then later else RowsSummed(s, steps[0], c, u)
  }

  lemma StoredStep(s: State, step: Step, c: Id, u: Id)
    requires Enabled(s, step)
    ensures match RowsSummed(s, step, c, u)
            case None => Scores.StoredScore(Apply(s, step).db, c, u) == Scores.StoredScore(s.db, c, u)
            case Some(rows) =>
              && c in s.db.contests
              && Scores.StoredScore(Apply(s, step).db, c, u) == Score(rows, PointsMap(s.db.contests[c].problems))
  {
  }

  lemma {:induction false} RunStored(s: State, steps: seq<Step>, t: State, c: Id, u: Id)
    requires Inv(s) && Scores.Sums(s) && Run(s, steps, t)
    ensures t.db.contests == s.db.contests
    ensures match LastRows(s, steps, c, u)
            case None => Scores.StoredScore(t.db, c, u) == Scores.StoredScore(s.db, c, u)
            case Some(rows) =>
              && c in s.db.contests && DistinctProblems(rows) && ProblemSet(rows) <= Solved(t.db, c, u)
              && Scores.StoredScore(t.db, c, u) == Score(rows, PointsMap(s.db.contests[c].problems))
    decreases |steps|
  {
    if steps != [] {
      var m := Apply(s, steps[0]);
      StepInv(s, steps[0]);
      Scores.SumsStep(s, steps[0]);
      RunStored(m, steps[1..], t, c, u);
      StoredStep(s, steps[0], c, u);
      Theorems.StatusMonotone(s, steps, t);
      if RowsSummed(s, steps[0], c, u).Some? {
        assert Scores.SumOk(s.db, s.handlers[steps[0].h].phase);
        Scores.SolvedMonotone(s, t, c, u);
      }
    }
  }

  /**
   The score a run ends with is right exactly when the rows behind the last stored score lack no solved problem that
   is worth points; without any stored score, exactly when no solved problem is worth points.
   */
  lemma ScoreExactIff(contests: map<Id, Contest>, maxTries: nat, steps: seq<Step>, t: State, c: Id, u: Id)
    requires Run(Init(contests, maxTries), steps, t) && c in contests && Scores.ContestOk(contests[c])
    ensures c in t.db.contests
    ensures Scores.StoredScore(t.db, c, u) == TrueScore(t.db, c, u) <==>
            forall q | q in contests[c].problems && q.problem in Solved(t.db, c, u)
                       && q.problem !in ProblemSet(LastRows(Init(contests, maxTries), steps, c, u).GetOr([]))
              :: q.points == 0
  {
    var init := Init(contests, maxTries);
    InitInv(contests, maxTries);
    RunStored(init, steps, t, c, u);
    var rows := LastRows(init, steps, c, u).GetOr([]);
    assert ProblemSet([]) == {};
    PointsOfNothing(contests[c].problems);
    if LastRows(init, steps, c, u).Some? {
      ScoreIsPoints(rows, contests[c].problems);
    }
    Scores.PointsOfEqualIff(contests[c].problems, ProblemSet(rows), Solved(t.db, c, u));
  }
}
