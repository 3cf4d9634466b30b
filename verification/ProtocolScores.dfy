/** Lost updates: what interleaving can do to passedCount and to contest scores, and exactly when a write is right. */
module ProtocolScores {
  import Grader
  import opened Judge0Batch
  import opened Platform
  import opened Protocol
  import opened ProtocolInvariant
  import Theorems = ProtocolTheorems

  /***** passedCount *****/

  /** In every reachable state the stored count is at most the number of cases that are AC. */
  lemma PassedNeverOvercounts(s: State, k: Id)
    requires Reachable(s) && k in s.db.cases
    ensures k in s.db.submissions && s.db.submissions[k].passedCount <= Passed(s.db.cases[k])
  {
    ReachableInv(s);
    assert Statuses(s);
    assert StatusOk(s.db.submissions[k], s.db.cases[k]);
  }

  lemma {:induction false} GrowPassedIff(a: seq<CaseRow>, b: seq<CaseRow>)
    requires Grow(a, b)
    ensures Passed(a) == Passed(b) <==>
            forall i :: 0 <= i < |b| && b[i].status == Grader.AC ==> a[i].status == Grader.AC
  {
    if a != [] {
      GrowPassedIff(a[1..], b[1..]);
      GrowPassed(a[1..], b[1..]);
      assert Verdicts(a)[1..] == Verdicts(a[1..]);
      assert Verdicts(b)[1..] == Verdicts(b[1..]);
      assert forall i :: 1 <= i < |b| ==> b[i] == b[1..][i - 1] && a[i] == a[1..][i - 1];
    }
  }

  ghost predicate DistinctCases(rows: seq<CaseRow>) {
    forall i, j :: 0 <= i < j < |rows| ==> rows[i].testCase != rows[j].testCase
  }

  lemma CountedIff(base: seq<CaseRow>, rows: seq<CaseRow>, i: nat)
    requires Grow(base, rows) && DistinctCases(rows) && i < |rows| && rows[i].status == Grader.AC
    ensures base[i].status == Grader.AC <==> rows[i] in base
  {
    if rows[i] in base {
      var j :| 0 <= j < |base| && base[j] == rows[i];
      assert rows[j] == base[j];
    }
  }

  lemma BasePassedIff(base: seq<CaseRow>, rows: seq<CaseRow>)
    requires Grow(base, rows) && DistinctCases(rows)
    ensures Passed(base) == Passed(rows) <==> forall r :: r in rows && r.status == Grader.AC ==> r in base
  {
    GrowPassedIff(base, rows);
    forall i | 0 <= i < |rows| && rows[i].status == Grader.AC
      ensures base[i].status == Grader.AC <==> rows[i] in base
    {
      CountedIff(base, rows, i);
    }
  }

  lemma SnapshotPassedIff(snapshot: seq<CaseRow>, rows: seq<CaseRow>)
    requires SnapshotOk(snapshot, rows) && DistinctCases(rows)
    ensures Passed(snapshot) == Passed(rows) <==> forall r :: r in rows && r.status == Grader.AC ==> r in snapshot
  {
    var base: seq<CaseRow> :| Grow(base, rows) && multiset(base) == multiset(snapshot);
    PassedMultiset(base, snapshot);
    BasePassedIff(base, rows);
    assert forall r :: r in snapshot <==> r in multiset(base);
  }

  lemma RowsDistinct(s: State, k: Id)
    requires Structure(s) && Cases(s) && k in s.db.cases
    ensures DistinctCases(s.db.cases[k])
  {
    forall i, j | 0 <= i < j < |s.db.cases[k]|
      ensures s.db.cases[k][i].testCase != s.db.cases[k][j].testCase
    {
      Theorems.RowFacts(s, k, i);
      Theorems.RowFacts(s, k, j);
    }
  }

  lemma WrittenIff(s: State, h: Id, now: Time)
    requires Enabled(s, Write(h, now)) && HandlerOk(s, s.handlers[h])
    requires DistinctCases(s.db.cases[s.handlers[h].callback.sub])
    ensures var k := s.handlers[h].callback.sub;
            Apply(s, Write(h, now)).db.submissions[k].passedCount == Passed(s.db.cases[k]) <==>
            forall r :: r in s.db.cases[k] && r.status == Grader.AC ==> r in s.handlers[h].phase.snapshot
  {
    var hd := s.handlers[h];
    SnapshotPassedIff(hd.phase.snapshot, s.db.cases[hd.callback.sub]);
    WriteKeeps(s, Write(h, now));
  }

  /** A write stores the true count exactly when its snapshot shows every case that is AC now. */
  lemma WriteExactIff(s: State, h: Id, now: Time)
    requires Reachable(s) && Enabled(s, Write(h, now))
    ensures var k := s.handlers[h].callback.sub;
            k in s.db.cases
            && (Apply(s, Write(h, now)).db.submissions[k].passedCount == Passed(s.db.cases[k]) <==>
                forall r :: r in s.db.cases[k] && r.status == Grader.AC ==> r in s.handlers[h].phase.snapshot)
  {
    ReachableInv(s);
    assert HandlerOk(s, s.handlers[h]);
    RowsDistinct(s, s.handlers[h].callback.sub);
    WrittenIff(s, h, now);
  }

  /***** contest scores *****/

  /** A problem occurs once in a contest, and no problem costs points. */
  ghost predicate ContestOk(contest: Contest) {
    DistinctIds(contest.problems) && NonNegativePoints(contest.problems)
  }

  ghost predicate SumOk(db: Db, p: Phase)
    requires p.Summing?
  {
    p.contest in db.contests && DistinctProblems(p.rows) && ProblemSet(p.rows) <= Solved(db, p.contest, p.user)
  }

  /** Rows that a handler is about to sum up are accepted, one per problem. */
  ghost predicate Sums(s: State) {
    forall h :: h in s.handlers && s.handlers[h].phase.Summing? ==> SumOk(s.db, s.handlers[h].phase)
  }

  /** Participants belong to contests. */
  ghost predicate Known(s: State) {
    forall c, u :: (c, u) in s.db.participants ==> c in s.db.contests
  }

  /** No stored score of contest `c` exceeds the true one. */
  ghost predicate Bounded(s: State, c: Id) {
    forall u :: (c, u) in s.db.participants && c in s.db.contests ==>
      s.db.participants[(c, u)].score <= TrueScore(s.db, c, u)
  }

  /** A missing participant counts as a score of 0. */
  function StoredScore(db: Db, c: Id, u: Id): int {
    if (c, u) in db.participants then db.participants[(c, u)].score else 0
  }

  lemma SolvedMonotone(s: State, t: State, c: Id, u: Id)
    requires Theorems.AllOnward(s, t)
    ensures Solved(s.db, c, u) <= Solved(t.db, c, u)
  {
    forall p | p in Solved(s.db, c, u)
      ensures p in Solved(t.db, c, u)
    {
      var k :| k in s.db.submissions && Accepted(s.db.contests, c, u, s.db.submissions[k])
               && s.db.submissions[k].problem == p;
      assert Accepted(t.db.contests, c, u, t.db.submissions[k]);
    }
  }

  lemma OnwardScore(s: State, t: State, c: Id, u: Id)
    requires Theorems.AllOnward(s, t) && c in s.db.contests && NonNegativePoints(s.db.contests[c].problems)
    ensures 0 <= TrueScore(s.db, c, u) <= TrueScore(t.db, c, u)
  {
    SolvedMonotone(s, t, c, u);
    PointsOfMonotone(s.db.contests[c].problems, Solved(s.db, c, u), Solved(t.db, c, u));
  }

  /** Over any run a true score never decreases. */
  lemma TrueScoreMonotone(s: State, steps: seq<Step>, t: State, c: Id, u: Id)
    requires Inv(s) && Run(s, steps, t) && c in s.db.contests && NonNegativePoints(s.db.contests[c].problems)
    ensures c in t.db.contests && 0 <= TrueScore(s.db, c, u) <= TrueScore(t.db, c, u)
  {
    Theorems.StatusMonotone(s, steps, t);
    OnwardScore(s, t, c, u);
  }

  /** A handler that sums has just read, or did so before. */
  lemma SummingStep(s: State, step: Step, h: Id)
    requires Enabled(s, step) && h in Apply(s, step).handlers && Apply(s, step).handlers[h].phase.Summing?
    ensures var p := Apply(s, step).handlers[h].phase;
            || (h in s.handlers && s.handlers[h].phase == p)
            || (step == Read(h, p.rows) && Apply(s, step).db == s.db && SumOk(s.db, p))
  {
  }

  lemma SumsStep(s: State, step: Step)
    requires Inv(s) && Sums(s) && Enabled(s, step)
    ensures Sums(Apply(s, step))
  {
    var t := Apply(s, step);
    Theorems.StatusStep(s, step);
    forall h | h in t.handlers && t.handlers[h].phase.Summing?
      ensures SumOk(t.db, t.handlers[h].phase)
    {
      var p := t.handlers[h].phase;
      SolvedMonotone(s, t, p.contest, p.user);
      SummingStep(s, step, h);
    }
  }

  lemma OnwardBounded(s: State, t: State, c: Id)
    requires Bounded(s, c) && Theorems.AllOnward(s, t) && t.db.participants == s.db.participants
    requires c in s.db.contests ==> ContestOk(s.db.contests[c])
    ensures Bounded(t, c)
  {
    forall u | (c, u) in t.db.participants && c in t.db.contests
      ensures t.db.participants[(c, u)].score <= TrueScore(t.db, c, u)
    {
      OnwardScore(s, t, c, u);
    }
  }

  lemma UpsertBounded(s: State, step: Step, c: Id)
    requires Sums(s) && Bounded(s, c) && Enabled(s, step) && (step.Upsert? || step.Register?)
    requires c in s.db.contests ==> ContestOk(s.db.contests[c])
    ensures Bounded(Apply(s, step), c)
  {
    var t := Apply(s, step);
    forall u | (c, u) in t.db.participants && c in t.db.contests
      ensures t.db.participants[(c, u)].score <= TrueScore(t.db, c, u)
    {
      assert Solved(t.db, c, u) == Solved(s.db, c, u);
      var problems := s.db.contests[c].problems;
      PointsOfMonotone(problems, {}, Solved(s.db, c, u));
      if step.Upsert? {
        var p := s.handlers[step.h].phase;
        if (p.contest, p.user) == (c, u) {
          ScoreIsPoints(p.rows, problems);
          PointsOfMonotone(problems, ProblemSet(p.rows), Solved(s.db, c, u));
        }
      }
    }
  }

  lemma OtherParticipants(s: State, step: Step)
    requires Enabled(s, step) && !step.Upsert? && !step.Register?
    ensures Apply(s, step).db.participants == s.db.participants
  {
  }

  lemma ScoreStep(s: State, step: Step, c: Id)
    requires Inv(s) && Sums(s) && Bounded(s, c) && Enabled(s, step)
    requires c in s.db.contests ==> ContestOk(s.db.contests[c])
    ensures Sums(Apply(s, step)) && Bounded(Apply(s, step), c) && Apply(s, step).db.contests == s.db.contests
  {
    SumsStep(s, step);
    Theorems.StatusStep(s, step);
    if step.Upsert? || step.Register? {
      UpsertBounded(s, step, c);
    } else {
      OtherParticipants(s, step);
      OnwardBounded(s, Apply(s, step), c);
    }
  }

  lemma {:induction false} RunScores(s: State, steps: seq<Step>, t: State, c: Id)
    requires Inv(s) && Sums(s) && Bounded(s, c) && Run(s, steps, t)
    requires c in s.db.contests ==> ContestOk(s.db.contests[c])
    ensures Sums(t) && Bounded(t, c)
    decreases |steps|
  {
    if steps != [] {
      ScoreStep(s, steps[0], c);
      StepInv(s, steps[0]);
      RunScores(Apply(s, steps[0]), steps[1..], t, c);
    }
  }

  lemma KnownStep(s: State, step: Step)
    requires Known(s) && Enabled(s, step)
    ensures Known(Apply(s, step)) && Apply(s, step).db.contests == s.db.contests
  {
  }

  lemma {:induction false} RunKnown(s: State, steps: seq<Step>, t: State)
    requires Known(s) && Run(s, steps, t)
    ensures Known(t)
    decreases |steps|
  {
    if steps != [] {
      KnownStep(s, steps[0]);
      RunKnown(Apply(s, steps[0]), steps[1..], t);
    }
  }

  lemma ReachableScores(s: State, c: Id)
    requires Reachable(s) && (c in s.db.contests ==> ContestOk(s.db.contests[c]))
    ensures Sums(s) && Bounded(s, c) && Known(s)
  {
    var init := Init(s.db.contests, s.maxTries);
    var steps :| Run(init, steps, s);
    InitInv(s.db.contests, s.maxTries);
    RunScores(init, steps, s, c);
    RunKnown(init, steps, s);
  }

  function Total(problems: seq<ContestProblem>): int {
    if problems == [] then 0 else Total(problems[..|problems| - 1]) + problems[|problems| - 1].points
  }

  lemma {:induction false} AtMostTotal(problems: seq<ContestProblem>, solved: set<Id>)
    requires NonNegativePoints(problems)
    ensures PointsOf(problems, solved) <= Total(problems)
  {
    if problems != [] {
      var n := |problems| - 1;
      assert problems[n] in problems;
      AtMostTotal(problems[..n], solved);
    }
  }

  /** However handlers interleave, a stored score is at most the points solved, and so at most the contest total. */
  lemma ScoresNeverExceed(s: State, c: Id, u: Id)
    requires Reachable(s) && (c, u) in s.db.participants
    requires c in s.db.contests ==> ContestOk(s.db.contests[c])
    ensures c in s.db.contests
    ensures s.db.participants[(c, u)].score <= TrueScore(s.db, c, u) <= Total(s.db.contests[c].problems)
  {
    ReachableScores(s, c);
    AtMostTotal(s.db.contests[c].problems, Solved(s.db, c, u));
  }

  lemma {:induction false} PointsOfEqualIff(problems: seq<ContestProblem>, a: set<Id>, b: set<Id>)
    requires NonNegativePoints(problems) && a <= b
    ensures PointsOf(problems, a) == PointsOf(problems, b) <==>
            forall p :: p in problems && p.problem in b && p.problem !in a ==> p.points == 0
  {
    if problems != [] {
      var n := |problems| - 1;
      assert problems == problems[..n] + [problems[n]];
      assert problems[n] in problems;
      assert NonNegativePoints(problems[..n]);
      PointsOfEqualIff(problems[..n], a, b);
      PointsOfMonotone(problems[..n], a, b);
      assert forall p :: p in problems <==> p in problems[..n] || p == problems[n];
    }
  }

  /** A score upsert is right exactly when no problem worth points was solved after its query. */
  lemma UpsertExactIff(s: State, h: Id, now: Time)
    requires Reachable(s) && Enabled(s, Upsert(h, now)) && ContestOk(s.db.contests[s.handlers[h].phase.contest])
    ensures var p := s.handlers[h].phase;
            var t := Apply(s, Upsert(h, now));
            (p.contest, p.user) in t.db.participants
            && (t.db.participants[(p.contest, p.user)].score == TrueScore(t.db, p.contest, p.user) <==>
                forall q | q in s.db.contests[p.contest].problems && q.problem in Solved(s.db, p.contest, p.user)
                           && q.problem !in ProblemSet(p.rows) :: q.points == 0)
  {
    var p := s.handlers[h].phase;
    ReachableScores(s, p.contest);
    var t := Apply(s, Upsert(h, now));
    assert SumOk(s.db, p);
    assert Solved(t.db, p.contest, p.user) == Solved(s.db, p.contest, p.user);
    ScoreIsPoints(p.rows, s.db.contests[p.contest].problems);
    PointsOfEqualIff(s.db.contests[p.contest].problems, ProblemSet(p.rows), Solved(s.db, p.contest, p.user));
  }
}
