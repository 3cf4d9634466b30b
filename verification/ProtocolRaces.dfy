/** A run of the protocol in which the last writes are stale: every case is AC, yet a count and a score stay too low. */
module ProtocolRaces {
  import opened Wrappers
  import opened Grader
  import opened Judge0Batch
  import opened Platform
  import opened Protocol
  import opened ProtocolInvariant
  import Theorems = ProtocolTheorems
  import opened ProtocolRuns
  import Backend

  /***** one user, one contest with two problems, submission 0 with two cases and submission 1 with one *****/

  const CONTESTS: map<Id, Contest> := map[0 := Contest(0, 10, [ContestProblem(0, 100), ContestProblem(1, 100)])]
  const TESTS_OF_0 := [TestCase(0, "", ""), TestCase(1, "", "")]
  const TESTS_OF_1 := [TestCase(2, "", "")]
  const SUBMITS := map[0 := Submit(TESTS_OF_0, [Some(0), Some(1)], Committed),
                       1 := Submit(TESTS_OF_1, [Some(2)], Committed)]

  /** Job, callback and handler `i` belong together; jobs 0 and 1 are the cases of submission 0. */
  function Target(i: Id): Callback {
    Callback(if i == 2 then 1 else 0, i)
  }

  function Jobs(result: Option<Payload>, tries: nat): map<Id, Job> {
    map[0 := Job(Target(0), result, tries, false), 1 := Job(Target(1), result, tries, false),
        2 := Job(Target(2), result, tries, false)]
  }

  function Hd(i: Id, phase: Phase): Handler {
    Handler(Target(i), i, ACCEPTED, phase)
  }

  function Race(db: Db, p0: Phase, p1: Phase, p2: Phase): State {
    State(db, SUBMITS, Jobs(Some(ACCEPTED), 1), map[0 := Hd(0, p0), 1 := Hd(1, p1), 2 := Hd(2, p2)], 3)
  }

  function Row(problem: Id, status: Verdict, passed: nat, total: nat, tokens: seq<Id>): SubmissionRow {
    if status == AC then SubmissionRow(0, problem, Some(0), 5, AC, passed, total, Some(1), Some(1), Some(6), tokens)
    else SubmissionRow(0, problem, Some(0), 5, status, passed, total, None, None, None, tokens)
  }

  function Row0(status: Verdict, passed: nat): SubmissionRow { Row(0, status, passed, 2, [0, 1]) }
  function Row1(status: Verdict, passed: nat): SubmissionRow { Row(1, status, passed, 1, [2]) }

  function Case(i: Id, graded: bool): CaseRow {
    if graded then Graded(i, i, ACCEPTED) else Blank(i, i)
  }

  function Tables(g0: bool, g1: bool, g2: bool, row0: SubmissionRow, row1: SubmissionRow, score: Option<int>): Db {
    Db(map[0 := row0, 1 := row1], map[0 := [Case(0, g0), Case(1, g1)], 1 := [Case(2, g2)]], CONTESTS,
       if score.Some? then map[(0, 0) := Participant(score.value, Some(6))] else map[])
  }

  const FRESH := Tables(false, false, false, Row0(RUNNING, 0), Row1(RUNNING, 0), None)

  /***** reaching the race *****/

  lemma {:induction false} ReachRun(s: State, steps: seq<Step>, t: State)
    requires Reachable(s) && Run(s, steps, t)
    ensures Reachable(t)
    decreases |steps|
  {
    if steps != [] {
      ReachStep(s, steps[0]);
      ReachRun(Apply(s, steps[0]), steps[1..], t);
    }
  }

  /** What a submit handler does that is neither refused nor overtaken: create, send, commit. */
  function Submitted(s: State, sub: Id, problem: Id, tests: seq<TestCase>, replies: seq<Option<Id>>): State
    requires |replies| == |tests| && AllTokens(replies)
  {
    var created := DbCreate(s.db, sub, 0, problem, Some(0), |tests|, 5);
    Backend.Submitted(s, DbCommit(created, sub, tests, Tokens(replies)), sub, tests, replies, Committed)
  }

  lemma SubmitReaches(s: State, sub: Id, problem: Id, tests: seq<TestCase>, replies: seq<Option<Id>>)
    requires Reachable(s) && sub !in s.submits && tests != [] && DistinctTests(tests) && 0 in s.db.contests
    requires |replies| == |tests| && AllTokens(replies) && DistinctTokens(replies)
    requires forall i :: 0 <= i < |replies| ==> replies[i].value !in s.jobs
    ensures Reachable(Submitted(s, sub, problem, tests, replies))
  {
    var steps, t := Backend.UninterruptedSubmit(s, sub, 0, problem, Some(0), tests, Some(replies), 5);
    ReachRun(s, steps, t);
  }

  /** A job ends and its callback arrives. */
  function CalledBack(s: State, token: Id): State
    requires token in s.jobs
  {
    s.(jobs := s.jobs[token := Job(s.jobs[token].callback, Some(ACCEPTED), 1, false)],
    handlers := s.handlers[token := Handler(s.jobs[token].callback, token, ACCEPTED, Received)])
  }

  lemma CallbackSteps(s: State, token: Id)
    requires token in s.jobs && s.jobs[token].result.None? && !s.jobs[token].answered
    requires s.jobs[token].tries == 0 < s.maxTries && token !in s.handlers
    ensures Enabled(s, FinishJob(token, ACCEPTED))
    ensures var a := Apply(s, FinishJob(token, ACCEPTED));
            Enabled(a, Put(token, token, true)) && Apply(a, Put(token, token, true)) == CalledBack(s, token)
  {
    var a := Apply(s, FinishJob(token, ACCEPTED));
    assert Apply(a, Put(token, token, true)).jobs == CalledBack(s, token).jobs;
  }

  lemma CallbackReaches(s: State, token: Id)
    requires Reachable(s) && token in s.jobs && s.jobs[token].result.None? && !s.jobs[token].answered
    requires s.jobs[token].tries == 0 < s.maxTries && token !in s.handlers
    ensures Reachable(CalledBack(s, token))
  {
    CallbackSteps(s, token);
    var t := Take(s, FinishJob(token, ACCEPTED));
    t := Take(t, Put(token, token, true));
  }

  lemma JobsOf0()
    ensures map[] + NewJobs(0, TESTS_OF_0, [Some(0), Some(1)]) ==
            map[0 := Job(Target(0), None, 0, false), 1 := Job(Target(1), None, 0, false)]
  {
    NewJobsAligned(0, TESTS_OF_0, [Some(0), Some(1)]);
  }

  lemma FirstSubmission()
    ensures Submitted(Init(CONTESTS, 3), 0, 0, TESTS_OF_0, [Some(0), Some(1)]) ==
            State(Db(map[0 := Row0(RUNNING, 0)], map[0 := [Case(0, false), Case(1, false)]], CONTESTS, map[]),
                  map[0 := Submit(TESTS_OF_0, [Some(0), Some(1)], Committed)],
                  map[0 := Job(Target(0), None, 0, false), 1 := Job(Target(1), None, 0, false)], map[], 3)
  {
    JobsOf0();
    var s := Submitted(Init(CONTESTS, 3), 0, 0, TESTS_OF_0, [Some(0), Some(1)]);
    assert Tokens([Some(0), Some(1)]) == [0, 1];
    assert s.db.cases[0] == [Case(0, false), Case(1, false)];
  }

  lemma SecondSubmission(s: State)
    requires s == State(Db(map[0 := Row0(RUNNING, 0)], map[0 := [Case(0, false), Case(1, false)]], CONTESTS, map[]),
                        map[0 := Submit(TESTS_OF_0, [Some(0), Some(1)], Committed)],
                        map[0 := Job(Target(0), None, 0, false), 1 := Job(Target(1), None, 0, false)], map[], 3)
    ensures Submitted(s, 1, 1, TESTS_OF_1, [Some(2)]) == State(FRESH, SUBMITS, Jobs(None, 0), map[], 3)
  {
    NewJobsAligned(1, TESTS_OF_1, [Some(2)]);
    var t := Submitted(s, 1, 1, TESTS_OF_1, [Some(2)]);
    assert Tokens([Some(2)]) == [2];
    assert t.db.cases[1] == [Case(2, false)];
    assert t.jobs == Jobs(None, 0);
  }

  lemma Deliveries(s: State)
    requires s == State(FRESH, SUBMITS, Jobs(None, 0), map[], 3)
    ensures CalledBack(CalledBack(CalledBack(s, 0), 1), 2) == Race(FRESH, Received, Received, Received)
  {
  }

  lemma Start()
    ensures Reachable(Race(FRESH, Received, Received, Received))
  {
    var s := Init(CONTESTS, 3);
    ReachInit(CONTESTS, 3);
    SubmitReaches(s, 0, 0, TESTS_OF_0, [Some(0), Some(1)]);
    FirstSubmission();
    s := Submitted(s, 0, 0, TESTS_OF_0, [Some(0), Some(1)]);
    SubmitReaches(s, 1, 1, TESTS_OF_1, [Some(2)]);
    SecondSubmission(s);
    s := State(FRESH, SUBMITS, Jobs(None, 0), map[], 3);
    Deliveries(s);
    CallbackReaches(s, 0);
    CallbackReaches(CalledBack(s, 0), 1);
    CallbackReaches(CalledBack(CalledBack(s, 0), 1), 2);
  }

  /***** the race *****/

  lemma Moved0(db: Db, p0: Phase, p1: Phase, p2: Phase, db': Db, p: Phase)
    ensures WithPhase(Race(db, p0, p1, p2), 0, db', p) == Race(db', p, p1, p2)
  {
    var hs := Race(db, p0, p1, p2).handlers;
    assert hs[0 := Hd(0, p)] == Race(db', p, p1, p2).handlers;
  }

  lemma Moved1(db: Db, p0: Phase, p1: Phase, p2: Phase, db': Db, p: Phase)
    ensures WithPhase(Race(db, p0, p1, p2), 1, db', p) == Race(db', p0, p, p2)
  {
  }

  lemma Moved2(db: Db, p0: Phase, p1: Phase, p2: Phase, db': Db, p: Phase)
    ensures WithPhase(Race(db, p0, p1, p2), 2, db', p) == Race(db', p0, p1, p)
  {
  }

  /** What handler 0 sees after its own update, and what is there once handler 1 has updated as well. */
  const STALE := [Case(0, true), Case(1, false)]
  const CURRENT := [Case(0, true), Case(1, true)]

  lemma GradedCases()
    ensures PayloadVerdict(ACCEPTED) == AC
    ensures !AllDone(STALE) && Passed(STALE) == 1
    ensures AllDone(CURRENT) && Passed(CURRENT) == 2 && CombineVerdicts(Verdicts(CURRENT)) == AC
    ensures Runtimes(CURRENT) == [1, 1] == Memories(CURRENT)
    ensures var one := [Case(2, true)];
            AllDone(one) && Passed(one) == 1 && CombineVerdicts(Verdicts(one)) == AC
              && Runtimes(one) == [1] == Memories(one)
  {
    assert Verdicts(STALE) == [AC, PENDING] && Verdicts(CURRENT) == [AC, AC];
    assert STALE[1].status == PENDING;
    assert Verdicts([Case(2, true)]) == [AC];
    CombineIsTheWorst([AC, AC], AC);
    assert AcCount([AC]) == 1 && AcCount([PENDING]) == 0 by {
      assert [AC][1..] == [] && [PENDING][1..] == [];
    }
    assert [AC, AC][1..] == [AC] && [AC, PENDING][1..] == [PENDING];
  }

  lemma Update0(row0: SubmissionRow, row1: SubmissionRow)
    ensures var db := Tables(false, false, false, row0, row1, None);
            DbFind(db, 0, 0) == Some(0)
              && DbUpdateCase(db, 0, 0, ACCEPTED) == Tables(true, false, false, row0, row1, None)
  {
    assert [Case(0, false), Case(1, false)][0 := Case(0, true)] == [Case(0, true), Case(1, false)];
  }

  lemma Update1(row0: SubmissionRow, row1: SubmissionRow)
    ensures var db := Tables(true, false, false, row0, row1, None);
            DbFind(db, 0, 1) == Some(1)
              && DbUpdateCase(db, 0, 1, ACCEPTED) == Tables(true, true, false, row0, row1, None)
  {
    var db := Tables(true, false, false, row0, row1, None);
    assert db.cases[0][1..] == [Case(1, false)];
    assert [Case(0, true), Case(1, false)][1 := Case(1, true)] == [Case(0, true), Case(1, true)];
  }

  lemma Update2(row0: SubmissionRow, row1: SubmissionRow)
    ensures var db := Tables(true, true, false, row0, row1, None);
            DbFind(db, 1, 2) == Some(0)
              && DbUpdateCase(db, 1, 0, ACCEPTED) == Tables(true, true, true, row0, row1, None)
  {
    assert [Case(2, false)][0 := Case(2, true)] == [Case(2, true)];
  }

  lemma Writes()
    ensures Recompute(Row0(RUNNING, 0), CURRENT, 6) == Row0(AC, 2)
    ensures Recompute(Row1(RUNNING, 0), [Case(2, true)], 6) == Row1(AC, 1)
    ensures Recompute(Row0(AC, 2), STALE, 6) == Row0(AC, 1)
  {
    GradedCases();
  }

  const AFTER_FIRST := Tables(true, true, false, Row0(AC, 2), Row1(RUNNING, 0), None)
  const AFTER_BOTH := Tables(true, true, true, Row0(AC, 2), Row1(AC, 1), None)

  /** Handler 0 updates its case, then reads the rows too early. */
  lemma EarlySnapshot()
    ensures Reachable(Race(Tables(true, false, false, Row0(RUNNING, 0), Row1(RUNNING, 0), None), Snapped(STALE),
                           Received, Received))
  {
    var s := Race(FRESH, Received, Received, Received);
    Start();
    Update0(Row0(RUNNING, 0), Row1(RUNNING, 0));
    var steps, t := Backend.UpToUpdate(s, 0, 0);
    ReachRun(s, steps, t);
    var db := Tables(true, false, false, Row0(RUNNING, 0), Row1(RUNNING, 0), None);
    Moved0(FRESH, Received, Received, Received, db, Updated);
    Moved0(db, Updated, Received, Received, db, Snapped(STALE));
    ReachStep(t, Snapshot(0, STALE));
  }

  lemma Write1()
    ensures DbWrite(Tables(true, true, false, Row0(RUNNING, 0), Row1(RUNNING, 0), None), 0, CURRENT, 6) == AFTER_FIRST
    ensures AfterWrite(AFTER_FIRST.submissions[0], CURRENT) == Scoring(0, 0)
  {
    Writes();
    GradedCases();
  }

  lemma FirstFinished()
    ensures Reachable(Race(AFTER_FIRST, Snapped(STALE), Scoring(0, 0), Received))
  {
    var before := Tables(true, false, false, Row0(RUNNING, 0), Row1(RUNNING, 0), None);
    var s := Race(before, Snapped(STALE), Received, Received);
    EarlySnapshot();
    Update1(Row0(RUNNING, 0), Row1(RUNNING, 0));
    Write1();
    var steps, t := Backend.UpToWrite(s, 1, 1, CURRENT, 6);
    ReachRun(s, steps, t);
    Moved1(before, Snapped(STALE), Received, Received, AFTER_FIRST, Scoring(0, 0));
  }

  lemma SolvedFirst()
    ensures IsDistinctQuery(AFTER_FIRST, 0, 0, [Row0(AC, 2)])
  {
    assert AFTER_FIRST.submissions[0] == Row0(AC, 2);
    assert Accepted(CONTESTS, 0, 0, Row0(AC, 2));
    assert Row0(AC, 2) in AFTER_FIRST.submissions.Values;
    assert ProblemSet([Row0(AC, 2)]) == {0};
    assert 0 in Solved(AFTER_FIRST, 0, 0);
  }

  /** Handler 1 finishes submission 0 and reads the accepted submissions too early. */
  lemma EarlyRead()
    ensures Reachable(Race(AFTER_FIRST, Snapped(STALE), Summing(0, 0, [Row0(AC, 2)]), Received))
  {
    FirstFinished();
    var s := Race(AFTER_FIRST, Snapped(STALE), Scoring(0, 0), Received);
    Moved1(AFTER_FIRST, Snapped(STALE), Scoring(0, 0), Received, AFTER_FIRST, Summing(0, 0, [Row0(AC, 2)]));
    SolvedFirst();
    ReachStep(s, Read(1, [Row0(AC, 2)]));
  }

  lemma Write2()
    ensures DbWrite(Tables(true, true, true, Row0(AC, 2), Row1(RUNNING, 0), None), 1, [Case(2, true)], 6) == AFTER_BOTH
    ensures AfterWrite(AFTER_BOTH.submissions[1], [Case(2, true)]) == Scoring(0, 0)
  {
    Writes();
    GradedCases();
  }

  /** Handler 2 accepts submission 1 and scores both problems. */
  lemma SecondFinished()
    ensures Reachable(Race(AFTER_BOTH, Snapped(STALE), Summing(0, 0, [Row0(AC, 2)]), Scoring(0, 0)))
  {
    var p1 := Summing(0, 0, [Row0(AC, 2)]);
    var s := Race(AFTER_FIRST, Snapped(STALE), p1, Received);
    EarlyRead();
    Update2(Row0(AC, 2), Row1(RUNNING, 0));
    Write2();
    var steps, t := Backend.UpToWrite(s, 2, 0, [Case(2, true)], 6);
    ReachRun(s, steps, t);
    Moved2(AFTER_FIRST, Snapped(STALE), p1, Received, AFTER_BOTH, Scoring(0, 0));
  }

  const BOTH_ROWS := [Row0(AC, 2), Row1(AC, 1)]

  lemma SolvedBoth(score: Option<int>, passed: nat)
    ensures var db := Tables(true, true, true, Row0(AC, passed), Row1(AC, 1), score); Solved(db, 0, 0) == {0, 1}
    ensures IsDistinctQuery(AFTER_BOTH, 0, 0, BOTH_ROWS)
  {
    var db := Tables(true, true, true, Row0(AC, passed), Row1(AC, 1), score);
    assert db.submissions[0] == Row0(AC, passed) && db.submissions[1] == Row1(AC, 1);
    assert 0 in Solved(db, 0, 0) && 1 in Solved(db, 0, 0);
    assert AFTER_BOTH.submissions[0] == Row0(AC, 2) && AFTER_BOTH.submissions[1] == Row1(AC, 1);
    assert 0 in Solved(AFTER_BOTH, 0, 0) && 1 in Solved(AFTER_BOTH, 0, 0);
    assert ProblemSet(BOTH_ROWS) == {0, 1};
  }

  lemma Sums()
    ensures Score(BOTH_ROWS, PointsMap(CONTESTS[0].problems)) == 200
    ensures Score([Row0(AC, 2)], PointsMap(CONTESTS[0].problems)) == 100
    ensures PointsOf(CONTESTS[0].problems, {0, 1}) == 200
  {
    var rows, problems := BOTH_ROWS, CONTESTS[0].problems;
    assert ProblemSet(rows) == {0, 1};
    ScoreIsPoints(rows, problems);
    assert Score(rows, PointsMap(problems)) == PointsOf(problems, {0, 1});
  }

  lemma Upserts()
    ensures DbUpsertScore(AFTER_BOTH, 0, 0, BOTH_ROWS, 6)
            == Tables(true, true, true, Row0(AC, 2), Row1(AC, 1), Some(200))
    ensures DbUpsertScore(Tables(true, true, true, Row0(AC, 2), Row1(AC, 1), Some(200)), 0, 0, [Row0(AC, 2)], 6)
         == Tables(true, true, true, Row0(AC, 2), Row1(AC, 1), Some(100))
  {
    Sums();
    assert Latest(BOTH_ROWS, 6) == Some(6) by {
      assert BOTH_ROWS[..1] == [Row0(AC, 2)];
    }
  }

  lemma FullScore()
    ensures Reachable(Race(Tables(true, true, true, Row0(AC, 2), Row1(AC, 1), Some(200)),
                           Snapped(STALE), Summing(0, 0, [Row0(AC, 2)]), Done(204)))
  {
    SecondFinished();
    SolvedBoth(None, 2);
    Upserts();
    var p1 := Summing(0, 0, [Row0(AC, 2)]);
    var p2 := Summing(0, 0, BOTH_ROWS);
    Moved2(AFTER_BOTH, Snapped(STALE), p1, Scoring(0, 0), AFTER_BOTH, p2);
    Moved2(AFTER_BOTH, Snapped(STALE), p1, p2, Tables(true, true, true, Row0(AC, 2), Row1(AC, 1), Some(200)),
           Done(204));
    ReachStep(Race(AFTER_BOTH, Snapped(STALE), p1, Scoring(0, 0)), Read(2, BOTH_ROWS));
    ReachStep(Race(AFTER_BOTH, Snapped(STALE), p1, p2), Upsert(2, 6));
  }

  /** Handler 2 stores the full score; then handler 1 puts its older one in its place. */
  lemma StaleScore()
    ensures Reachable(Race(Tables(true, true, true, Row0(AC, 2), Row1(AC, 1), Some(100)), Snapped(STALE), Done(204),
                           Done(204)))
  {
    FullScore();
    Upserts();
    var full := Tables(true, true, true, Row0(AC, 2), Row1(AC, 1), Some(200));
    var p1 := Summing(0, 0, [Row0(AC, 2)]);
    Moved1(full, Snapped(STALE), p1, Done(204), Tables(true, true, true, Row0(AC, 2), Row1(AC, 1), Some(100)),
           Done(204));
    ReachStep(Race(full, Snapped(STALE), p1, Done(204)), Upsert(1, 6));
  }

  const FINAL := Tables(true, true, true, Row0(AC, 1), Row1(AC, 1), Some(100))

  lemma Write0()
    ensures DbWrite(Tables(true, true, true, Row0(AC, 2), Row1(AC, 1), Some(100)), 0, STALE, 6) == FINAL
    ensures AfterWrite(FINAL.submissions[0], STALE) == Done(204)
  {
    Writes();
    GradedCases();
  }

  lemma StaleWrite()
    ensures Reachable(Race(FINAL, Done(204), Done(204), Done(204)))
  {
    StaleScore();
    var db := Tables(true, true, true, Row0(AC, 2), Row1(AC, 1), Some(100));
    Write0();
    Moved0(db, Snapped(STALE), Done(204), Done(204), FINAL, Done(204));
    ReachStep(Race(db, Snapped(STALE), Done(204), Done(204)), Write(0, 6));
  }

  lemma JobsAnswered()
    ensures var jobs := Answered(Answered(Answered(Jobs(Some(ACCEPTED), 1), 0), 1), 2);
            && jobs.Keys == {0, 1, 2}
            && forall i: Id :: i in jobs ==> jobs[i] == Job(Target(i), Some(ACCEPTED), 1, true)
  {
  }

  lemma Answer(s: State, h: Id) returns (t: State)
    requires Reachable(s) && h in s.handlers && s.handlers[h].phase.Done? && s.handlers[h].token == h && h in s.jobs
    ensures Reachable(t) && t == s.(jobs := Answered(s.jobs, h))
  {
    t := Take(s, Respond(h));
  }

  /** Every delivery is answered. */
  lemma AllAnswered() returns (s: State)
    ensures Reachable(s) && s.db == FINAL && s.handlers == Race(FINAL, Done(204), Done(204), Done(204)).handlers
    ensures s.submits == SUBMITS && s.jobs.Keys == {0, 1, 2}
    ensures forall i: Id :: i in s.jobs ==> s.jobs[i] == Job(Target(i), Some(ACCEPTED), 1, true)
  {
    StaleWrite();
    s := Race(FINAL, Done(204), Done(204), Done(204));
    s := Answer(s, 0);
    s := Answer(s, 1);
    s := Answer(s, 2);
    JobsAnswered();
  }

  function Answered(jobs: map<Id, Job>, i: Id): map<Id, Job>
    requires i in jobs
  {
    jobs[i := jobs[i].(answered := true)]
  }

  lemma NothingUnderWay(s: State, k: Id)
    requires s.db == FINAL && s.handlers == Race(FINAL, Done(204), Done(204), Done(204)).handlers
             && s.submits == SUBMITS
    requires forall i: Id :: i in s.jobs ==> s.jobs[i] == Job(Target(i), Some(ACCEPTED), 1, true)
    requires k == 0 || k == 1
    ensures Theorems.Exhausted(s, k)
  {
    assert Theorems.HandlersDone(s, k);
    assert s.submits[k].phase == Committed;
  }

  lemma FinalTables()
    ensures FINAL.submissions[0] == Row0(AC, 1) && FINAL.submissions[1] == Row1(AC, 1)
    ensures Passed(FINAL.cases[0]) == 2
    ensures FINAL.participants[(0, 0)].score == 100 && TrueScore(FINAL, 0, 0) == 200
  {
    GradedCases();
    SolvedBoth(Some(100), 1);
    Sums();
  }

  lemma CountStays(s: State)
    requires Reachable(s) && Theorems.Exhausted(s, 0) && s.db.submissions[0].passedCount == 1
    ensures forall steps: seq<Step>, t: State :: Run(s, steps, t) ==>
            0 in t.db.submissions && t.db.submissions[0].passedCount == 1
  {
    ReachableInv(s);
    forall steps: seq<Step>, t: State | Run(s, steps, t)
      ensures 0 in t.db.submissions && t.db.submissions[0].passedCount == 1
    {
      Theorems.ExhaustedForever(s, steps, t, 0);
    }
  }

  /**
   Two submissions of one user are accepted, every callback was delivered and answered, nothing is under way; yet
   the first shows 1 of 2 cases passed, for good, and the contest score lacks the points of the second.
   */
  lemma StaleWritesLandLast() returns (s: State)
    ensures Reachable(s) && Theorems.Exhausted(s, 0) && Theorems.Exhausted(s, 1)
    ensures s.db.submissions[0].status == s.db.submissions[1].status == AC
    ensures 0 in s.db.cases && Passed(s.db.cases[0]) == s.db.submissions[0].totalCount == 2
    ensures forall steps: seq<Step>, t: State :: Run(s, steps, t) ==>
            0 in t.db.submissions && t.db.submissions[0].passedCount == 1
    ensures 0 in s.db.contests && (0, 0) in s.db.participants
    ensures s.db.participants[(0, 0)].score == 100 && TrueScore(s.db, 0, 0) == 200
  {
    s := AllAnswered();
    FinalTables();
    NothingUnderWay(s, 0);
    NothingUnderWay(s, 1);
    CountStays(s);
  }
}
