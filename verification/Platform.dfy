/** The platform's tables and the single database steps of its handlers (internal.ts, problems.ts, contests.ts). */
module Platform {
  import opened Wrappers
  import opened Grader
  import opened Judge0Batch

  type Time = int

  /** What a callback body says; times are whole milliseconds, memory is in kilobytes. */
  datatype Payload = Payload(statusId: Option<int>, runtimeMs: Option<int>, memoryKb: Option<int>)

  datatype CaseRow = CaseRow(testCase: Id, token: Id, status: Verdict,
                             runtimeMs: Option<int>, memoryKb: Option<int>)

  datatype SubmissionRow = SubmissionRow(user: Id, problem: Id, contest: Option<Id>, createdAt: Time,
                                         status: Verdict, passedCount: nat, totalCount: nat,
                                         runtimeMs: Option<int>, memoryKb: Option<int>,
                                         finishedAt: Option<Time>, tokens: seq<Id>)

  datatype ContestProblem = ContestProblem(problem: Id, points: int)
  datatype Contest = Contest(startsAt: Time, endsAt: Time, problems: seq<ContestProblem>)
  datatype Participant = Participant(score: int, lastSubmissionAt: Option<Time>)

  /** The case rows are grouped by submission; a submission without an entry has no rows. */
  datatype Db = Db(submissions: map<Id, SubmissionRow>, cases: map<Id, seq<CaseRow>>,
                   contests: map<Id, Contest>, participants: map<(Id, Id), Participant>)

  /***** case rows *****/

  function PayloadVerdict(p: Payload): (v: Verdict)
    ensures v != PENDING
  {
    Judge0StatusToVerdict(p.statusId.GetOr(13))
  }

  function Blank(testCase: Id, token: Id): CaseRow {
    CaseRow(testCase, token, PENDING, None, None)
  }

  function Graded(testCase: Id, token: Id, p: Payload): CaseRow {
    CaseRow(testCase, token, PayloadVerdict(p), p.runtimeMs, p.memoryKb)
  }

  function Verdicts(rows: seq<CaseRow>): (vs: seq<Verdict>)
    ensures |vs| == |rows| && forall i :: 0 <= i < |rows| ==> vs[i] == rows[i].status
  {
    seq(|rows|, i requires 0 <= i < |rows| => rows[i].status)
  }

  predicate AllDone(rows: seq<CaseRow>) {
    forall i :: 0 <= i < |rows| ==> IsFinal(rows[i].status)
  }

  function Passed(rows: seq<CaseRow>): nat {
    AcCount(Verdicts(rows))
  }

  /** `findFirst` on the test case: the index of the first matching row. */
  function FindCase(rows: seq<CaseRow>, testCase: Id): (r: Option<nat>)
    ensures r.Some? ==> r.value < |rows| && rows[r.value].testCase == testCase
    ensures r.None? ==> forall i :: 0 <= i < |rows| ==> rows[i].testCase != testCase
  {
    if rows == [] then None
    else if rows[0].testCase == testCase then Some(0)
    else match FindCase(rows[1..], testCase)
      case None =>
        assert forall i :: 0 < i < |rows| ==> rows[i] == rows[1..][i - 1];
        None
      case Some(i) => Some(i + 1)
  }

  /** `Math.max`; the source calls it on non-empty lists only. */
  function Max(xs: seq<int>): (m: int)
    requires xs != []
    ensures m in xs && forall x :: x in xs ==> x <= m
  {
    if |xs| == 1 then xs[0]
    else
      var rest := Max(xs[1..]);
      assert xs == [xs[0]] + xs[1..];
      if xs[0] >= rest then xs[0] else rest
  }

  /** `n || null` */
  function OrNull(n: int): Option<int> {
    if n == 0 then None else Some(n)
  }

  function Runtimes(rows: seq<CaseRow>): (xs: seq<int>)
    ensures |xs| == |rows|
  {
    seq(|rows|, i requires 0 <= i < |rows| => rows[i].runtimeMs.GetOr(0))
  }

  function Memories(rows: seq<CaseRow>): (xs: seq<int>)
    ensures |xs| == |rows|
  {
    seq(|rows|, i requires 0 <= i < |rows| => rows[i].memoryKb.GetOr(0))
  }

  /** No row is PENDING or RUNNING. */
  ghost predicate AllFinal(rows: seq<CaseRow>) {
    forall r :: r in rows ==> r.status != PENDING && r.status != RUNNING
  }

  lemma AllFinalIsAllDone(order: seq<CaseRow>, rows: seq<CaseRow>)
    requires multiset(order) == multiset(rows)
    ensures AllDone(order) <==> AllFinal(rows)
  {
    assert forall r :: r in rows <==> r in multiset(rows);
    assert forall r :: r in order <==> r in multiset(order);
  }

  /**
   `stored` is the largest run time of the rows: null when that is 0, a missing one counting as 0; otherwise one that
   some row has and no row exceeds.
   */
  ghost predicate LargestRuntime(stored: Option<int>, rows: seq<CaseRow>) {
    match stored
    case None =>
      && (exists r :: r in rows && r.runtimeMs in {None, Some(0)})
      && forall r :: r in rows && r.runtimeMs.Some? ==> r.runtimeMs.value <= 0
    case Some(m) =>
      && m != 0 && (exists r :: r in rows && r.runtimeMs == Some(m))
      && forall r :: r in rows ==> if r.runtimeMs.Some? then r.runtimeMs.value <= m else 0 <= m
  }

  /** The same of the memory. */
  ghost predicate LargestMemory(stored: Option<int>, rows: seq<CaseRow>) {
    match stored
    case None =>
      && (exists r :: r in rows && r.memoryKb in {None, Some(0)})
      && forall r :: r in rows && r.memoryKb.Some? ==> r.memoryKb.value <= 0
    case Some(m) =>
      && m != 0 && (exists r :: r in rows && r.memoryKb == Some(m))
      && forall r :: r in rows ==> if r.memoryKb.Some? then r.memoryKb.value <= m else 0 <= m
  }

  lemma RuntimeIsLargest(rows: seq<CaseRow>)
    requires rows != []
    ensures LargestRuntime(OrNull(Max(Runtimes(rows))), rows)
  {
    var xs := Runtimes(rows);
    assert forall i :: 0 <= i < |rows| ==> xs[i] in xs && xs[i] == rows[i].runtimeMs.GetOr(0);
    var i :| 0 <= i < |rows| && xs[i] == Max(xs);
    assert rows[i] in rows;
  }

  lemma MemoryIsLargest(rows: seq<CaseRow>)
    requires rows != []
    ensures LargestMemory(OrNull(Max(Memories(rows))), rows)
  {
    var xs := Memories(rows);
    assert forall i :: 0 <= i < |rows| ==> xs[i] in xs && xs[i] == rows[i].memoryKb.GetOr(0);
    var i :| 0 <= i < |rows| && xs[i] == Max(xs);
    assert rows[i] in rows;
  }

  /** The passed count is the number of rows with status AC. */
  lemma PassedIsCount(rows: seq<CaseRow>)
    ensures Passed(rows) == |set i | 0 <= i < |rows| && rows[i].status == AC|
  {
    AcCountIsCount(Verdicts(rows));
    assert (set i | 0 <= i < |rows| && rows[i].status == AC)
        == set i | 0 <= i < |Verdicts(rows)| && Verdicts(rows)[i] == AC;
  }

  /** The submission update computed from one snapshot of the case rows. */
  function Recompute(row: SubmissionRow, snapshot: seq<CaseRow>, now: Time): SubmissionRow
    requires snapshot != []
  {
    if AllDone(snapshot) then
      row.(status := CombineVerdicts(Verdicts(snapshot)), passedCount := Passed(snapshot),
      runtimeMs := OrNull(Max(Runtimes(snapshot))), memoryKb := OrNull(Max(Memories(snapshot))),
      finishedAt := Some(now))
    else
      row.(passedCount := Passed(snapshot))
  }

  /** The four result columns of a submission. */
  predicate SameResult(a: SubmissionRow, b: SubmissionRow) {
    a.status == b.status && a.passedCount == b.passedCount && a.runtimeMs == b.runtimeMs && a.memoryKb == b.memoryKb
  }

  lemma {:induction false} MultisetOfMap<T>(a: seq<CaseRow>, b: seq<T>, f: CaseRow -> T, y: T)
    requires |a| == |b| && forall i :: 0 <= i < |a| ==> b[i] == f(a[i])
    ensures y in b <==> exists r :: r in multiset(a) && f(r) == y
  {
    if y in b {
      var i :| 0 <= i < |b| && b[i] == y;
      assert a[i] in multiset(a) && f(a[i]) == y;
    }
    if r :| r in multiset(a) && f(r) == y {
      assert r in a;
    }
  }

  lemma {:induction false} AcCountConcat(a: seq<Verdict>, b: seq<Verdict>)
    ensures AcCount(a + b) == AcCount(a) + AcCount(b)
  {
    if a == [] {
      assert a + b == b;
    } else {
      AcCountConcat(a[1..], b);
      assert (a + b)[1..] == a[1..] + b;
    }
  }

  function Without(rows: seq<CaseRow>, j: nat): seq<CaseRow>
    requires j < |rows|
  {
    rows[..j] + rows[j + 1..]
  }

  lemma PassedWithout(rows: seq<CaseRow>, j: nat)
    requires j < |rows|
    ensures Passed(rows) == Passed(Without(rows, j)) + if rows[j].status == AC then 1 else 0
    ensures multiset(Without(rows, j)) == multiset(rows) - multiset{rows[j]}
  {
    var front, back := Verdicts(rows[..j]), Verdicts(rows[j + 1..]);
    assert Verdicts(rows) == front + ([rows[j].status] + back);
    assert Verdicts(Without(rows, j)) == front + back;
    AcCountConcat(front, [rows[j].status] + back);
    AcCountConcat(front, back);
    assert ([rows[j].status] + back)[1..] == back;
    assert rows == rows[..j] + [rows[j]] + rows[j + 1..];
  }

  lemma {:induction false} PassedMultiset(a: seq<CaseRow>, b: seq<CaseRow>)
    requires multiset(a) == multiset(b)
    ensures Passed(a) == Passed(b)
    decreases |a|
  {
    if a == [] {
      assert |multiset(b)| == |multiset(a)| == 0;
    } else {
      assert a[0] in multiset(b);
      var j :| 0 <= j < |b| && b[j] == a[0];
      PassedWithout(a, 0);
      PassedWithout(b, j);
      PassedMultiset(Without(a, 0), Without(b, j));
    }
  }

  lemma VerdictOrderFree(a: seq<CaseRow>, b: seq<CaseRow>)
    requires multiset(a) == multiset(b)
    ensures CombineVerdicts(Verdicts(a)) == CombineVerdicts(Verdicts(b)) && (AllDone(a) <==> AllDone(b))
  {
    forall v
      ensures v in Verdicts(a) <==> v in Verdicts(b)
    {
      MultisetOfMap(a, Verdicts(a), (r: CaseRow) => r.status, v);
      MultisetOfMap(b, Verdicts(b), (r: CaseRow) => r.status, v);
    }
    CombineByMembership(Verdicts(a));
    CombineByMembership(Verdicts(b));
    assert |a| == |multiset(a)| == |b|;
    AllFinalIsAllDone(a, b);
    AllFinalIsAllDone(b, b);
  }

  lemma MaximaOrderFree(a: seq<CaseRow>, b: seq<CaseRow>)
    requires multiset(a) == multiset(b) && a != [] && b != []
    ensures Max(Runtimes(a)) == Max(Runtimes(b)) && Max(Memories(a)) == Max(Memories(b))
  {
    forall x: int
      ensures x in Runtimes(a) <==> x in Runtimes(b)
      ensures x in Memories(a) <==> x in Memories(b)
    {
      MultisetOfMap(a, Runtimes(a), (r: CaseRow) => r.runtimeMs.GetOr(0), x);
      MultisetOfMap(b, Runtimes(b), (r: CaseRow) => r.runtimeMs.GetOr(0), x);
      MultisetOfMap(a, Memories(a), (r: CaseRow) => r.memoryKb.GetOr(0), x);
      MultisetOfMap(b, Memories(b), (r: CaseRow) => r.memoryKb.GetOr(0), x);
    }
  }

  /** Grading does not depend on the order in which the query returns the rows. */
  lemma RecomputeOrderFree(row: SubmissionRow, a: seq<CaseRow>, b: seq<CaseRow>, now: Time)
    requires multiset(a) == multiset(b) && a != []
    ensures b != [] && Recompute(row, a, now) == Recompute(row, b, now)
  {
    assert a[0] in multiset(b);
    PassedMultiset(a, b);
    VerdictOrderFree(a, b);
    MaximaOrderFree(a, b);
  }

  /***** contest scores *****/

  /** The filter of the accepted-submissions query. */
  predicate Accepted(contests: map<Id, Contest>, c: Id, u: Id, row: SubmissionRow) {
    c in contests && row.contest == Some(c) && row.user == u && row.status == AC
    && contests[c].startsAt <= row.createdAt <= contests[c].endsAt
  }

  /** The problems a user has solved in a contest window. */
  function Solved(db: Db, c: Id, u: Id): set<Id> {
    set k | k in db.submissions && Accepted(db.contests, c, u, db.submissions[k]) :: db.submissions[k].problem
  }

  function ProblemSet(rows: seq<SubmissionRow>): set<Id> {
    set r | r in rows :: r.problem
  }

  /** The filter spelled out: owner, contest, status, and the window with both ends. */
  lemma SolvedByValue(db: Db, c: Id, u: Id)
    requires c in db.contests
    ensures Solved(db, c, u) ==
            set k | k in db.submissions && db.submissions[k].user == u && db.submissions[k].contest == Some(c)
                    && db.submissions[k].status == AC
                    && db.submissions[k].createdAt >= db.contests[c].startsAt
                    && db.submissions[k].createdAt <= db.contests[c].endsAt :: db.submissions[k].problem
  {
  }

  predicate DistinctProblems(rows: seq<SubmissionRow>) {
    forall i, j :: 0 <= i < j < |rows| ==> rows[i].problem != rows[j].problem
  }

  /** A possible result of the `distinct` query: one accepted row, any one, for every solved problem. */
  predicate IsDistinctQuery(db: Db, c: Id, u: Id, rows: seq<SubmissionRow>) {
    && DistinctProblems(rows)
    && (forall r :: r in rows ==> r in db.submissions.Values && Accepted(db.contests, c, u, r))
    && ProblemSet(rows) == Solved(db, c, u)
  }

  /** `new Map(problems.map(p => [p.problemId, p.points]))` */
  function PointsMap(problems: seq<ContestProblem>): map<Id, int> {
    if problems == [] then map[]
    else PointsMap(problems[..|problems| - 1])[problems[|problems| - 1].problem := problems[|problems| - 1].points]
  }

  /** The reduce over the accepted rows. */
  function Score(rows: seq<SubmissionRow>, points: map<Id, int>): int {
    if rows == [] then 0
    else
      var r := rows[|rows| - 1];
      Score(rows[..|rows| - 1], points) + if r.problem in points then points[r.problem] else 0
  }

  /** The latest finish time among the rows; a missing one counts as the current time. */
  function Latest(rows: seq<SubmissionRow>, now: Time): Option<Time> {
    if rows == [] then None
    else
      var d := rows[|rows| - 1].finishedAt.GetOr(now);
      match Latest(rows[..|rows| - 1], now)
      case None => Some(d)
      case Some(m) => Some(if d > m then d else m)
  }

  /** It is the maximum of the finish times. */
  lemma {:induction false} LatestIsMax(rows: seq<SubmissionRow>, now: Time)
    ensures Latest(rows, now).None? <==> rows == []
    ensures rows != [] ==> (exists r :: r in rows && r.finishedAt.GetOr(now) == Latest(rows, now).value)
                           && forall r :: r in rows ==> r.finishedAt.GetOr(now) <= Latest(rows, now).value
  {
    if rows != [] {
      var n := |rows| - 1;
      LatestIsMax(rows[..n], now);
      assert forall r :: r in rows <==> r in rows[..n] || r == rows[n];
      assert rows[n] in rows;
    }
  }

  predicate DistinctIds(problems: seq<ContestProblem>) {
    forall i, j :: 0 <= i < j < |problems| ==> problems[i].problem != problems[j].problem
  }

  /** The points of the contest problems that lie in a set. */
  function PointsOf(problems: seq<ContestProblem>, solved: set<Id>): int {
    if problems == [] then 0
    else
      var p := problems[|problems| - 1];
      PointsOf(problems[..|problems| - 1], solved) + if p.problem in solved then p.points else 0
  }

  function TrueScore(db: Db, c: Id, u: Id): int
    requires c in db.contests
  {
    PointsOf(db.contests[c].problems, Solved(db, c, u))
  }

  /** The score is the sum of the points of the problems solved in the window, its ends included. */
  ghost predicate HasPointsOfWindow(db: Db, c: Id, u: Id) {
    && (c, u) in db.participants && c in db.contests
    && db.participants[(c, u)].score == PointsOf(
         db.contests[c].problems,
         set k | k in db.submissions && db.submissions[k].user == u && db.submissions[k].contest == Some(c)
                 && db.submissions[k].status == AC
                 && db.submissions[k].createdAt >= db.contests[c].startsAt
                 && db.submissions[k].createdAt <= db.contests[c].endsAt :: db.submissions[k].problem)
  }

  lemma {:induction false} PointsMapKeys(problems: seq<ContestProblem>, id: Id)
    ensures id in PointsMap(problems) <==> exists p :: p in problems && p.problem == id
  {
    if problems != [] {
      var n := |problems| - 1;
      assert problems == problems[..n] + [problems[n]];
      PointsMapKeys(problems[..n], id);
    }
  }

  lemma {:induction false} PointsOfAdd(problems: seq<ContestProblem>, solved: set<Id>, id: Id)
    requires DistinctIds(problems) && id !in solved
    ensures PointsOf(problems, solved + {id}) ==
            PointsOf(problems, solved) + if id in PointsMap(problems) then PointsMap(problems)[id] else 0
  {
    if problems != [] {
      var n := |problems| - 1;
      PointsOfAdd(problems[..n], solved, id);
      PointsMapKeys(problems[..n], id);
      if problems[n].problem == id {
        assert forall p :: p in problems[..n] ==> p.problem != id;
      }
    }
  }

  lemma {:induction false} PointsOfNothing(problems: seq<ContestProblem>)
    ensures PointsOf(problems, {}) == 0
  {
    if problems != [] {
      PointsOfNothing(problems[..|problems| - 1]);
    }
  }

  /** The summed score is the points of the solved problems: it depends on the problems, not on the rows kept. */
  lemma {:induction false} ScoreIsPoints(rows: seq<SubmissionRow>, problems: seq<ContestProblem>)
    requires DistinctProblems(rows) && DistinctIds(problems)
    ensures Score(rows, PointsMap(problems)) == PointsOf(problems, ProblemSet(rows))
  {
    if rows == [] {
      PointsOfNothing(problems);
      assert ProblemSet(rows) == {};
    } else {
      var n := |rows| - 1;
      ScoreIsPoints(rows[..n], problems);
      assert rows == rows[..n] + [rows[n]];
      assert ProblemSet(rows) == ProblemSet(rows[..n]) + {rows[n].problem};
      PointsOfAdd(problems, ProblemSet(rows[..n]), rows[n].problem);
    }
  }

  lemma {:induction false} PointsOfConcat(a: seq<ContestProblem>, b: seq<ContestProblem>, solved: set<Id>)
    ensures PointsOf(a + b, solved) == PointsOf(a, solved) + PointsOf(b, solved)
  {
    if b == [] {
      assert a + b == a;
    } else {
      assert (a + b)[..|a + b| - 1] == a + b[..|b| - 1];
      PointsOfConcat(a, b[..|b| - 1], solved);
    }
  }

  /** The points of a list add up, a solved problem giving its own points and any other one none. */
  lemma PointsAddUp(problems: seq<ContestProblem>, i: nat, solved: set<Id>)
    requires i < |problems|
    ensures PointsOf(problems, solved) == PointsOf(problems[..i], solved)
            + (if problems[i].problem in solved then problems[i].points else 0) + PointsOf(problems[i + 1..], solved)
    ensures PointsOf([], solved) == 0
  {
    assert problems == problems[..i + 1] + problems[i + 1..] && problems[..i + 1][..i] == problems[..i];
    PointsOfConcat(problems[..i + 1], problems[i + 1..], solved);
  }

  /** What one more submission does to a score: inside the window an accepted one adds its problem, else nothing. */
  lemma ScoreAfterOneMore(db: Db, k: Id, row: SubmissionRow, c: Id, u: Id)
    requires k !in db.submissions && c in db.contests
    ensures var after := db.(submissions := db.submissions[k := row]);
            if row.user == u && row.contest == Some(c) && row.status == AC
               && row.createdAt >= db.contests[c].startsAt && row.createdAt <= db.contests[c].endsAt then
              TrueScore(after, c, u) == PointsOf(db.contests[c].problems, Solved(db, c, u) + {row.problem})
            else TrueScore(after, c, u) == TrueScore(db, c, u)
  {
    var after := db.(submissions := db.submissions[k := row]);
    assert after.submissions[k] == row;
    assert forall i :: i in db.submissions ==> i in after.submissions && after.submissions[i] == db.submissions[i];
    if Accepted(db.contests, c, u, row) {
      assert Solved(after, c, u) == Solved(db, c, u) + {row.problem};
    } else {
      assert Solved(after, c, u) == Solved(db, c, u);
    }
  }

  predicate NonNegativePoints(problems: seq<ContestProblem>) {
    forall p :: p in problems ==> p.points >= 0
  }

  lemma {:induction false} PointsOfMonotone(problems: seq<ContestProblem>, a: set<Id>, b: set<Id>)
    requires NonNegativePoints(problems) && a <= b
    ensures 0 <= PointsOf(problems, a) <= PointsOf(problems, b)
  {
    if problems != [] {
      var n := |problems| - 1;
      assert problems[n] in problems;
      PointsOfMonotone(problems[..n], a, b);
    }
  }

  /***** single database steps *****/

  function DbCreate(db: Db, sub: Id, user: Id, problem: Id, contest: Option<Id>, total: nat, now: Time): Db {
    var row := SubmissionRow(user, problem, contest, now, PENDING, 0, total, None, None, None, []);
    db.(submissions := db.submissions[sub := row])
  }

  function CaseRows(tests: seq<TestCase>, tokens: seq<Id>): (rows: seq<CaseRow>)
    requires |tests| == |tokens|
    ensures |rows| == |tests|
  {
    seq(|tests|, i requires 0 <= i < |tests| => Blank(tests[i].id, tokens[i]))
  }

  /** The transaction of the submit handler: RUNNING and all case rows together. */
  function DbCommit(db: Db, sub: Id, tests: seq<TestCase>, tokens: seq<Id>): Db
    requires sub in db.submissions && |tests| == |tokens|
  {
    db.(submissions := db.submissions[sub := db.submissions[sub].(status := RUNNING, tokens := tokens)],
    cases := db.cases[sub := CaseRows(tests, tokens)])
  }

  function DbFind(db: Db, sub: Id, testCase: Id): Option<nat> {
    if sub in db.cases then FindCase(db.cases[sub], testCase) else None
  }

  function DbUpdateCase(db: Db, sub: Id, i: nat, p: Payload): Db
    requires sub in db.cases && i < |db.cases[sub]|
  {
    var row := db.cases[sub][i];
    db.(cases := db.cases[sub := db.cases[sub][i := Graded(row.testCase, row.token, p)]])
  }

  function DbWrite(db: Db, sub: Id, snapshot: seq<CaseRow>, now: Time): Db
    requires sub in db.submissions && snapshot != []
  {
    db.(submissions := db.submissions[sub := Recompute(db.submissions[sub], snapshot, now)])
  }

  function DbUpsertScore(db: Db, c: Id, u: Id, rows: seq<SubmissionRow>, now: Time): Db
    requires c in db.contests
  {
    var score := Score(rows, PointsMap(db.contests[c].problems));
    db.(participants := db.participants[(c, u) := Participant(score, Latest(rows, now))])
  }

  function DbRegister(db: Db, c: Id, u: Id): Db {
    if (c, u) in db.participants then db
    else db.(participants := db.participants[(c, u) := Participant(0, None)])
  }
}
