/**
 The platform's handlers as the code runs them, one database call after another (internal.ts, problems.ts,
 contests.ts).
 */
module Backend {
  import opened Wrappers
  import Grader
  import opened Judge0Batch
  import opened Platform
  import opened Protocol

  /***** one callback handled without interruption *****/

  /** The tables after a callback; `order` and `rows` are what the two unordered queries returned. */
  function CallbackEffect(db: Db, cb: Callback, payload: Payload, order: seq<CaseRow>, rows: seq<SubmissionRow>,
                          now: Time): Db {
    match DbFind(db, cb.sub, cb.testCase)
    case None => db
    case Some(i) =>
      var updated := DbUpdateCase(db, cb.sub, i, payload);
      if cb.sub !in db.submissions || order == [] then updated
      else
        var written := DbWrite(updated, cb.sub, order, now);
        match AfterWrite(written.submissions[cb.sub], order)
        case Scoring(c, u) => if c in db.contests then DbUpsertScore(written, c, u, rows, now) else written
        case _ => written
  }

  /** What the two queries may return. */
  ghost predicate QueryResults(db: Db, cb: Callback, payload: Payload, order: seq<CaseRow>, rows: seq<SubmissionRow>,
                               now: Time) {
    match DbFind(db, cb.sub, cb.testCase)
    case None => true
    case Some(i) =>
      var updated := DbUpdateCase(db, cb.sub, i, payload);
      multiset(order) == multiset(updated.cases[cb.sub])
      && (cb.sub in db.submissions && order != [] ==>
            var written := DbWrite(updated, cb.sub, order, now);
            match AfterWrite(written.submissions[cb.sub], order)
            case Scoring(c, u) => c in db.contests ==> IsDistinctQuery(written, c, u, rows)
            case _ => true)
  }

  /***** what a handled callback means for the tables *****/

  /** A row of the test case shows the mapped status and the measurements, under its old token; no other row changes. */
  ghost predicate CaseGraded(before: map<Id, seq<CaseRow>>, after: map<Id, seq<CaseRow>>, cb: Callback,
                             payload: Payload) {
    cb.sub in before
    && exists i :: 0 <= i < |before[cb.sub]| && before[cb.sub][i].testCase == cb.testCase
                   && after == before[cb.sub := before[cb.sub][i := CaseRow(
                     cb.testCase, before[cb.sub][i].token,
                     Grader.Judge0StatusToVerdict(if payload.statusId.Some? then payload.statusId.value else 13),
                     payload.runtimeMs, payload.memoryKb)]]
  }

  /** A submission row graded by its case rows: all result columns when each of them is final, else only the count. */
  ghost predicate RowGraded(was: SubmissionRow, row: SubmissionRow, rows: seq<CaseRow>, now: Time) {
    && row.passedCount == |set i | 0 <= i < |rows| && rows[i].status == Grader.AC|
    && if AllFinal(rows) then
         && LargestRuntime(row.runtimeMs, rows) && LargestMemory(row.memoryKb, rows)
         && row == was.(status := Grader.CombineVerdicts(Verdicts(rows)), passedCount := row.passedCount,
                        runtimeMs := row.runtimeMs, memoryKb := row.memoryKb, finishedAt := Some(now))
       else row == was.(passedCount := row.passedCount)
  }

  /** One submission is graded by its case rows, and no other one changes. */
  ghost predicate SubmissionGraded(before: map<Id, SubmissionRow>, after: map<Id, SubmissionRow>, k: Id,
                                   rows: seq<CaseRow>, now: Time) {
    && k in before && k in after && after == before[k := after[k]]
    && RowGraded(before[k], after[k], rows, now)
  }

  /**
   Every row is a stored submission of this user to this contest, accepted and created within the window, its ends
   included; every such submission has its problem among the rows; and no two rows have the same problem.
   */
  ghost predicate OnePerSolved(submissions: map<Id, SubmissionRow>, contest: Contest, c: Id, u: Id,
                               rows: seq<SubmissionRow>) {
    && (forall r :: r in rows ==>
          && (exists k :: k in submissions && submissions[k] == r)
          && r.user == u && r.contest == Some(c) && r.status == Grader.AC
          && r.createdAt >= contest.startsAt && r.createdAt <= contest.endsAt)
    && (forall k | k in submissions && submissions[k].user == u && submissions[k].contest == Some(c)
                   && submissions[k].status == Grader.AC && submissions[k].createdAt >= contest.startsAt
                   && submissions[k].createdAt <= contest.endsAt ::
          exists r :: r in rows && r.problem == submissions[k].problem)
    && (forall i, j :: 0 <= i < j < |rows| ==> rows[i].problem != rows[j].problem)
  }

  /** An accepted contest submission gives its user the points solved in the window; else no score changes. */
  ghost predicate Rescored(before: Db, after: Db, row: SubmissionRow, rows: seq<CaseRow>) {
    if AllFinal(rows) && row.status == Grader.AC && row.contest.Some? && row.contest.value in after.contests then
      var c, u := row.contest.value, row.user;
      && (c, u) in after.participants
      && after.participants == before.participants[(c, u) := after.participants[(c, u)]]
      && (DistinctIds(after.contests[c].problems) ==> HasPointsOfWindow(after, c, u))
    else after.participants == before.participants
  }

  /** The three together, for the submission of a callback. */
  ghost predicate CallbackHandled(before: Db, after: Db, cb: Callback, payload: Payload, now: Time) {
    && CaseGraded(before.cases, after.cases, cb, payload) && cb.sub in after.cases
    && SubmissionGraded(before.submissions, after.submissions, cb.sub, after.cases[cb.sub], now)
    && Rescored(before, after, after.submissions[cb.sub], after.cases[cb.sub])
  }

  lemma UpdateGrades(db: Db, cb: Callback, i: nat, payload: Payload)
    requires DbFind(db, cb.sub, cb.testCase) == Some(i)
    ensures CaseGraded(db.cases, DbUpdateCase(db, cb.sub, i, payload).cases, cb, payload)
  {
    assert 0 <= i < |db.cases[cb.sub]|;
  }

  lemma RecomputeGrades(was: SubmissionRow, order: seq<CaseRow>, rows: seq<CaseRow>, now: Time)
    requires order != [] && multiset(order) == multiset(rows)
    ensures RowGraded(was, Recompute(was, order, now), rows, now)
  {
    RecomputeOrderFree(was, order, rows, now);
    RuntimeIsLargest(rows);
    MemoryIsLargest(rows);
    PassedIsCount(rows);
    AllFinalIsAllDone(rows, rows);
  }

  lemma UpsertScores(db: Db, c: Id, u: Id, rows: seq<SubmissionRow>, now: Time)
    requires c in db.contests && DistinctIds(db.contests[c].problems) && IsDistinctQuery(db, c, u, rows)
    ensures HasPointsOfWindow(DbUpsertScore(db, c, u, rows, now), c, u)
    ensures DbUpsertScore(db, c, u, rows, now).participants[(c, u)].score == TrueScore(db, c, u)
  {
    ScoreIsPoints(rows, db.contests[c].problems);
    SolvedByValue(db, c, u);
  }

  lemma WriteRescores(before: Db, written: Db, after: Db, k: Id, order: seq<CaseRow>, rows: seq<SubmissionRow>,
                      now: Time)
    requires k in written.submissions && k in written.cases && multiset(order) == multiset(written.cases[k])
    requires written.participants == before.participants
    requires match AfterWrite(written.submissions[k], order)
             case Scoring(c, u) =>
               if c in written.contests then
                 IsDistinctQuery(written, c, u, rows) && after == DbUpsertScore(written, c, u, rows, now)
               else after == written
             case _ => after == written
    ensures Rescored(before, after, written.submissions[k], written.cases[k])
    ensures after.submissions == written.submissions && after.cases == written.cases
  {
    AllFinalIsAllDone(order, written.cases[k]);
    var phase := AfterWrite(written.submissions[k], order);
    if phase.Scoring? && phase.contest in written.contests
       && DistinctIds(written.contests[phase.contest].problems) {
      UpsertScores(written, phase.contest, phase.user, rows, now);
    }
  }

  /** A callback handled without interruption, by value: the case row, the submission and the score. */
  lemma CallbackMeaning(db: Db, cb: Callback, payload: Payload, order: seq<CaseRow>, rows: seq<SubmissionRow>,
                        now: Time)
    requires db.cases.Keys <= db.submissions.Keys && QueryResults(db, cb, payload, order, rows, now)
    ensures var after := CallbackEffect(db, cb, payload, order, rows, now);
            if cb.sub !in db.cases || forall r :: r in db.cases[cb.sub] ==> r.testCase != cb.testCase then
              DbFind(db, cb.sub, cb.testCase).None? && after == db
            else DbFind(db, cb.sub, cb.testCase).Some? && CallbackHandled(db, after, cb, payload, now)
  {
    if DbFind(db, cb.sub, cb.testCase).Some? {
      var i := DbFind(db, cb.sub, cb.testCase).value;
      var updated := DbUpdateCase(db, cb.sub, i, payload);
      UpdateGrades(db, cb, i, payload);
      assert updated.cases[cb.sub][i] in multiset(order);
      RecomputeGrades(db.submissions[cb.sub], order, updated.cases[cb.sub], now);
      var written := DbWrite(updated, cb.sub, order, now);
      WriteRescores(db, written, CallbackEffect(db, cb, payload, order, rows, now), cb.sub, order, rows, now);
    }
  }

  /** The tables after a submission of a known problem; `reply` is what the batch call returned, None when it threw. */
  function SubmitEffect(db: Db, sub: Id, user: Id, problem: Id, contest: Option<Id>, tests: seq<TestCase>,
                        reply: Option<seq<Option<Id>>>, now: Time): Db
    requires reply.Some? ==> |reply.value| == |tests|
  {
    if tests == [] || (contest.Some? && contest.value !in db.contests) then db
    else
      var created := DbCreate(db, sub, user, problem, contest, |tests|, now);
      if reply.None? || !AllTokens(reply.value) then created
      else DbCommit(created, sub, tests, Tokens(reply.value))
  }

  class Backend {
    var submissions: map<Id, SubmissionRow>
    var cases: map<Id, seq<CaseRow>>
    var participants: map<(Id, Id), Participant>
    const contests: map<Id, Contest>

    constructor (contests: map<Id, Contest>)
      ensures Tables() == Init(contests, 0).db
    {
      submissions, cases, participants := map[], map[], map[];
      this.contests := contests;
    }

    ghost function Tables(): Db
      reads this
    {
      Db(submissions, cases, contests, participants)
    }

    /** `findMany` without an order: the rows of a submission in any order. */
    method FindCases(sub: Id) returns (rows: seq<CaseRow>)
      requires sub in cases
      ensures multiset(rows) == multiset(cases[sub])
    {
      rows := cases[sub];
    }

    /** The accepted submissions of a user in a contest window, one per problem. */
    method FindAccepted(c: Id, u: Id) returns (rows: seq<SubmissionRow>)
      requires c in contests
      ensures IsDistinctQuery(Tables(), c, u, rows)
      ensures OnePerSolved(submissions, contests[c], c, u, rows)
    {
      rows := [];
      var seen: set<Id> := {};
      var left := submissions.Keys;
      while left != {}
        invariant left <= submissions.Keys
        invariant DistinctProblems(rows) && seen == ProblemSet(rows)
        invariant forall r :: r in rows ==> r in submissions.Values && Accepted(contests, c, u, r)
        invariant forall k :: k in submissions && k !in left && Accepted(contests, c, u, submissions[k]) ==>
                    submissions[k].problem in seen
        decreases left
      {
        var k :| k in left;
        var row := submissions[k];
        if Accepted(contests, c, u, row) && row.problem !in seen {
          assert ProblemSet(rows + [row]) == seen + {row.problem};
          assert forall r :: r in rows ==> r.problem in seen;
          rows := rows + [row];
          seen := seen + {row.problem};
        }
        left := left - {k};
      }
      assert ProblemSet(rows) == Solved(Tables(), c, u);
    }

    method UpdateContestScore(c: Id, u: Id, now: Time) returns (ghost rows: seq<SubmissionRow>)
      modifies this`participants
      ensures if c !in contests then Tables() == old(Tables())
              else IsDistinctQuery(old(Tables()), c, u, rows)
                   && Tables() == DbUpsertScore(old(Tables()), c, u, rows, now)
      // the points of the problems solved in the window, and the latest of their finish times
      ensures c in contests ==> (c, u) in participants && OnePerSolved(submissions, contests[c], c, u, rows)
      ensures c in contests && DistinctIds(contests[c].problems) ==>
              HasPointsOfWindow(Tables(), c, u) && participants[(c, u)].score == TrueScore(old(Tables()), c, u)
      ensures c in contests ==> match participants[(c, u)].lastSubmissionAt
                                case None => rows == []
                                case Some(m) => (exists r :: r in rows && r.finishedAt.GetOr(now) == m)
                                                && forall r :: r in rows ==> r.finishedAt.GetOr(now) <= m
    {
      rows := [];
      if c in contests {
        var accepted := FindAccepted(c, u);
        var score := Score(accepted, PointsMap(contests[c].problems));
        participants := participants[(c, u) := Participant(score, Latest(accepted, now))];
        rows := accepted;
        assert Tables() == DbUpsertScore(old(Tables()), c, u, rows, now);
        LatestIsMax(rows, now);
        if DistinctIds(contests[c].problems) {
          UpsertScores(old(Tables()), c, u, rows, now);
        }
      }
    }

    /** `PUT /judge0-callback` for an authenticated request. */
    method HandleCallback(cb: Callback, payload: Payload, now: Time)
      returns (code: nat, ghost order: seq<CaseRow>, ghost rows: seq<SubmissionRow>)
      requires cases.Keys <= submissions.Keys
      modifies this`submissions, this`cases, this`participants
      ensures code == if DbFind(old(Tables()), cb.sub, cb.testCase).None? then 404 else 204
      ensures QueryResults(old(Tables()), cb, payload, order, rows, now)
      ensures Tables() == CallbackEffect(old(Tables()), cb, payload, order, rows, now)
      // what that means: nothing for an unknown case; else the case row, the submission and the score by value
      ensures code == 404 <==>
              cb.sub !in old(cases) || forall r :: r in old(cases)[cb.sub] ==> r.testCase != cb.testCase
      ensures code == 404 ==> Tables() == old(Tables())
      ensures code == 204 ==> CallbackHandled(old(Tables()), Tables(), cb, payload, now)
    {
      order, rows := [], [];
      var found := if cb.sub in cases then FindCase(cases[cb.sub], cb.testCase) else None;
      if found.None? {
        CallbackMeaning(old(Tables()), cb, payload, order, rows, now);
        return 404, order, rows;
      }
      var row := cases[cb.sub][found.value];
      cases := cases[cb.sub := cases[cb.sub][found.value := Graded(row.testCase, row.token, payload)]];
      ghost var updated := Tables();
      assert updated == DbUpdateCase(old(Tables()), cb.sub, found.value, payload);

      var snapshot := FindCases(cb.sub);
      order := snapshot;
      assert cases[cb.sub][0] in multiset(snapshot);
      var allDone := AllDone(snapshot);
      var passedCount := Passed(snapshot);
      var before := submissions[cb.sub];
      if allDone {
        var overall := Grader.CombineVerdicts(Verdicts(snapshot));
        var maxRuntime := Max(Runtimes(snapshot));
        var maxMemory := Max(Memories(snapshot));
        submissions := submissions[cb.sub := before.(status := overall, passedCount := passedCount,
        runtimeMs := OrNull(maxRuntime), memoryKb := OrNull(maxMemory), finishedAt := Some(now))];
        assert Tables() == DbWrite(updated, cb.sub, order, now);
        if overall == Grader.AC && before.contest.Some? {
          rows := UpdateContestScore(before.contest.value, before.user, now);
        }
      } else {
        submissions := submissions[cb.sub := before.(passedCount := passedCount)];
        assert Tables() == DbWrite(updated, cb.sub, order, now);
      }
      CallbackMeaning(old(Tables()), cb, payload, order, rows, now);
      code := 204;
    }

    /**
     `POST /:slug/submit` for a parsed request: `tests` is None when the problem is unknown, `reply` is what the
     batch call to Judge0 returned, None when it threw. A contest that does not exist violates a foreign key, and a
     missing token makes the transaction fail as a whole.
     */
    method Submit(sub: Id, user: Id, problem: Id, contest: Option<Id>, tests: Option<seq<TestCase>>,
                  reply: Option<seq<Option<Id>>>, now: Time)
      returns (code: nat)
      requires sub !in submissions
      requires tests.Some? && reply.Some? ==> |reply.value| == |tests.value|
      modifies this`submissions, this`cases
      ensures code == if tests.None? then 404 else if tests.value == [] then 400
                      else if contest.Some? && contest.value !in contests then 500
                      else if reply.None? || !AllTokens(reply.value) then 500 else 202
      ensures Tables() == if tests.None? then old(Tables())
                          else SubmitEffect(old(Tables()), sub, user, problem, contest, tests.value, reply, now)
      // a stored row says who submitted what, and has one blank case per test case under the i-th token
      ensures sub in submissions <==> code == 202 || (code == 500 && (contest.Some? ==> contest.value in contests))
      ensures sub in submissions ==>
                && submissions == old(submissions)[sub := submissions[sub]]
                && submissions[sub] == SubmissionRow(user, problem, contest, now,
                                                     if code == 202 then Grader.RUNNING else Grader.PENDING,
                                                     0, |tests.value|, None, None, None, submissions[sub].tokens)
      ensures sub !in submissions ==> submissions == old(submissions)
      ensures code != 202 ==> cases == old(cases)
      ensures code == 202 ==>
                && sub in cases && |cases[sub]| == |tests.value| && cases == old(cases)[sub := cases[sub]]
                && forall i :: 0 <= i < |cases[sub]| ==>
                     cases[sub][i] == CaseRow(tests.value[i].id, reply.value[i].value, Grader.PENDING, None, None)
    {
      if tests.None? {
        return 404;
      }
      if tests.value == [] {
        return 400;
      }
      if contest.Some? && contest.value !in contests {
        return 500;
      }
      var row := SubmissionRow(user, problem, contest, now, Grader.PENDING, 0, |tests.value|, None, None, None, []);
      submissions := submissions[sub := row];
      if reply.None? || !AllTokens(reply.value) {
        return 500;
      }
      var tokens := Tokens(reply.value);
      submissions := submissions[sub := row.(status := Grader.RUNNING, tokens := tokens)];
      cases := cases[sub := CaseRows(tests.value, tokens)];
      code := 202;
    }

    /** `POST /:slug/register` */
    method Register(c: Id, u: Id) returns (code: nat)
      modifies this`participants
      ensures code == if c in contests then 200 else 404
      ensures Tables() == if c in contests then DbRegister(old(Tables()), c, u) else old(Tables())
      ensures c !in contests || (c, u) in old(participants) ==> participants == old(participants)
      ensures c in contests && (c, u) !in old(participants) ==>
                participants == old(participants)[(c, u) := Participant(0, None)]
    {
      if c !in contests {
        return 404;
      }
      if (c, u) !in participants {
        participants := participants[(c, u) := Participant(0, None)];
      }
      code := 200;
    }
  }

  /***** the uninterrupted handler is a schedule of the protocol *****/

  predicate IsStepOf(step: Step, h: Id) {
    (step.Find? || step.Update? || step.Snapshot? || step.Write? || step.Read? || step.Upsert?) && step.h == h
  }

  predicate StepsOf(steps: seq<Step>, h: Id) {
    forall step :: step in steps ==> IsStepOf(step, h)
  }

  lemma Next(s: State, steps: seq<Step>, m: State, step: Step, h: Id) returns (steps': seq<Step>, t: State)
    requires Run(s, steps, m) && Enabled(m, step) && StepsOf(steps, h) && IsStepOf(step, h)
    ensures Run(s, steps', t) && t == Apply(m, step) && StepsOf(steps', h)
  {
    RunAppend(s, steps, m, step);
    steps', t := steps + [step], Apply(m, step);
  }

  /** Of two moves of one handler only the second remains visible. */
  lemma PhaseTwice(s: State, h: Id, db: Db, phase: Phase, db': Db, phase': Phase)
    requires h in s.handlers
    ensures WithPhase(WithPhase(s, h, db, phase), h, db', phase') == WithPhase(s, h, db', phase')
  {
    assert s.handlers[h := s.handlers[h].(phase := phase)][h := s.handlers[h].(phase := phase')]
        == s.handlers[h := s.handlers[h].(phase := phase')];
  }

  /** From the receipt to the case update. */
  lemma UpToUpdate(s: State, h: Id, i: nat) returns (steps: seq<Step>, t: State)
    requires Enabled(s, Find(h))
    requires DbFind(s.db, s.handlers[h].callback.sub, s.handlers[h].callback.testCase) == Some(i)
    ensures Run(s, steps, t) && StepsOf(steps, h)
    ensures t == WithPhase(s, h, DbUpdateCase(s.db, s.handlers[h].callback.sub, i, s.handlers[h].payload), Updated)
  {
    var db := DbUpdateCase(s.db, s.handlers[h].callback.sub, i, s.handlers[h].payload);
    PhaseTwice(s, h, s.db, Located(i), db, Updated);
    steps, t := Next(s, [], s, Find(h), h);
    steps, t := Next(s, steps, t, Update(h), h);
  }

  /** From the receipt to the submission write. */
  lemma UpToWrite(s: State, h: Id, i: nat, order: seq<CaseRow>, now: Time) returns (steps: seq<Step>, t: State)
    requires Enabled(s, Find(h)) && s.handlers[h].callback.sub in s.db.submissions
    requires DbFind(s.db, s.handlers[h].callback.sub, s.handlers[h].callback.testCase) == Some(i)
    requires var k := s.handlers[h].callback.sub;
             multiset(order) == multiset(DbUpdateCase(s.db, k, i, s.handlers[h].payload).cases[k])
    ensures order != []
    ensures Run(s, steps, t) && StepsOf(steps, h)
    ensures var k := s.handlers[h].callback.sub;
            var db := DbWrite(DbUpdateCase(s.db, k, i, s.handlers[h].payload), k, order, now);
            t == WithPhase(s, h, db, AfterWrite(db.submissions[k], order))
  {
    var k := s.handlers[h].callback.sub;
    var updated := DbUpdateCase(s.db, k, i, s.handlers[h].payload);
    assert updated.cases[k][i] in multiset(order);
    var db := DbWrite(updated, k, order, now);
    PhaseTwice(s, h, updated, Updated, updated, Snapped(order));
    PhaseTwice(s, h, updated, Snapped(order), db, AfterWrite(db.submissions[k], order));
    steps, t := UpToUpdate(s, h, i);
    steps, t := Next(s, steps, t, Snapshot(h, order), h);
    steps, t := Next(s, steps, t, Write(h, now), h);
  }

  /** From the submission write to the end, for an accepted contest submission. */
  lemma Rescore(s: State, steps: seq<Step>, m: State, h: Id, rows: seq<SubmissionRow>, now: Time)
    returns (steps': seq<Step>, t: State)
    requires Run(s, steps, m) && StepsOf(steps, h) && h in m.handlers && m.handlers[h].phase.Scoring?
    requires var p := m.handlers[h].phase; p.contest in m.db.contests ==> IsDistinctQuery(m.db, p.contest, p.user, rows)
    ensures Run(s, steps', t) && StepsOf(steps', h)
    ensures var p := m.handlers[h].phase;
            var db := if p.contest in m.db.contests then DbUpsertScore(m.db, p.contest, p.user, rows, now) else m.db;
            t == WithPhase(m, h, db, Done(204))
  {
    var p := m.handlers[h].phase;
    if p.contest in m.db.contests {
      PhaseTwice(m, h, m.db, Summing(p.contest, p.user, rows), DbUpsertScore(m.db, p.contest, p.user, rows, now),
                 Done(204));
      steps', t := Next(s, steps, m, Read(h, rows), h);
      steps', t := Next(s, steps', t, Upsert(h, now), h);
    } else {
      assert Solved(m.db, p.contest, p.user) == {} == ProblemSet([]);
      steps', t := Next(s, steps, m, Read(h, []), h);
    }
  }

  /**
   What the handler computes without interruption is what its steps, taken one after the other, do to the
   tables: the method above is one schedule of the protocol.
   */
  lemma UninterruptedHandler(s: State, h: Id, order: seq<CaseRow>, rows: seq<SubmissionRow>, now: Time)
    returns (steps: seq<Step>, t: State)
    requires Enabled(s, Find(h)) && s.db.cases.Keys <= s.db.submissions.Keys
    requires QueryResults(s.db, s.handlers[h].callback, s.handlers[h].payload, order, rows, now)
    ensures Run(s, steps, t) && StepsOf(steps, h)
    ensures var cb := s.handlers[h].callback;
            t == WithPhase(s, h, CallbackEffect(s.db, cb, s.handlers[h].payload, order, rows, now),
                           Done(if DbFind(s.db, cb.sub, cb.testCase).None? then 404 else 204))
  {
    var cb := s.handlers[h].callback;
    match DbFind(s.db, cb.sub, cb.testCase) {
      case None => steps, t := Next(s, [], s, Find(h), h);
      case Some(i) =>
        steps, t := UpToWrite(s, h, i, order, now);
        var db := t.db;
        var phase := t.handlers[h].phase;
        if phase.Scoring? {
          steps, t := Rescore(s, steps, t, h, rows, now);
          PhaseTwice(s, h, db, phase, t.db, Done(204));
        }
    }
  }

  /***** the uninterrupted submission is a schedule of the protocol *****/

  /** What is left of a submission on its way: the tables, its handler, and the jobs of its batch. */
  function Submitted(s: State, db: Db, sub: Id, tests: seq<TestCase>, replies: seq<Option<Id>>,
                     phase: SubmitPhase): State
    requires replies == [] || |replies| == |tests|
  {
    s.(db := db, submits := s.submits[sub := Submit(tests, replies, phase)],
    jobs := if replies == [] then s.jobs else s.jobs + NewJobs(sub, tests, replies))
  }

  lemma SubmitTwice(m: map<Id, Submit>, sub: Id, a: Submit, b: Submit)
    ensures m[sub := a][sub := b] == m[sub := b]
  {
  }

  lemma SentStep(s: State, db: Db, sub: Id, tests: seq<TestCase>, replies: seq<Option<Id>>)
    requires sub in db.submissions && tests != [] && |replies| == |tests| && DistinctTokens(replies)
    requires forall i :: 0 <= i < |replies| && replies[i].Some? ==> replies[i].value !in s.jobs
    ensures var a := Submitted(s, db, sub, tests, [], Creating);
            Enabled(a, Send(sub, replies, true))
            && Apply(a, Send(sub, replies, true)) == Submitted(s, db, sub, tests, replies, Replied)
  {
    SubmitTwice(s.submits, sub, Submit(tests, [], Creating), Submit(tests, replies, Replied));
  }

  lemma EndStep(s: State, db: Db, sub: Id, tests: seq<TestCase>, replies: seq<Option<Id>>)
    requires sub in db.submissions && tests != [] && |replies| == |tests|
    ensures var b := Submitted(s, db, sub, tests, replies, Replied);
            if AllTokens(replies) then
              Enabled(b, Commit(sub))
              && Apply(b, Commit(sub))
                 == Submitted(s, DbCommit(db, sub, tests, Tokens(replies)), sub, tests, replies, Committed)
            else
              Enabled(b, CommitFailed(sub))
              && Apply(b, CommitFailed(sub)) == Submitted(s, db, sub, tests, replies, Failed)
  {
    SubmitTwice(s.submits, sub, Submit(tests, replies, Replied), Submit(tests, replies, Committed));
    SubmitTwice(s.submits, sub, Submit(tests, replies, Replied), Submit(tests, replies, Failed));
  }

  lemma RefusedStep(s: State, db: Db, sub: Id, tests: seq<TestCase>)
    requires sub in db.submissions && tests != []
    ensures var a := Submitted(s, db, sub, tests, [], Creating);
            Enabled(a, SendRefused(sub)) && Apply(a, SendRefused(sub)) == Submitted(s, db, sub, tests, [], Failed)
  {
    SubmitTwice(s.submits, sub, Submit(tests, [], Creating), Submit(tests, [], Failed));
  }

  /**
   A stored submission whose handler runs without interruption is a schedule of the protocol, however it ends: it
   leaves the tables of the method above, and nobody else is touched.
   */
  lemma UninterruptedSubmit(s: State, sub: Id, user: Id, problem: Id, contest: Option<Id>, tests: seq<TestCase>,
                            reply: Option<seq<Option<Id>>>, now: Time)
    returns (steps: seq<Step>, t: State)
    requires sub !in s.submits && tests != [] && DistinctTests(tests)
    requires contest.Some? ==> contest.value in s.db.contests
    requires reply.Some? ==> |reply.value| == |tests| && DistinctTokens(reply.value)
    requires reply.Some? ==> forall i :: 0 <= i < |reply.value| && reply.value[i].Some? ==>
             reply.value[i].value !in s.jobs
    ensures Run(s, steps, t)
    ensures t == Submitted(s, SubmitEffect(s.db, sub, user, problem, contest, tests, reply, now), sub, tests,
                           reply.GetOr([]), if reply.Some? && AllTokens(reply.value) then Committed else Failed)
  {
    var create := Create(sub, user, problem, contest, tests, now);
    var db := DbCreate(s.db, sub, user, problem, contest, |tests|, now);
    RunAppend(s, [], s, create);
    steps, t := [create], Apply(s, create);
    assert [] + [create] == [create];
    if reply.None? {
      RefusedStep(s, db, sub, tests);
      RunAppend(s, steps, t, SendRefused(sub));
      steps, t := steps + [SendRefused(sub)], Apply(t, SendRefused(sub));
    } else {
      SentStep(s, db, sub, tests, reply.value);
      RunAppend(s, steps, t, Send(sub, reply.value, true));
      steps, t := steps + [Send(sub, reply.value, true)], Apply(t, Send(sub, reply.value, true));
      EndStep(s, db, sub, tests, reply.value);
      var end := if AllTokens(reply.value) then Commit(sub) else CommitFailed(sub);
      RunAppend(s, steps, t, end);
      steps, t := steps + [end], Apply(t, end);
    }
  }
}
