/**
 The grading protocol as a step system: submit handlers, Judge0 jobs, callback deliveries and callback
 handlers of any number of submissions interleave freely. One step is one database call or transaction,
 or one message.
 */
module Protocol {
  import opened Wrappers
  import Grader
  import opened Judge0Batch
  import opened Platform

  datatype SubmitPhase = Creating | Replied | Committed | Failed

  /** A submit handler; `replies` is what Judge0 answered, empty before the batch is sent. */
  datatype Submit = Submit(tests: seq<TestCase>, replies: seq<Option<Id>>, phase: SubmitPhase)

  /** A Judge0 job: it finishes once, then its callback is tried until a response arrives or the tries run out. */
  datatype Job = Job(callback: Callback, result: Option<Payload>, tries: nat, answered: bool)

  /** The program counter of a callback handler, with its local variables. */
  datatype Phase =
    | Received
    | Located(row: nat)
    | Updated
    | Snapped(snapshot: seq<CaseRow>)
    | Scoring(contest: Id, user: Id)
    | Summing(contest: Id, user: Id, rows: seq<SubmissionRow>)
    | Done(code: nat)

  datatype Handler = Handler(callback: Callback, token: Id, payload: Payload, phase: Phase)

  datatype State = State(db: Db, submits: map<Id, Submit>, jobs: map<Id, Job>, handlers: map<Id, Handler>,
                         maxTries: nat)

  datatype Step =
    | Create(sub: Id, user: Id, problem: Id, inContest: Option<Id>, tests: seq<TestCase>, now: Time)
    | Send(sub: Id, replies: seq<Option<Id>>, received: bool)
    | SendRefused(sub: Id)
    | Commit(sub: Id)
    | CommitFailed(sub: Id)
    | FinishJob(token: Id, payload: Payload)
    | Put(token: Id, h: Id, arrives: bool)
    | Respond(h: Id)
    | Find(h: Id)
    | Update(h: Id)
    | Snapshot(h: Id, order: seq<CaseRow>)
    | Write(h: Id, now: Time)
    | Read(h: Id, rows: seq<SubmissionRow>)
    | Upsert(h: Id, now: Time)
    | Register(contest: Id, user: Id)

  function Init(contests: map<Id, Contest>, maxTries: nat): State {
    State(Db(map[], map[], contests, map[]), map[], map[], map[], maxTries)
  }

  predicate DistinctTests(tests: seq<TestCase>) {
    forall i, j :: 0 <= i < j < |tests| ==> tests[i].id != tests[j].id
  }

  predicate AllTokens(replies: seq<Option<Id>>) {
    forall i :: 0 <= i < |replies| ==> replies[i].Some?
  }

  function Tokens(replies: seq<Option<Id>>): (ts: seq<Id>)
    requires AllTokens(replies)
    ensures |ts| == |replies| && forall i :: 0 <= i < |ts| ==> ts[i] == replies[i].value
  {
    seq(|replies|, i requires 0 <= i < |replies| => replies[i].value)
  }

  predicate InPhase(s: State, sub: Id, phase: SubmitPhase) {
    sub in s.submits && sub in s.db.submissions && s.submits[sub].phase == phase
  }

  /** Which steps the code, the database and the network allow in a state. */
  predicate Enabled(s: State, step: Step) {
    match step
    case Create(sub, _, _, contest, tests, _) =>
      sub !in s.submits && tests != [] && DistinctTests(tests) && (contest.Some? ==> contest.value in s.db.contests)
    case Send(sub, replies, _) =>
      InPhase(s, sub, Creating) && |replies| == |s.submits[sub].tests| && DistinctTokens(replies)
      && forall i :: 0 <= i < |replies| && replies[i].Some? ==> replies[i].value !in s.jobs
    case SendRefused(sub) => InPhase(s, sub, Creating)
    case Commit(sub) =>
      InPhase(s, sub, Replied) && AllTokens(s.submits[sub].replies)
      && |s.submits[sub].replies| == |s.submits[sub].tests|
    case CommitFailed(sub) => InPhase(s, sub, Replied)
    case FinishJob(token, _) => token in s.jobs && s.jobs[token].result.None?
    case Put(token, h, _) =>
      token in s.jobs && s.jobs[token].result.Some? && !s.jobs[token].answered
      && s.jobs[token].tries < s.maxTries && h !in s.handlers
    case Respond(h) => h in s.handlers && s.handlers[h].phase.Done? && s.handlers[h].token in s.jobs
    case Find(h) => h in s.handlers && s.handlers[h].phase.Received?
    case Update(h) =>
      h in s.handlers && s.handlers[h].phase.Located? && s.handlers[h].callback.sub in s.db.cases
      && s.handlers[h].phase.row < |s.db.cases[s.handlers[h].callback.sub]|
    case Snapshot(h, order) =>
      h in s.handlers && s.handlers[h].phase.Updated? && s.handlers[h].callback.sub in s.db.cases
      && multiset(order) == multiset(s.db.cases[s.handlers[h].callback.sub])
    case Write(h, _) =>
      h in s.handlers && s.handlers[h].phase.Snapped? && s.handlers[h].phase.snapshot != []
      && s.handlers[h].callback.sub in s.db.submissions
    case Read(h, rows) =>
      h in s.handlers && s.handlers[h].phase.Scoring?
      && IsDistinctQuery(s.db, s.handlers[h].phase.contest, s.handlers[h].phase.user, rows)
    case Upsert(h, _) =>
      h in s.handlers && s.handlers[h].phase.Summing? && s.handlers[h].phase.contest in s.db.contests
    case Register(c, _) => c in s.db.contests
  }

  function WithPhase(s: State, h: Id, db: Db, phase: Phase): State
    requires h in s.handlers
  {
    s.(db := db, handlers := s.handlers[h := s.handlers[h].(phase := phase)])
  }

  /** Where a handler goes after writing the submission. */
  function AfterWrite(row: SubmissionRow, snapshot: seq<CaseRow>): Phase {
    if AllDone(snapshot) && row.status == Grader.AC && row.contest.Some? then Scoring(row.contest.value, row.user)
    else Done(204)
  }

  function NewJobs(sub: Id, tests: seq<TestCase>, replies: seq<Option<Id>>): map<Id, Job>
    requires |tests| == |replies|
  {
    var rows := Created(Items(sub, tests), replies);
    map t | t in rows :: Job(rows[t].callback, None, 0, false)
  }

  function Apply(s: State, step: Step): State
    requires Enabled(s, step)
  {
    match step
    case Create(sub, user, problem, contest, tests, now) =>
      s.(db := DbCreate(s.db, sub, user, problem, contest, |tests|, now),
      submits := s.submits[sub := Submit(tests, [], Creating)])
    case Send(sub, replies, received) =>
      var phase := if received then Replied else Failed;
      s.(submits := s.submits[sub := s.submits[sub].(replies := replies, phase := phase)],
      jobs := s.jobs + NewJobs(sub, s.submits[sub].tests, replies))
    case SendRefused(sub) => s.(submits := s.submits[sub := s.submits[sub].(phase := Failed)])
    case Commit(sub) =>
      s.(db := DbCommit(s.db, sub, s.submits[sub].tests, Tokens(s.submits[sub].replies)),
      submits := s.submits[sub := s.submits[sub].(phase := Committed)])
    case CommitFailed(sub) => s.(submits := s.submits[sub := s.submits[sub].(phase := Failed)])
    case FinishJob(token, payload) => s.(jobs := s.jobs[token := s.jobs[token].(result := Some(payload))])
    case Put(token, h, arrives) =>
      var job := s.jobs[token];
      var s' := s.(jobs := s.jobs[token := job.(tries := job.tries + 1)]);
      if arrives then s'.(handlers := s.handlers[h := Handler(job.callback, token, job.result.value, Received)]) else s'
    case Respond(h) =>
      s.(jobs := s.jobs[s.handlers[h].token := s.jobs[s.handlers[h].token].(answered := true)])
    case Find(h) =>
      var cb := s.handlers[h].callback;
      WithPhase(s, h, s.db, match DbFind(s.db, cb.sub, cb.testCase) case None => Done(404) case Some(i) => Located(i))
    case Update(h) =>
      var hd := s.handlers[h];
      WithPhase(s, h, DbUpdateCase(s.db, hd.callback.sub, hd.phase.row, hd.payload), Updated)
    case Snapshot(h, order) => WithPhase(s, h, s.db, Snapped(order))
    case Write(h, now) =>
      var hd := s.handlers[h];
      var db := DbWrite(s.db, hd.callback.sub, hd.phase.snapshot, now);
      WithPhase(s, h, db, AfterWrite(db.submissions[hd.callback.sub], hd.phase.snapshot))
    case Read(h, rows) =>
      var p := s.handlers[h].phase;
      WithPhase(s, h, s.db, if p.contest in s.db.contests then Summing(p.contest, p.user, rows) else Done(204))
    case Upsert(h, now) =>
      var p := s.handlers[h].phase;
      WithPhase(s, h, DbUpsertScore(s.db, p.contest, p.user, p.rows, now), Done(204))
    case Register(c, u) => s.(db := DbRegister(s.db, c, u))
  }

  /** `steps` leads from `s` to `t`. */
  predicate Run(s: State, steps: seq<Step>, t: State)
    decreases |steps|
  {
    if steps == [] then s == t
    else Enabled(s, steps[0]) && Run(Apply(s, steps[0]), steps[1..], t)
  }

  lemma {:induction false} RunAppend(s: State, steps: seq<Step>, m: State, step: Step)
    requires Run(s, steps, m) && Enabled(m, step)
    ensures Run(s, steps + [step], Apply(m, step))
    decreases |steps|
  {
    if steps == [] {
      assert steps + [step] == [step];
      assert Run(Apply(m, step), [], Apply(m, step));
      assert [step][1..] == [];
    } else {
      RunAppend(Apply(s, steps[0]), steps[1..], m, step);
      assert (steps + [step])[1..] == steps[1..] + [step];
    }
  }
}
