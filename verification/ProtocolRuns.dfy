/** A run of the protocol that never completes: the callback overtakes the transaction. */
module ProtocolRuns {
  import opened Wrappers
  import Grader
  import opened Judge0Batch
  import Platform
  import opened Protocol
  import Invariant = ProtocolInvariant
  import Theorems = ProtocolTheorems

  lemma ReachStep(m: State, step: Step)
    requires Invariant.Reachable(m) && Enabled(m, step)
    ensures Invariant.Reachable(Apply(m, step))
  {
    var steps :| Run(Init(m.db.contests, m.maxTries), steps, m);
    RunAppend(Init(m.db.contests, m.maxTries), steps, m, step);
  }

  lemma Take(m: State, step: Step) returns (s: State)
    requires Invariant.Reachable(m) && Enabled(m, step)
    ensures Invariant.Reachable(s) && s == Apply(m, step)
  {
    ReachStep(m, step);
    s := Apply(m, step);
  }

  lemma ReachInit(contests: map<Id, Platform.Contest>, maxTries: nat)
    ensures Invariant.Reachable(Init(contests, maxTries))
  {
    assert Run(Init(contests, maxTries), [], Init(contests, maxTries));
  }

  const ACCEPTED := Platform.Payload(Some(3), Some(1), Some(1))
  const TEST_0 := TestCase(0, "", "")

  function Row0(status: Grader.Verdict, passed: nat, tokens: seq<Id>): Platform.SubmissionRow {
    Platform.SubmissionRow(0, 0, None, 0, status, passed, 1, None, None, None, tokens)
  }

  /** One test case; `j` is the job, `hs` the handlers. */
  function OneCase(phase: SubmitPhase, j: Job, hs: map<Id, Handler>): State {
    State(Platform.Db(map[0 := Row0(Grader.PENDING, 0, [])], map[], map[], map[]),
          map[0 := Submit([TEST_0], [Some(0)], phase)], map[0 := j], hs, 3)
  }

  lemma OneCaseSent()
    ensures var s := Apply(Init(map[], 3), Create(0, 0, 0, None, [TEST_0], 0));
            Enabled(s, Send(0, [Some(0)], true))
            && Apply(s, Send(0, [Some(0)], true)) == OneCase(Replied, Job(Callback(0, 0), None, 0, false), map[])
  {
    Invariant.NewJobsAligned(0, [TEST_0], [Some(0)]);
    var s := Apply(Init(map[], 3), Create(0, 0, 0, None, [TEST_0], 0));
    assert Apply(s, Send(0, [Some(0)], true)).jobs == map[0 := Job(Callback(0, 0), None, 0, false)];
  }

  lemma OneCaseCalledBack()
    ensures var s := OneCase(Replied, Job(Callback(0, 0), None, 0, false), map[]);
            Enabled(s, FinishJob(0, ACCEPTED))
            && Apply(s, FinishJob(0, ACCEPTED))
               == OneCase(Replied, Job(Callback(0, 0), Some(ACCEPTED), 0, false), map[])
    ensures var s := OneCase(Replied, Job(Callback(0, 0), Some(ACCEPTED), 0, false), map[]);
            Enabled(s, Put(0, 0, true))
            && Apply(s, Put(0, 0, true)) == OneCase(Replied, Job(Callback(0, 0), Some(ACCEPTED), 1, false),
                                                    map[0 := Handler(Callback(0, 0), 0, ACCEPTED, Received)])
  {
  }

  lemma OneCaseTooEarly()
    ensures var s := OneCase(Replied, Job(Callback(0, 0), Some(ACCEPTED), 1, false),
                             map[0 := Handler(Callback(0, 0), 0, ACCEPTED, Received)]);
            Enabled(s, Find(0))
            && Apply(s, Find(0)) == OneCase(Replied, Job(Callback(0, 0), Some(ACCEPTED), 1, false),
                                            map[0 := Handler(Callback(0, 0), 0, ACCEPTED, Done(404))])
    ensures var s := OneCase(Replied, Job(Callback(0, 0), Some(ACCEPTED), 1, false),
                             map[0 := Handler(Callback(0, 0), 0, ACCEPTED, Done(404))]);
            Enabled(s, Respond(0))
            && Apply(s, Respond(0)) == OneCase(Replied, Job(Callback(0, 0), Some(ACCEPTED), 1, true),
                                               map[0 := Handler(Callback(0, 0), 0, ACCEPTED, Done(404))])
  {
  }

  lemma TooEarly() returns (s: State)
    ensures Invariant.Reachable(s)
    ensures s == OneCase(Replied, Job(Callback(0, 0), Some(ACCEPTED), 1, true),
                         map[0 := Handler(Callback(0, 0), 0, ACCEPTED, Done(404))])
  {
    ReachInit(map[], 3);
    s := Take(Init(map[], 3), Create(0, 0, 0, None, [TEST_0], 0));
    OneCaseSent();
    s := Take(s, Send(0, [Some(0)], true));
    OneCaseCalledBack();
    s := Take(s, FinishJob(0, ACCEPTED));
    s := Take(s, Put(0, 0, true));
    OneCaseTooEarly();
    s := Take(s, Find(0));
    s := Take(s, Respond(0));
  }

  lemma CommitAfterwards(s: State)
    requires s == OneCase(Replied, Job(Callback(0, 0), Some(ACCEPTED), 1, true),
                          map[0 := Handler(Callback(0, 0), 0, ACCEPTED, Done(404))])
    ensures Enabled(s, Commit(0))
    ensures var t := Apply(s, Commit(0));
            Theorems.Exhausted(t, 0) && 0 in t.db.cases && t.db.submissions[0].status == Grader.RUNNING
              && t.jobs == s.jobs
  {
  }

  lemma CommittedLate() returns (s: State)
    ensures Invariant.Reachable(s) && Theorems.Exhausted(s, 0) && 0 in s.db.cases
            && s.db.submissions[0].status == Grader.RUNNING
    ensures forall t :: t in s.jobs ==> s.jobs[t].result == Some(ACCEPTED) && s.jobs[t].answered
  {
    s := TooEarly();
    CommitAfterwards(s);
    s := Take(s, Commit(0));
  }

  /**
   A callback that overtakes the transaction is answered 404, is not sent again, and leaves RUNNING behind for good.
   */
  lemma EarlyCallbackIsLost() returns (s: State)
    ensures Invariant.Reachable(s) && Theorems.Exhausted(s, 0) && 0 in s.db.cases
    ensures forall t :: t in s.jobs ==> s.jobs[t].result == Some(ACCEPTED) && s.jobs[t].answered
    ensures s.db.submissions[0].status == Grader.RUNNING
    ensures forall steps: seq<Step>, t: State :: Run(s, steps, t) ==>
            0 in t.db.submissions && t.db.submissions[0].status == Grader.RUNNING
  {
    s := CommittedLate();
    Invariant.ReachableInv(s);
    forall steps: seq<Step>, t: State | Run(s, steps, t)
      ensures 0 in t.db.submissions && t.db.submissions[0].status == Grader.RUNNING
    {
      Theorems.ExhaustedForever(s, steps, t, 0);
    }
  }
}
