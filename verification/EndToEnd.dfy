/**
 The two halves joined: Judge0's rows are the protocol's jobs, and a submission is accepted when its programs are
 right.
 */
module EndToEnd {
  import opened Wrappers
  import Grader
  import opened Judge0Batch
  import Platform
  import Protocol
  import Invariant = ProtocolInvariant
  import Theorems = ProtocolTheorems
  import JobVerdicts
  import IsolateJob
  import Judge0Queue

  /** The rows a batch adds to Judge0's queue are the jobs the protocol knows: same tokens, same callbacks. */
  lemma JobsAreRows(j: Judge0Queue.Judge0, sub: Id, tests: seq<TestCase>, replies: seq<Option<Id>>, token: Id)
    requires |tests| == |replies| && DistinctTokens(replies) && forall id :: id in j.rows ==> id < j.nextId
    ensures var rows := Judge0Queue.Enqueue(j, Items(sub, tests), replies).rows;
            var jobs := Protocol.NewJobs(sub, tests, replies);
            && (token in jobs <==> exists id :: id in rows && id !in j.rows && rows[id].token == token)
            && (forall id :: id in rows && id !in j.rows && rows[id].token == token ==>
                  token in jobs && jobs[token].callback == rows[id].item.callback)
  {
    Judge0Queue.EnqueuedIsCreated(j, Items(sub, tests), replies, token);
  }

  /** The job behind a token ended as the given runs make it end for a test case. */
  ghost predicate Executed(s: Protocol.State, token: Id, test: TestCase, calls: seq<IsolateJob.RunCalls>) {
    && calls != [] && token in s.jobs && s.jobs[token].result.Some?
    && s.jobs[token].result.value.statusId ==
       Some(IsolateJob.EndStatus(IsolateJob.Outcome(calls, Truthy(test.expectedOutput))))
  }

  ghost predicate AllExecuted(s: Protocol.State, k: Id, tests: seq<TestCase>, runs: seq<seq<IsolateJob.RunCalls>>)
    requires k in s.db.cases
  {
    && |runs| == |tests| == |s.db.cases[k]|
    && forall i :: 0 <= i < |runs| ==> Executed(s, s.db.cases[k][i].token, tests[i], runs[i])
  }

  lemma ExecutedIsFinal(s: Protocol.State, k: Id, i: nat, test: TestCase, calls: seq<IsolateJob.RunCalls>)
    requires Invariant.Structure(s) && Invariant.Cases(s) && Invariant.Handlers(s) && k in s.db.cases
             && i < |s.db.cases[k]|
    requires Executed(s, s.db.cases[k][i].token, test, calls) && Theorems.AcceptedDelivery(s, s.db.cases[k][i].token)
    ensures Theorems.FinalDelivery(s, s.db.cases[k][i].token)
  {
    var h :| h in s.handlers && s.handlers[h].token == s.db.cases[k][i].token
      && Theorems.HasWritten(s.handlers[h].phase);
    Theorems.JobHandler(s, k, i, h);
    JobVerdicts.JobGivesFinalVerdict(calls, Truthy(test.expectedOutput));
  }

  lemma AllAcIff(vs: seq<Grader.Verdict>)
    requires vs != []
    ensures Grader.CombineVerdicts(vs) == Grader.AC <==> forall i :: 0 <= i < |vs| ==> vs[i] == Grader.AC
  {
    Grader.CombineAcceptedIff(vs);
    Grader.AcCountBounds(vs);
    if forall v :: v in vs ==> v == Grader.AC {
      assert forall i :: 0 <= i < |vs| ==> vs[i] in vs;
    }
  }

  lemma RowPasses(s: Protocol.State, k: Id, rows: seq<Platform.CaseRow>, runs: seq<seq<IsolateJob.RunCalls>>, i: nat)
    requires k in s.submits && Theorems.GradedAtOnce(s, k, rows) && i < |rows| == |runs|
    requires Executed(s, rows[i].token, s.submits[k].tests[i], runs[i])
    ensures rows[i].status == Grader.AC <==> JobVerdicts.Passes(s.submits[k].tests[i], runs[i])
  {
    JobVerdicts.CaseAcceptedIff(s.submits[k].tests[i], runs[i]);
  }

  lemma ProgramsComplete(s: Protocol.State, k: Id, runs: seq<seq<IsolateJob.RunCalls>>)
    requires Invariant.Reachable(s) && k in s.db.cases && k in s.submits && AllExecuted(s, k, s.submits[k].tests, runs)
    requires forall i :: 0 <= i < |s.db.cases[k]| ==> Theorems.AcceptedDelivery(s, s.db.cases[k][i].token)
    ensures Theorems.GradedAtOnce(s, k, s.db.cases[k]) && s.db.cases[k] != []
    ensures k in s.db.submissions && Grader.IsFinal(s.db.submissions[k].status)
    ensures s.db.submissions[k].status == Grader.CombineVerdicts(Platform.Verdicts(s.db.cases[k]))
  {
    Invariant.ReachableInv(s);
    forall i | 0 <= i < |s.db.cases[k]|
      ensures Theorems.FinalDelivery(s, s.db.cases[k][i].token)
    {
      ExecutedIsFinal(s, k, i, s.submits[k].tests[i], runs[i]);
    }
    Theorems.Completion(s, k);
  }

  /**
   From programs to the stored status: when every case had a delivery that was carried through, the submission is
   final, and it is accepted exactly when every job passes, that is when its program compiles, ends cleanly in all
   runs and prints the expected lines in the first.
   */
  lemma AcceptedWhenProgramsPass(s: Protocol.State, k: Id, runs: seq<seq<IsolateJob.RunCalls>>)
    requires Invariant.Reachable(s) && k in s.db.cases && k in s.submits && AllExecuted(s, k, s.submits[k].tests, runs)
    requires forall i :: 0 <= i < |s.db.cases[k]| ==> Theorems.AcceptedDelivery(s, s.db.cases[k][i].token)
    ensures k in s.db.submissions && Grader.IsFinal(s.db.submissions[k].status)
    ensures s.db.submissions[k].status == Grader.AC <==>
            forall i :: 0 <= i < |runs| ==> JobVerdicts.Passes(s.submits[k].tests[i], runs[i])
  {
    ProgramsComplete(s, k, runs);
    var rows := s.db.cases[k];
    forall i | 0 <= i < |rows|
      ensures rows[i].status == Grader.AC <==> JobVerdicts.Passes(s.submits[k].tests[i], runs[i])
    {
      RowPasses(s, k, rows, runs, i);
    }
    AllAcIff(Platform.Verdicts(rows));
  }
}
