/** The order of lookups and transactions in a run decides the answers of handlers and the completion of submissions. */
module ProtocolHistory {
  import Grader
  import opened Judge0Batch
  import Platform
  import opened Protocol
  import opened ProtocolInvariant
  import Theorems = ProtocolTheorems

  lemma {:induction false} RunLast(s: State, steps: seq<Step>, t: State) returns (m: State)
    requires Run(s, steps, t) && steps != []
    ensures Run(s, steps[..|steps| - 1], m)
    ensures Enabled(m, steps[|steps| - 1]) && t == Apply(m, steps[|steps| - 1])
    decreases |steps|
  {
    if |steps| == 1 {
      m := s;
    } else {
      m := RunLast(Apply(s, steps[0]), steps[1..], t);
      assert steps[..|steps| - 1][1..] == steps[1..][..|steps| - 2];
    }
  }

  /** Handler `h` looked for its case when submission `k` was not committed yet. */
  ghost predicate FindBefore(steps: seq<Step>, h: Id, k: Id) {
    exists i :: 0 <= i < |steps| && steps[i] == Find(h) && Commit(k) !in steps[..i]
  }

  /** Handler `h` looked for its case when submission `k` was committed. */
  ghost predicate FindAfter(steps: seq<Step>, h: Id, k: Id) {
    exists i :: 0 <= i < |steps| && steps[i] == Find(h) && Commit(k) in steps[..i]
  }

  lemma FindSnoc(past: seq<Step>, x: Step, h: Id, k: Id)
    ensures FindBefore(past + [x], h, k) <==> FindBefore(past, h, k) || (x == Find(h) && Commit(k) !in past)
    ensures FindAfter(past + [x], h, k) <==> FindAfter(past, h, k) || (x == Find(h) && Commit(k) in past)
  {
    var steps := past + [x];
    assert steps[..|past|] == past && steps[|past|] == x;
    assert forall i :: 0 <= i < |past| ==> steps[i] == past[i] && steps[..i] == past[..i];
  }

  ghost predicate HandlerHistory(steps: seq<Step>, h: Id, hd: Handler) {
    && (hd.phase == Done(404) <==> FindBefore(steps, h, hd.callback.sub))
    && (!hd.phase.Received? && hd.phase != Done(404) <==> FindAfter(steps, h, hd.callback.sub))
  }

  ghost predicate CommitHistory(steps: seq<Step>, t: State) {
    forall k: Id :: Commit(k) in steps <==> k in t.db.cases
  }

  ghost predicate History(steps: seq<Step>, t: State) {
    && CommitHistory(steps, t)
    && (forall h: Id :: h !in t.handlers ==> Find(h) !in steps)
    && (forall h: Id :: h in t.handlers ==> HandlerHistory(steps, h, t.handlers[h]))
  }

  lemma CasesStep(m: State, x: Step, k: Id)
    requires Enabled(m, x)
    ensures k in Apply(m, x).db.cases <==> k in m.db.cases || x == Commit(k)
  {
  }

  lemma PhaseStep(m: State, x: Step, h: Id)
    requires Enabled(m, x)
    ensures h in m.handlers ==> h in Apply(m, x).handlers && Apply(m, x).handlers[h].callback == m.handlers[h].callback
    ensures h !in m.handlers && h in Apply(m, x).handlers ==> Apply(m, x).handlers[h].phase.Received?
    ensures h in m.handlers && x != Find(h) ==>
              var p, q := m.handlers[h].phase, Apply(m, x).handlers[h].phase;
              (p.Received? <==> q.Received?) && (p == Done(404) <==> q == Done(404))
    ensures x == Find(h) ==>
              var hd, q := m.handlers[h], Apply(m, x).handlers[h].phase;
              && hd.phase.Received? && !q.Received?
              && (q == Done(404) <==> Platform.DbFind(m.db, hd.callback.sub, hd.callback.testCase).None?)
  {
  }

  lemma FindsCommitted(m: State, h: Id)
    requires Structure(m) && Cases(m) && Handlers(m) && h in m.handlers
    ensures var cb := m.handlers[h].callback; Platform.DbFind(m.db, cb.sub, cb.testCase).Some? <==> cb.sub in m.db.cases
  {
    assert HandlerOk(m, m.handlers[h]);
    if m.handlers[h].callback.sub in m.db.cases {
      Theorems.CommittedIsFound(m, m.handlers[h]);
    }
  }

  lemma HandlerStepHistory(past: seq<Step>, m: State, x: Step, h: Id)
    requires Structure(m) && Cases(m) && Handlers(m) && History(past, m) && Enabled(m, x)
    requires h in Apply(m, x).handlers
    ensures HandlerHistory(past + [x], h, Apply(m, x).handlers[h])
  {
    PhaseStep(m, x, h);
    var hd := Apply(m, x).handlers[h];
    FindSnoc(past, x, h, hd.callback.sub);
    if h !in m.handlers {
      assert Find(h) !in past;
    } else {
      assert HandlerHistory(past, h, m.handlers[h]);
      if x == Find(h) {
        FindsCommitted(m, h);
      }
    }
  }

  lemma CommitHistoryStep(past: seq<Step>, m: State, x: Step)
    requires CommitHistory(past, m) && Enabled(m, x)
    ensures CommitHistory(past + [x], Apply(m, x))
  {
    forall k: Id
      ensures Commit(k) in past + [x] <==> k in Apply(m, x).db.cases
    {
      CasesStep(m, x, k);
    }
  }

  lemma UnknownHandlerStep(past: seq<Step>, m: State, x: Step, h: Id)
    requires History(past, m) && Enabled(m, x) && h !in Apply(m, x).handlers
    ensures Find(h) !in past + [x]
  {
    PhaseStep(m, x, h);
  }

  lemma HistoryStep(past: seq<Step>, m: State, x: Step, t: State)
    requires Inv(m) && History(past, m) && Enabled(m, x) && t == Apply(m, x)
    ensures History(past + [x], t)
  {
    CommitHistoryStep(past, m, x);
    forall h: Id | h !in t.handlers
      ensures Find(h) !in past + [x]
    {
      UnknownHandlerStep(past, m, x, h);
    }
    forall h: Id | h in t.handlers
      ensures HandlerHistory(past + [x], h, t.handlers[h])
    {
      HandlerStepHistory(past, m, x, h);
    }
  }

  lemma EmptyHistory(contests: map<Id, Platform.Contest>, maxTries: nat)
    ensures Inv(Init(contests, maxTries)) && History([], Init(contests, maxTries))
  {
    InitInv(contests, maxTries);
  }

  lemma HistoryAndInv(past: seq<Step>, m: State, x: Step, t: State)
    requires Inv(m) && History(past, m) && Enabled(m, x) && t == Apply(m, x)
    ensures Inv(t) && History(past + [x], t)
  {
    HistoryStep(past, m, x, t);
    StepInv(m, x);
  }

  lemma {:induction false} RunHistory(contests: map<Id, Platform.Contest>, maxTries: nat, steps: seq<Step>, t: State)
    requires Run(Init(contests, maxTries), steps, t)
    ensures Inv(t) && History(steps, t)
    decreases |steps|
  {
    if steps == [] {
      EmptyHistory(contests, maxTries);
    } else {
      var m := RunLast(Init(contests, maxTries), steps, t);
      var past, x := steps[..|steps| - 1], steps[|steps| - 1];
      RunHistory(contests, maxTries, past, m);
      HistoryAndInv(past, m, x, t);
      assert steps == past + [x];
    }
  }

  /** A callback ends in 404 exactly when its lookup came before the transaction of its submission. */
  lemma EarlyIff(contests: map<Id, Platform.Contest>, maxTries: nat, steps: seq<Step>, t: State, h: Id)
    requires Run(Init(contests, maxTries), steps, t) && h in t.handlers
    ensures t.handlers[h].phase == Done(404) <==> FindBefore(steps, h, t.handlers[h].callback.sub)
    ensures t.handlers[h].phase == Received <==> Find(h) !in steps
  {
    RunHistory(contests, maxTries, steps, t);
    var hd := t.handlers[h];
    assert HandlerHistory(steps, h, hd);
    if Find(h) in steps {
      var i :| 0 <= i < |steps| && steps[i] == Find(h);
      assert FindBefore(steps, h, hd.callback.sub) || FindAfter(steps, h, hd.callback.sub);
    }
  }

  /***** completion *****/

  /** A delivery of this case with a final verdict that looked for its case after the transaction. */
  ghost predicate LateDelivery(steps: seq<Step>, t: State, h: Id, cb: Callback) {
    h in t.handlers && t.handlers[h].callback == cb && Grader.IsFinal(Platform.PayloadVerdict(t.handlers[h].payload))
    && FindAfter(steps, h, cb.sub)
  }

  ghost predicate Delivered(steps: seq<Step>, t: State, cb: Callback) {
    exists h :: LateDelivery(steps, t, h, cb)
  }

  /** Likewise, with a handler that has come to its end. */
  ghost predicate DeliveredToTheEnd(steps: seq<Step>, t: State, cb: Callback) {
    exists h :: LateDelivery(steps, t, h, cb) && t.handlers[h].phase.Done?
  }

  lemma EndedLate(steps: seq<Step>, t: State, h: Id)
    requires h in t.handlers && HandlerOk(t, t.handlers[h]) && HandlerHistory(steps, h, t.handlers[h])
    requires t.handlers[h].phase.Done? && FindAfter(steps, h, t.handlers[h].callback.sub)
    ensures t.handlers[h].phase == Done(204)
  {
  }

  lemma TokenOfCase(t: State, k: Id, i: nat, h: Id)
    requires Structure(t) && Cases(t) && Handlers(t) && k in t.db.cases && i < |t.db.cases[k]|
    requires h in t.handlers && t.handlers[h].callback == Callback(k, t.db.cases[k][i].testCase)
    ensures t.handlers[h].token == t.db.cases[k][i].token
  {
    assert HandlerOk(t, t.handlers[h]);
    LocatedToken(t, t.handlers[h], i);
  }

  lemma EndedDelivery(steps: seq<Step>, t: State, k: Id, i: nat)
    requires Structure(t) && Cases(t) && Handlers(t) && History(steps, t) && k in t.db.cases && i < |t.db.cases[k]|
    requires DeliveredToTheEnd(steps, t, Callback(k, t.db.cases[k][i].testCase))
    ensures Theorems.FinalDelivery(t, t.db.cases[k][i].token)
  {
    var h :| LateDelivery(steps, t, h, Callback(k, t.db.cases[k][i].testCase)) && t.handlers[h].phase.Done?;
    EndedLate(steps, t, h);
    TokenOfCase(t, k, i, h);
  }

  lemma GradedWasDelivered(steps: seq<Step>, t: State, k: Id, i: nat)
    requires Structure(t) && Cases(t) && Handlers(t) && Served(t) && History(steps, t)
    requires k in t.db.cases && i < |t.db.cases[k]| && Grader.IsFinal(t.db.cases[k][i].status)
    ensures Delivered(steps, t, Callback(k, t.db.cases[k][i].testCase))
  {
    assert ServedBy(t, t.db.cases[k][i].token);
    var h :| h in t.handlers && t.handlers[h].token == t.db.cases[k][i].token && PastUpdate(t.handlers[h].phase);
    Theorems.JobHandler(t, k, i, h);
    assert HandlerHistory(steps, h, t.handlers[h]);
    assert LateDelivery(steps, t, h, Callback(k, t.db.cases[k][i].testCase));
  }

  lemma RunIsReachable(contests: map<Id, Platform.Contest>, maxTries: nat, steps: seq<Step>, t: State)
    requires Run(Init(contests, maxTries), steps, t)
    ensures Reachable(t) && t.db.contests == contests
  {
    RunKeepsParameters(Init(contests, maxTries), steps, t);
  }

  /**
   A submission is final only if every case had a delivery with a final verdict whose lookup followed the
   transaction, and it is final if every case had one that came to its end, whatever became of other handlers.
   */
  lemma CompletionBounds(contests: map<Id, Platform.Contest>, maxTries: nat, steps: seq<Step>, t: State, k: Id)
    requires Run(Init(contests, maxTries), steps, t) && k in t.db.cases
    ensures k in t.db.submissions
    ensures Grader.IsFinal(t.db.submissions[k].status) ==>
              forall i :: 0 <= i < |t.db.cases[k]| ==> Delivered(steps, t, Callback(k, t.db.cases[k][i].testCase))
    ensures (forall i :: 0 <= i < |t.db.cases[k]| ==>
             DeliveredToTheEnd(steps, t, Callback(k, t.db.cases[k][i].testCase)))
            ==> Grader.IsFinal(t.db.submissions[k].status)
  {
    RunHistory(contests, maxTries, steps, t);
    RunIsReachable(contests, maxTries, steps, t);
    assert StatusOk(t.db.submissions[k], t.db.cases[k]);
    if Grader.IsFinal(t.db.submissions[k].status) {
      Theorems.FinalStatusIsRight(t, k);
      forall i | 0 <= i < |t.db.cases[k]|
        ensures Delivered(steps, t, Callback(k, t.db.cases[k][i].testCase))
      {
        GradedWasDelivered(steps, t, k, i);
      }
    }
    if forall i :: 0 <= i < |t.db.cases[k]| ==> DeliveredToTheEnd(steps, t, Callback(k, t.db.cases[k][i].testCase)) {
      forall i | 0 <= i < |t.db.cases[k]|
        ensures Theorems.FinalDelivery(t, t.db.cases[k][i].token)
      {
        EndedDelivery(steps, t, k, i);
      }
      Theorems.Completion(t, k);
    }
  }

  lemma {:induction false} RunKeepsParameters(s: State, steps: seq<Step>, t: State)
    requires Run(s, steps, t)
    ensures t.db.contests == s.db.contests && t.maxTries == s.maxTries
    decreases |steps|
  {
    if steps != [] {
      RunKeepsParameters(Apply(s, steps[0]), steps[1..], t);
    }
  }

  lemma DoneDelivered(steps: seq<Step>, t: State, cb: Callback)
    requires Theorems.HandlersDone(t, cb.sub)
    ensures Delivered(steps, t, cb) <==> DeliveredToTheEnd(steps, t, cb)
  {
    if h :| LateDelivery(steps, t, h, cb) {
      assert t.handlers[h].phase.Done?;
    }
  }

  /**
   When none of its handlers is under way, a submission is final exactly if each case had a delivery with a
   final verdict whose lookup followed the transaction.
   */
  lemma CompletionIff(contests: map<Id, Platform.Contest>, maxTries: nat, steps: seq<Step>, t: State, k: Id)
    requires Run(Init(contests, maxTries), steps, t) && k in t.db.cases && Theorems.HandlersDone(t, k)
    ensures k in t.db.submissions
    ensures Grader.IsFinal(t.db.submissions[k].status) <==>
            forall i :: 0 <= i < |t.db.cases[k]| ==> Delivered(steps, t, Callback(k, t.db.cases[k][i].testCase))
  {
    CompletionBounds(contests, maxTries, steps, t, k);
    forall i | 0 <= i < |t.db.cases[k]|
      ensures Delivered(steps, t, Callback(k, t.db.cases[k][i].testCase))
          <==> DeliveredToTheEnd(steps, t, Callback(k, t.db.cases[k][i].testCase))
    {
      DoneDelivered(steps, t, Callback(k, t.db.cases[k][i].testCase));
    }
  }

  /** If no callback of a submission looks before the transaction, one completed final delivery per case is enough. */
  lemma OnTimeCompletion(contests: map<Id, Platform.Contest>, maxTries: nat, steps: seq<Step>, t: State, k: Id)
    requires Run(Init(contests, maxTries), steps, t) && k in t.db.cases
    requires forall h :: h in t.handlers && t.handlers[h].callback.sub == k ==> !FindBefore(steps, h, k)
    requires forall i :: 0 <= i < |t.db.cases[k]| ==>
               exists h :: h in t.handlers && t.handlers[h].callback == Callback(k, t.db.cases[k][i].testCase)
                           && t.handlers[h].phase.Done?
                              && Grader.IsFinal(Platform.PayloadVerdict(t.handlers[h].payload))
    ensures k in t.db.submissions && Grader.IsFinal(t.db.submissions[k].status)
  {
    RunHistory(contests, maxTries, steps, t);
    CompletionBounds(contests, maxTries, steps, t, k);
    forall i | 0 <= i < |t.db.cases[k]|
      ensures DeliveredToTheEnd(steps, t, Callback(k, t.db.cases[k][i].testCase))
    {
      var cb := Callback(k, t.db.cases[k][i].testCase);
      var h :| h in t.handlers && t.handlers[h].callback == cb && t.handlers[h].phase.Done?
               && Grader.IsFinal(Platform.PayloadVerdict(t.handlers[h].payload));
      assert HandlerHistory(steps, h, t.handlers[h]);
      assert LateDelivery(steps, t, h, cb);
    }
  }
}
