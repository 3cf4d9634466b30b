/** The order of updates, snapshots and writes in a run decides the count that it ends with. */
module ProtocolOrder {
  import opened Wrappers
  import Grader
  import opened Judge0Batch
  import opened Platform
  import opened Protocol
  import opened ProtocolInvariant
  import Theorems = ProtocolTheorems
  import Scores = ProtocolScores
  import LastWrites = ProtocolLastWrites

  /***** what a run of steps says *****/

  /** A delivery of this callback updated its row. */
  ghost predicate UpdatedIn(steps: seq<Step>, hs: map<Id, Handler>, cb: Callback) {
    exists i :: 0 <= i < |steps| && steps[i].Update? && steps[i].h in hs && hs[steps[i].h].callback == cb
  }

  /** It did so before handler `g` read the rows. */
  ghost predicate UpdatedBefore(steps: seq<Step>, hs: map<Id, Handler>, g: Id, cb: Callback) {
    exists j :: 0 <= j < |steps| && steps[j].Snapshot? && steps[j].h == g && UpdatedIn(steps[..j], hs, cb)
  }

  /** The handler of the last write to submission `k`. */
  function LastWriter(steps: seq<Step>, hs: map<Id, Handler>, k: Id): Option<Id> {
    if steps == [] then None
    else
      var x := steps[|steps| - 1];
      if x.Write? && x.h in hs && hs[x.h].callback.sub == k then Some(x.h)
      else LastWriter(steps[..|steps| - 1], hs, k)
  }

  lemma BeforeSnoc(past: seq<Step>, x: Step, hs: map<Id, Handler>, g: Id, cb: Callback)
    ensures UpdatedBefore(past + [x], hs, g, cb) <==>
            UpdatedBefore(past, hs, g, cb) || (x.Snapshot? && x.h == g && UpdatedIn(past, hs, cb))
  {
    var steps := past + [x];
    assert steps[|past|] == x && steps[..|past|] == past;
    assert forall j :: 0 <= j < |past| ==> steps[j] == past[j] && steps[..j] == past[..j];
  }

  /** Handlers that took steps are there, and keep their callbacks. */
  ghost predicate KnownIn(steps: seq<Step>, hs: map<Id, Handler>) {
    forall i :: 0 <= i < |steps| && (steps[i].Update? || steps[i].Write?) ==> steps[i].h in hs
  }

  ghost predicate SameCallbacks(hs: map<Id, Handler>, hs': map<Id, Handler>) {
    forall h :: h in hs ==> h in hs' && hs'[h].callback == hs[h].callback
  }

  lemma UpdatedSame(steps: seq<Step>, hs: map<Id, Handler>, hs': map<Id, Handler>, cb: Callback)
    requires KnownIn(steps, hs) && SameCallbacks(hs, hs')
    ensures UpdatedIn(steps, hs, cb) <==> UpdatedIn(steps, hs', cb)
  {
  }

  lemma BeforeSame(steps: seq<Step>, hs: map<Id, Handler>, hs': map<Id, Handler>, g: Id, cb: Callback)
    requires KnownIn(steps, hs) && SameCallbacks(hs, hs')
    ensures UpdatedBefore(steps, hs, g, cb) <==> UpdatedBefore(steps, hs', g, cb)
  {
    forall j | 0 <= j < |steps|
      ensures UpdatedIn(steps[..j], hs, cb) <==> UpdatedIn(steps[..j], hs', cb)
    {
      UpdatedSame(steps[..j], hs, hs', cb);
    }
  }

  lemma {:induction false} WriterSame(steps: seq<Step>, hs: map<Id, Handler>, hs': map<Id, Handler>, k: Id)
    requires KnownIn(steps, hs) && SameCallbacks(hs, hs')
    ensures LastWriter(steps, hs, k) == LastWriter(steps, hs', k)
  {
    if steps != [] {
      WriterSame(steps[..|steps| - 1], hs, hs', k);
    }
  }

  /***** rows and handlers *****/

  /** The handlers that have updated their case are those whose update is in the run. */
  ghost predicate UpdatersHistory(steps: seq<Step>, t: State) {
    && KnownIn(steps, t.handlers)
    && forall h: Id :: Update(h) in steps <==> h in t.handlers && PastUpdate(t.handlers[h].phase)
  }

  lemma UpdaterStep(m: State, x: Step, h: Id)
    requires Enabled(m, x)
    ensures h in Apply(m, x).handlers && PastUpdate(Apply(m, x).handlers[h].phase) <==>
            (h in m.handlers && PastUpdate(m.handlers[h].phase)) || x == Update(h)
  {
  }

  lemma CallbacksStep(m: State, x: Step)
    requires Enabled(m, x)
    ensures SameCallbacks(m.handlers, Apply(m, x).handlers)
    ensures x.Update? || x.Write? || x.Snapshot? ==> x.h in m.handlers
  {
  }

  lemma UpdatersStep(past: seq<Step>, m: State, x: Step)
    requires UpdatersHistory(past, m) && Enabled(m, x)
    ensures UpdatersHistory(past + [x], Apply(m, x))
  {
    CallbacksStep(m, x);
    forall h: Id
      ensures Update(h) in past + [x] <==>
              h in Apply(m, x).handlers && PastUpdate(Apply(m, x).handlers[h].phase)
    {
      UpdaterStep(m, x, h);
    }
  }

  /** A row is graded exactly when a delivery of its callback has updated it. */
  lemma GradedIff(steps: seq<Step>, t: State, k: Id, i: nat)
    requires Structure(t) && Cases(t) && Handlers(t) && Served(t) && UpdatersHistory(steps, t)
    requires k in t.db.cases && i < |t.db.cases[k]|
    ensures t.db.cases[k][i].status != Grader.PENDING <==>
            UpdatedIn(steps, t.handlers, Callback(k, t.db.cases[k][i].testCase))
  {
    if t.db.cases[k][i].status != Grader.PENDING {
      assert ServedBy(t, t.db.cases[k][i].token);
      var h :| h in t.handlers && t.handlers[h].token == t.db.cases[k][i].token && PastUpdate(t.handlers[h].phase);
      Theorems.JobHandler(t, k, i, h);
      assert Update(h) in steps;
      var n :| 0 <= n < |steps| && steps[n] == Update(h);
    } else {
      BlankIsOpen(t, k, i);
    }
  }

  /***** snapshots *****/

  /** The snapshot that handler `g` took shows, of the rows graded by now, those updated before it. */
  ghost predicate Reflects(steps: seq<Step>, t: State, g: Id, snapshot: seq<CaseRow>, k: Id) {
    && k in t.db.cases && SnapshotOk(snapshot, t.db.cases[k])
    && forall i :: 0 <= i < |t.db.cases[k]| && t.db.cases[k][i].status != Grader.PENDING ==>
         (t.db.cases[k][i] in snapshot <==>
          UpdatedBefore(steps, t.handlers, g, Callback(k, t.db.cases[k][i].testCase)))
  }

  /** A row graded after a snapshot is not in it. */
  lemma GradedLater(s: State, t: State, k: Id, i: nat, snapshot: seq<CaseRow>)
    requires Structure(s) && Cases(s) && k in s.db.cases && k in t.db.cases && i < |s.db.cases[k]|
    requires SnapshotOk(snapshot, s.db.cases[k]) && SameTests(s.db.cases[k], t.db.cases[k])
    requires s.db.cases[k][i].status == Grader.PENDING && t.db.cases[k][i].status != Grader.PENDING
    ensures t.db.cases[k][i] !in snapshot
  {
    var rows, r := s.db.cases[k], t.db.cases[k][i];
    var base: seq<CaseRow> :| Grow(base, rows) && multiset(base) == multiset(snapshot);
    if r in snapshot {
      assert r in multiset(base);
      var j :| 0 <= j < |base| && base[j] == r;
      assert rows[j] == r;
      RowIndexUnique(s, k, i, j);
    }
  }

  /** A handler past its snapshot takes no other one. */
  lemma BeforeStep(past: seq<Step>, m: State, x: Step, g: Id, cb: Callback)
    requires UpdatersHistory(past, m) && Enabled(m, x) && g in m.handlers && !m.handlers[g].phase.Updated?
    ensures UpdatedBefore(past + [x], Apply(m, x).handlers, g, cb) <==> UpdatedBefore(past, m.handlers, g, cb)
  {
    var t := Apply(m, x);
    CallbacksStep(m, x);
    BeforeSnoc(past, x, t.handlers, g, cb);
    BeforeSame(past, m.handlers, t.handlers, g, cb);
  }

  lemma BeforeIsIn(steps: seq<Step>, hs: map<Id, Handler>, g: Id, cb: Callback)
    requires UpdatedBefore(steps, hs, g, cb)
    ensures UpdatedIn(steps, hs, cb)
  {
    var j :| 0 <= j < |steps| && steps[j].Snapshot? && steps[j].h == g && UpdatedIn(steps[..j], hs, cb);
    var i :| 0 <= i < j && steps[..j][i].Update? && steps[..j][i].h in hs && hs[steps[..j][i].h].callback == cb;
    assert steps[i] == steps[..j][i];
  }

  lemma ReflectsRow(past: seq<Step>, m: State, x: Step, g: Id, snapshot: seq<CaseRow>, k: Id, i: nat)
    requires Structure(m) && Cases(m) && Handlers(m) && Served(m) && UpdatersHistory(past, m) && Enabled(m, x)
    requires Reflects(past, m, g, snapshot, k) && g in m.handlers && !m.handlers[g].phase.Updated?
    requires CasesKeep(m, Apply(m, x)) && i < |m.db.cases[k]|
    ensures var t := Apply(m, x);
            t.db.cases[k][i].status != Grader.PENDING ==>
              (t.db.cases[k][i] in snapshot <==>
               UpdatedBefore(past + [x], t.handlers, g, Callback(k, t.db.cases[k][i].testCase)))
  {
    var t := Apply(m, x);
    var cb := Callback(k, m.db.cases[k][i].testCase);
    BeforeStep(past, m, x, g, cb);
    if m.db.cases[k][i].status == Grader.PENDING && t.db.cases[k][i].status != Grader.PENDING {
      GradedLater(m, t, k, i, snapshot);
      GradedIff(past, m, k, i);
      if UpdatedBefore(past, m.handlers, g, cb) {
        BeforeIsIn(past, m.handlers, g, cb);
      }
    }
  }

  lemma ReflectsStep(past: seq<Step>, m: State, x: Step, g: Id, snapshot: seq<CaseRow>, k: Id)
    requires Inv(m) && UpdatersHistory(past, m) && Enabled(m, x)
    requires Reflects(past, m, g, snapshot, k) && g in m.handlers && !m.handlers[g].phase.Updated?
    ensures Reflects(past + [x], Apply(m, x), g, snapshot, k)
  {
    var t := Apply(m, x);
    LastWrites.CasesKeepStep(m, x);
    SnapshotGrow(snapshot, m.db.cases[k], t.db.cases[k]);
    forall i | 0 <= i < |t.db.cases[k]| && t.db.cases[k][i].status != Grader.PENDING
      ensures t.db.cases[k][i] in snapshot <==>
              UpdatedBefore(past + [x], t.handlers, g, Callback(k, t.db.cases[k][i].testCase))
    {
      ReflectsRow(past, m, x, g, snapshot, k, i);
    }
  }

  /** A new snapshot shows all rows graded by now. */
  lemma SnapshotReflects(past: seq<Step>, m: State, x: Step)
    requires Inv(m) && UpdatersHistory(past, m) && Enabled(m, x) && x.Snapshot?
    ensures Reflects(past + [x], Apply(m, x), x.h, x.order, m.handlers[x.h].callback.sub)
  {
    var t := Apply(m, x);
    var k := m.handlers[x.h].callback.sub;
    CallbacksStep(m, x);
    Theorems.SameCases(m, x);
    assert StatusOk(m.db.submissions[k], m.db.cases[k]);
    FreshSnapshotOk(x.order, m.db.cases[k]);
    forall i | 0 <= i < |t.db.cases[k]| && t.db.cases[k][i].status != Grader.PENDING
      ensures t.db.cases[k][i] in x.order
      ensures UpdatedBefore(past + [x], t.handlers, x.h, Callback(k, t.db.cases[k][i].testCase))
    {
      var cb := Callback(k, t.db.cases[k][i].testCase);
      assert m.db.cases[k][i] in multiset(x.order);
      GradedIff(past, m, k, i);
      UpdatedSame(past, m.handlers, t.handlers, cb);
      BeforeSnoc(past, x, t.handlers, x.h, cb);
    }
  }

  ghost predicate SnapshotsHistory(steps: seq<Step>, t: State, k: Id) {
    forall g :: g in t.handlers && t.handlers[g].callback.sub == k && t.handlers[g].phase.Snapped? ==>
      Reflects(steps, t, g, t.handlers[g].phase.snapshot, k)
  }

  lemma SnappedStep(m: State, x: Step, g: Id)
    requires Enabled(m, x) && g in Apply(m, x).handlers && Apply(m, x).handlers[g].phase.Snapped?
    ensures g in m.handlers && m.handlers[g].callback == Apply(m, x).handlers[g].callback
    ensures (x.Snapshot? && x.h == g && Apply(m, x).handlers[g].phase == Snapped(x.order))
         || m.handlers[g].phase == Apply(m, x).handlers[g].phase
  {
  }

  lemma SnapshotsStep(past: seq<Step>, m: State, x: Step, k: Id)
    requires Inv(m) && UpdatersHistory(past, m) && SnapshotsHistory(past, m, k) && Enabled(m, x)
    ensures SnapshotsHistory(past + [x], Apply(m, x), k)
  {
    var t := Apply(m, x);
    forall g | g in t.handlers && t.handlers[g].callback.sub == k && t.handlers[g].phase.Snapped?
      ensures Reflects(past + [x], t, g, t.handlers[g].phase.snapshot, k)
    {
      SnappedStep(m, x, g);
      if m.handlers[g].phase == t.handlers[g].phase {
        ReflectsStep(past, m, x, g, t.handlers[g].phase.snapshot, k);
      } else {
        SnapshotReflects(past, m, x);
      }
    }
  }

  /***** writes *****/

  /** The count is that of the snapshot behind a write of handler `w`. */
  ghost predicate Stored(steps: seq<Step>, t: State, w: Id, k: Id) {
    && w in t.handlers && Theorems.HasWritten(t.handlers[w].phase)
    && exists snapshot :: Reflects(steps, t, w, snapshot, k) && LastWrites.Count(t.db, k) == Passed(snapshot)
  }

  ghost predicate WritesHistory(steps: seq<Step>, t: State, k: Id) {
    match LastWriter(steps, t.handlers, k)
    case None => LastWrites.Count(t.db, k) == 0
    case Some(w) => Stored(steps, t, w, k)
  }

  lemma WriteStored(past: seq<Step>, m: State, x: Step, k: Id)
    requires Inv(m) && UpdatersHistory(past, m) && SnapshotsHistory(past, m, k) && Enabled(m, x)
    requires x.Write? && m.handlers[x.h].callback.sub == k
    ensures Stored(past + [x], Apply(m, x), x.h, k)
  {
    var snapshot := m.handlers[x.h].phase.snapshot;
    ReflectsStep(past, m, x, x.h, snapshot, k);
    LastWrites.CountStep(m, x, k);
  }

  lemma WrittenStays(m: State, x: Step, w: Id)
    requires Enabled(m, x) && w in m.handlers && Theorems.HasWritten(m.handlers[w].phase)
    ensures w in Apply(m, x).handlers && Theorems.HasWritten(Apply(m, x).handlers[w].phase)
  {
  }

  lemma StoredStays(past: seq<Step>, m: State, x: Step, w: Id, k: Id)
    requires Inv(m) && UpdatersHistory(past, m) && Stored(past, m, w, k) && Enabled(m, x)
    requires LastWrites.Count(Apply(m, x).db, k) == LastWrites.Count(m.db, k)
    ensures Stored(past + [x], Apply(m, x), w, k)
  {
    var snapshot :| Reflects(past, m, w, snapshot, k) && LastWrites.Count(m.db, k) == Passed(snapshot);
    WrittenStays(m, x, w);
    ReflectsStep(past, m, x, w, snapshot, k);
  }

  lemma WriterStep(past: seq<Step>, m: State, x: Step, k: Id)
    requires UpdatersHistory(past, m) && Enabled(m, x)
    ensures LastWriter(past + [x], Apply(m, x).handlers, k) ==
            if x.Write? && m.handlers[x.h].callback.sub == k then Some(x.h) else LastWriter(past, m.handlers, k)
  {
    CallbacksStep(m, x);
    WriterSame(past, m.handlers, Apply(m, x).handlers, k);
    assert (past + [x])[..|past|] == past;
  }

  lemma WritesStep(past: seq<Step>, m: State, x: Step, k: Id)
    requires Inv(m) && UpdatersHistory(past, m) && SnapshotsHistory(past, m, k) && WritesHistory(past, m, k)
             && Enabled(m, x)
    ensures WritesHistory(past + [x], Apply(m, x), k)
  {
    WriterStep(past, m, x, k);
    LastWrites.CountStep(m, x, k);
    if x.Write? && m.handlers[x.h].callback.sub == k {
      WriteStored(past, m, x, k);
    } else if LastWriter(past, m.handlers, k).Some? {
      StoredStays(past, m, x, LastWriter(past, m.handlers, k).value, k);
    }
  }

  /***** every run *****/

  ghost predicate OrderHistory(steps: seq<Step>, t: State, k: Id) {
    UpdatersHistory(steps, t) && SnapshotsHistory(steps, t, k) && WritesHistory(steps, t, k)
  }

  ghost predicate OrderOk(steps: seq<Step>, t: State, k: Id) {
    Inv(t) && OrderHistory(steps, t, k)
  }

  lemma OrderStep(past: seq<Step>, m: State, x: Step, t: State, k: Id)
    requires OrderOk(past, m, k) && Enabled(m, x) && t == Apply(m, x)
    ensures OrderOk(past + [x], t, k)
  {
    UpdatersStep(past, m, x);
    SnapshotsStep(past, m, x, k);
    WritesStep(past, m, x, k);
    StepInv(m, x);
  }

  lemma EmptyOrder(contests: map<Id, Contest>, maxTries: nat, k: Id)
    ensures OrderOk([], Init(contests, maxTries), k)
  {
    InitInv(contests, maxTries);
  }

  lemma {:induction false} OrderFrom(past: seq<Step>, m: State, steps: seq<Step>, t: State, k: Id, whole: seq<Step>)
    requires OrderOk(past, m, k) && Run(m, steps, t) && whole == past + steps
    ensures OrderOk(whole, t, k)
    decreases |steps|
  {
    if steps == [] {
      assert whole == past && t == m;
    } else {
      var next := Apply(m, steps[0]);
      OrderStep(past, m, steps[0], next, k);
      assert whole == past + [steps[0]] + steps[1..];
      OrderFrom(past + [steps[0]], next, steps[1..], t, k, whole);
    }
  }

  lemma RunOrder(contests: map<Id, Contest>, maxTries: nat, steps: seq<Step>, t: State, k: Id)
    requires Run(Init(contests, maxTries), steps, t)
    ensures OrderOk(steps, t, k)
  {
    EmptyOrder(contests, maxTries, k);
    OrderFrom([], Init(contests, maxTries), steps, t, k, steps);
  }

  /** Every accepted row was updated before the handler of the last write read the rows. */
  ghost predicate ReadAllAccepted(steps: seq<Step>, t: State, k: Id)
    requires k in t.db.cases
  {
    forall i :: 0 <= i < |t.db.cases[k]| && t.db.cases[k][i].status == Grader.AC ==>
      var w := LastWriter(steps, t.handlers, k);
      w.Some? && UpdatedBefore(steps, t.handlers, w.value, Callback(k, t.db.cases[k][i].testCase))
  }

  lemma NoneAccepted(rows: seq<CaseRow>)
    ensures Passed(rows) == 0 <==> forall i :: 0 <= i < |rows| ==> rows[i].status != Grader.AC
  {
    LastWrites.PassedZeroIff(rows);
    assert forall r :: r in rows <==> exists i :: 0 <= i < |rows| && rows[i] == r;
  }

  lemma ShownIff(rows: seq<CaseRow>, snapshot: seq<CaseRow>)
    ensures (forall r :: r in rows && r.status == Grader.AC ==> r in snapshot) <==>
            forall i :: 0 <= i < |rows| && rows[i].status == Grader.AC ==> rows[i] in snapshot
  {
  }

  lemma StoredIff(steps: seq<Step>, t: State, w: Id, k: Id)
    requires Structure(t) && Cases(t) && k in t.db.cases && k in t.db.submissions && Stored(steps, t, w, k)
    ensures t.db.submissions[k].passedCount == Passed(t.db.cases[k]) <==>
            forall i :: 0 <= i < |t.db.cases[k]| && t.db.cases[k][i].status == Grader.AC ==>
              UpdatedBefore(steps, t.handlers, w, Callback(k, t.db.cases[k][i].testCase))
  {
    var rows := t.db.cases[k];
    var snapshot :| Reflects(steps, t, w, snapshot, k) && LastWrites.Count(t.db, k) == Passed(snapshot);
    Scores.RowsDistinct(t, k);
    Scores.SnapshotPassedIff(snapshot, rows);
    ShownIff(rows, snapshot);
  }

  lemma OrderDecides(steps: seq<Step>, t: State, k: Id)
    requires Structure(t) && Cases(t) && WritesHistory(steps, t, k) && k in t.db.cases && k in t.db.submissions
    ensures t.db.submissions[k].passedCount == Passed(t.db.cases[k]) <==> ReadAllAccepted(steps, t, k)
  {
    var w := LastWriter(steps, t.handlers, k);
    if w.Some? {
      StoredIff(steps, t, w.value, k);
    } else {
      NoneAccepted(t.db.cases[k]);
    }
  }

  /**
   The count a run ends with is right exactly when the handler whose write comes last read the rows after an update
   of every case that is accepted at the end.
   */
  lemma CountRightIff(contests: map<Id, Contest>, maxTries: nat, steps: seq<Step>, t: State, k: Id)
    requires Run(Init(contests, maxTries), steps, t) && k in t.db.cases
    ensures k in t.db.submissions
    ensures t.db.submissions[k].passedCount == Passed(t.db.cases[k]) <==> ReadAllAccepted(steps, t, k)
  {
    RunOrder(contests, maxTries, steps, t, k);
    assert StatusOk(t.db.submissions[k], t.db.cases[k]);
    OrderDecides(steps, t, k);
  }
}
