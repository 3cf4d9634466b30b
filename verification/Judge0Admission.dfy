/**
 Admission as the controller does it: a request checks the size of the queue once and then saves its entries one by
 one, while other requests and the workers go on (submissions_controller.rb).
 */
module Judge0Admission {
  import opened Wrappers
  import opened Judge0Batch
  import opened Judge0Queue
  import Workers = Judge0Workers

  /** The entries that admitted requests have still to save. */
  datatype System = System(j: Judge0, pending: map<Id, seq<Entry>>)

  datatype Step =
    | Check(request: Id, entries: seq<Entry>)
    | Save(request: Id, reply: Option<Id>)
    | Work(step: Workers.Step)

  ghost predicate Enabled(s: System, maxQueue: nat, step: Step) {
    match step
    case Check(r, es) => r !in s.pending && FitsQueue(s.j, Some(es), maxQueue)
    case Save(r, reply) =>
      && r in s.pending && s.pending[r] != [] && (reply.Some? <==> s.pending[r][0].valid)
      && (reply.Some? ==> !HasToken(s.j.rows, reply.value))
    case Work(x) => !x.Batch? && Workers.Enabled(s.j, maxQueue, x)
  }

  function Saved(j: Judge0, item: Item, reply: Option<Id>): Judge0 {
    if reply.Some? then Append(j, item, reply.value) else j
  }

  ghost function Apply(s: System, maxQueue: nat, step: Step): System
    requires Enabled(s, maxQueue, step)
  {
    match step
    case Check(r, es) => s.(pending := s.pending[r := es])
    case Save(r, reply) =>
      System(Saved(s.j, s.pending[r][0].item, reply), s.pending[r := s.pending[r][1..]])
    case Work(x) => s.(j := Workers.Apply(s.j, maxQueue, x))
  }

  ghost predicate Run(s: System, maxQueue: nat, steps: seq<Step>, t: System)
    decreases |steps|
  {
    if steps == [] then s == t
    else Enabled(s, maxQueue, steps[0]) && Run(Apply(s, maxQueue, steps[0]), maxQueue, steps[1..], t)
  }

  lemma {:induction false} RunConcat(s: System, maxQueue: nat, a: seq<Step>, m: System, b: seq<Step>, t: System)
    requires Run(s, maxQueue, a, m) && Run(m, maxQueue, b, t)
    ensures Run(s, maxQueue, a + b, t)
    decreases |a|
  {
    if a == [] {
      assert a + b == b;
    } else {
      RunConcat(Apply(s, maxQueue, a[0]), maxQueue, a[1..], m, b, t);
      assert (a + b)[1..] == a[1..] + b;
    }
  }

  /***** one request at a time *****/

  /** No admitted request has anything left to save. */
  ghost predicate Idle(s: System) {
    forall r :: r in s.pending ==> s.pending[r] == []
  }

  /** Requests are admitted only when no other one has entries to save. */
  ghost predicate Serial(s: System, maxQueue: nat, steps: seq<Step>)
    decreases |steps|
  {
    steps == [] || !Enabled(s, maxQueue, steps[0])
    || ((steps[0].Check? ==> Idle(s)) && Serial(Apply(s, maxQueue, steps[0]), maxQueue, steps[1..]))
  }

  /** There is room for what is left to save, and at most one request has anything left. */
  ghost predicate Room(s: System, maxQueue: nat) {
    && |s.j.queue| <= maxQueue
    && (forall r :: r in s.pending ==> |s.j.queue| + |s.pending[r]| <= maxQueue)
    && (forall q, r :: q in s.pending && r in s.pending && q != r ==> s.pending[q] == [] || s.pending[r] == [])
  }

  lemma RoomStep(s: System, maxQueue: nat, step: Step)
    requires Room(s, maxQueue) && Enabled(s, maxQueue, step) && (step.Check? ==> Idle(s))
    ensures Room(Apply(s, maxQueue, step), maxQueue)
  {
    if step.Save? {
      assert forall q :: q in s.pending && q != step.request ==> s.pending[q] == [];
    }
  }

  /** One request at a time, the queue keeps its limit at every moment, whatever the workers do. */
  lemma {:induction false} SerialIsBounded(s: System, maxQueue: nat, steps: seq<Step>, t: System)
    requires Room(s, maxQueue) && Serial(s, maxQueue, steps) && Run(s, maxQueue, steps, t)
    ensures Room(t, maxQueue)
    decreases |steps|
  {
    if steps != [] {
      RoomStep(s, maxQueue, steps[0]);
      SerialIsBounded(Apply(s, maxQueue, steps[0]), maxQueue, steps[1..], t);
    }
  }

  /***** a request without interruption *****/

  lemma {:induction false} EnqueueFirst(j: Judge0, items: seq<Item>, replies: seq<Option<Id>>)
    requires |items| == |replies| && items != []
    ensures Enqueue(j, items, replies) == Enqueue(Saved(j, items[0], replies[0]), items[1..], replies[1..])
    decreases |items|
  {
    var n := |items| - 1;
    if n == 0 {
      assert items[..0] == [] && items[1..] == [];
    } else {
      EnqueueFirst(j, items[..n], replies[..n]);
      assert items[..n][1..] == items[1..][..n - 1] && replies[..n][1..] == replies[1..][..n - 1];
    }
  }

  lemma SavedAnswers(j: Judge0, es: seq<Entry>, replies: seq<Option<Id>>)
    requires es != [] && Answers(es, replies, j.rows) && forall id :: id in j.rows ==> id < j.nextId
    ensures Answers(es[1..], replies[1..], Saved(j, es[0].item, replies[0]).rows)
  {
    var k := Saved(j, es[0].item, replies[0]);
    forall i | 0 <= i < |es[1..]| && replies[1..][i].Some?
      ensures !HasToken(k.rows, replies[1..][i].value)
    {
      assert replies[1..][i] == replies[i + 1] != replies[0];
    }
  }

  /** The saves of an admitted request. */
  lemma {:induction false} Saves(s: System, maxQueue: nat, r: Id, replies: seq<Option<Id>>)
    returns (steps: seq<Step>, t: System)
    requires r in s.pending && Answers(s.pending[r], replies, s.j.rows)
    requires forall id :: id in s.j.rows ==> id < s.j.nextId
    ensures Run(s, maxQueue, steps, t)
    ensures t == System(Enqueue(s.j, EntryItems(s.pending[r]), replies), s.pending[r := []])
    decreases |s.pending[r]|
  {
    var es := s.pending[r];
    if es == [] {
      steps, t := [], s;
      assert s.pending == s.pending[r := []];
    } else {
      var step := Save(r, replies[0]);
      var m := Apply(s, maxQueue, step);
      SavedAnswers(s.j, es, replies);
      steps, t := Saves(m, maxQueue, r, replies[1..]);
      EnqueueFirst(s.j, EntryItems(es), replies);
      assert EntryItems(es)[1..] == EntryItems(es[1..]);
      assert m.pending[r := []] == s.pending[r := []];
      steps := [step] + steps;
    }
  }

  /** A request that nothing interrupts is the one step that the worker system takes it for. */
  lemma UninterruptedRequest(s: System, maxQueue: nat, r: Id, es: seq<Entry>, replies: seq<Option<Id>>)
    returns (steps: seq<Step>, t: System)
    requires r !in s.pending && FitsQueue(s.j, Some(es), maxQueue) && Answers(es, replies, s.j.rows)
    requires forall id :: id in s.j.rows ==> id < s.j.nextId
    ensures Run(s, maxQueue, steps, t)
    ensures Workers.Enabled(s.j, maxQueue, Workers.Batch(EntryItems(es), replies))
    ensures t == System(Workers.Apply(s.j, maxQueue, Workers.Batch(EntryItems(es), replies)), s.pending[r := []])
  {
    var m := Apply(s, maxQueue, Check(r, es));
    Workers.AdmittedIsStep(s.j, maxQueue, es, replies);
    steps, t := Saves(m, maxQueue, r, replies);
    assert m.pending[r := []] == s.pending[r := []];
    steps := [Check(r, es)] + steps;
  }

  /***** several requests at a time *****/

  function Repeated(e: Entry, n: nat): seq<Entry> {
    seq(n, _ => e)
  }

  /** `n` requests of the largest admitted size pass the check one after the other while the queue is still empty. */
  lemma {:induction false} Checks(maxQueue: nat, e: Entry, n: nat) returns (steps: seq<Step>, t: System)
    ensures Run(System(Workers.START, map[]), maxQueue, steps, t) && t.j == Workers.START
    ensures forall r: Id :: r in t.pending <==> r < n
    ensures forall r: Id :: r < n ==> t.pending[r] == Repeated(e, maxQueue)
    decreases n
  {
    if n == 0 {
      steps, t := [], System(Workers.START, map[]);
    } else {
      var before, m := Checks(maxQueue, e, n - 1);
      var check := Check(n - 1, Repeated(e, maxQueue));
      t := Apply(m, maxQueue, check);
      RunConcat(System(Workers.START, map[]), maxQueue, before, m, [check], t);
      steps := before + [check];
    }
  }

  lemma {:induction false} AllCounted(replies: seq<Option<Id>>)
    requires forall i :: 0 <= i < |replies| ==> replies[i].Some?
    ensures CountValid(replies) == |replies|
  {
    if replies != [] {
      AllCounted(replies[..|replies| - 1]);
    }
  }

  /** A request of valid entries can always be answered. */
  lemma AnswerAll(es: seq<Entry>, rows: map<Id, JobRow>, first: Id) returns (replies: seq<Option<Id>>)
    requires forall e :: e in es ==> e.valid
    requires forall t: Id :: HasToken(rows, t) ==> t < first
    ensures Answers(es, replies, rows) && CountValid(replies) == |es|
    ensures forall i :: 0 <= i < |replies| ==> replies[i] == Some(first + i)
  {
    replies := seq(|es|, i requires 0 <= i < |es| => Some(first + i));
    AllCounted(replies);
  }

  lemma FreshToken(rows: map<Id, JobRow>) returns (first: Id)
    ensures forall t: Id :: HasToken(rows, t) ==> t < first
  {
    var used := set id | id in rows :: rows[id].token;
    first := Unused(used);
    assert forall t: Id :: HasToken(rows, t) ==> t in used;
  }

  /** One request saves all its entries. */
  lemma SaveRequest(s: System, maxQueue: nat, r: Id) returns (steps: seq<Step>, t: System)
    requires r in s.pending && forall e :: e in s.pending[r] ==> e.valid
    requires forall id :: id in s.j.rows ==> id < s.j.nextId
    ensures Run(s, maxQueue, steps, t) && |t.j.queue| == |s.j.queue| + |s.pending[r]|
    ensures t.pending == s.pending[r := []] && forall id :: id in t.j.rows ==> id < t.j.nextId
  {
    var first := FreshToken(s.j.rows);
    var replies := AnswerAll(s.pending[r], s.j.rows, first);
    steps, t := Saves(s, maxQueue, r, replies);
    EnqueueFacts(s.j, EntryItems(s.pending[r]), replies);
  }

  /** The first `n` requests save all their entries. */
  lemma {:induction false} SaveRequests(s: System, maxQueue: nat, e: Entry, n: nat) returns (steps: seq<Step>,
                                                                                             t: System)
    requires e.valid && forall id :: id in s.j.rows ==> id < s.j.nextId
    requires forall r: Id :: r < n ==> r in s.pending && s.pending[r] == Repeated(e, maxQueue)
    ensures Run(s, maxQueue, steps, t) && |t.j.queue| == |s.j.queue| + n * maxQueue
    decreases n
  {
    if n == 0 {
      steps, t := [], s;
    } else {
      var a, m := SaveRequest(s, maxQueue, n - 1);
      var b: seq<Step>;
      b, t := SaveRequests(m, maxQueue, e, n - 1);
      RunConcat(s, maxQueue, a, m, b, t);
      steps := a + b;
      assert n * maxQueue == (n - 1) * maxQueue + maxQueue;
    }
  }

  /** Checks that overtake each other's saves leave no limit: `n` requests at a time fill the queue `n` times over. */
  lemma LimitExceeded(maxQueue: nat, e: Entry, n: nat) returns (steps: seq<Step>, t: System)
    requires e.valid
    ensures Run(System(Workers.START, map[]), maxQueue, steps, t) && |t.j.queue| == n * maxQueue
  {
    var a, m := Checks(maxQueue, e, n);
    var b: seq<Step>;
    b, t := SaveRequests(m, maxQueue, e, n);
    RunConcat(System(Workers.START, map[]), maxQueue, a, m, b, t);
    steps := a + b;
  }
}
