/** Any number of workers over the queue: the queue bound, and one sandbox per running job. */
module Judge0Workers {
  import opened Wrappers
  import opened Judge0Batch
  import IsolateJob
  import opened Judge0Queue

  datatype Step =
    | Batch(items: seq<Item>, replies: seq<Option<Id>>)
    | Take(worker: Id)
    | Finish(worker: Id, statusId: int)
    | Release(worker: Id)
    | Destroy(id: Id)

  /**
   Admission checks the whole request; a worker takes the head of the queue; a row in queue or processing is not
   deleted.
   */
  predicate Enabled(j: Judge0, maxQueue: nat, step: Step) {
    match step
    case Batch(items, replies) =>
      |items| == |replies| && DistinctTokens(replies) && |j.queue| + |items| <= maxQueue
    case Take(w) => j.queue != [] && w !in j.running
    case Finish(w, status) => w in j.running && IsolateJob.IsTerminal(status)
    case Release(w) => w in j.running
    case Destroy(id) =>
      id in j.rows && j.rows[id].statusId != IsolateJob.QUEUE && j.rows[id].statusId != IsolateJob.PROCESS
  }

  function WithStatus(j: Judge0, id: Id, status: int): Judge0 {
    if id in j.rows then j.(rows := j.rows[id := j.rows[id].(statusId := status)]) else j
  }

  function Apply(j: Judge0, maxQueue: nat, step: Step): Judge0
    requires Enabled(j, maxQueue, step)
  {
    match step
    case Batch(items, replies) => Enqueue(j, items, replies)
    case Take(w) => WithStatus(j, j.queue[0], IsolateJob.PROCESS).(queue := j.queue[1..],
                                                                   running := j.running[w := j.queue[0]])
    case Finish(w, status) => WithStatus(j, j.running[w], status)
    case Release(w) => j.(running := j.running - {w})
    case Destroy(id) => j.(rows := j.rows - {id})
  }

  /** A request that passes admission and is answered by `batch_create` is a step of this system. */
  lemma AdmittedIsStep(j: Judge0, maxQueue: nat, es: seq<Judge0Queue.Entry>, replies: seq<Option<Id>>)
    requires FitsQueue(j, Some(es), maxQueue) && Answers(es, replies, j.rows)
    ensures Enabled(j, maxQueue, Batch(EntryItems(es), replies))
    ensures Apply(j, maxQueue, Batch(EntryItems(es), replies)) == Enqueue(j, EntryItems(es), replies)
  {
  }

  predicate Run(j: Judge0, maxQueue: nat, steps: seq<Step>, k: Judge0)
    decreases |steps|
  {
    if steps == [] then j == k
    else Enabled(j, maxQueue, steps[0]) && Run(Apply(j, maxQueue, steps[0]), maxQueue, steps[1..], k)
  }

  const START := Judge0(map[], [], map[], 1)

  /** Ids are handed out once; each is in the queue or with one worker at most; a queued job has its row. */
  ghost predicate Inv(j: Judge0, maxQueue: nat) {
    && |j.queue| <= maxQueue
    && (forall id :: id in j.rows ==> 1 <= id < j.nextId)
    && (forall i :: 0 <= i < |j.queue| ==>
          1 <= j.queue[i] < j.nextId && j.queue[i] in j.rows && j.rows[j.queue[i]].statusId == IsolateJob.QUEUE)
    && (forall w :: w in j.running ==> 1 <= j.running[w] < j.nextId)
    && (forall i, k :: 0 <= i < k < |j.queue| ==> j.queue[i] != j.queue[k])
    && (forall v, w :: v in j.running && w in j.running && v != w ==> j.running[v] != j.running[w])
    && (forall w, i :: w in j.running && 0 <= i < |j.queue| ==> j.running[w] != j.queue[i])
    && j.nextId >= 1
  }

  lemma BatchInv(j: Judge0, maxQueue: nat, items: seq<Item>, replies: seq<Option<Id>>)
    requires Inv(j, maxQueue) && Enabled(j, maxQueue, Batch(items, replies))
    ensures Inv(Enqueue(j, items, replies), maxQueue)
  {
    EnqueueFacts(j, items, replies);
    CountValidBound(replies);
    var k := Enqueue(j, items, replies);
    forall i | 0 <= i < |k.queue|
      ensures k.queue[i] == if i < |j.queue| then j.queue[i] else j.nextId + i - |j.queue|
    {
      if i < |j.queue| {
        assert k.queue[i] == k.queue[..|j.queue|][i];
      }
    }
  }

  lemma TakeInv(j: Judge0, maxQueue: nat, worker: Id)
    requires Inv(j, maxQueue) && Enabled(j, maxQueue, Take(worker))
    ensures Inv(Apply(j, maxQueue, Take(worker)), maxQueue)
  {
    assert forall i :: 0 <= i < |j.queue[1..]| ==> j.queue[1..][i] == j.queue[i + 1];
  }

  lemma StepInv(j: Judge0, maxQueue: nat, step: Step)
    requires Inv(j, maxQueue) && Enabled(j, maxQueue, step)
    ensures Inv(Apply(j, maxQueue, step), maxQueue)
  {
    if step.Batch? {
      BatchInv(j, maxQueue, step.items, step.replies);
    } else if step.Take? {
      TakeInv(j, maxQueue, step.worker);
    }
  }

  lemma {:induction false} RunInv(j: Judge0, maxQueue: nat, steps: seq<Step>, k: Judge0)
    requires Inv(j, maxQueue) && Run(j, maxQueue, steps, k)
    ensures Inv(k, maxQueue)
    decreases |steps|
  {
    if steps != [] {
      StepInv(j, maxQueue, steps[0]);
      RunInv(Apply(j, maxQueue, steps[0]), maxQueue, steps[1..], k);
    }
  }

  /** The queue never exceeds its limit, and the row of every queued job is there when a worker takes it. */
  lemma QueueBounded(maxQueue: nat, steps: seq<Step>, k: Judge0)
    requires Run(START, maxQueue, steps, k)
    ensures |k.queue| <= maxQueue
    ensures forall i :: 0 <= i < |k.queue| ==> k.queue[i] in k.rows && k.rows[k.queue[i]].statusId == IsolateJob.QUEUE
  {
    RunInv(START, maxQueue, steps, k);
  }

  /** Waiting jobs are in the order of their ids, and every job with a worker has a smaller id than any of them. */
  ghost predicate InOrder(j: Judge0) {
    && (forall i, k :: 0 <= i < k < |j.queue| ==> j.queue[i] < j.queue[k])
    && (forall w, i :: w in j.running && 0 <= i < |j.queue| ==> j.running[w] < j.queue[i])
  }

  lemma BatchInOrder(j: Judge0, maxQueue: nat, items: seq<Item>, replies: seq<Option<Id>>)
    requires Inv(j, maxQueue) && InOrder(j) && Enabled(j, maxQueue, Batch(items, replies))
    ensures InOrder(Enqueue(j, items, replies))
  {
    EnqueueFacts(j, items, replies);
    var k := Enqueue(j, items, replies);
    forall i | 0 <= i < |k.queue|
      ensures k.queue[i] == if i < |j.queue| then j.queue[i] else j.nextId + i - |j.queue|
    {
      if i < |j.queue| {
        assert k.queue[i] == k.queue[..|j.queue|][i];
      }
    }
  }

  lemma TakeInOrder(j: Judge0, maxQueue: nat, worker: Id)
    requires InOrder(j) && Enabled(j, maxQueue, Take(worker))
    ensures InOrder(Apply(j, maxQueue, Take(worker)))
  {
    assert forall i :: 0 <= i < |j.queue[1..]| ==> j.queue[1..][i] == j.queue[i + 1];
  }

  lemma {:induction false} RunInOrder(j: Judge0, maxQueue: nat, steps: seq<Step>, k: Judge0)
    requires Inv(j, maxQueue) && InOrder(j) && Run(j, maxQueue, steps, k)
    ensures InOrder(k)
    decreases |steps|
  {
    if steps != [] {
      StepInv(j, maxQueue, steps[0]);
      if steps[0].Batch? {
        BatchInOrder(j, maxQueue, steps[0].items, steps[0].replies);
      } else if steps[0].Take? {
        TakeInOrder(j, maxQueue, steps[0].worker);
      }
      RunInOrder(Apply(j, maxQueue, steps[0]), maxQueue, steps[1..], k);
    }
  }

  /**
   First come, first served: over any run, jobs wait in the order in which they were submitted, and no worker has a
   job that was submitted after one that still waits.
   */
  lemma FirstComeFirstServed(maxQueue: nat, steps: seq<Step>, k: Judge0)
    requires Run(START, maxQueue, steps, k)
    ensures forall i, l :: 0 <= i < l < |k.queue| ==> k.queue[i] < k.queue[l]
    ensures forall w, i :: w in k.running && 0 <= i < |k.queue| ==> k.running[w] < k.queue[i]
  {
    RunInOrder(START, maxQueue, steps, k);
  }

  function BoxId(id: Id): (box: nat)
    ensures box < 2147483647 && (id - box) % 2147483647 == 0
  {
    id % 2147483647
  }

  lemma BoxIdInjective(a: Id, b: Id)
    requires 1 <= a <= 2147483647 && 1 <= b <= 2147483647
    ensures BoxId(a) == BoxId(b) <==> a == b
  {
  }

  /**
   As long as ids fit the serial column, two workers never share a sandbox, in any state that keeps the invariants.
   */
  lemma BoxesExclusive(j: Judge0, maxQueue: nat, v: Id, w: Id)
    requires Inv(j, maxQueue) && j.nextId - 1 <= 2147483647
    requires v in j.running && w in j.running && v != w
    ensures BoxId(j.running[v]) != BoxId(j.running[w])
  {
    BoxIdInjective(j.running[v], j.running[w]);
  }

  /** So it is over any run, from the empty queue on. */
  lemma RunBoxesExclusive(maxQueue: nat, steps: seq<Step>, k: Judge0, v: Id, w: Id)
    requires Run(START, maxQueue, steps, k) && k.nextId - 1 <= 2147483647
    requires v in k.running && w in k.running && v != w
    ensures BoxId(k.running[v]) != BoxId(k.running[w])
  {
    RunInv(START, maxQueue, steps, k);
    BoxesExclusive(k, maxQueue, v, w);
  }

  /***** enqueuing a row again *****/

  /** The rows that `run_in_queue` selects are all in the queue. */
  ghost predicate WaitingIsQueued(j: Judge0) {
    forall id :: id in j.rows && j.rows[id].statusId == IsolateJob.QUEUE ==> id in j.queue
  }

  lemma BatchWaiting(j: Judge0, maxQueue: nat, items: seq<Item>, replies: seq<Option<Id>>)
    requires Inv(j, maxQueue) && WaitingIsQueued(j) && |items| == |replies|
    ensures WaitingIsQueued(Enqueue(j, items, replies))
  {
    EnqueueFacts(j, items, replies);
    var k := Enqueue(j, items, replies);
    forall id | id in k.rows && k.rows[id].statusId == IsolateJob.QUEUE
      ensures id in k.queue
    {
      if id in j.rows {
        assert id in k.queue[..|j.queue|];
      } else {
        assert k.queue[|j.queue| + id - j.nextId] == id;
      }
    }
  }

  lemma WaitingStep(j: Judge0, maxQueue: nat, step: Step)
    requires Inv(j, maxQueue) && WaitingIsQueued(j) && Enabled(j, maxQueue, step)
    ensures WaitingIsQueued(Apply(j, maxQueue, step))
  {
    if step.Batch? {
      BatchWaiting(j, maxQueue, step.items, step.replies);
    } else if step.Take? {
      assert j.queue == [j.queue[0]] + j.queue[1..];
    }
  }

  lemma {:induction false} RunWaiting(j: Judge0, maxQueue: nat, steps: seq<Step>, k: Judge0)
    requires Inv(j, maxQueue) && WaitingIsQueued(j) && Run(j, maxQueue, steps, k)
    ensures WaitingIsQueued(k)
    decreases |steps|
  {
    if steps != [] {
      WaitingStep(j, maxQueue, steps[0]);
      StepInv(j, maxQueue, steps[0]);
      RunWaiting(Apply(j, maxQueue, steps[0]), maxQueue, steps[1..], k);
    }
  }

  /** `run_in_queue` enqueues a waiting row again, without looking whether it is queued already. */
  function Requeue(j: Judge0, id: Id): Judge0
    requires id in j.rows
  {
    WithStatus(j, id, IsolateJob.QUEUE).(queue := j.queue + [id])
  }

  lemma RequeueInv(j: Judge0, maxQueue: nat, id: Id)
    requires Inv(j, maxQueue) && id in j.rows && id !in j.queue && id !in j.running.Values && |j.queue| < maxQueue
    ensures Inv(Requeue(j, id), maxQueue)
  {
  }

  /** A requeue keeps the invariants exactly when the id is neither queued nor running and the queue has room. */
  lemma RequeueSafeIff(j: Judge0, maxQueue: nat, id: Id)
    requires Inv(j, maxQueue) && id in j.rows
    ensures Inv(Requeue(j, id), maxQueue) <==> id !in j.queue && id !in j.running.Values && |j.queue| < maxQueue
  {
    var k := Requeue(j, id);
    var n := |j.queue|;
    assert k.queue[n] == id && forall i :: 0 <= i < n ==> k.queue[i] == j.queue[i];
    if id in j.queue {
      var i :| 0 <= i < n && j.queue[i] == id;
      assert k.queue[i] == k.queue[n];
    } else if id in j.running.Values {
      var w :| w in j.running && j.running[w] == id;
      assert k.running[w] == k.queue[n];
    } else if n < maxQueue {
      RequeueInv(j, maxQueue, id);
    }
  }

  /** From worker `first` on, all workers are free. */
  predicate FreeFrom(j: Judge0, first: Id) {
    forall w :: w in j.running ==> w < first
  }

  lemma {:induction false} FreeWorkers(running: map<Id, Id>) returns (first: Id)
    ensures forall w :: w in running ==> w < first
  {
    first := Unused(running.Keys);
  }

  /** Workers `first`, `first + 1` and so on hold the jobs of the queue. */
  predicate Taken(queue: seq<Id>, running: map<Id, Id>, first: Id) {
    forall w :: first <= w < first + |queue| ==> w in running && running[w] == queue[w - first]
  }

  predicate Extends(before: map<Id, Id>, after: map<Id, Id>) {
    forall w :: w in before ==> w in after && after[w] == before[w]
  }

  /** Free workers can take the whole queue, one job each, in order. */
  lemma {:induction false} Drain(j: Judge0, maxQueue: nat, first: Id) returns (steps: seq<Step>, k: Judge0)
    requires FreeFrom(j, first)
    ensures Run(j, maxQueue, steps, k) && Extends(j.running, k.running) && Taken(j.queue, k.running, first)
    decreases |j.queue|
  {
    if j.queue == [] {
      steps, k := [], j;
    } else {
      var m := Apply(j, maxQueue, Take(first));
      steps, k := Drain(m, maxQueue, first + 1);
      assert first in m.running && m.running[first] == j.queue[0];
      steps := [Take(first)] + steps;
    }
  }

  /**
   As long as no queue entry is lost, every row the script selects is queued already, and enqueuing it is never safe.
   */
  lemma RequeueIsNeverSafe(maxQueue: nat, steps: seq<Step>, j: Judge0, id: Id)
    requires Run(START, maxQueue, steps, j) && id in j.rows && j.rows[id].statusId == IsolateJob.QUEUE
    ensures id in j.queue && !Inv(Requeue(j, id), maxQueue)
  {
    RunInv(START, maxQueue, steps, j);
    RunWaiting(START, maxQueue, steps, j);
    RequeueSafeIff(j, maxQueue, id);
  }

  /**
   From any state in which the id is queued or with a worker, a requeue lets two workers come to hold the same job,
   and so the same sandbox: each id being queued at most once is what excludes it.
   */
  lemma RequeueBreaksExclusivity(j: Judge0, maxQueue: nat, id: Id)
    returns (steps: seq<Step>, k: Judge0, v: Id, w: Id)
    requires id in j.rows && (id in j.queue || id in j.running.Values)
    ensures Run(Requeue(j, id), maxQueue, steps, k)
    ensures v in k.running && w in k.running && v != w && k.running[v] == k.running[w] == id
    ensures BoxId(k.running[v]) == BoxId(k.running[w])
  {
    var r := Requeue(j, id);
    var first := FreeWorkers(r.running);
    steps, k := Drain(r, maxQueue, first);
    w := first + |j.queue|;
    assert r.queue[w - first] == id;
    if id in j.queue {
      var i :| 0 <= i < |j.queue| && j.queue[i] == id;
      v := first + i;
      assert r.queue[v - first] == id;
    } else {
      v :| v in j.running && j.running[v] == id;
    }
  }
}
