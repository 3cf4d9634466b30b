/**
 Judge0's queue: admission, batch creation, and the rows and tokens it leaves (submissions_controller.rb,
 isolate_runner.rb).
 */
module Judge0Queue {
  import opened Wrappers
  import opened Judge0Batch
  import IsolateJob

  /** A submissions row, by serial id. */
  datatype JobRow = JobRow(token: Id, item: Item, statusId: int)

  /** `running` maps a worker to the id of its job. */
  datatype Judge0 = Judge0(rows: map<Id, JobRow>, queue: seq<Id>, running: map<Id, Id>, nextId: Id)

  /** One entry of a request, with the verdict of the model's validations. */
  datatype Entry = Entry(item: Item, valid: bool)

  datatype Reply = QueueFull | TooMany | Empty | Unprocessable | Created201

  function EntryItems(entries: seq<Entry>): (items: seq<Item>)
    ensures |items| == |entries| && forall i :: 0 <= i < |items| ==> items[i] == entries[i].item
  {
    seq(|entries|, i requires 0 <= i < |entries| => entries[i].item)
  }

  /** `check_queue_size`; a request without a list counts as one submission. */
  predicate FitsQueue(j: Judge0, entries: Option<seq<Entry>>, maxQueue: nat) {
    |j.queue| + (if entries.Some? then |entries.value| else 1) <= maxQueue
  }

  /** `save` and `perform_later` of one submission: a new row, queued. */
  function Append(j: Judge0, item: Item, token: Id): Judge0 {
    j.(rows := j.rows[j.nextId := JobRow(token, item, IsolateJob.QUEUE)], queue := j.queue + [j.nextId],
       nextId := j.nextId + 1)
  }

  /** Saving and enqueuing the entries that got a token, in order. */
  function Enqueue(j: Judge0, items: seq<Item>, replies: seq<Option<Id>>): Judge0
    requires |items| == |replies|
  {
    if items == [] then j
    else
      var n := |items| - 1;
      var before := Enqueue(j, items[..n], replies[..n]);
      match replies[n]
      case None => before
      case Some(token) => Append(before, items[n], token)
  }

  function CountValid(replies: seq<Option<Id>>): nat {
    if replies == [] then 0 else CountValid(replies[..|replies| - 1]) + if replies[|replies| - 1].Some? then 1 else 0
  }

  lemma {:induction false} CountValidBound(replies: seq<Option<Id>>)
    ensures CountValid(replies) <= |replies|
    ensures CountValid(replies) > 0 <==> exists i :: 0 <= i < |replies| && replies[i].Some?
  {
    if replies != [] {
      var n := |replies| - 1;
      CountValidBound(replies[..n]);
      assert forall i :: 0 <= i < n ==> replies[..n][i] == replies[i];
    }
  }

  /** A batch appends fresh ids to the queue, in order, and adds a queued row for each; it touches nothing else. */
  lemma {:induction false} EnqueueFacts(j: Judge0, items: seq<Item>, replies: seq<Option<Id>>)
    requires |items| == |replies| && forall id :: id in j.rows ==> id < j.nextId
    ensures var k := Enqueue(j, items, replies);
            && k.nextId == j.nextId + CountValid(replies) && k.running == j.running
            && |k.queue| == |j.queue| + CountValid(replies) && k.queue[..|j.queue|] == j.queue
            && (forall i :: |j.queue| <= i < |k.queue| ==> k.queue[i] == j.nextId + i - |j.queue|)
            && (forall id :: id in j.rows ==> id in k.rows && k.rows[id] == j.rows[id])
            && (forall id :: id in k.rows && id !in j.rows ==>
                j.nextId <= id < k.nextId && k.rows[id].statusId == IsolateJob.QUEUE)
            && (forall id :: j.nextId <= id < k.nextId ==> id in k.rows && id !in j.rows)
  {
    if items != [] {
      var n := |items| - 1;
      EnqueueFacts(j, items[..n], replies[..n]);
    }
  }

  lemma {:induction false} NextIdGrows(j: Judge0, items: seq<Item>, replies: seq<Option<Id>>)
    requires |items| == |replies|
    ensures Enqueue(j, items, replies).nextId >= j.nextId
  {
    if items != [] {
      NextIdGrows(j, items[..|items| - 1], replies[..|replies| - 1]);
    }
  }

  /** The row behind the token at position `i` of the reply holds the item at position `i` of the request. */
  lemma {:induction false} EnqueueAligned(j: Judge0, items: seq<Item>, replies: seq<Option<Id>>, i: nat)
    returns (id: Id)
    requires |items| == |replies| && i < |replies| && replies[i].Some?
    ensures var k := Enqueue(j, items, replies);
            j.nextId <= id < k.nextId && id in k.rows
              && k.rows[id] == JobRow(replies[i].value, items[i], IsolateJob.QUEUE)
    decreases |items|
  {
    var n := |items| - 1;
    if i == n {
      id := Enqueue(j, items[..n], replies[..n]).nextId;
      NextIdGrows(j, items[..n], replies[..n]);
    } else {
      id := EnqueueAligned(j, items[..n], replies[..n], i);
    }
  }

  /** Every new row stems from an entry. */
  lemma {:induction false} NewRowEntry(j: Judge0, items: seq<Item>, replies: seq<Option<Id>>, id: Id) returns (i: nat)
    requires |items| == |replies| && id in Enqueue(j, items, replies).rows && id !in j.rows
    ensures i < |items| && replies[i].Some?
    ensures Enqueue(j, items, replies).rows[id] == JobRow(replies[i].value, items[i], IsolateJob.QUEUE)
    decreases |items|
  {
    var n := |items| - 1;
    var before := Enqueue(j, items[..n], replies[..n]);
    if replies[n].Some? && id == before.nextId {
      i := n;
    } else {
      i := NewRowEntry(j, items[..n], replies[..n], id);
    }
  }

  /** The new rows of the queue are the rows that the batch creates: same tokens, same items. */
  lemma EnqueuedIsCreated(j: Judge0, items: seq<Item>, replies: seq<Option<Id>>, token: Id)
    requires |items| == |replies| && DistinctTokens(replies) && forall id :: id in j.rows ==> id < j.nextId
    ensures var k := Enqueue(j, items, replies);
            && (token in Created(items, replies) <==>
                exists id :: id in k.rows && id !in j.rows && k.rows[id].token == token)
            && (forall id :: id in k.rows && id !in j.rows && k.rows[id].token == token ==>
                  token in Created(items, replies) && k.rows[id].item == Created(items, replies)[token])
  {
    CreatedAligned(items, replies);
    var k := Enqueue(j, items, replies);
    if token in Created(items, replies) {
      var i :| 0 <= i < |replies| && replies[i] == Some(token);
      var id := EnqueueAligned(j, items, replies, i);
      assert id in k.rows && id !in j.rows && k.rows[id].token == token;
    }
    forall id | id in k.rows && id !in j.rows && k.rows[id].token == token
      ensures token in Created(items, replies) && k.rows[id].item == Created(items, replies)[token]
    {
      var i := NewRowEntry(j, items, replies, id);
    }
  }

  /**
   From the test cases through the request, Judge0's rows and the reply: the job behind the token that the
   platform stores for case `i` is the one whose callback URL names case `i`.
   */
  lemma BatchCoherence(j: Judge0, sub: Id, tests: seq<TestCase>, replies: seq<Option<Id>>, i: nat) returns (id: Id)
    requires |tests| == |replies| && i < |tests| && replies[i].Some?
    ensures var k := Enqueue(j, Items(sub, tests), replies);
            id in k.rows && k.rows[id].token == replies[i].value && k.rows[id].statusId == 1
            && k.rows[id].item.callback == Callback(sub, tests[i].id)
            && k.rows[id].item.stdin == (if tests[i].input == "" then None else Some(tests[i].input))
            && k.rows[id].item.expectedOutput
               == if tests[i].expectedOutput == "" then None else Some(tests[i].expectedOutput)
  {
    id := EnqueueAligned(j, Items(sub, tests), replies, i);
  }

  ghost predicate HasToken(rows: map<Id, JobRow>, token: Id) {
    exists id :: id in rows && rows[id].token == token
  }

  /** A token for each valid entry and for no other; tokens are distinct and new. */
  ghost predicate Answers(es: seq<Entry>, replies: seq<Option<Id>>, before: map<Id, JobRow>) {
    && |replies| == |es| && DistinctTokens(replies)
    && (forall i :: 0 <= i < |es| ==> (replies[i].Some? <==> es[i].valid))
    && (forall i :: 0 <= i < |es| && replies[i].Some? ==> !HasToken(before, replies[i].value))
  }
}
