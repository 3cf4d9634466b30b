/**
 The batch controller: admission, then saving and enqueuing entry by entry (submissions_controller.rb,
 isolate_runner.rb).
 */
module Judge0Controller {
  import opened Wrappers
  import opened Judge0Batch
  import opened Judge0Queue
  import IsolateJob
  import Judge0Workers

  /** The tokens in the table are those of before and those handed out. */
  ghost predicate AllTokensOf(rows: map<Id, JobRow>, before: map<Id, JobRow>, replies: seq<Option<Id>>) {
    && (forall t: Id :: HasToken(before, t) ==> HasToken(rows, t))
    && (forall i :: 0 <= i < |replies| && replies[i].Some? ==> HasToken(rows, replies[i].value))
  }

  lemma AnswersStep(es: seq<Entry>, i: nat, replies: seq<Option<Id>>, reply: Option<Id>,
                    rows: map<Id, JobRow>, before: map<Id, JobRow>)
    requires i < |es| && Answers(es[..i], replies, before) && AllTokensOf(rows, before, replies)
    requires reply.Some? <==> es[i].valid
    requires reply.Some? ==> !HasToken(rows, reply.value)
    ensures Answers(es[..i + 1], replies + [reply], before)
  {
  }

  lemma TokensStep(rows: map<Id, JobRow>, was: map<Id, JobRow>, before: map<Id, JobRow>, replies: seq<Option<Id>>,
                   reply: Option<Id>)
    requires AllTokensOf(was, before, replies)
    requires forall t: Id :: HasToken(was, t) ==> HasToken(rows, t)
    requires reply.Some? ==> HasToken(rows, reply.value)
    ensures AllTokensOf(rows, before, replies + [reply])
  {
  }

  lemma EnqueueStep(j: Judge0, items: seq<Item>, replies: seq<Option<Id>>, i: nat, reply: Option<Id>)
    requires i < |items| && |replies| == i
    ensures Enqueue(j, items[..i + 1], replies + [reply]) ==
            var before := Enqueue(j, items[..i], replies);
            if reply.Some? then Append(before, items[i], reply.value) else before
  {
    assert items[..i + 1][..i] == items[..i];
    assert (replies + [reply])[..i] == replies;
  }

  class SubmissionsController {
    var rows: map<Id, JobRow>
    var queue: seq<Id>
    var running: map<Id, Id>
    var nextId: Id

    ghost function State(): Judge0
      reads this
    {
      Judge0(rows, queue, running, nextId)
    }

    constructor ()
      ensures State() == Judge0(map[], [], map[], 1)
    {
      rows, queue, running, nextId := map[], [], map[], 1;
    }

    /** Draws a token that no row has. */
    method GenerateToken() returns (token: Id)
      ensures forall id :: id in rows ==> rows[id].token != token
    {
      var used := set id | id in rows :: rows[id].token;
      ghost var another := Unused(used);
      token :| token !in used;
      assert forall id :: id in rows ==> rows[id].token in used;
    }

    method SaveAndPerformLater(item: Item) returns (token: Id)
      requires forall id :: id in rows ==> id < nextId
      modifies this
      ensures State() == Append(old(State()), item, token)
      // a row with status 1, in queue, under the next id, which goes to the end of the queue
      ensures rows == old(rows)[old(nextId) := JobRow(token, item, 1)] && queue == old(queue) + [old(nextId)]
      ensures nextId == old(nextId) + 1 && running == old(running)
      ensures forall id :: id in rows ==> id < nextId
      ensures !HasToken(old(rows), token)
      ensures forall t: Id :: HasToken(rows, t) <==> HasToken(old(rows), t) || t == token
    {
      token := GenerateToken();
      ghost var was := rows;
      rows := rows[nextId := JobRow(token, item, IsolateJob.QUEUE)];
      queue := queue + [nextId];
      forall t: Id
        ensures HasToken(rows, t) <==> HasToken(was, t) || t == token
      {
        if HasToken(was, t) {
          var id :| id in was && was[id].token == t;
          assert rows[id].token == t;
        }
        assert rows[nextId].token == token;
      }
      nextId := nextId + 1;
    }

    /** The loop over the entries: each valid one is saved and enqueued at once. */
    method SaveAll(es: seq<Entry>) returns (hasValid: bool, replies: seq<Option<Id>>)
      requires forall id :: id in rows ==> id < nextId
      modifies this
      ensures hasValid <==> exists i :: 0 <= i < |es| && es[i].valid
      ensures Answers(es, replies, old(rows))
      ensures State() == Enqueue(old(State()), EntryItems(es), replies)
    {
      replies := [];
      hasValid := false;
      var i := 0;
      ghost var items := EntryItems(es);
      while i < |es|
        invariant 0 <= i <= |es|
        invariant hasValid <==> exists k :: 0 <= k < i && es[k].valid
        invariant Answers(es[..i], replies, old(rows))
        invariant AllTokensOf(rows, old(rows), replies)
        invariant forall id :: id in rows ==> id < nextId
        invariant State() == Enqueue(old(State()), items[..i], replies)
      {
        ghost var was := rows;
        var reply: Option<Id> := None;
        if es[i].valid {
          var token := SaveAndPerformLater(es[i].item);
          reply := Some(token);
          hasValid := true;
        }
        AnswersStep(es, i, replies, reply, was, old(rows));
        TokensStep(rows, was, old(rows), replies, reply);
        EnqueueStep(old(State()), items, replies, i, reply);
        replies := replies + [reply];
        i := i + 1;
      }
      assert items[..|es|] == items && es[..|es|] == es;
    }

    method BatchCreate(entries: Option<seq<Entry>>, maxBatch: nat, maxQueue: nat)
      returns (reply: Reply, replies: seq<Option<Id>>)
      requires forall id :: id in rows ==> id < nextId
      modifies this
      ensures reply == if |old(queue)| + (if entries.Some? then |entries.value| else 1) > maxQueue then QueueFull
                       else if entries.None? || entries.value == [] then Empty
                       else if |entries.value| > maxBatch then TooMany
                       else if exists i :: 0 <= i < |entries.value| && entries.value[i].valid then Created201
                       else Unprocessable
      ensures reply.QueueFull? || reply.Empty? || reply.TooMany? ==> State() == old(State()) && replies == []
      ensures reply.Created201? || reply.Unprocessable? ==>
                && Answers(entries.value, replies, old(rows))
                && State() == Enqueue(old(State()), EntryItems(entries.value), replies)
      // answering a request is a step of the worker system, which therefore keeps its invariants
      ensures reply.Created201? || reply.Unprocessable? ==>
                var batch := Judge0Workers.Batch(EntryItems(entries.value), replies);
                Judge0Workers.Enabled(old(State()), maxQueue, batch)
                && State() == Judge0Workers.Apply(old(State()), maxQueue, batch)
      ensures Judge0Workers.Inv(old(State()), maxQueue) ==> Judge0Workers.Inv(State(), maxQueue)
    {
      replies := [];
      if |queue| + (if entries.Some? then |entries.value| else 1) > maxQueue {
        return QueueFull, [];
      }
      if entries.None? || entries.value == [] {
        return Empty, [];
      }
      var es := entries.value;
      if |es| > maxBatch {
        return TooMany, [];
      }
      var hasValid: bool;
      hasValid, replies := SaveAll(es);
      Judge0Workers.AdmittedIsStep(old(State()), maxQueue, es, replies);
      if Judge0Workers.Inv(old(State()), maxQueue) {
        Judge0Workers.StepInv(old(State()), maxQueue, Judge0Workers.Batch(EntryItems(es), replies));
      }
      reply := if hasValid then Created201 else Unprocessable;
    }
  }
}
