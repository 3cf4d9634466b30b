/** The batch request of the platform and the rows Judge0 creates for it (judge0.ts, batch_create). */
module Judge0Batch {
  import opened Wrappers

  type Id = nat

  /** What the callback URL of a job names: a platform submission and one of its test cases. */
  datatype Callback = Callback(sub: Id, testCase: Id)

  /** One entry of a batch. Fields that play no part in grading are left out. */
  datatype Item = Item(stdin: Option<string>, expectedOutput: Option<string>, callback: Callback)

  datatype TestCase = TestCase(id: Id, input: string, expectedOutput: string)

  /** `s ? b64(s) : undefined`: the empty string is sent as a missing field. */
  function Truthy(s: string): Option<string> {
    if s == "" then None else Some(s)
  }

  /** The items the submit handler builds, in the order of the test cases. */
  function Items(sub: Id, tests: seq<TestCase>): seq<Item> {
    seq(|tests|, i requires 0 <= i < |tests| =>
      Item(Truthy(tests[i].input), Truthy(tests[i].expectedOutput), Callback(sub, tests[i].id)))
  }

  /** There is always another id. */
  lemma {:induction false} Unused(used: set<Id>) returns (token: Id)
    ensures token !in used
    ensures forall u :: u in used ==> u < token
  {
    if used == {} {
      token := 0;
    } else {
      var u :| u in used;
      var t := Unused(used - {u});
      token := if u < t then t else u + 1;
      assert used == (used - {u}) + {u};
    }
  }

  /** No token is handed out twice in one reply. */
  predicate DistinctTokens(replies: seq<Option<Id>>) {
    forall i, j :: 0 <= i < j < |replies| && replies[i].Some? && replies[j].Some? ==> replies[i] != replies[j]
  }

  /** The rows created by a batch: entry `i` gets a row when its reply holds a token, and none otherwise. */
  function Created(items: seq<Item>, replies: seq<Option<Id>>): map<Id, Item>
    requires |items| == |replies|
  {
    if items == [] then map[]
    else
      var rest := Created(items[..|items| - 1], replies[..|items| - 1]);
      match replies[|items| - 1]
      case None => rest
      case Some(token) => rest[token := items[|items| - 1]]
  }

  /** Positional alignment: the row behind the `i`-th token is the `i`-th item, and no other rows exist. */
  lemma {:induction false} CreatedAligned(items: seq<Item>, replies: seq<Option<Id>>)
    requires |items| == |replies| && DistinctTokens(replies)
    ensures forall i :: 0 <= i < |replies| && replies[i].Some? ==>
              replies[i].value in Created(items, replies) && Created(items, replies)[replies[i].value] == items[i]
    ensures forall t :: t in Created(items, replies) ==> exists i :: 0 <= i < |replies| && replies[i] == Some(t)
  {
    if items != [] {
      var n := |items| - 1;
      CreatedAligned(items[..n], replies[..n]);
      forall t | t in Created(items, replies)
        ensures exists i :: 0 <= i < |replies| && replies[i] == Some(t)
      {
        if replies[n] != Some(t) {
          assert t in Created(items[..n], replies[..n]);
          var i :| 0 <= i < n && replies[..n][i] == Some(t);
          assert replies[i] == Some(t);
        }
      }
    }
  }
}
