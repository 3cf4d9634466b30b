/** The polling loop of synchronous submissions (isolate_runner.rb). Times are counted in half seconds. */
module IsolateRunner {
  import opened Wrappers

  const MAX_WAIT := 1200
  const INITIAL_WAIT := 4
  const NEXT_WAIT := 2

  /** The status ids the loop waits on: in queue, processing, or no row. */
  predicate IsWaiting(status: Option<int>) {
    status in {Some(1), Some(2), None}
  }

  /** The time slept in the first `k` rounds. */
  function Slept(k: nat): nat {
    if k == 0 then 0
    else Slept(k - 1) + if k == 1 then INITIAL_WAIT else if k == 2 then NEXT_WAIT else k - 1
  }

  /** From the second round on, twice the seconds slept is k(k-1)/2 + 5. */
  lemma {:induction false} SleptClosedForm(k: nat)
    requires k >= 2
    ensures Slept(k) == k * (k - 1) / 2 + 5
  {
    if k > 2 {
      SleptClosedForm(k - 1);
      assert k * (k - 1) == (k - 1) * (k - 2) + 2 * (k - 1);
    } else {
      assert Slept(1) == 4;
    }
  }

  lemma {:induction false} SleptGrows(j: nat, k: nat)
    requires j < k
    ensures Slept(j) < Slept(k)
  {
    if j < k - 1 {
      SleptGrows(j, k - 1);
    }
  }

  /** Ten minutes are over after exactly fifty rounds, at 615 seconds. */
  lemma FiftyRounds(k: nat)
    ensures Slept(k) >= 1200 <==> k >= 50
    ensures Slept(50) == 1230
  {
    SleptClosedForm(49);
    SleptClosedForm(50);
    if k < 49 {
      SleptGrows(k, 49);
    } else if k > 50 {
      SleptGrows(50, k);
    }
  }

  lemma SleptAtMost(k: nat)
    requires k <= 50
    ensures Slept(k) <= 1230
  {
    FiftyRounds(k);
    if k < 50 {
      SleptGrows(k, 50);
    }
  }

  /** The status seen after each round's sleep, as an arbitrary function of the round. */
  method PerformNow(poll: nat -> Option<int>) returns (sleeps: nat, slept: nat)
    ensures 1 <= sleeps <= 50 && slept == Slept(sleeps) <= 1230
    // it waited through every earlier round: in queue, processing, or no row
    ensures forall j: nat :: j < sleeps - 1 ==> poll(j) in {Some(1), Some(2), None}
    // and stopped at the first status that is none of these, or after ten minutes
    ensures poll(sleeps - 1) !in {Some(1), Some(2), None} || (sleeps == 50 && slept == 1230)
  {
    var i: nat, total: nat := 0, 0;
    FiftyRounds(0);
    while total < MAX_WAIT
      invariant i <= 50 && total == Slept(i)
      invariant i == 0 ==> total < MAX_WAIT
      invariant forall j: nat :: j < i ==> IsWaiting(poll(j))
      decreases 50 - i
    {
      FiftyRounds(i);
      FiftyRounds(i + 1);
      var wait := if i == 0 then INITIAL_WAIT else if i == 1 then NEXT_WAIT else i;
      total := total + wait;
      if !IsWaiting(poll(i)) {
        SleptAtMost(i + 1);
        return i + 1, total;
      }
      i := i + 1;
    }
    FiftyRounds(i);
    SleptAtMost(i);
    return i, total;
  }
}
