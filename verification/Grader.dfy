/** Verdicts and the worst-case fold over the verdicts of all test cases (grader.ts). */
module Grader {
  datatype Verdict = PENDING | RUNNING | AC | WA | TLE | MLE | RE | CE | IE

  function Judge0StatusToVerdict(id: int): (v: Verdict)
    ensures v == RUNNING <==> id == 1 || id == 2
    ensures v == AC <==> id == 3
    ensures v == WA <==> id == 4
    ensures v == TLE <==> id == 5
    ensures v == CE <==> id == 6
    ensures v == RE <==> 7 <= id <= 12 || id == 14
    ensures v == IE <==> id < 1 || id == 13 || id > 14
  {
    match id
    case 1 => RUNNING
    case 2 => RUNNING
    case 3 => AC
    case 4 => WA
    case 5 => TLE
    case 6 => CE
    case 7 => RE
    case 8 => RE
    case 9 => RE
    case 10 => RE
    case 11 => RE
    case 12 => RE
    case 14 => RE
    case _ => IE
  }

  function Rank(v: Verdict): nat {
    match v
    case AC => 0
    case PENDING => 1
    case RUNNING => 2
    case WA => 3
    case TLE => 4
    case MLE => 5
    case RE => 6
    case CE => 7
    case IE => 8
  }

  predicate IsFinal(v: Verdict) {
    v != PENDING && v != RUNNING
  }

  /** The left fold of `reduce`, started from `acc`. */
  function Reduce(acc: Verdict, vs: seq<Verdict>): Verdict
    decreases |vs|
  {
    if vs == [] then acc
    else Reduce(if Rank(vs[0]) >= Rank(acc) then vs[0] else acc, vs[1..])
  }

  function CombineVerdicts(vs: seq<Verdict>): Verdict {
    if vs == [] then PENDING else Reduce(AC, vs)
  }

  function AcCount(vs: seq<Verdict>): nat {
    if vs == [] then 0 else (if vs[0] == AC then 1 else 0) + AcCount(vs[1..])
  }

  /** `v` is one of `vs` and no other member is worse. */
  predicate IsWorst(v: Verdict, vs: seq<Verdict>) {
    v in vs && forall w :: w in vs ==> Rank(w) <= Rank(v)
  }

  lemma {:induction false} ReduceIsWorst(acc: Verdict, vs: seq<Verdict>)
    ensures IsWorst(Reduce(acc, vs), [acc] + vs)
    decreases |vs|
  {
    if vs != [] {
      var next := if Rank(vs[0]) >= Rank(acc) then vs[0] else acc;
      ReduceIsWorst(next, vs[1..]);
      assert [acc] + vs == [acc, vs[0]] + vs[1..];
      assert forall w :: w in [acc] + vs ==> w == acc || w == vs[0] || w in vs[1..];
      assert next in [next] + vs[1..];
    }
  }

  /** The fold is the worst member, and nothing else is: an order-free definition. */
  lemma CombineIsTheWorst(vs: seq<Verdict>, v: Verdict)
    requires vs != []
    ensures CombineVerdicts(vs) == v <==> IsWorst(v, vs)
  {
    var worst := CombineVerdicts(vs);
    ReduceIsWorst(AC, vs);
    assert vs[0] in [AC] + vs;
    assert forall w :: w in vs ==> w in [AC] + vs;
    assert IsWorst(worst, vs);
  }

  /** The verdict read off the members, worst first, for any list: IE, CE, RE, MLE, TLE, WA, RUNNING, PENDING, AC. */
  lemma CombineByMembership(vs: seq<Verdict>)
    ensures var v := CombineVerdicts(vs);
            && (v == IE <==> IE in vs)
            && (v == CE <==> CE in vs && IE !in vs)
            && (v == RE <==> RE in vs && forall w :: w in vs ==> w !in {IE, CE})
            && (v == MLE <==> MLE in vs && forall w :: w in vs ==> w !in {IE, CE, RE})
            && (v == TLE <==> TLE in vs && forall w :: w in vs ==> w !in {IE, CE, RE, MLE})
            && (v == WA <==> WA in vs && forall w :: w in vs ==> w in {AC, PENDING, RUNNING, WA})
            && (v == RUNNING <==> RUNNING in vs && forall w :: w in vs ==> w in {AC, PENDING, RUNNING})
            && (v == PENDING <==> vs == [] || (PENDING in vs && forall w :: w in vs ==> w in {AC, PENDING}))
            && (v == AC <==> vs != [] && forall w :: w in vs ==> w == AC)
  {
    if vs != [] {
      CombineIsTheWorst(vs, CombineVerdicts(vs));
      assert vs[0] in vs;
    }
  }

  lemma CombinePermutation(a: seq<Verdict>, b: seq<Verdict>)
    requires multiset(a) == multiset(b)
    ensures CombineVerdicts(a) == CombineVerdicts(b)
  {
    assert forall v :: v in a <==> v in multiset(a);
    assert forall v :: v in b <==> v in multiset(b);
    if a == [] {
      assert |multiset(b)| == 0;
    } else {
      assert a[0] in b;
      CombineIsTheWorst(a, CombineVerdicts(a));
      CombineIsTheWorst(b, CombineVerdicts(a));
    }
  }

  /** Grading in two parts and combining the two verdicts is grading everything. */
  lemma CombineConcat(a: seq<Verdict>, b: seq<Verdict>)
    requires a != [] && b != []
    ensures CombineVerdicts(a + b) == CombineVerdicts([CombineVerdicts(a), CombineVerdicts(b)])
  {
    var va, vb := CombineVerdicts(a), CombineVerdicts(b);
    var v := CombineVerdicts([va, vb]);
    CombineIsTheWorst(a, va);
    CombineIsTheWorst(b, vb);
    CombineIsTheWorst([va, vb], v);
    assert va in [va, vb] && vb in [va, vb];
    assert forall w :: w in a + b <==> w in a || w in b;
    CombineIsTheWorst(a + b, v);
  }

  lemma {:induction false} AcCountFrom(vs: seq<Verdict>, i: nat)
    requires i <= |vs|
    ensures AcCount(vs[i..]) == |set j | i <= j < |vs| && vs[j] == AC|
    decreases |vs| - i
  {
    var here := set j | i <= j < |vs| && vs[j] == AC;
    if i == |vs| {
      assert |here| == 0;
    } else {
      var later := set j | i + 1 <= j < |vs| && vs[j] == AC;
      AcCountFrom(vs, i + 1);
      assert vs[i..][1..] == vs[i + 1..];
      assert here == later + if vs[i] == AC then {i} else {};
    }
  }

  /** It is the number of places at which the verdict is AC. */
  lemma AcCountIsCount(vs: seq<Verdict>)
    ensures AcCount(vs) == |set i | 0 <= i < |vs| && vs[i] == AC|
  {
    AcCountFrom(vs, 0);
    assert vs[0..] == vs;
  }

  lemma {:induction false} AcCountBounds(vs: seq<Verdict>)
    ensures AcCount(vs) <= |vs|
    ensures AcCount(vs) == |vs| <==> forall v :: v in vs ==> v == AC
  {
    if vs != [] {
      AcCountBounds(vs[1..]);
      assert vs == [vs[0]] + vs[1..];
      assert vs[0] in vs;
      assert forall v :: v in vs <==> v == vs[0] || v in vs[1..];
    }
  }

  /** Accepted overall exactly when the number of accepted cases is the number of cases. */
  lemma CombineAcceptedIff(vs: seq<Verdict>)
    requires vs != []
    ensures CombineVerdicts(vs) == AC <==> AcCount(vs) == |vs|
  {
    AcCountBounds(vs);
    CombineIsTheWorst(vs, AC);
    assert vs[0] in vs;
    if forall v :: v in vs ==> v == AC {
      assert IsWorst(AC, vs);
    }
  }
}
