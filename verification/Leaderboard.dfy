/** The global leaderboard: sort by accepted submissions, cut to 100, sort again by problems solved (leaderboard.ts). */
module Leaderboard {
  import opened Judge0Batch

  /** An accepted submission. */
  datatype Ac = Ac(user: Id, problem: Id)

  /** A group of the group-by query, with the number of distinct problems the later query finds. */
  datatype Solver = Solver(user: Id, accepted: nat, solved: nat)

  datatype Entry = Entry(rank: nat, user: Id, solved: nat)

  const CUT := 100

  function Problems(acs: seq<Ac>, user: Id): set<Id> {
    set a | a in acs && a.user == user :: a.problem
  }

  function Count(acs: seq<Ac>, user: Id): nat {
    if acs == [] then 0 else Count(acs[..|acs| - 1], user) + if acs[|acs| - 1].user == user then 1 else 0
  }

  predicate DistinctUsers(groups: seq<Solver>) {
    forall i, j :: 0 <= i < j < |groups| ==> groups[i].user != groups[j].user
  }

  /** A possible result of the group-by: one group for each user with an accepted submission, in any order. */
  ghost predicate IsGrouping(acs: seq<Ac>, groups: seq<Solver>) {
    && DistinctUsers(groups)
    && (forall g :: g in groups ==> g.accepted == Count(acs, g.user) > 0 && g.solved == |Problems(acs, g.user)|)
    && (forall a :: a in acs ==> exists g :: g in groups && g.user == a.user)
  }

  lemma {:induction false} SolvedAtMostAccepted(acs: seq<Ac>, user: Id)
    ensures |Problems(acs, user)| <= Count(acs, user)
    ensures Count(acs, user) > 0 ==> |Problems(acs, user)| > 0
  {
    if acs == [] {
      assert Problems(acs, user) == {};
    } else {
      var n := |acs| - 1;
      SolvedAtMostAccepted(acs[..n], user);
      assert acs == acs[..n] + [acs[n]];
      if acs[n].user == user {
        assert Problems(acs, user) == Problems(acs[..n], user) + {acs[n].problem};
      } else {
        assert Problems(acs, user) == Problems(acs[..n], user);
      }
    }
  }

  /***** stable sorting, largest key first *****/

  /** What a list is sorted by. */
  datatype SortKey = ByAccepted | BySolved

  function KeyOf(key: SortKey, s: Solver): nat {
    if key.ByAccepted? then s.accepted else s.solved
  }

  function Insert(x: Solver, xs: seq<Solver>, key: SortKey): seq<Solver> {
    if xs == [] || KeyOf(key, xs[|xs| - 1]) >= KeyOf(key, x) then xs + [x]
    else Insert(x, xs[..|xs| - 1], key) + [xs[|xs| - 1]]
  }

  function SortDesc(xs: seq<Solver>, key: SortKey): seq<Solver> {
    if xs == [] then [] else Insert(xs[|xs| - 1], SortDesc(xs[..|xs| - 1], key), key)
  }

  predicate IsSorted(xs: seq<Solver>, key: SortKey) {
    forall i, j :: 0 <= i < j < |xs| ==> KeyOf(key, xs[i]) >= KeyOf(key, xs[j])
  }

  lemma {:induction false} InsertMultiset(x: Solver, xs: seq<Solver>, key: SortKey)
    ensures multiset(Insert(x, xs, key)) == multiset(xs) + multiset{x}
  {
    if xs != [] {
      InsertMultiset(x, xs[..|xs| - 1], key);
      assert xs == xs[..|xs| - 1] + [xs[|xs| - 1]];
    }
  }

  lemma {:induction false} InsertBound(x: Solver, xs: seq<Solver>, key: SortKey, low: nat)
    requires KeyOf(key, x) >= low && forall i :: 0 <= i < |xs| ==> KeyOf(key, xs[i]) >= low
    ensures forall i :: 0 <= i < |Insert(x, xs, key)| ==> KeyOf(key, Insert(x, xs, key)[i]) >= low
  {
    if xs != [] {
      InsertBound(x, xs[..|xs| - 1], key, low);
    }
  }

  lemma {:induction false} InsertSorted(x: Solver, xs: seq<Solver>, key: SortKey)
    requires IsSorted(xs, key)
    ensures IsSorted(Insert(x, xs, key), key)
  {
    if xs != [] && KeyOf(key, xs[|xs| - 1]) < KeyOf(key, x) {
      var n := |xs| - 1;
      InsertSorted(x, xs[..n], key);
      InsertBound(x, xs[..n], key, KeyOf(key, xs[n]));
    }
  }

  lemma {:induction false} SortIsSorted(xs: seq<Solver>, key: SortKey)
    ensures IsSorted(SortDesc(xs, key), key)
    ensures multiset(SortDesc(xs, key)) == multiset(xs)
  {
    if xs != [] {
      var n := |xs| - 1;
      SortIsSorted(xs[..n], key);
      InsertSorted(xs[n], SortDesc(xs[..n], key), key);
      InsertMultiset(xs[n], SortDesc(xs[..n], key), key);
      assert xs == xs[..n] + [xs[n]];
    }
  }

  lemma SortLength(xs: seq<Solver>, key: SortKey)
    ensures |SortDesc(xs, key)| == |xs|
  {
    SortIsSorted(xs, key);
    assert |multiset(xs)| == |xs| && |multiset(SortDesc(xs, key))| == |SortDesc(xs, key)|;
  }

  /***** the leaderboard *****/

  /** `slice(0, 100)` */
  function Slice(xs: seq<Solver>): seq<Solver> {
    if |xs| <= CUT then xs else xs[..CUT]
  }

  function Kept(groups: seq<Solver>): seq<Solver> {
    Slice(SortDesc(groups, ByAccepted))
  }

  function Order(groups: seq<Solver>): seq<Solver> {
    SortDesc(Kept(groups), BySolved)
  }

  function Ranking(groups: seq<Solver>): (entries: seq<Entry>)
    ensures |entries| == |Order(groups)|
    ensures forall i :: 0 <= i < |entries| ==>
            entries[i] == Entry(i + 1, Order(groups)[i].user, Order(groups)[i].solved)
  {
    seq(|Order(groups)|,
        i requires 0 <= i < |Order(groups)| => Entry(i + 1, Order(groups)[i].user, Order(groups)[i].solved))
  }

  /***** the handler, sorting its arrays in place *****/

  /** `a` with the first `i` elements being `xs`, opened at `j` for `x`. */
  function Opened(xs: seq<Solver>, j: nat, x: Solver): seq<Solver>
    requires j <= |xs|
  {
    xs[..j] + [x] + xs[j..]
  }

  /** Where insertion stops: at the first position from the right whose left neighbour is not smaller. */
  lemma {:induction false} InsertIs(x: Solver, xs: seq<Solver>, j: nat, key: SortKey)
    requires j <= |xs| && (j == 0 || KeyOf(key, xs[j - 1]) >= KeyOf(key, x))
    requires forall k :: j <= k < |xs| ==> KeyOf(key, xs[k]) < KeyOf(key, x)
    ensures Insert(x, xs, key) == Opened(xs, j, x)
  {
    if j < |xs| {
      InsertIs(x, xs[..|xs| - 1], j, key);
      assert xs[..|xs| - 1][j..] + [xs[|xs| - 1]] == xs[j..];
    }
  }

  /** Moves the element at `i` into the sorted part before it. */
  method InsertAt(a: array<Solver>, i: nat, key: SortKey)
    requires i < a.Length
    modifies a
    ensures a[..i + 1] == Insert(old(a[i]), old(a[..i]), key)
    ensures a[i + 1..] == old(a[i + 1..])
  {
    ghost var was := a[..];
    ghost var xs := was[..i];
    var x, j := a[i], i;
    while j > 0 && KeyOf(key, a[j - 1]) < KeyOf(key, x)
      invariant 0 <= j <= i
      invariant forall k :: 0 <= k < a.Length && !(j <= k <= i) ==> a[k] == was[k]
      invariant forall k :: j < k <= i ==> a[k] == xs[k - 1]
      invariant forall k :: j <= k < i ==> KeyOf(key, xs[k]) < KeyOf(key, x)
    {
      a[j] := a[j - 1];
      j := j - 1;
    }
    InsertIs(x, xs, j, key);
    a[j] := x;
    assert a[..i + 1] == Opened(xs, j, x);
  }

  method Sort(a: array<Solver>, key: SortKey)
    modifies a
    ensures a[..] == SortDesc(old(a[..]), key)
  {
    ghost var was := a[..];
    var i := 0;
    while i < a.Length
      invariant 0 <= i <= a.Length && a[i..] == was[i..]
      invariant a[..i] == SortDesc(was[..i], key)
    {
      assert was[..i + 1][..i] == was[..i] && a[i] == a[i..][0] == was[i];
      assert a[i..][1..] == a[i + 1..] && was[i..][1..] == was[i + 1..];
      InsertAt(a, i, key);
      i := i + 1;
    }
    assert a[..] == a[..i] && was[..i] == was;
  }

  /** `GET /`: `grouped` is what the group-by query returned. */
  method List(grouped: array<Solver>) returns (entries: seq<Entry>)
    modifies grouped
    ensures entries == Ranking(old(grouped[..]))
  {
    Sort(grouped, ByAccepted);
    var kept := Slice(grouped[..]);
    var ranked := new Solver[|kept|](i requires 0 <= i < |kept| => kept[i]);
    assert ranked[..] == kept;
    Sort(ranked, BySolved);
    var rows := ranked[..];
    entries := seq(|rows|, i requires 0 <= i < |rows| => Entry(i + 1, rows[i].user, rows[i].solved));
  }

  /** The entries are the kept solvers, each once, with solved counts that never increase. */
  lemma OrderFacts(groups: seq<Solver>)
    ensures multiset(Order(groups)) == multiset(Kept(groups)) && IsSorted(Order(groups), BySolved)
    ensures |Order(groups)| == |Kept(groups)| == if |groups| <= CUT then |groups| else CUT
  {
    SortLength(groups, ByAccepted);
    SortLength(Kept(groups), BySolved);
    SortIsSorted(Kept(groups), BySolved);
  }

  /** The first 100 places, or all of them, ranked from 1, best first; up to 100 solvers nobody is missing. */
  lemma RankingOfAll(groups: seq<Solver>)
    ensures |Ranking(groups)| == if |groups| <= 100 then |groups| else 100
    ensures |groups| <= 100 ==> multiset(Order(groups)) == multiset(groups)
    ensures forall i :: 0 <= i < |Ranking(groups)| ==>
              Ranking(groups)[i].rank == i + 1
              && exists g :: g in groups && g.user == Ranking(groups)[i].user && g.solved == Ranking(groups)[i].solved
    ensures forall i, j :: 0 <= i < j < |Ranking(groups)| ==> Ranking(groups)[i].solved >= Ranking(groups)[j].solved
  {
    OrderFacts(groups);
    SortIsSorted(groups, ByAccepted);
    forall i | 0 <= i < |Ranking(groups)|
      ensures exists g :: g in groups && g.user == Ranking(groups)[i].user && g.solved == Ranking(groups)[i].solved
    {
      var g := Order(groups)[i];
      assert g in multiset(Order(groups));
      assert g in multiset(SortDesc(groups, ByAccepted));
      assert g in multiset(groups);
    }
    forall i, j | 0 <= i < j < |Ranking(groups)|
      ensures Ranking(groups)[i].solved >= Ranking(groups)[j].solved
    {
      assert KeyOf(BySolved, Order(groups)[i]) >= KeyOf(BySolved, Order(groups)[j]);
    }
  }

  /** With at most 100 solvers, everyone with an accepted submission is listed, with the number of problems solved. */
  lemma EveryoneListed(acs: seq<Ac>, groups: seq<Solver>, a: Ac) returns (i: nat)
    requires IsGrouping(acs, groups) && |groups| <= 100 && a in acs
    ensures i < |Ranking(groups)| && Ranking(groups)[i] == Entry(i + 1, a.user, |Problems(acs, a.user)|)
  {
    RankingOfAll(groups);
    var g :| g in groups && g.user == a.user;
    assert g in multiset(Order(groups));
    i :| 0 <= i < |Order(groups)| && Order(groups)[i] == g;
  }

  /***** where an element ends up *****/

  /** How many elements have a key of at least `low`. */
  function AtLeast(xs: seq<Solver>, low: nat, key: SortKey): nat {
    if xs == [] then 0 else AtLeast(xs[..|xs| - 1], low, key) + if KeyOf(key, xs[|xs| - 1]) >= low then 1 else 0
  }

  lemma {:induction false} AtLeastConcat(a: seq<Solver>, b: seq<Solver>, low: nat, key: SortKey)
    ensures AtLeast(a + b, low, key) == AtLeast(a, low, key) + AtLeast(b, low, key)
  {
    if b == [] {
      assert a + b == a;
    } else {
      var n := |b| - 1;
      AtLeastConcat(a, b[..n], low, key);
      assert (a + b)[..|a + b| - 1] == a + b[..n];
    }
  }

  lemma CountAround(before: seq<Solver>, x: Solver, after: seq<Solver>, low: nat, key: SortKey)
    ensures AtLeast(before + [x] + after, low, key) ==
            AtLeast(before, low, key) + (if KeyOf(key, x) >= low then 1 else 0) + AtLeast(after, low, key)
  {
    AtLeastConcat(before + [x], after, low, key);
    AtLeastConcat(before, [x], low, key);
    assert [x][..0] == [];
  }

  lemma AtLeastWithout(xs: seq<Solver>, j: nat, low: nat, key: SortKey)
    requires j < |xs|
    ensures AtLeast(xs, low, key) ==
            AtLeast(xs[..j] + xs[j + 1..], low, key) + if KeyOf(key, xs[j]) >= low then 1 else 0
    ensures multiset(xs[..j] + xs[j + 1..]) == multiset(xs) - multiset{xs[j]}
  {
    var before, after := xs[..j], xs[j + 1..];
    assert xs == before + [xs[j]] + after;
    CountAround(before, xs[j], after, low, key);
    AtLeastConcat(before, after, low, key);
  }

  /** The count does not depend on the order. */
  lemma {:induction false} AtLeastMultiset(a: seq<Solver>, b: seq<Solver>, low: nat, key: SortKey)
    requires multiset(a) == multiset(b)
    ensures AtLeast(a, low, key) == AtLeast(b, low, key)
    decreases |a|
  {
    if a == [] {
      assert |multiset(b)| == 0;
    } else {
      assert a[0] in multiset(b);
      var j :| 0 <= j < |b| && b[j] == a[0];
      var x, y := a[..0] + a[1..], b[..j] + b[j + 1..];
      AtLeastWithout(a, 0, low, key);
      AtLeastWithout(b, j, low, key);
      AtLeastMultiset(x, y, low, key);
    }
  }

  lemma {:induction false} AtLeastBound(xs: seq<Solver>, low: nat, key: SortKey)
    ensures AtLeast(xs, low, key) <= |xs|
  {
    if xs != [] {
      AtLeastBound(xs[..|xs| - 1], low, key);
    }
  }

  /** In a sorted list the elements with a large key are a prefix. */
  lemma {:induction false} SortedPrefix(xs: seq<Solver>, low: nat, key: SortKey)
    requires IsSorted(xs, key)
    ensures AtLeast(xs, low, key) <= |xs|
    ensures forall k :: 0 <= k < |xs| ==> (KeyOf(key, xs[k]) >= low <==> k < AtLeast(xs, low, key))
  {
    AtLeastBound(xs, low, key);
    if xs != [] {
      var n := |xs| - 1;
      SortedPrefix(xs[..n], low, key);
      AtLeastBound(xs[..n], low, key);
    }
  }

  /**
   The position of element `p` after sorting: behind those before it that are not smaller and those after it that are
   larger.
   */
  function Place(xs: seq<Solver>, p: nat, key: SortKey): nat
    requires p < |xs|
  {
    AtLeast(xs[..p], KeyOf(key, xs[p]), key) + AtLeast(xs[p + 1..], KeyOf(key, xs[p]) + 1, key)
  }

  lemma PlaceBefore(xs: seq<Solver>, p: nat, key: SortKey)
    requires p < |xs| - 1
    ensures Place(xs, p, key) ==
            Place(xs[..|xs| - 1], p, key) + if KeyOf(key, xs[|xs| - 1]) > KeyOf(key, xs[p]) then 1 else 0
  {
    var n := |xs| - 1;
    assert xs[..n][..p] == xs[..p];
    assert xs[p + 1..][..|xs[p + 1..]| - 1] == xs[..n][p + 1..];
  }

  /** Insertion goes behind all elements that are not smaller and moves the smaller ones by one. */
  lemma InsertPlaces(x: Solver, sorted: seq<Solver>, key: SortKey)
    requires IsSorted(sorted, key)
    ensures AtLeast(sorted, KeyOf(key, x), key) <= |sorted| && |Insert(x, sorted, key)| == |sorted| + 1
    ensures Insert(x, sorted, key)[AtLeast(sorted, KeyOf(key, x), key)] == x
    ensures forall r :: 0 <= r < |sorted| ==>
              Insert(x, sorted, key)[if KeyOf(key, x) > KeyOf(key, sorted[r]) then r + 1 else r] == sorted[r]
  {
    var n := AtLeast(sorted, KeyOf(key, x), key);
    SortedPrefix(sorted, KeyOf(key, x), key);
    InsertIs(x, sorted, n, key);
    forall r | 0 <= r < |sorted|
      ensures Insert(x, sorted, key)[if KeyOf(key, x) > KeyOf(key, sorted[r]) then r + 1 else r] == sorted[r]
    {
      assert KeyOf(key, x) > KeyOf(key, sorted[r]) <==> r >= n;
    }
  }

  lemma LastPlace(xs: seq<Solver>, key: SortKey)
    requires xs != []
    ensures Place(xs, |xs| - 1, key) == AtLeast(SortDesc(xs[..|xs| - 1], key), KeyOf(key, xs[|xs| - 1]), key)
  {
    var n := |xs| - 1;
    assert xs[n + 1..] == [];
    SortIsSorted(xs[..n], key);
    AtLeastMultiset(SortDesc(xs[..n], key), xs[..n], KeyOf(key, xs[n]), key);
  }

  predicate Placed(xs: seq<Solver>, sorted: seq<Solver>, p: nat, key: SortKey)
    requires p < |xs|
  {
    Place(xs, p, key) < |sorted| && sorted[Place(xs, p, key)] == xs[p]
  }

  lemma InsertPlaced(xs: seq<Solver>, sorted: seq<Solver>, p: nat, key: SortKey)
    requires p < |xs| - 1 && |sorted| == |xs| - 1 && IsSorted(sorted, key) && Placed(xs[..|xs| - 1], sorted, p, key)
    ensures Placed(xs, Insert(xs[|xs| - 1], sorted, key), p, key)
  {
    InsertPlaces(xs[|xs| - 1], sorted, key);
    PlaceBefore(xs, p, key);
  }

  /** Sorting puts every element at its place. */
  lemma {:induction false} SortPlaces(xs: seq<Solver>, p: nat, key: SortKey)
    requires p < |xs|
    ensures Placed(xs, SortDesc(xs, key), p, key)
    decreases |xs|
  {
    var n := |xs| - 1;
    SortIsSorted(xs[..n], key);
    SortLength(xs[..n], key);
    if p == n {
      LastPlace(xs, key);
      InsertPlaces(xs[n], SortDesc(xs[..n], key), key);
    } else {
      SortPlaces(xs[..n], p, key);
      InsertPlaced(xs, SortDesc(xs[..n], key), p, key);
    }
  }

  lemma {:induction false} AtLeastAnti(xs: seq<Solver>, low: nat, key: SortKey)
    ensures AtLeast(xs, low + 1, key) <= AtLeast(xs, low, key)
  {
    if xs != [] {
      AtLeastAnti(xs[..|xs| - 1], low, key);
    }
  }

  /** Elements with equal keys keep their order. */
  lemma SortIsStable(xs: seq<Solver>, p: nat, q: nat, key: SortKey)
    requires p < q < |xs| && KeyOf(key, xs[p]) == KeyOf(key, xs[q])
    ensures Place(xs, p, key) < Place(xs, q, key)
  {
    var low := KeyOf(key, xs[p]);
    var before, between, after := xs[..p], xs[p + 1..q], xs[q + 1..];
    CountAround(before, xs[p], between, low, key);
    CountAround(between, xs[q], after, low + 1, key);
    AtLeastAnti(between, low, key);
    assert xs[..q] == before + [xs[p]] + between && xs[p + 1..] == between + [xs[q]] + after;
  }

  /***** who is listed *****/

  lemma {:induction false} OnceInMultiset(groups: seq<Solver>, s: Solver)
    requires DistinctUsers(groups)
    ensures multiset(groups)[s] <= 1
  {
    if groups != [] {
      var n := |groups| - 1;
      OnceInMultiset(groups[..n], s);
      assert groups == groups[..n] + [groups[n]];
      if groups[n] == s {
        assert forall i :: 0 <= i < n ==> groups[i] != s;
        assert s !in groups[..n];
      }
    }
  }

  lemma TwiceInMultiset(xs: seq<Solver>, i: nat, j: nat)
    requires i < |xs| && j < |xs| && i != j && xs[i] == xs[j]
    ensures multiset(xs)[xs[i]] >= 2
  {
    var a, b := if i < j then i else j, if i < j then j else i;
    assert xs == xs[..a] + [xs[a]] + xs[a + 1..b] + [xs[b]] + xs[b + 1..];
  }

  lemma SortDistinct(groups: seq<Solver>, key: SortKey)
    requires DistinctUsers(groups)
    ensures forall i, j :: 0 <= i < j < |SortDesc(groups, key)| ==> SortDesc(groups, key)[i] != SortDesc(groups, key)[j]
  {
    var sorted := SortDesc(groups, key);
    SortIsSorted(groups, key);
    forall i, j | 0 <= i < j < |sorted|
      ensures sorted[i] != sorted[j]
    {
      if sorted[i] == sorted[j] {
        TwiceInMultiset(sorted, i, j);
        OnceInMultiset(groups, sorted[i]);
      }
    }
  }

  /** For the order the query returned: a solver survives the cut exactly when its place is within it. */
  lemma KeptIff(groups: seq<Solver>, p: nat)
    requires DistinctUsers(groups) && p < |groups|
    ensures groups[p] in Kept(groups) <==> Place(groups, p, ByAccepted) < 100
  {
    var sorted := SortDesc(groups, ByAccepted);
    SortPlaces(groups, p, ByAccepted);
    SortDistinct(groups, ByAccepted);
    if groups[p] in Kept(groups) {
      var i :| 0 <= i < |Kept(groups)| && Kept(groups)[i] == groups[p];
      assert sorted[i] == sorted[Place(groups, p, ByAccepted)];
    }
  }

  lemma FirstPlace(xs: seq<Solver>, key: SortKey)
    requires xs != []
    ensures Place(xs, 0, key) == AtLeast(xs, KeyOf(key, xs[0]) + 1, key)
  {
    var low, after := KeyOf(key, xs[0]), xs[1..];
    CountAround([], xs[0], after, low + 1, key);
    assert xs == [] + [xs[0]] + after && xs[..0] == [];
  }

  lemma FinalPlace(xs: seq<Solver>, key: SortKey)
    requires xs != []
    ensures Place(xs, |xs| - 1, key) == AtLeast(xs, KeyOf(key, xs[|xs| - 1]), key) - 1
  {
    var n := |xs| - 1;
    var low, before := KeyOf(key, xs[n]), xs[..n];
    CountAround(before, xs[n], [], low, key);
    assert xs == before + [xs[n]] + [] && xs[n + 1..] == [];
  }

  /** `order` is another result of the same query. */
  predicate Reordered(groups: seq<Solver>, order: seq<Solver>) {
    multiset(order) == multiset(groups)
  }

  lemma SameUser(groups: seq<Solver>, a: Solver, b: Solver)
    requires DistinctUsers(groups) && a in groups && b in groups && a.user == b.user
    ensures a == b
  {
    var i :| 0 <= i < |groups| && groups[i] == a;
    var j :| 0 <= j < |groups| && groups[j] == b;
  }

  lemma ReorderedDistinct(groups: seq<Solver>, order: seq<Solver>)
    requires Reordered(groups, order) && DistinctUsers(groups)
    ensures DistinctUsers(order)
  {
    forall i, j | 0 <= i < j < |order|
      ensures order[i].user != order[j].user
    {
      assert order[i] in multiset(groups) && order[j] in multiset(groups);
      if order[i].user == order[j].user {
        SameUser(groups, order[i], order[j]);
        TwiceInMultiset(order, i, j);
        OnceInMultiset(groups, order[i]);
      }
    }
  }

  lemma ReorderedFacts(groups: seq<Solver>, order: seq<Solver>, low: nat)
    requires Reordered(groups, order)
    ensures AtLeast(order, low, ByAccepted) == AtLeast(groups, low, ByAccepted)
    ensures forall s :: s in order <==> s in groups
    ensures DistinctUsers(groups) ==> DistinctUsers(order)
  {
    AtLeastMultiset(order, groups, low, ByAccepted);
    assert forall s :: s in order <==> s in multiset(order);
    assert forall s :: s in groups <==> s in multiset(groups);
    if DistinctUsers(groups) {
      ReorderedDistinct(groups, order);
    }
  }

  /** With at most 100 groups that have as many accepted submissions a solver is kept; with 100 that have more, cut. */
  lemma FewestAcceptedIsCut(groups: seq<Solver>, order: seq<Solver>, s: Solver)
    requires Reordered(groups, order) && s in groups
    ensures AtLeast(groups, s.accepted, ByAccepted) <= 100 ==> s in Kept(order)
    ensures AtLeast(groups, s.accepted + 1, ByAccepted) >= 100 ==> s !in Kept(order)
  {
    var sorted := SortDesc(order, ByAccepted);
    SortIsSorted(order, ByAccepted);
    AtLeastMultiset(sorted, groups, s.accepted, ByAccepted);
    AtLeastMultiset(sorted, groups, s.accepted + 1, ByAccepted);
    SortedPrefix(sorted, s.accepted, ByAccepted);
    SortedPrefix(sorted, s.accepted + 1, ByAccepted);
    assert s in multiset(sorted);
    var j :| 0 <= j < |sorted| && sorted[j] == s;
    if AtLeast(groups, s.accepted, ByAccepted) <= CUT {
      assert Kept(order)[j] == s;
    }
  }

  /** Any solver can come first, and any other one last. */
  lemma WithFirst(groups: seq<Solver>, s: Solver) returns (order: seq<Solver>)
    requires s in groups
    ensures Reordered(groups, order) && order != [] && order[0] == s
  {
    var j :| 0 <= j < |groups| && groups[j] == s;
    order := [s] + (groups[..j] + groups[j + 1..]);
    assert groups == groups[..j] + [s] + groups[j + 1..];
  }

  lemma WithLast(groups: seq<Solver>, s: Solver) returns (order: seq<Solver>)
    requires s in groups
    ensures Reordered(groups, order) && order != [] && order[|order| - 1] == s
    ensures groups[0] != s ==> order[0] == groups[0]
  {
    var j :| 0 <= j < |groups| && groups[j] == s;
    order := groups[..j] + groups[j + 1..] + [s];
    assert groups == groups[..j] + [s] + groups[j + 1..];
  }

  /** A solver is listed whatever order the query returns exactly when at most 100 have as many accepted submissions. */
  lemma AlwaysKeptIff(groups: seq<Solver>, s: Solver)
    requires DistinctUsers(groups) && s in groups
    ensures (forall order :: Reordered(groups, order) ==> s in Kept(order)) <==>
            AtLeast(groups, s.accepted, ByAccepted) <= 100
  {
    if AtLeast(groups, s.accepted, ByAccepted) <= CUT {
      forall order | Reordered(groups, order)
        ensures s in Kept(order)
      {
        FewestAcceptedIsCut(groups, order, s);
      }
    } else {
      var order := WithLast(groups, s);
      ReorderedFacts(groups, order, s.accepted);
      FinalPlace(order, ByAccepted);
      KeptIff(order, |order| - 1);
    }
  }

  /** A solver is cut whatever order the query returns exactly when at least 100 have more accepted submissions. */
  lemma NeverKeptIff(groups: seq<Solver>, s: Solver)
    requires DistinctUsers(groups) && s in groups
    ensures (forall order :: Reordered(groups, order) ==> s !in Kept(order)) <==>
            AtLeast(groups, s.accepted + 1, ByAccepted) >= 100
  {
    if AtLeast(groups, s.accepted + 1, ByAccepted) >= CUT {
      forall order | Reordered(groups, order)
        ensures s !in Kept(order)
      {
        FewestAcceptedIsCut(groups, order, s);
      }
    } else {
      var order := WithFirst(groups, s);
      ReorderedFacts(groups, order, s.accepted + 1);
      FirstPlace(order, ByAccepted);
      KeptIff(order, 0);
    }
  }

  /** Beyond 100 the cut keeps the largest numbers of accepted submissions. */
  lemma CutByAccepted(groups: seq<Solver>, kept: Solver, other: Solver)
    requires kept in Kept(groups) && other in groups && other !in Kept(groups)
    ensures kept.accepted >= other.accepted
  {
    var sorted := SortDesc(groups, ByAccepted);
    SortIsSorted(groups, ByAccepted);
    assert other in multiset(sorted);
    var i :| 0 <= i < |Kept(groups)| && Kept(groups)[i] == kept;
    var j :| 0 <= j < |sorted| && sorted[j] == other;
    assert sorted[i] == kept;
    assert j >= |Kept(groups)| || other in Kept(groups);
    assert KeyOf(ByAccepted, sorted[i]) >= KeyOf(ByAccepted, sorted[j]);
  }

  /** Some order of the groups lists `a` and cuts `b`. */
  predicate CanDisplace(groups: seq<Solver>, a: Solver, b: Solver) {
    AtLeast(groups, a.accepted + 1, ByAccepted) < 100 < AtLeast(groups, b.accepted, ByAccepted)
  }

  lemma Displaced(groups: seq<Solver>, a: Solver, b: Solver) returns (order: seq<Solver>)
    requires DistinctUsers(groups) && a in groups && b in groups && a != b && CanDisplace(groups, a, b)
    ensures Reordered(groups, order) && a in Kept(order) && b !in Kept(order)
  {
    var first := WithFirst(groups, a);
    ReorderedFacts(groups, first, 0);
    order := WithLast(first, b);
    ReorderedFacts(groups, order, a.accepted + 1);
    ReorderedFacts(groups, order, b.accepted);
    FirstPlace(order, ByAccepted);
    FinalPlace(order, ByAccepted);
    KeptIff(order, 0);
    KeptIff(order, |order| - 1);
  }

  /** Whoever is listed has solved at least as many problems as whoever is cut, in the given order of the groups. */
  ghost predicate CutIsFair(groups: seq<Solver>, order: seq<Solver>) {
    forall a, b :: a in Kept(order) && b in groups && b !in Kept(order) ==> a.solved >= b.solved
  }

  lemma KeptIsMember(groups: seq<Solver>, order: seq<Solver>, a: Solver)
    requires Reordered(groups, order) && a in Kept(order)
    ensures a in groups
  {
    SortIsSorted(order, ByAccepted);
    assert a in multiset(SortDesc(order, ByAccepted));
  }

  /**
   The cut is fair to the problems solved, whatever order the query returns, exactly when no solver can displace
   another one who has solved more.
   */
  lemma CutIsFairIff(groups: seq<Solver>)
    requires DistinctUsers(groups)
    ensures (forall order :: Reordered(groups, order) ==> CutIsFair(groups, order)) <==>
            forall a, b :: a in groups && b in groups && CanDisplace(groups, a, b) ==> a.solved >= b.solved
  {
    if forall order :: Reordered(groups, order) ==> CutIsFair(groups, order) {
      forall a, b | a in groups && b in groups && CanDisplace(groups, a, b)
        ensures a.solved >= b.solved
      {
        if a != b {
          var order := Displaced(groups, a, b);
        }
      }
    }
    if forall a, b :: a in groups && b in groups && CanDisplace(groups, a, b) ==> a.solved >= b.solved {
      forall order, a, b | Reordered(groups, order) && a in Kept(order) && b in groups && b !in Kept(order)
        ensures a.solved >= b.solved
      {
        KeptIsMember(groups, order, a);
        FewestAcceptedIsCut(groups, order, a);
        FewestAcceptedIsCut(groups, order, b);
        assert CanDisplace(groups, a, b);
      }
    }
  }

  /** A listed solver who was never accepted twice on one problem has solved at least as many as anyone cut. */
  lemma CutBySolved(acs: seq<Ac>, groups: seq<Solver>, kept: Solver, other: Solver)
    requires IsGrouping(acs, groups) && kept in Kept(groups) && other in groups && other !in Kept(groups)
    requires Count(acs, kept.user) == |Problems(acs, kept.user)|
    ensures kept.solved >= other.solved
  {
    CutByAccepted(groups, kept, other);
    KeptIsMember(groups, groups, kept);
    SolvedAtMostAccepted(acs, other.user);
  }

  /***** the best solver can be missing *****/

  lemma CountSnoc(acs: seq<Ac>, a: Ac, user: Id)
    ensures Count(acs + [a], user) == Count(acs, user) + if a.user == user then 1 else 0
    ensures Problems(acs + [a], user) == Problems(acs, user) + if a.user == user then {a.problem} else {}
  {
    assert (acs + [a])[..|acs|] == acs;
    assert forall b :: b in acs + [a] <==> b in acs || b == a;
  }

  /** Users below `n` were accepted three times on one problem. */
  function Repeats(n: nat): seq<Ac> {
    if n == 0 then [] else Repeats(n - 1) + [Ac(n - 1, 0)] + [Ac(n - 1, 0)] + [Ac(n - 1, 0)]
  }

  lemma {:induction false} RepeatsFacts(n: nat, user: Id)
    ensures Count(Repeats(n), user) == if user < n then 3 else 0
    ensures Problems(Repeats(n), user) == if user < n then {0} else {}
    ensures forall a :: a in Repeats(n) ==> a.user < n
  {
    if n > 0 {
      var a := Ac(n - 1, 0);
      RepeatsFacts(n - 1, user);
      CountSnoc(Repeats(n - 1), a, user);
      CountSnoc(Repeats(n - 1) + [a], a, user);
      CountSnoc(Repeats(n - 1) + [a] + [a], a, user);
    }
  }

  /** User `n` was accepted on two problems. */
  function BestAcs(n: nat): seq<Ac> {
    Repeats(n) + [Ac(n, 0)] + [Ac(n, 1)]
  }

  function BestGroups(n: nat): (groups: seq<Solver>)
    ensures |groups| == n + 1 && groups[n] == Solver(n, 2, 2)
    ensures forall i :: 0 <= i < n ==> groups[i] == Solver(i, 3, 1)
  {
    seq(n, i requires 0 <= i < n => Solver(i, 3, 1)) + [Solver(n, 2, 2)]
  }

  lemma BestFacts(n: nat, user: Id)
    ensures Count(BestAcs(n), user) == if user < n then 3 else if user == n then 2 else 0
    ensures |Problems(BestAcs(n), user)| == if user < n then 1 else if user == n then 2 else 0
    ensures forall a :: a in BestAcs(n) ==> a.user <= n
  {
    RepeatsFacts(n, user);
    CountSnoc(Repeats(n), Ac(n, 0), user);
    CountSnoc(Repeats(n) + [Ac(n, 0)], Ac(n, 1), user);
    assert Problems(BestAcs(n), user) == if user < n then {0} else if user == n then {0, 1} else {};
  }

  lemma BestGrouping(n: nat)
    ensures IsGrouping(BestAcs(n), BestGroups(n))
  {
    var groups := BestGroups(n);
    forall g | g in groups
      ensures g.accepted == Count(BestAcs(n), g.user) > 0 && g.solved == |Problems(BestAcs(n), g.user)|
    {
      BestFacts(n, g.user);
    }
    forall a | a in BestAcs(n)
      ensures exists g :: g in groups && g.user == a.user
    {
      BestFacts(n, a.user);
      assert groups[a.user] in groups;
    }
  }

  lemma OnlyBest(n: nat)
    ensures forall g :: g in BestGroups(n) && g != Solver(n, 2, 2) ==> g.solved < 2
  {
  }

  lemma {:induction false} AllAtLeast(xs: seq<Solver>, low: nat, key: SortKey)
    requires forall i :: 0 <= i < |xs| ==> KeyOf(key, xs[i]) >= low
    ensures AtLeast(xs, low, key) == |xs|
  {
    if xs != [] {
      AllAtLeast(xs[..|xs| - 1], low, key);
    }
  }

  lemma BestIsCut(n: nat, order: seq<Solver>)
    requires n == CUT && Reordered(BestGroups(n), order)
    ensures Solver(n, 2, 2) !in Kept(order)
  {
    var groups := BestGroups(n);
    AllAtLeast(groups[..n], 3, ByAccepted);
    assert AtLeast(groups, 3, ByAccepted) == n;
    FewestAcceptedIsCut(groups, order, Solver(n, 2, 2));
  }

  lemma MissingAt(n: nat) returns (acs: seq<Ac>, groups: seq<Solver>, best: Solver)
    requires n == CUT
    ensures IsGrouping(acs, groups) && best in groups
    ensures forall g :: g in groups && g != best ==> g.solved < best.solved
    ensures forall order :: Reordered(groups, order) ==> best !in Kept(order)
  {
    acs, groups, best := BestAcs(n), BestGroups(n), Solver(n, 2, 2);
    BestGrouping(n);
    OnlyBest(n);
    forall order | Reordered(groups, order)
      ensures best !in Kept(order)
    {
      BestIsCut(n, order);
    }
  }

  /**
   A hundred solvers of one problem, each accepted three times, push out the only one who solved two, whatever the
   order of the groups.
   */
  lemma BestSolverMissing() returns (acs: seq<Ac>, groups: seq<Solver>, best: Solver)
    ensures IsGrouping(acs, groups) && best in groups
    ensures forall g :: g in groups && g != best ==> g.solved < best.solved
    ensures forall order :: Reordered(groups, order) ==> best !in Kept(order)
  {
    acs, groups, best := MissingAt(CUT);
  }
}
