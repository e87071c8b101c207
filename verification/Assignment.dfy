/** The expert-capacity ceiling of src/orchestration/router.hpp: which expert each token goes to. */
module Assignment {
  import opened Bytes
  import opened Wire
  import opened Counting

  // ---------------------------------------------------------------------------------------
  // The rule, stated by rank
  // ---------------------------------------------------------------------------------------

  /** The tokens that choose expert `e`. */
  ghost function Group(ts: seq<RoutedToken>, e: U32): set<nat> {
    set j: nat | j < |ts| && ts[j].primaryExpert == e
  }

  /** The competitors of token `i` with a smaller batch position. */
  ghost function Ahead(ts: seq<RoutedToken>, g: set<nat>, i: nat): set<nat>
    requires i < |ts| && forall j :: j in g ==> j < |ts|
  {
    set j | j in g && ts[j].batchPosition < ts[i].batchPosition
  }

  /** The competitors of token `i`, itself included, with a batch position no larger. */
  ghost function NotBehind(ts: seq<RoutedToken>, g: set<nat>, i: nat): set<nat>
    requires i < |ts| && forall j :: j in g ==> j < |ts|
  {
    set j | j in g && ts[j].batchPosition <= ts[i].batchPosition
  }

  /** Token `i` keeps its primary expert if it is certainly among the first `capacity`, goes to
      its secondary if it is certainly not, and to one of the two if positions tie. */
  ghost predicate AssignedAt(ts: seq<RoutedToken>, capacity: nat, eff: seq<U32>, i: nat)
    requires i < |ts| && i < |eff|
  {
    var t := ts[i];
    var g := Group(ts, t.primaryExpert);
    && (eff[i] == t.primaryExpert || eff[i] == t.secondaryExpert)
    && (|NotBehind(ts, g, i)| <= capacity ==> eff[i] == t.primaryExpert)
    && (|Ahead(ts, g, i)| >= capacity ==> eff[i] == t.secondaryExpert)
  }

  ghost predicate Assigned(ts: seq<RoutedToken>, capacity: nat, eff: seq<U32>) {
    |eff| == |ts| && forall i :: 0 <= i < |ts| ==> AssignedAt(ts, capacity, eff, i)
  }

  ghost predicate DistinctPositions(ts: seq<RoutedToken>) {
    forall i, j :: 0 <= i < |ts| && 0 <= j < |ts| && ts[i].batchPosition == ts[j].batchPosition ==> i == j
  }

  /** With distinct positions the rule has no slack: the first `capacity` keep, the others go. */
  lemma AssignedExactly(ts: seq<RoutedToken>, capacity: nat, eff: seq<U32>, i: nat)
    requires Assigned(ts, capacity, eff) && DistinctPositions(ts) && i < |ts|
    ensures var g := Group(ts, ts[i].primaryExpert);
            eff[i] == if |Ahead(ts, g, i)| < capacity then ts[i].primaryExpert else ts[i].secondaryExpert
    ensures Ahead(ts, Group(ts, ts[i].primaryExpert), i)
         == set j: nat | j < |ts| && ts[j].primaryExpert == ts[i].primaryExpert
                         && ts[j].batchPosition < ts[i].batchPosition
  {
    var g := Group(ts, ts[i].primaryExpert);
    assert NotBehind(ts, g, i) == Ahead(ts, g, i) + {i};
    assert AssignedAt(ts, capacity, eff, i);
  }

  /** With distinct positions the assignment is unique: no sort or hash order can change it. */
  lemma AssignmentUnique(ts: seq<RoutedToken>, capacity: nat, a: seq<U32>, b: seq<U32>)
    requires Assigned(ts, capacity, a) && Assigned(ts, capacity, b) && DistinctPositions(ts)
    ensures a == b
  {
    forall i | 0 <= i < |ts| ensures a[i] == b[i] {
      AssignedExactly(ts, capacity, a, i);
      AssignedExactly(ts, capacity, b, i);
    }
  }

  // ---------------------------------------------------------------------------------------
  // Exactly min(capacity, count) tokens keep their expert
  // ---------------------------------------------------------------------------------------

  ghost predicate Indexes(ts: seq<RoutedToken>, g: set<nat>) {
    forall j :: j in g ==> j < |ts|
  }

  /** The members of `g` with fewer than `capacity` members ahead of them. */
  ghost function Keepers(ts: seq<RoutedToken>, g: set<nat>, capacity: nat): set<nat>
    requires Indexes(ts, g)
  {
    set i | i in g && |Ahead(ts, g, i)| < capacity
  }

  lemma LastOf(ts: seq<RoutedToken>, g: set<nat>) returns (m: nat)
    requires Indexes(ts, g) && g != {}
    ensures m in g && forall j :: j in g ==> ts[j].batchPosition <= ts[m].batchPosition
  {
    var x :| x in g;
    if g == {x} {
      m := x;
    } else {
      var rest := LastOf(ts, g - {x});
      m := if ts[x].batchPosition <= ts[rest].batchPosition then rest else x;
    }
  }

  /** Of every group, exactly the `min(capacity, |g|)` members with the lowest positions keep. */
  lemma KeepersCount(ts: seq<RoutedToken>, g: set<nat>, capacity: nat)
    requires Indexes(ts, g) && DistinctPositions(ts)
    ensures |Keepers(ts, g, capacity)| == if capacity <= |g| then capacity else |g|
    decreases |g|
  {
    if g == {} {
      assert Keepers(ts, g, capacity) == {};
    } else {
      var m := LastOf(ts, g);
      var rest := g - {m};
      KeepersCount(ts, rest, capacity);
      LastJoins(ts, g, m, capacity);
      assert |rest| == |g| - 1;
    }
  }

  /** The last member of a group takes nothing from the others, and keeps if there is room. */
  lemma LastJoins(ts: seq<RoutedToken>, g: set<nat>, m: nat, capacity: nat)
    requires Indexes(ts, g) && DistinctPositions(ts) && m in g
    requires forall j :: j in g ==> ts[j].batchPosition <= ts[m].batchPosition
    ensures var rest := g - {m};
            Keepers(ts, g, capacity) == Keepers(ts, rest, capacity) + if |rest| < capacity then {m} else {}
  {
    var rest := g - {m};
    assert Ahead(ts, g, m) == rest;
    forall i | i in rest ensures Ahead(ts, g, i) == Ahead(ts, rest, i) {
      assert ts[i].batchPosition <= ts[m].batchPosition;
    }
  }

  /** A keeper has a lower position than a member that does not keep. */
  lemma KeepersAreLowest(ts: seq<RoutedToken>, g: set<nat>, capacity: nat, k: nat, n: nat)
    requires Indexes(ts, g) && k in Keepers(ts, g, capacity) && n in g && n !in Keepers(ts, g, capacity)
    ensures ts[k].batchPosition < ts[n].batchPosition
  {
    if ts[n].batchPosition <= ts[k].batchPosition {
      assert Ahead(ts, g, n) <= Ahead(ts, g, k);
      SubsetSize(Ahead(ts, g, n), Ahead(ts, g, k));
      assert false;
    }
  }

  // ---------------------------------------------------------------------------------------
  // The assignment does not depend on the order of the input
  // ---------------------------------------------------------------------------------------

  predicate CountsAhead(t: RoutedToken, e: U32, p: U32) { t.primaryExpert == e && t.batchPosition < p }

  /** How many tokens of the batch choose `e` and have a position below `p`. */
  function CountAhead(ts: seq<RoutedToken>, e: U32, p: U32): nat {
    if ts == [] then 0
    else CountAhead(ts[..|ts| - 1], e, p) + if CountsAhead(ts[|ts| - 1], e, p) then 1 else 0
  }

  lemma {:induction false} CountAheadIsSize(ts: seq<RoutedToken>, e: U32, p: U32)
    ensures CountAhead(ts, e, p) == |set j: nat | j < |ts| && CountsAhead(ts[j], e, p)|
  {
    var all := set j: nat | j < |ts| && CountsAhead(ts[j], e, p);
    if ts == [] {
      assert all == {};
    } else {
      var last := |ts| - 1;
      var init := ts[..last];
      CountAheadIsSize(init, e, p);
      var before := set j: nat | j < |init| && CountsAhead(init[j], e, p);
      if CountsAhead(ts[last], e, p) {
        assert all == before + {last};
      } else {
        assert all == before;
      }
    }
  }

  lemma {:induction false} CountAheadSplit(a: seq<RoutedToken>, b: seq<RoutedToken>, e: U32, p: U32)
    ensures CountAhead(a + b, e, p) == CountAhead(a, e, p) + CountAhead(b, e, p)
  {
    if b == [] {
      assert a + b == a;
    } else {
      assert (a + b)[..|a + b| - 1] == a + b[..|b| - 1];
      CountAheadSplit(a, b[..|b| - 1], e, p);
    }
  }

  /** Taking the last token of `ts` out of both of two batches with the same tokens. */
  lemma RemoveOne(ts: seq<RoutedToken>, us: seq<RoutedToken>, k: nat)
    requires multiset(ts) == multiset(us) && ts != [] && k < |us| && us[k] == ts[|ts| - 1]
    ensures multiset(ts[..|ts| - 1]) == multiset(us[..k] + us[k + 1..])
  {
    var init, t := ts[..|ts| - 1], us[k];
    assert ts == init + [t];
    assert us == us[..k] + [t] + us[k + 1..];
    assert multiset(init) == multiset(ts) - multiset{t};
    assert multiset(us[..k] + us[k + 1..]) == multiset(us) - multiset{t};
  }

  /** The count only depends on which tokens are in the batch. */
  lemma {:induction false} CountAheadPermutes(ts: seq<RoutedToken>, us: seq<RoutedToken>, e: U32, p: U32)
    requires multiset(ts) == multiset(us)
    ensures CountAhead(ts, e, p) == CountAhead(us, e, p)
    decreases |ts|
  {
    if ts == [] {
      assert |multiset(us)| == 0;
      assert us == [];
    } else {
      var last := |ts| - 1;
      var init, t := ts[..last], ts[last];
      assert t in multiset(ts);
      var k :| 0 <= k < |us| && us[k] == t;
      var l, r := us[..k], us[k + 1..];
      assert us == l + ([t] + r);
      RemoveOne(ts, us, k);
      CountAheadPermutes(init, l + r, e, p);
      CountAheadSplit(l, [t] + r, e, p);
      CountAheadSplit([t], r, e, p);
      CountAheadSplit(l, r, e, p);
    }
  }

  /** Two batches with the same tokens in any two orders: each token gets the same expert. */
  lemma OrderIndependent(
    ts: seq<RoutedToken>, us: seq<RoutedToken>, capacity: nat, a: seq<U32>, b: seq<U32>, i: nat, j: nat)
    requires multiset(ts) == multiset(us) && DistinctPositions(ts) && DistinctPositions(us)
    requires Assigned(ts, capacity, a) && Assigned(us, capacity, b)
    requires i < |ts| && j < |us| && ts[i] == us[j]
    ensures a[i] == b[j]
  {
    var e, p := ts[i].primaryExpert, ts[i].batchPosition;
    AssignedExactly(ts, capacity, a, i);
    AssignedExactly(us, capacity, b, j);
    CountAheadIsSize(ts, e, p);
    CountAheadIsSize(us, e, p);
    CountAheadPermutes(ts, us, e, p);
    assert Ahead(ts, Group(ts, e), i) == set k: nat | k < |ts| && CountsAhead(ts[k], e, p);
    assert Ahead(us, Group(us, e), j) == set k: nat | k < |us| && CountsAhead(us[k], e, p);
  }

  // ---------------------------------------------------------------------------------------
  // The algorithm
  // ---------------------------------------------------------------------------------------

  ghost predicate SortedByPosition(ts: seq<RoutedToken>, xs: seq<nat>) {
    && (forall i :: 0 <= i < |xs| ==> xs[i] < |ts|)
    && (forall i, j :: 0 <= i < j < |xs| ==> ts[xs[i]].batchPosition <= ts[xs[j]].batchPosition)
  }

  /** `xs` lists the tokens that choose `e`, each once. */
  ghost predicate Lists(ts: seq<RoutedToken>, xs: seq<nat>, g: set<nat>) {
    NoRepeats(xs) && forall x: nat :: x in xs <==> x in g
  }

  /** Stands for the library sort: any permutation that is sorted by position. */
  method SortIndices(ts: seq<RoutedToken>, xs: seq<nat>, ghost g: set<nat>) returns (ys: seq<nat>)
    requires Lists(ts, xs, g) && Indexes(ts, g)
    ensures Lists(ts, ys, g) && SortedByPosition(ts, ys)
  {
    ys := [];
    var n := 0;
    while n < |xs|
      invariant 0 <= n <= |xs| && SortedByPosition(ts, ys) && NoRepeats(ys)
      invariant forall y: nat :: y in ys <==> y in xs[..n]
    {
      assert xs[n] in xs;
      ys := Insert(ts, ys, xs[n]);
      n := n + 1;
    }
    assert xs[..n] == xs;
  }

  method Insert(ts: seq<RoutedToken>, ys: seq<nat>, x: nat) returns (zs: seq<nat>)
    requires SortedByPosition(ts, ys) && NoRepeats(ys) && x < |ts| && x !in ys
    ensures SortedByPosition(ts, zs) && NoRepeats(zs)
    ensures forall z: nat :: z in zs <==> z in ys || z == x
  {
    var k := 0;
    while k < |ys| && ts[ys[k]].batchPosition <= ts[x].batchPosition
      invariant 0 <= k <= |ys|
      invariant forall i :: 0 <= i < k ==> ts[ys[i]].batchPosition <= ts[x].batchPosition
    {
      k := k + 1;
    }
    zs := ys[..k] + [x] + ys[k..];
    InsertedSorted(ts, ys, x, k);
    InsertedOnce(ys, x, k);
  }

  lemma InsertedSorted(ts: seq<RoutedToken>, ys: seq<nat>, x: nat, k: nat)
    requires SortedByPosition(ts, ys) && x < |ts| && k <= |ys|
    requires forall i :: 0 <= i < k ==> ts[ys[i]].batchPosition <= ts[x].batchPosition
    requires k < |ys| ==> ts[x].batchPosition <= ts[ys[k]].batchPosition
    ensures SortedByPosition(ts, ys[..k] + [x] + ys[k..])
  {
    var zs := ys[..k] + [x] + ys[k..];
    assert forall i :: 0 <= i < |zs| ==> zs[i] == if i < k then ys[i] else if i == k then x else ys[i - 1];
  }

  lemma InsertedOnce(ys: seq<nat>, x: nat, k: nat)
    requires NoRepeats(ys) && x !in ys && k <= |ys|
    ensures NoRepeats(ys[..k] + [x] + ys[k..])
    ensures forall z: nat :: z in ys[..k] + [x] + ys[k..] <==> z in ys || z == x
  {
    var zs := ys[..k] + [x] + ys[k..];
    assert ys == ys[..k] + ys[k..];
    forall i, j | 0 <= i < |zs| && 0 <= j < |zs| && zs[i] == zs[j] ensures i == j {
      assert zs[i] == if i < k then ys[i] else if i == k then x else ys[i - 1];
      assert zs[j] == if j < k then ys[j] else if j == k then x else ys[j - 1];
    }
  }

  /** Position in a sorted list against rank in the group. */
  lemma RankInList(ts: seq<RoutedToken>, xs: seq<nat>, g: set<nat>, r: nat)
    requires Lists(ts, xs, g) && Indexes(ts, g) && SortedByPosition(ts, xs) && r < |xs|
    ensures |Ahead(ts, g, xs[r])| <= r < |NotBehind(ts, g, xs[r])|
  {
    var before := set i: nat | i < r :: xs[i];
    PrefixSize(xs, r);
    PrefixSize(xs, r + 1);
    var upto := set i: nat | i < r + 1 :: xs[i];
    forall j | j in Ahead(ts, g, xs[r]) ensures j in before {
      var i :| 0 <= i < |xs| && xs[i] == j;
      assert i < r;
    }
    forall j | j in upto ensures j in NotBehind(ts, g, xs[r]) {
      var i :| 0 <= i < r + 1 && xs[i] == j;
    }
    SubsetSize(Ahead(ts, g, xs[r]), before);
    SubsetSize(upto, NotBehind(ts, g, xs[r]));
  }

  lemma PrefixSize(xs: seq<nat>, r: nat)
    requires NoRepeats(xs) && r <= |xs|
    ensures |set i: nat | i < r :: xs[i]| == r
  {
    var s := set i: nat | i < r :: xs[i];
    if r == 0 {
      assert s == {};
    } else {
      PrefixSize(xs, r - 1);
      var t := set i: nat | i < r - 1 :: xs[i];
      assert xs[r - 1] !in t;
      assert s == t + {xs[r - 1]};
    }
  }

  /** Groups the tokens by primary expert, sorts each group by position and lets the first
      `capacity` of each keep it. Experts are visited in no particular order. */
  method AssignEffectiveExperts(ts: seq<RoutedToken>, capacity: nat, eff: array<U32>)
    requires eff.Length == |ts|
    modifies eff
    ensures Assigned(ts, capacity, eff[..])
  {
    var byPrimary := GroupByPrimary(ts);
    var todo := byPrimary.Keys;
    while todo != {}
      invariant todo <= byPrimary.Keys
      invariant forall i :: 0 <= i < |ts| && ts[i].primaryExpert !in todo ==> AssignedAt(ts, capacity, eff[..], i)
      decreases |todo|
    {
      var e :| e in todo;
      AssignGroup(ts, capacity, e, byPrimary[e], eff);
      todo := todo - {e};
    }
  }

  method GroupByPrimary(ts: seq<RoutedToken>) returns (groups: map<U32, seq<nat>>)
    ensures forall i :: 0 <= i < |ts| ==> ts[i].primaryExpert in groups
    ensures forall e :: e in groups ==> Lists(ts, groups[e], Group(ts, e))
  {
    groups := map[];
    var n := 0;
    while n < |ts|
      invariant 0 <= n <= |ts|
      invariant forall i :: 0 <= i < n ==> ts[i].primaryExpert in groups
      invariant forall e :: e in groups ==> Lists(ts, groups[e], Group(ts[..n], e))
    {
      var e := ts[n].primaryExpert;
      ghost var before := groups;
      var xs := if e in groups then groups[e] else [];
      assert forall f :: f != e ==> Group(ts[..n + 1], f) == Group(ts[..n], f);
      assert Group(ts[..n + 1], e) == Group(ts[..n], e) + {n};
      assert e !in groups ==> Group(ts[..n], e) == {};
      groups := groups[e := xs + [n]];
      n := n + 1;
    }
    assert ts[..n] == ts;
  }

  /** One expert's group: sort it, then assign by rank. */
  method AssignGroup(ts: seq<RoutedToken>, capacity: nat, e: U32, xs: seq<nat>, eff: array<U32>)
    requires eff.Length == |ts| && Lists(ts, xs, Group(ts, e))
    modifies eff
    ensures forall i :: 0 <= i < |ts| && ts[i].primaryExpert == e ==> AssignedAt(ts, capacity, eff[..], i)
    ensures forall i :: 0 <= i < |ts| && ts[i].primaryExpert != e ==> eff[i] == old(eff[i])
  {
    ghost var g := Group(ts, e);
    var order := SortIndices(ts, xs, g);
    var rank := 0;
    while rank < |order|
      invariant 0 <= rank <= |order|
      invariant forall i :: 0 <= i < |ts| && ts[i].primaryExpert != e ==> eff[i] == old(eff[i])
      invariant forall r :: 0 <= r < rank ==>
                  eff[order[r]] == if r < capacity then ts[order[r]].primaryExpert else ts[order[r]].secondaryExpert
    {
      var idx := order[rank];
      assert idx in g;
      eff[idx] := if rank < capacity then ts[idx].primaryExpert else ts[idx].secondaryExpert;
      rank := rank + 1;
    }
    forall i | 0 <= i < |ts| && ts[i].primaryExpert == e ensures AssignedAt(ts, capacity, eff[..], i) {
      assert i in g;
      var r :| 0 <= r < |order| && order[r] == i;
      RankInList(ts, order, g, r);
    }
  }
}
