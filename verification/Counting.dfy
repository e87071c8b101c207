/** Sequences without repetition and sizes of finite sets of numbers. */
module Counting {
  ghost predicate NoRepeats<T>(xs: seq<T>) {
    forall i, j :: 0 <= i < |xs| && 0 <= j < |xs| && xs[i] == xs[j] ==> i == j
  }

  /** The same element by element, for proofs that follow the sequence. */
  ghost predicate Distinct<T>(xs: seq<T>) {
    xs == [] || (xs[0] !in xs[1..] && Distinct(xs[1..]))
  }

  lemma {:induction false} DistinctIsNoRepeats<T>(xs: seq<T>)
    ensures Distinct(xs) <==> NoRepeats(xs)
  {
    if xs != [] {
      DistinctIsNoRepeats(xs[1..]);
      assert forall i :: 0 < i < |xs| ==> xs[i] == xs[1..][i - 1];
      if NoRepeats(xs) {
        forall i, j | 0 <= i < |xs[1..]| && 0 <= j < |xs[1..]| && xs[1..][i] == xs[1..][j] ensures i == j {
          assert xs[i + 1] == xs[j + 1];
        }
      }
    }
  }

  ghost function Below(n: nat): (s: set<nat>)
    ensures |s| == n && forall q: nat :: q in s <==> q < n
  {
    if n == 0 then {} else Below(n - 1) + {n - 1}
  }

  lemma SubsetSize(a: set<nat>, b: set<nat>)
    requires a <= b
    ensures |a| <= |b| && (|a| == |b| ==> a == b)
  {
    assert b == a + (b - a);
  }
}
