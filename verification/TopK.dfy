/** Top-k selection: the destructive extraction of the gating kernel against a full argsort. */
module TopK {
  import opened Counting

  predicate InRange(idx: seq<nat>, n: nat) { forall p :: 0 <= p < |idx| ==> idx[p] < n }

  /** `i` is among the largest of the logits whose index is not in `taken`. */
  ghost predicate Largest(logits: seq<real>, taken: seq<nat>, i: nat) {
    i < |logits| && i !in taken && forall j: nat :: AtMost(logits, taken, i, j)
  }

  ghost predicate AtMost(logits: seq<real>, taken: seq<nat>, i: nat, j: nat)
    requires i < |logits|
  {
    j < |logits| && j !in taken ==> logits[j] <= logits[i]
  }

  /** Among equal largest logits, the one with the lowest index. */
  ghost predicate FirstLargest(logits: seq<real>, taken: seq<nat>, i: nat) {
    Largest(logits, taken, i) && forall j: nat :: LessBefore(logits, taken, i, j)
  }

  ghost predicate LessBefore(logits: seq<real>, taken: seq<nat>, i: nat, j: nat)
    requires i < |logits|
  {
    j < i && j !in taken ==> logits[j] < logits[i]
  }

  /** Each index is a largest of those not taken before it. */
  ghost predicate Top(logits: seq<real>, idx: seq<nat>) {
    forall p :: 0 <= p < |idx| ==> Largest(logits, idx[..p], idx[p])
  }

  /** What `|idx|` rounds of strict-maximum extraction select. */
  ghost predicate Extracted(logits: seq<real>, idx: seq<nat>) {
    forall p :: 0 <= p < |idx| ==> FirstLargest(logits, idx[..p], idx[p])
  }

  /** What a descending argsort returns; the order of ties is up to the sort. */
  ghost predicate Argsort(logits: seq<real>, order: seq<nat>) {
    && |order| == |logits| && InRange(order, |logits|) && NoRepeats(order)
    && forall p, q :: 0 <= p < q < |order| ==> logits[order[p]] >= logits[order[q]]
  }

  // ---------------------------------------------------------------------------------------
  // Sizes
  // ---------------------------------------------------------------------------------------

  ghost function Elements(idx: seq<nat>): set<nat> { set p | 0 <= p < |idx| :: idx[p] }

  lemma {:induction false} ElementsSize(idx: seq<nat>)
    requires NoRepeats(idx)
    ensures |Elements(idx)| == |idx|
  {
    if idx == [] {
      assert Elements(idx) == {};
    } else {
      var n := |idx| - 1;
      ElementsSize(idx[..n]);
      assert Elements(idx) == Elements(idx[..n]) + {idx[n]};
    }
  }

  /** Fewer than `n` distinct indices leave one out; `n` of them leave none. */
  lemma Remaining(idx: seq<nat>, n: nat) returns (j: nat)
    requires NoRepeats(idx) && InRange(idx, n) && |idx| < n
    ensures j < n && j !in idx
  {
    ElementsSize(idx);
    if Below(n) <= Elements(idx) { SubsetSize(Below(n), Elements(idx)); assert false; }
    j :| j in Below(n) && j !in Elements(idx);
  }

  lemma NoneRemaining(idx: seq<nat>, n: nat, j: nat)
    requires NoRepeats(idx) && InRange(idx, n) && |idx| == n && j < n
    ensures j in idx
  {
    ElementsSize(idx);
    assert Elements(idx) <= Below(n);
    SubsetSize(Elements(idx), Below(n));
    assert j in Elements(idx);
  }

  // ---------------------------------------------------------------------------------------
  // Both ways of selecting are top selections
  // ---------------------------------------------------------------------------------------

  lemma ExtractedIsTop(logits: seq<real>, idx: seq<nat>)
    requires Extracted(logits, idx)
    ensures Top(logits, idx)
  {
    forall p | 0 <= p < |idx| ensures Largest(logits, idx[..p], idx[p]) {
      assert FirstLargest(logits, idx[..p], idx[p]);
    }
  }

  lemma ArgsortPrefixIsTop(logits: seq<real>, order: seq<nat>, k: nat)
    requires Argsort(logits, order) && k <= |order|
    ensures Top(logits, order[..k])
  {
    var idx := order[..k];
    forall p | 0 <= p < k ensures Largest(logits, idx[..p], idx[p]) {
      assert idx[..p] == order[..p];
      assert forall r :: 0 <= r < p ==> order[..p][r] == order[r];
      forall j: nat ensures AtMost(logits, order[..p], order[p], j) {
        if j < |logits| && j !in order[..p] {
          NoneRemaining(order, |logits|, j);
          var q :| 0 <= q < |order| && order[q] == j;
        }
      }
    }
  }

  /** A top selection: distinct indices in range, logits descending, nothing larger left out. */
  lemma TopIsOrdered(logits: seq<real>, idx: seq<nat>)
    requires Top(logits, idx)
    ensures InRange(idx, |logits|) && NoRepeats(idx) && |idx| <= |logits|
    ensures forall p, q :: 0 <= p <= q < |idx| ==> logits[idx[p]] >= logits[idx[q]]
    ensures forall p, j :: 0 <= p < |idx| && 0 <= j < |logits| && j !in idx ==> logits[j] <= logits[idx[p]]
  {
    assert forall p :: 0 <= p < |idx| ==> Largest(logits, idx[..p], idx[p]);
    forall p, q | 0 <= p < q < |idx| ensures idx[p] != idx[q] {
      assert idx[..q][p] == idx[p];
      assert Largest(logits, idx[..q], idx[q]);
    }
    forall p, q | 0 <= p < q < |idx| ensures logits[idx[p]] >= logits[idx[q]] {
      assert Largest(logits, idx[..p], idx[p]) && Largest(logits, idx[..q], idx[q]);
      assert idx[q] !in idx[..p];
      assert AtMost(logits, idx[..p], idx[p], idx[q]);
    }
    forall p, j | 0 <= p < |idx| && 0 <= j < |logits| && j !in idx ensures logits[j] <= logits[idx[p]] {
      assert Largest(logits, idx[..p], idx[p]) && j !in idx[..p];
      assert AtMost(logits, idx[..p], idx[p], j);
    }
    ElementsSize(idx);
    assert Elements(idx) <= Below(|logits|);
    SubsetSize(Elements(idx), Below(|logits|));
  }

  /** Among equal logits, extraction takes the lowest index first. */
  lemma TiesLowestFirst(logits: seq<real>, idx: seq<nat>, p: nat, j: nat)
    requires Extracted(logits, idx) && p < |idx| && j < |logits| && j !in idx[..p + 1] && idx[p] < |logits|
    requires logits[j] == logits[idx[p]]
    ensures idx[p] < j
  {
    assert FirstLargest(logits, idx[..p], idx[p]);
    assert LessBefore(logits, idx[..p], idx[p], j);
    assert idx[..p + 1] == idx[..p] + [idx[p]];
  }

  // ---------------------------------------------------------------------------------------
  // Position by position, all top selections have the same logits
  // ---------------------------------------------------------------------------------------

  /** If position `p` of `a` held more than position `p` of `b`, all of `a` up to there would be in
      `b` before it. */
  lemma AheadIsTaken(logits: seq<real>, a: seq<nat>, b: seq<nat>, p: nat, q: nat)
    requires Top(logits, a) && Top(logits, b) && q <= p < |a| && p < |b|
    requires InRange(a, |logits|) && InRange(b, |logits|) && logits[a[p]] > logits[b[p]]
    ensures a[q] in b[..p]
  {
    TopIsOrdered(logits, a);
    assert logits[a[q]] >= logits[a[p]];
    assert Largest(logits, b[..p], b[p]) && AtMost(logits, b[..p], b[p], a[q]);
  }

  /** Position `p` of one selection cannot hold more than position `p` of another. */
  lemma TopValueAtMost(logits: seq<real>, a: seq<nat>, b: seq<nat>, p: nat)
    requires Top(logits, a) && Top(logits, b) && p < |a| && p < |b|
    requires InRange(a, |logits|) && InRange(b, |logits|)
    ensures logits[a[p]] <= logits[b[p]]
  {
    var ahead, room := a[..p + 1], b[..p];
    PrefixDistinct(logits, a, p + 1);
    PrefixDistinct(logits, b, p);
    if logits[a[p]] > logits[b[p]] {
      forall x | x in Elements(ahead) ensures x in Elements(room) {
        var q :| 0 <= q < |ahead| && ahead[q] == x;
        AheadIsTaken(logits, a, b, p, q);
      }
      SubsetSize(Elements(ahead), Elements(room));
      assert false;
    }
  }

  lemma PrefixDistinct(logits: seq<real>, a: seq<nat>, n: nat)
    requires Top(logits, a) && n <= |a|
    ensures |Elements(a[..n])| == n
  {
    TopIsOrdered(logits, a);
    ElementsSize(a[..n]);
  }

  lemma TopValuesAgree(logits: seq<real>, a: seq<nat>, b: seq<nat>, p: nat)
    requires Top(logits, a) && Top(logits, b) && p < |a| && p < |b|
    requires InRange(a, |logits|) && InRange(b, |logits|)
    ensures logits[a[p]] == logits[b[p]]
  {
    TopValueAtMost(logits, a, b, p);
    TopValueAtMost(logits, b, a, p);
  }

  // ---------------------------------------------------------------------------------------
  // When the sets agree
  // ---------------------------------------------------------------------------------------

  /** No index left out ties with one selected. */
  ghost predicate NoTieCrosses(logits: seq<real>, idx: seq<nat>)
    requires InRange(idx, |logits|)
  {
    forall p, j :: 0 <= p < |idx| && 0 <= j < |logits| && j !in idx ==> logits[j] != logits[idx[p]]
  }

  lemma SameSet(logits: seq<real>, a: seq<nat>, b: seq<nat>)
    requires Top(logits, a) && Top(logits, b) && |a| == |b| && InRange(a, |logits|) && InRange(b, |logits|)
    requires NoTieCrosses(logits, a)
    ensures Elements(a) == Elements(b)
  {
    TopIsOrdered(logits, a);
    TopIsOrdered(logits, b);
    forall x | x in Elements(b) ensures x in Elements(a) {
      var q :| 0 <= q < |b| && b[q] == x;
      if x !in a {
        TopValuesAgree(logits, a, b, q);
        assert false;
      }
    }
    ElementsSize(a);
    ElementsSize(b);
    SubsetSize(Elements(b), Elements(a));
  }

  /** Exchanging a selected index for a left-out one with the same logit gives a top selection. */
  lemma SwapTied(logits: seq<real>, a: seq<nat>, p: nat, j: nat)
    requires Top(logits, a) && InRange(a, |logits|) && p < |a| && j < |logits| && j !in a && logits[j] == logits[a[p]]
    ensures Top(logits, a[p := j]) && j in Elements(a[p := j]) && j !in Elements(a)
  {
    var b := a[p := j];
    TopIsOrdered(logits, a);
    assert b[p] == j;
    forall q | 0 <= q < |b| ensures Largest(logits, b[..q], b[q]) {
      assert Largest(logits, a[..q], a[q]);
      if q < p {
        assert b[..q] == a[..q];
      } else if q == p {
        assert b[..q] == a[..q];
        forall x: nat ensures AtMost(logits, b[..q], b[q], x) { assert AtMost(logits, a[..q], a[q], x); }
      } else {
        assert b[..q] == a[..q][p := j];
        assert b[q] == a[q];
        assert forall r :: 0 <= r < q && r != p ==> b[..q][r] == a[r];
        forall x: nat ensures AtMost(logits, b[..q], b[q], x) {
          assert j !in a[..q] && AtMost(logits, a[..q], a[q], j) && AtMost(logits, a[..q], a[q], x);
          if x !in b[..q] { assert x != a[p] ==> x !in a[..q]; }
        }
        assert b[q] !in b[..q];
      }
    }
  }

  /** A selection's set is the only possible one exactly when no tie crosses its boundary. */
  lemma SetIsForcedIff(logits: seq<real>, a: seq<nat>)
    requires Top(logits, a) && InRange(a, |logits|)
    ensures NoTieCrosses(logits, a)
       <==> forall b :: Top(logits, b) && |b| == |a| && InRange(b, |logits|) ==> Elements(b) == Elements(a)
  {
    if NoTieCrosses(logits, a) {
      forall b | Top(logits, b) && |b| == |a| && InRange(b, |logits|) ensures Elements(b) == Elements(a) {
        SameSet(logits, a, b);
      }
    } else {
      var p, j :| 0 <= p < |a| && 0 <= j < |logits| && j !in a && logits[j] == logits[a[p]];
      SwapTied(logits, a, p, j);
    }
  }

  // ---------------------------------------------------------------------------------------
  // Every top selection is the beginning of some argsort
  // ---------------------------------------------------------------------------------------

  lemma PickLargest(logits: seq<real>, taken: seq<nat>, n: nat) returns (i: nat)
    requires n <= |logits| && exists j: nat :: j < n && j !in taken
    ensures i < n && i !in taken && forall j :: 0 <= j < n && j !in taken ==> logits[j] <= logits[i]
  {
    var last := n - 1;
    if exists j: nat :: j < last && j !in taken {
      i := PickLargest(logits, taken, last);
      if last !in taken && logits[last] > logits[i] { i := last; }
    } else {
      i := last;
    }
  }

  lemma {:induction false} TopExtends(logits: seq<real>, idx: seq<nat>) returns (order: seq<nat>)
    requires Top(logits, idx) && InRange(idx, |logits|) && |idx| <= |logits|
    ensures idx <= order && Argsort(logits, order)
    decreases |logits| - |idx|
  {
    TopIsOrdered(logits, idx);
    if |idx| == |logits| {
      order := idx;
    } else {
      var j := Remaining(idx, |logits|);
      var i := PickLargest(logits, idx, |logits|);
      var more := idx + [i];
      forall p | 0 <= p < |more| ensures Largest(logits, more[..p], more[p]) {
        assert more[..p] == idx[..p];
        if p < |idx| {
          assert Largest(logits, idx[..p], idx[p]);
        } else {
          assert idx[..p] == idx;
          forall x: nat ensures AtMost(logits, idx, i, x) {}
        }
      }
      order := TopExtends(logits, more);
    }
  }
}
