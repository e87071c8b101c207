/** MoE gating over the reals: src/kernels/reference_gating.py as the specification. */
module Gating {
  import opened TopK

  /** The exponential is abstract: positive and monotone. */
  type Exp = real -> real

  ghost predicate ExpLike(exp: Exp) {
    (forall x :: exp(x) > 0.0) && forall x, y :: Ordered(exp, x, y)
  }

  ghost predicate Ordered(exp: Exp, x: real, y: real) { x <= y ==> exp(x) <= exp(y) }

  function Sum(s: seq<real>): real {
    if s == [] then 0.0 else Sum(s[..|s| - 1]) + s[|s| - 1]
  }

  function Exps(exp: Exp, v: seq<real>, m: real): (r: seq<real>)
    ensures |r| == |v|
  {
    seq(|v|, i requires 0 <= i < |v| => exp(v[i] - m))
  }

  /** `s` divided by `total`, which is never zero where it is used. */
  function Scaled(s: seq<real>, total: real): (r: seq<real>)
    ensures |r| == |s|
  {
    seq(|s|, i requires 0 <= i < |s| => if total == 0.0 then 0.0 else s[i] / total)
  }

  function Largest1(v: seq<real>): real
    requires v != []
  {
    if |v| == 1 then v[0]
    else
      var rest := Largest1(v[..|v| - 1]);
      if v[|v| - 1] > rest then v[|v| - 1] else rest
  }

  lemma {:induction false} SumPositive(s: seq<real>)
    requires forall i :: 0 <= i < |s| ==> s[i] > 0.0
    ensures s != [] ==> Sum(s) > 0.0
    ensures forall i :: 0 <= i < |s| ==> s[i] <= Sum(s)
  {
    if s != [] {
      SumPositive(s[..|s| - 1]);
      assert forall i :: 0 <= i < |s| - 1 ==> s[i] == s[..|s| - 1][i];
    }
  }

  /** Softmax over the selected logits, shifted by `m`. */
  function Softmax(exp: Exp, v: seq<real>, m: real): (r: seq<real>)
    ensures |r| == |v|
  {
    Scaled(Exps(exp, v, m), Sum(Exps(exp, v, m)))
  }

  lemma DivideSum(a: real, b: real, t: real)
    requires t != 0.0
    ensures a / t + b / t == (a + b) / t
  {}

  lemma {:induction false} SumScaled(s: seq<real>, t: real)
    requires t != 0.0
    ensures Sum(Scaled(s, t)) == Sum(s) / t
  {
    if s != [] {
      var n := |s| - 1;
      SumScaled(s[..n], t);
      assert Scaled(s, t)[..n] == Scaled(s[..n], t);
      DivideSum(Sum(s[..n]), s[n], t);
    }
  }

  lemma DivideOrder(a: real, b: real, t: real)
    requires t > 0.0 && 0.0 < a <= b <= t
    ensures 0.0 < a / t <= b / t <= 1.0
  {}

  /** Routing weights sum to one. */
  lemma WeightsSumToOne(exp: Exp, v: seq<real>, m: real)
    requires ExpLike(exp) && v != []
    ensures Sum(Softmax(exp, v, m)) == 1.0
  {
    var e := Exps(exp, v, m);
    var t := Sum(e);
    SumPositive(e);
    SumScaled(e, t);
    DivideSelf(t);
    assert Softmax(exp, v, m) == Scaled(e, t);
  }

  lemma DivideSelf(t: real)
    requires t > 0.0
    ensures t / t == 1.0
  {}

  /** Two weights are in the ratio of the exponentials of their logits; as the weights sum to one,
      this fixes them. */
  ghost predicate InRatio(exp: Exp, weights: seq<real>, v: seq<real>, m: real) {
    |weights| == |v| && forall p: nat, q: nat :: RatioAt(exp, weights, v, m, p, q)
  }

  ghost predicate RatioAt(exp: Exp, weights: seq<real>, v: seq<real>, m: real, p: nat, q: nat)
    requires |weights| == |v|
  {
    p < |v| && q < |v| ==> weights[p] * exp(v[q] - m) == weights[q] * exp(v[p] - m)
  }

  lemma CrossRatio(a: real, b: real, t: real)
    requires t > 0.0
    ensures (a / t) * b == (b / t) * a
  {
    var x, y := a / t, b / t;
    assert x * t == a && y * t == b;
    assert x * (y * t) == y * (x * t);
  }

  lemma SoftmaxInRatio(exp: Exp, v: seq<real>, m: real)
    requires ExpLike(exp)
    ensures InRatio(exp, Softmax(exp, v, m), v, m)
  {
    var e := Exps(exp, v, m);
    SumPositive(e);
    forall p: nat, q: nat ensures RatioAt(exp, Softmax(exp, v, m), v, m, p, q) {
      if p < |v| && q < |v| { CrossRatio(e[p], e[q], Sum(e)); }
    }
  }

  /** The ratios and the sum leave only one choice of weights. */
  lemma RatioUnique(exp: Exp, a: seq<real>, b: seq<real>, v: seq<real>, m: real, p: nat)
    requires ExpLike(exp) && InRatio(exp, a, v, m) && InRatio(exp, b, v, m) && p < |v|
    requires Sum(a) == 1.0 && Sum(b) == 1.0
    ensures a[p] == b[p]
  {
    var t := Sum(Exps(exp, v, m));
    var x := WeightOf(exp, a, v, m, p, t);
    var y := WeightOf(exp, b, v, m, p, t);
  }

  /** The one weight the law leaves at position `p`. */
  lemma WeightOf(exp: Exp, a: seq<real>, v: seq<real>, m: real, p: nat, t: real) returns (w: real)
    requires ExpLike(exp) && InRatio(exp, a, v, m) && p < |v| && Sum(a) == 1.0 && t == Sum(Exps(exp, v, m))
    ensures t > 0.0 && w == exp(v[p] - m) / t && a[p] == w
  {
    SumPositive(Exps(exp, v, m));
    RatioSum(exp, a, v, m, p, t);
    w := exp(v[p] - m) / t;
    DivideBack(a[p], t, exp(v[p] - m));
  }

  lemma DivideBack(x: real, t: real, c: real)
    requires t > 0.0 && x * t == c
    ensures x == c / t
  {}

  /** Summing the ratio law over all positions. */
  lemma RatioSum(exp: Exp, a: seq<real>, v: seq<real>, m: real, p: nat, t: real)
    requires InRatio(exp, a, v, m) && p < |v| && Sum(a) == 1.0 && t == Sum(Exps(exp, v, m))
    ensures a[p] * t == exp(v[p] - m)
  {
    var e := Exps(exp, v, m);
    RatiosProportional(exp, a, v, m, p);
    SumTimes(a[p], e, e[p], a);
    TimesOne(a[p] * t, Sum(a), e[p]);
  }

  lemma TimesOne(x: real, s: real, y: real)
    requires x == s * y && s == 1.0
    ensures x == y
  {}

  lemma RatiosProportional(exp: Exp, a: seq<real>, v: seq<real>, m: real, p: nat)
    requires InRatio(exp, a, v, m) && p < |v|
    ensures forall q: nat :: Proportional(a[p], Exps(exp, v, m), Exps(exp, v, m)[p], a, q)
  {
    var e := Exps(exp, v, m);
    forall q: nat ensures Proportional(a[p], e, e[p], a, q) {
      assert RatioAt(exp, a, v, m, p, q);
    }
  }

  ghost predicate Proportional(x: real, e: seq<real>, y: real, a: seq<real>, q: nat)
    requires |e| == |a|
  {
    q < |e| ==> x * e[q] == a[q] * y
  }

  lemma {:induction false} SumTimes(x: real, e: seq<real>, y: real, a: seq<real>)
    requires |e| == |a| && forall q: nat :: Proportional(x, e, y, a, q)
    ensures x * Sum(e) == Sum(a) * y
  {
    if e != [] {
      var n := |e| - 1;
      var e', a' := e[..n], a[..n];
      forall q: nat ensures Proportional(x, e', y, a', q) { assert Proportional(x, e, y, a, q); }
      assert Proportional(x, e, y, a, n);
      SumTimes(x, e', y, a');
      Spread(x, Sum(e[..n]), e[n]);
      Spread(y, Sum(a[..n]), a[n]);
    }
  }

  lemma Spread(x: real, a: real, b: real)
    ensures x * (a + b) == x * a + x * b
  {}

  /** They are positive and at most one, and a larger logit never weighs less. */
  lemma WeightsOrdered(exp: Exp, v: seq<real>, m: real, i: nat, j: nat)
    requires ExpLike(exp) && i < |v| && j < |v| && v[i] <= v[j]
    ensures 0.0 < Softmax(exp, v, m)[i] <= Softmax(exp, v, m)[j] <= 1.0
  {
    var e := Exps(exp, v, m);
    SumPositive(e);
    assert v[i] - m <= v[j] - m;
    assert Ordered(exp, v[i] - m, v[j] - m);
    DivideOrder(e[i], e[j], Sum(e));
  }

  /** The logits at the given indices. */
  function Values(logits: seq<real>, idx: seq<nat>): (v: seq<real>)
    requires InRange(idx, |logits|)
    ensures |v| == |idx| && forall p :: 0 <= p < |idx| ==> v[p] == logits[idx[p]]
  {
    seq(|idx|, p requires 0 <= p < |idx| => logits[idx[p]])
  }

  // ---------------------------------------------------------------------------------------
  // The kernel's result and the reference's
  // ---------------------------------------------------------------------------------------

  /** The reference: the first `k` of any descending argsort, and the softmax shifted by its maximum. */
  ghost predicate Reference(exp: Exp, logits: seq<real>, k: nat, order: seq<nat>, weights: seq<real>)
    requires ExpLike(exp)
  {
    && k <= |logits| && Argsort(logits, order)
    && var v := Values(logits, order[..k]);
       weights == if k == 0 then [] else Softmax(exp, v, Largest1(v))
  }

  /** The kernel: extraction by strict maximum, and the softmax shifted by the first value. */
  ghost predicate Fused(exp: Exp, logits: seq<real>, k: nat, idx: seq<nat>, weights: seq<real>)
    requires ExpLike(exp)
  {
    && |idx| == k && Extracted(logits, idx) && InRange(idx, |logits|)
    && weights == if k == 0 then [] else Softmax(exp, Values(logits, idx), logits[idx[0]])
  }

  lemma {:induction false} LargestIsFirst(v: seq<real>)
    requires v != [] && forall p :: 0 <= p < |v| ==> v[p] <= v[0]
    ensures Largest1(v) == v[0]
  {
    if |v| > 1 { LargestIsFirst(v[..|v| - 1]); }
  }

  /** Whatever the argsort does with ties, the routing weights agree position by position. */
  lemma WeightsAgree(
    exp: Exp, logits: seq<real>, k: nat, order: seq<nat>, reference: seq<real>, idx: seq<nat>, fused: seq<real>)
    requires ExpLike(exp) && Reference(exp, logits, k, order, reference) && Fused(exp, logits, k, idx, fused)
    ensures fused == reference
  {
    ValuesAgree(logits, idx, order[..k]) by {
      ExtractedIsTop(logits, idx);
      ArgsortPrefixIsTop(logits, order, k);
    }
    if k > 0 { FirstIsLargest(logits, idx); }
  }

  lemma ValuesAgree(logits: seq<real>, a: seq<nat>, b: seq<nat>)
    requires Top(logits, a) && Top(logits, b) && |a| == |b| && InRange(a, |logits|) && InRange(b, |logits|)
    ensures Values(logits, a) == Values(logits, b)
  {
    forall p | 0 <= p < |a| ensures Values(logits, a)[p] == Values(logits, b)[p] {
      TopValuesAgree(logits, a, b, p);
    }
  }

  lemma FirstIsLargest(logits: seq<real>, idx: seq<nat>)
    requires Extracted(logits, idx) && InRange(idx, |logits|) && idx != []
    ensures Largest1(Values(logits, idx)) == logits[idx[0]]
  {
    ExtractedIsTop(logits, idx);
    TopIsOrdered(logits, idx);
    LargestIsFirst(Values(logits, idx));
  }

  /** The set of experts an argsort would route to. */
  ghost function Routed(order: seq<nat>, k: nat): set<nat>
    requires k <= |order|
  {
    Elements(order[..k])
  }

  lemma NoTieAgrees(logits: seq<real>, idx: seq<nat>, order: seq<nat>)
    requires Extracted(logits, idx) && InRange(idx, |logits|) && |idx| <= |logits|
    requires NoTieCrosses(logits, idx) && Argsort(logits, order)
    ensures Routed(order, |idx|) == Elements(idx)
  {
    ExtractedIsTop(logits, idx);
    ArgsortPrefixIsTop(logits, order, |idx|);
    SameSet(logits, idx, order[..|idx|]);
  }

  lemma TieDisagrees(logits: seq<real>, idx: seq<nat>, p: nat, j: nat) returns (order: seq<nat>)
    requires Extracted(logits, idx) && InRange(idx, |logits|)
    requires p < |idx| && j < |logits| && j !in idx && logits[j] == logits[idx[p]]
    ensures Argsort(logits, order) && |idx| <= |order| && Routed(order, |idx|) != Elements(idx)
  {
    ExtractedIsTop(logits, idx);
    SwapTied(logits, idx, p, j);
    var other := idx[p := j];
    TopIsOrdered(logits, other);
    order := TopExtends(logits, other);
    assert order[..|idx|] == other;
  }

  /** The kernel picks the same experts as every possible argsort exactly when no tie crosses the
      boundary of its selection. */
  lemma ExpertsAgreeIff(logits: seq<real>, idx: seq<nat>)
    requires Extracted(logits, idx) && InRange(idx, |logits|) && |idx| <= |logits|
    ensures NoTieCrosses(logits, idx)
       <==> forall order :: Argsort(logits, order) ==> Routed(order, |idx|) == Elements(idx)
  {
    if NoTieCrosses(logits, idx) {
      forall order | Argsort(logits, order) ensures Routed(order, |idx|) == Elements(idx) {
        NoTieAgrees(logits, idx, order);
      }
    } else {
      var p, j :| 0 <= p < |idx| && 0 <= j < |logits| && j !in idx && logits[j] == logits[idx[p]];
      var order := TieDisagrees(logits, idx, p, j);
    }
  }

  /** Extraction is deterministic: ties go to the lowest index. */
  lemma {:induction false} ExtractedUnique(logits: seq<real>, a: seq<nat>, b: seq<nat>)
    requires Extracted(logits, a) && Extracted(logits, b) && |a| == |b|
    ensures a == b
  {
    if a != [] {
      var n := |a| - 1;
      forall p | 0 <= p < n
        ensures FirstLargest(logits, a[..n][..p], a[..n][p]) && FirstLargest(logits, b[..n][..p], b[..n][p])
      {
        assert a[..n][..p] == a[..p] && b[..n][..p] == b[..p];
        assert FirstLargest(logits, a[..p], a[p]) && FirstLargest(logits, b[..p], b[p]);
      }
      ExtractedUnique(logits, a[..n], b[..n]);
      var x, y := a[n], b[n];
      assert FirstLargest(logits, a[..n], x) && FirstLargest(logits, a[..n], y);
      assert AtMost(logits, a[..n], x, y) && AtMost(logits, a[..n], y, x);
      assert LessBefore(logits, a[..n], x, y) && LessBefore(logits, a[..n], y, x);
      assert a == a[..n] + [a[n]] && b == b[..n] + [b[n]];
    }
  }
}
