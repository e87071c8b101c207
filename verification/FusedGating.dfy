/** The fused gating kernel of src/kernels/fused_gating_metal.py, thread by thread.

    One threadgroup per token: eight SIMD groups share the experts, 32 lanes share the dimensions;
    then one thread extracts the top k and normalises. */
module FusedGating {
  import opened Wrappers
  import opened FlatBuffers
  import opened SimdSum
  import opened Counting
  import opened TopK
  import opened Gating

  const MAX_EXPERTS: nat := 256
  const MAX_TOPK: nat := 64
  const SIMDGROUPS_PER_TG: nat := 8

  /** A float of the kernel's scratch array: the reals and minus infinity. */
  datatype Float = NegInf | Fin(value: real)

  predicate Greater(a: Float, b: Float) {
    match (a, b)
    case (NegInf, _) => false
    case (Fin(_), NegInf) => true
    case (Fin(x), Fin(y)) => x > y
  }

  datatype GatingError = TooManyExperts | InvalidTopK

  /** The expert-major copy of the weights: row `e` is column `e`. */
  function Column(weight: seq<seq<real>>, e: nat): (r: seq<real>)
    requires forall d :: 0 <= d < |weight| ==> e < |weight[d]|
    ensures |r| == |weight| && forall d :: 0 <= d < |weight| ==> r[d] == weight[d][e]
  {
    seq(|weight|, d requires 0 <= d < |weight| => weight[d][e])
  }

  /** `hidden @ gate_weight + gate_bias` of one token, from the expert-major rows. */
  function Logits(row: seq<real>, experts: seq<seq<real>>, bias: seq<real>): (r: seq<real>)
    requires |bias| == |experts| && forall e :: 0 <= e < |experts| ==> |experts[e]| == |row|
    ensures |r| == |experts| && forall e :: 0 <= e < |experts| ==> r[e] == Dot(row, experts[e], 0) + bias[e]
  {
    seq(|experts|, e requires 0 <= e < |experts| => Dot(row, experts[e], 0) + bias[e])
  }

  /** The buffers of one threadgroup: the token's row stands in `hidden` at `base`, and `weight` holds
      the expert-major rows. */
  ghost predicate Launched(
    hidden: seq<real>, base: nat, weight: seq<real>, bias: seq<real>, row: seq<real>, experts: seq<seq<real>>)
  {
    && StandsAt(hidden, base, row) && weight == Flatten(experts)
    && |bias| == |experts| && AllWide(experts, |row|)
  }

  /** One SIMD group takes every eighth expert. */
  method GroupLogits(
    hidden: seq<real>, base: nat, weight: seq<real>, bias: seq<real>, dModel: nat, sg: nat, logits: array<real>,
    ghost row: seq<real>, ghost experts: seq<seq<real>>)
    requires Launched(hidden, base, weight, bias, row, experts) && dModel == |row| && |bias| <= logits.Length
    requires sg < SIMDGROUPS_PER_TG
    modifies logits
    ensures forall e :: 0 <= e < |bias| && e % SIMDGROUPS_PER_TG == sg ==> logits[e] == Logits(row, experts, bias)[e]
    ensures forall e :: 0 <= e < logits.Length && (e % SIMDGROUPS_PER_TG != sg || e >= |bias|) ==>
              logits[e] == old(logits[e])
  {
    var e: nat := sg;
    while e < |bias|
      invariant e % SIMDGROUPS_PER_TG == sg
      invariant forall j :: 0 <= j < e && j < |bias| && j % SIMDGROUPS_PER_TG == sg ==>
                  logits[j] == Logits(row, experts, bias)[j]
      invariant forall j :: 0 <= j < logits.Length && (j % SIMDGROUPS_PER_TG != sg || j >= |bias| || j >= e) ==>
                  logits[j] == old(logits[j])
    {
      logits[e] := ExpertLogit(hidden, base, weight, bias, dModel, e, row, experts);
      e := e + SIMDGROUPS_PER_TG;
    }
  }

  /** One expert's logit, its weights standing at `e * dModel`. */
  method ExpertLogit(
    hidden: seq<real>, base: nat, weight: seq<real>, bias: seq<real>, dModel: nat, e: nat,
    ghost row: seq<real>, ghost experts: seq<seq<real>>)
    returns (logit: real)
    requires Launched(hidden, base, weight, bias, row, experts) && dModel == |row| && e < |bias|
    ensures logit == Logits(row, experts, bias)[e]
  {
    RowStandsAt(experts, dModel, e);
    var dot := GroupDot(hidden, base, weight, e * dModel, dModel, row, experts[e]);
    logit := dot + bias[e];
  }

  /** All SIMD groups up to the barrier, in any order: each expert's logit is written by the one
      group it belongs to. */
  method ComputeLogits(
    hidden: seq<real>, base: nat, weight: seq<real>, bias: seq<real>, dModel: nat, logits: array<real>,
    ghost row: seq<real>, ghost experts: seq<seq<real>>)
    requires Launched(hidden, base, weight, bias, row, experts) && dModel == |row| && |bias| <= logits.Length
    modifies logits
    ensures logits[..|bias|] == Logits(row, experts, bias)
  {
    var todo: set<nat> := {0, 1, 2, 3, 4, 5, 6, 7};
    while todo != {}
      invariant todo <= {0, 1, 2, 3, 4, 5, 6, 7}
      invariant forall e :: 0 <= e < |bias| && e % SIMDGROUPS_PER_TG !in todo ==>
                  logits[e] == Logits(row, experts, bias)[e]
      decreases |todo|
    {
      var sg :| sg in todo;
      GroupLogits(hidden, base, weight, bias, dModel, sg, logits, row, experts);
      todo := todo - {sg};
    }
    assert forall e :: 0 <= e < |bias| ==> e % SIMDGROUPS_PER_TG !in todo;
  }

  /** The scratch array after some indices were struck out. */
  ghost predicate Struck(local: seq<Float>, logits: seq<real>, taken: seq<nat>) {
    && |local| >= |logits|
    && forall j :: 0 <= j < |logits| ==> local[j] == if j in taken then NegInf else Fin(logits[j])
  }

  /** One scan for the strict maximum; `-1` if there is none above minus infinity. */
  method Scan(local: array<Float>, n: nat) returns (bestVal: Float, bestIdx: int)
    requires n <= local.Length
    ensures -1 <= bestIdx < n
    ensures bestIdx == -1 ==> forall j :: 0 <= j < n ==> local[j] == NegInf
    ensures bestIdx >= 0 ==>
              && local[bestIdx] == bestVal != NegInf
              && (forall j :: 0 <= j < n ==> !Greater(local[j], bestVal))
              && (forall j :: 0 <= j < bestIdx ==> Greater(bestVal, local[j]))
  {
    bestVal, bestIdx := NegInf, -1;
    var e := 0;
    while e < n
      invariant 0 <= e <= n && -1 <= bestIdx < e
      invariant bestIdx == -1 ==> bestVal == NegInf && forall j :: 0 <= j < e ==> local[j] == NegInf
      invariant bestIdx >= 0 ==>
                  && local[bestIdx] == bestVal != NegInf
                  && (forall j :: 0 <= j < e ==> !Greater(local[j], bestVal))
                  && (forall j :: 0 <= j < bestIdx ==> Greater(bestVal, local[j]))
    {
      if Greater(local[e], bestVal) {
        bestVal, bestIdx := local[e], e;
      }
      e := e + 1;
    }
  }

  /** What a scan of a struck-out array finds, as long as something is left. */
  lemma ScanFinds(logits: seq<real>, taken: seq<nat>, local: seq<Float>, i: int, v: Float)
    requires Struck(local, logits, taken) && NoRepeats(taken) && InRange(taken, |logits|) && |taken| < |logits|
    requires -1 <= i < |logits|
    requires i == -1 ==> forall j :: 0 <= j < |logits| ==> local[j] == NegInf
    requires i >= 0 ==>
               && local[i] == v != NegInf
               && (forall j :: 0 <= j < |logits| ==> !Greater(local[j], v))
               && (forall j :: 0 <= j < i ==> Greater(v, local[j]))
    ensures i >= 0 && v == Fin(logits[i]) && FirstLargest(logits, taken, i)
  {
    var j := Remaining(taken, |logits|);
    assert local[j] == Fin(logits[j]);
    forall x: nat ensures AtMost(logits, taken, i, x) && LessBefore(logits, taken, i, x) {
      if x < |logits| && x !in taken { assert local[x] == Fin(logits[x]); }
    }
  }

  /** `k` rounds of destructive extraction. */
  method ExtractTopK(logits: array<real>, n: nat, k: nat, topkVals: array<Float>, topkIdx: array<int>)
    requires k <= n <= logits.Length == MAX_EXPERTS && k <= topkVals.Length == MAX_TOPK == topkIdx.Length
    modifies topkVals, topkIdx
    ensures forall p :: 0 <= p < k ==> 0 <= topkIdx[p] < n && topkVals[p] == Fin(logits[topkIdx[p]])
    ensures Extracted(logits[..n], Chosen(topkIdx[..k]))
  {
    var local := new Float[MAX_EXPERTS](_ => NegInf);
    var e := 0;
    while e < n
      invariant 0 <= e <= n && forall j :: 0 <= j < e ==> local[j] == Fin(logits[j])
    {
      local[e] := Fin(logits[e]);
      e := e + 1;
    }
    ghost var source := logits[..n];
    ghost var taken: seq<nat> := [];
    var kk := 0;
    while kk < k
      invariant 0 <= kk == |taken| <= k && Extracted(source, taken) && Struck(local[..], source, taken)
      invariant forall p :: 0 <= p < kk ==> 0 <= topkIdx[p] == taken[p] < n && topkVals[p] == Fin(source[taken[p]])
    {
      var bestVal, bestIdx := ExtractOne(local, n, source, taken);
      topkVals[kk], topkIdx[kk] := bestVal, bestIdx;
      taken := taken + [bestIdx];
      kk := kk + 1;
    }
    assert Chosen(topkIdx[..k]) == taken;
  }

  /** One round: the first largest logit that is left, struck out. */
  method ExtractOne(local: array<Float>, n: nat, ghost source: seq<real>, ghost taken: seq<nat>)
    returns (bestVal: Float, bestIdx: nat)
    requires |taken| < n == |source| <= local.Length && Extracted(source, taken) && Struck(local[..], source, taken)
    modifies local
    ensures bestIdx < n && bestVal == Fin(source[bestIdx])
    ensures Extracted(source, taken + [bestIdx]) && Struck(local[..], source, taken + [bestIdx])
  {
    var i: int;
    bestVal, i := Scan(local, n);
    ExtractedIsTop(source, taken);
    TopIsOrdered(source, taken);
    ScanFinds(source, taken, local[..], i, bestVal);
    ExtractedMore(source, taken, i);
    local[i] := NegInf;
    bestIdx := i;
  }

  /** The indices as naturals. */
  ghost function Chosen(idx: seq<int>): (r: seq<nat>)
    ensures |r| == |idx| && forall p :: 0 <= p < |idx| && idx[p] >= 0 ==> r[p] == idx[p]
  {
    seq(|idx|, p requires 0 <= p < |idx| => if idx[p] >= 0 then idx[p] else 0)
  }

  lemma ExtractedMore(logits: seq<real>, taken: seq<nat>, i: nat)
    requires Extracted(logits, taken) && FirstLargest(logits, taken, i)
    ensures Extracted(logits, taken + [i])
  {
    var more := taken + [i];
    forall p | 0 <= p < |more| ensures FirstLargest(logits, more[..p], more[p]) {
      if p < |taken| {
        assert more[..p] == taken[..p] && FirstLargest(logits, taken[..p], taken[p]);
      } else {
        assert more[..p] == taken;
      }
    }
  }

  /** The softmax loops of the kernel: weights that sum to one, any two in the ratio of the
      exponentials of their logits. */
  method Normalise(exp: Exp, vals: seq<real>) returns (weights: seq<real>)
    requires ExpLike(exp) && vals != []
    ensures weights == Softmax(exp, vals, vals[0])
    ensures Sum(weights) == 1.0 && |weights| == |vals|
    ensures forall p, q :: 0 <= p < |vals| && 0 <= q < |vals| ==>
              weights[p] * exp(vals[q] - vals[0]) == weights[q] * exp(vals[p] - vals[0])
  {
    weights := Divide(exp, vals);
    WeightsSumToOne(exp, vals, vals[0]);
    SoftmaxInRatio(exp, vals, vals[0]);
    forall p, q | 0 <= p < |vals| && 0 <= q < |vals|
      ensures weights[p] * exp(vals[q] - vals[0]) == weights[q] * exp(vals[p] - vals[0])
    {
      assert RatioAt(exp, weights, vals, vals[0], p, q);
    }
  }

  method Divide(exp: Exp, vals: seq<real>) returns (weights: seq<real>)
    requires ExpLike(exp) && vals != []
    ensures weights == Softmax(exp, vals, vals[0])
  {
    var maxVal := vals[0];
    ghost var e := Exps(exp, vals, maxVal);
    var expVals, sumExp := [], 0.0;
    var kk := 0;
    while kk < |vals|
      invariant 0 <= kk <= |vals| && expVals == e[..kk] && sumExp == Sum(e[..kk])
    {
      var x := exp(vals[kk] - maxVal);
      assert e[..kk + 1][..kk] == e[..kk];
      expVals := expVals + [x];
      sumExp := sumExp + x;
      kk := kk + 1;
    }
    assert e[..kk] == e;
    SumPositive(e);
    weights := [];
    kk := 0;
    while kk < |vals|
      invariant 0 <= kk <= |vals| && weights == Scaled(e, sumExp)[..kk]
    {
      weights := weights + [expVals[kk] / sumExp];
      kk := kk + 1;
    }
    assert Scaled(e, sumExp)[..kk] == Scaled(e, sumExp);
  }

  /** One threadgroup: the experts and weights of its token. */
  method GateToken(
    exp: Exp, hidden: seq<real>, base: nat, weight: seq<real>, bias: seq<real>, dModel: nat, k: nat,
    ghost row: seq<real>, ghost experts: seq<seq<real>>)
    returns (gate: Gate)
    requires ExpLike(exp) && Launched(hidden, base, weight, bias, row, experts) && dModel == |row|
    requires |bias| <= MAX_EXPERTS && k <= |bias| && k <= MAX_TOPK
    ensures Fused(exp, Logits(row, experts, bias), k, gate.idx, gate.weights)
  {
    var logits := new real[MAX_EXPERTS](_ => 0.0);
    ComputeLogits(hidden, base, weight, bias, dModel, logits, row, experts);
    var topkVals := new Float[MAX_TOPK](_ => NegInf);
    var topkIdx := new int[MAX_TOPK](_ => 0);
    ExtractTopK(logits, |bias|, k, topkVals, topkIdx);
    ghost var all := Logits(row, experts, bias);
    var idx: seq<nat>, vals: seq<real> := [], [];
    var kk := 0;
    while kk < k
      invariant 0 <= kk <= k && |idx| == kk == |vals|
      invariant forall p :: 0 <= p < kk ==> idx[p] == topkIdx[p] && vals[p] == logits[topkIdx[p]]
    {
      idx, vals := idx + [topkIdx[kk]], vals + [topkVals[kk].value];
      kk := kk + 1;
    }
    assert idx == Chosen(topkIdx[..k]);
    assert vals == Values(all, idx);
    var weights := [];
    if k > 0 { weights := Normalise(exp, vals); }
    gate := Gate(idx, weights);
  }

  /** The experts and weights of one token. */
  datatype Gate = Gate(idx: seq<nat>, weights: seq<real>)

  ghost predicate AllGated(
    exp: Exp, hidden: seq<seq<real>>, weight: seq<seq<real>>, bias: seq<real>, k: nat, gates: seq<Gate>)
    requires ExpLike(exp) && |hidden| == |gates| && AllWide(weight, |bias|) && AllWide(hidden, |weight|)
  {
    forall n :: 0 <= n < |hidden| ==> Gated(exp, hidden[n], weight, bias, k, gates[n])
  }

  ghost function IdxRows(gates: seq<Gate>): (r: seq<seq<int>>)
    ensures |r| == |gates| && forall n :: 0 <= n < |gates| ==> r[n] == gates[n].idx
  {
    seq(|gates|, n requires 0 <= n < |gates| => gates[n].idx)
  }

  ghost function WeightRows(gates: seq<Gate>): (r: seq<seq<real>>)
    ensures |r| == |gates| && forall n :: 0 <= n < |gates| ==> r[n] == gates[n].weights
  {
    seq(|gates|, n requires 0 <= n < |gates| => gates[n].weights)
  }

  /** The host's expert-major copy of the row-major weights. */
  method Transpose(weight: seq<real>, dModel: nat, numExperts: nat, ghost rows: seq<seq<real>>) returns (t: seq<real>)
    requires weight == Flatten(rows) && |rows| == dModel && AllWide(rows, numExperts)
    ensures t == Flatten(ExpertMajor(rows, numExperts))
  {
    t := [];
    ghost var experts := ExpertMajor(rows, numExperts);
    var e := 0;
    while e < numExperts
      invariant 0 <= e <= numExperts && t == Flatten(experts[..e])
    {
      var column := CopyColumn(weight, dModel, numExperts, e, rows);
      FlattenMore(experts[..e], column);
      assert experts[..e + 1] == experts[..e] + [column];
      t := t + column;
      e := e + 1;
    }
    assert experts[..e] == experts;
  }

  method CopyColumn(weight: seq<real>, dModel: nat, numExperts: nat, e: nat, ghost rows: seq<seq<real>>)
    returns (column: seq<real>)
    requires weight == Flatten(rows) && |rows| == dModel && AllWide(rows, numExperts) && e < numExperts
    ensures column == Column(rows, e)
  {
    column := [];
    var d: nat := 0;
    while d < dModel
      invariant d <= dModel && |column| == d
      invariant forall i :: 0 <= i < d ==> column[i] == rows[i][e]
    {
      ElementStandsAt(rows, numExperts, d, e);
      column := column + [weight[d * numExperts + e]];
      d := d + 1;
    }
  }

  /** The whole launch over flat buffers: the experts and weights of every token, one token's after
      the other's; or the shape the kernel refuses. */
  method FusedGating(
    exp: Exp, hidden: seq<real>, nTokens: nat, dModel: nat, weight: seq<real>, bias: seq<real>, k: nat,
    ghost hiddenRows: seq<seq<real>>, ghost weightRows: seq<seq<real>>)
    returns (r: Result<(seq<int>, seq<real>), GatingError>, ghost gates: seq<Gate>)
    requires ExpLike(exp)
    requires hidden == Flatten(hiddenRows) && |hiddenRows| == nTokens && AllWide(hiddenRows, dModel)
    requires weight == Flatten(weightRows) && |weightRows| == dModel && AllWide(weightRows, |bias|)
    ensures r.Err? <==> |bias| > MAX_EXPERTS || k > MAX_TOPK || k > |bias|
    ensures r.Ok? ==>
              && |gates| == nTokens && AllGated(exp, hiddenRows, weightRows, bias, k, gates)
              && r.value.0 == Flatten(IdxRows(gates)) && r.value.1 == Flatten(WeightRows(gates))
  {
    gates := [];
    if |bias| > MAX_EXPERTS { return Err(TooManyExperts), gates; }
    if k > MAX_TOPK || k > |bias| { return Err(InvalidTopK), gates; }
    var experts := Transpose(weight, dModel, |bias|, weightRows);
    ghost var experts' := ExpertMajor(weightRows, |bias|);
    var outIdx := new int[nTokens * k](_ => 0);
    var outVal := new real[nTokens * k](_ => 0.0);
    SlotsAreProduct(nTokens, k);
    ghost var good := Judge(exp, experts', bias, k);
    gates := GateTokens(exp, hidden, nTokens, dModel, experts, bias, k, outIdx, outVal, hiddenRows, experts', good);
    return Ok((outIdx[..], outVal[..])), gates;
  }

  /** Whether a result is what the kernel computes for a row. */
  type Judgement = (seq<real>, Gate) -> bool

  ghost function Judge(exp: Exp, experts: seq<seq<real>>, bias: seq<real>, k: nat): Judgement
    requires ExpLike(exp) && |bias| == |experts|
  {
    (row: seq<real>, gate: Gate) =>
      AllWide(experts, |row|) && Fused(exp, Logits(row, experts, bias), k, gate.idx, gate.weights)
  }

  ghost predicate Judges(good: Judgement, exp: Exp, experts: seq<seq<real>>, bias: seq<real>, k: nat)
    requires ExpLike(exp) && |bias| == |experts|
  {
    forall row: seq<real>, gate: Gate {:trigger Fused(exp, Logits(row, experts, bias), k, gate.idx, gate.weights)} ::
      AllWide(experts, |row|) && Fused(exp, Logits(row, experts, bias), k, gate.idx, gate.weights) ==> good(row, gate)
  }

  /** The first `n` tokens have good results, written one after the other. */
  ghost predicate Emitted(
    good: Judgement, hidden: seq<seq<real>>, n: nat, gates: seq<Gate>, idx: seq<int>, val: seq<real>)
    requires n <= |hidden|
  {
    && |gates| == n && (forall m :: 0 <= m < n ==> good(hidden[m], gates[m]))
    && idx == Flatten(IdxRows(gates)) && val == Flatten(WeightRows(gates))
  }

  /** One threadgroup per token, each writing its own slots. */
  method GateTokens(
    exp: Exp, hidden: seq<real>, nTokens: nat, dModel: nat, experts: seq<real>, bias: seq<real>, k: nat,
    outIdx: array<int>, outVal: array<real>,
    ghost hiddenRows: seq<seq<real>>, ghost expertRows: seq<seq<real>>, ghost good: Judgement)
    returns (ghost gates: seq<Gate>)
    requires ExpLike(exp) && |bias| <= MAX_EXPERTS && k <= MAX_TOPK && k <= |bias|
    requires hidden == Flatten(hiddenRows) && |hiddenRows| == nTokens && AllWide(hiddenRows, dModel)
    requires experts == Flatten(expertRows) && |expertRows| == |bias| && AllWide(expertRows, dModel)
    requires Judges(good, exp, expertRows, bias, k) && outIdx.Length == Slots(nTokens, k) == outVal.Length
    modifies outIdx, outVal
    ensures Emitted(good, hiddenRows, nTokens, gates, outIdx[..], outVal[..])
  {
    gates := [];
    var n: nat, base: nat := 0, 0;
    while n < nTokens
      invariant n <= nTokens && base == Slots(n, k) <= outIdx.Length
      invariant Emitted(good, hiddenRows, n, gates, outIdx[..base], outVal[..base])
    {
      SlotsFit(n, nTokens, k);
      gates := LaunchNext(
        exp, hidden, n, dModel, experts, bias, k, outIdx, outVal, base, hiddenRows, expertRows, good, gates);
      n, base := n + 1, base + k;
    }
    assert outIdx[..base] == outIdx[..] && outVal[..base] == outVal[..];
  }

  /** Token `n` after the tokens before it. */
  method LaunchNext(
    exp: Exp, hidden: seq<real>, n: nat, dModel: nat, experts: seq<real>, bias: seq<real>, k: nat,
    outIdx: array<int>, outVal: array<real>, slot: nat,
    ghost hiddenRows: seq<seq<real>>, ghost expertRows: seq<seq<real>>, ghost good: Judgement, ghost gates: seq<Gate>)
    returns (ghost gates': seq<Gate>)
    requires ExpLike(exp) && |bias| <= MAX_EXPERTS && k <= MAX_TOPK && k <= |bias|
    requires hidden == Flatten(hiddenRows) && n < |hiddenRows| && AllWide(hiddenRows, dModel)
    requires experts == Flatten(expertRows) && |expertRows| == |bias| && AllWide(expertRows, dModel)
    requires Judges(good, exp, expertRows, bias, k) && slot + k <= outIdx.Length == outVal.Length
    requires Emitted(good, hiddenRows, n, gates, outIdx[..slot], outVal[..slot])
    modifies outIdx, outVal
    ensures Emitted(good, hiddenRows, n + 1, gates', outIdx[..slot + k], outVal[..slot + k])
  {
    RowStandsAt(hiddenRows, dModel, n);
    var gate := LaunchToken(
      exp, hidden, n * dModel, experts, bias, dModel, k, outIdx, outVal, slot, hiddenRows[n], expertRows, good);
    GatesMore(gates, gate);
    gates' := gates + [gate];
  }

  lemma GatesMore(gates: seq<Gate>, gate: Gate)
    ensures Flatten(IdxRows(gates + [gate])) == Flatten(IdxRows(gates)) + gate.idx
    ensures Flatten(WeightRows(gates + [gate])) == Flatten(WeightRows(gates)) + gate.weights
  {
    FlattenMore(IdxRows(gates), gate.idx);
    FlattenMore(WeightRows(gates), gate.weights);
    assert IdxRows(gates + [gate]) == IdxRows(gates) + [gate.idx];
    assert WeightRows(gates + [gate]) == WeightRows(gates) + [gate.weights];
  }

  /** The threadgroup of one token: its row begins at `base`, its slots at `slot`. */
  method LaunchToken(
    exp: Exp, hidden: seq<real>, base: nat, experts: seq<real>, bias: seq<real>, dModel: nat, k: nat,
    outIdx: array<int>, outVal: array<real>, slot: nat,
    ghost row: seq<real>, ghost expertRows: seq<seq<real>>, ghost good: Judgement)
    returns (gate: Gate)
    requires ExpLike(exp) && Launched(hidden, base, experts, bias, row, expertRows) && dModel == |row|
    requires |bias| <= MAX_EXPERTS && k <= |bias| && k <= MAX_TOPK && Judges(good, exp, expertRows, bias, k)
    requires slot + k <= outIdx.Length == outVal.Length
    modifies outIdx, outVal
    ensures good(row, gate)
    ensures outIdx[..slot + k] == old(outIdx[..slot]) + gate.idx
    ensures outVal[..slot + k] == old(outVal[..slot]) + gate.weights
  {
    gate := GateToken(exp, hidden, base, experts, bias, dModel, k, row, expertRows);
    WriteSlots(outIdx, outVal, slot, gate);
  }

  /** The output slots of the first `n` tokens. */
  ghost function Slots(n: nat, k: nat): nat { if n == 0 then 0 else Slots(n - 1, k) + k }

  lemma {:induction false} SlotsAreProduct(n: nat, k: nat)
    ensures Slots(n, k) == n * k
  {
    if n > 0 {
      SlotsAreProduct(n - 1, k);
      NextRow(n - 1, k);
    }
  }

  lemma {:induction false} SlotsFit(n: nat, nTokens: nat, k: nat)
    requires n < nTokens
    ensures Slots(n, k) + k == Slots(n + 1, k) <= Slots(nTokens, k)
    decreases nTokens
  {
    if n + 1 < nTokens { SlotsFit(n, nTokens - 1, k); }
  }

  /** The last loop of the kernel. */
  method WriteSlots(outIdx: array<int>, outVal: array<real>, base: nat, gate: Gate)
    requires |gate.idx| == |gate.weights| && base + |gate.idx| <= outIdx.Length == outVal.Length
    modifies outIdx, outVal
    ensures outIdx[..base + |gate.idx|] == old(outIdx[..base]) + gate.idx
    ensures outVal[..base + |gate.idx|] == old(outVal[..base]) + gate.weights
  {
    var kk := 0;
    while kk < |gate.idx|
      invariant 0 <= kk <= |gate.idx|
      invariant outIdx[..base + kk] == old(outIdx[..base]) + gate.idx[..kk]
      invariant outVal[..base + kk] == old(outVal[..base]) + gate.weights[..kk]
    {
      outIdx[base + kk], outVal[base + kk] := gate.idx[kk], gate.weights[kk];
      assert outIdx[..base + kk + 1] == outIdx[..base + kk] + [gate.idx[kk]];
      assert outVal[..base + kk + 1] == outVal[..base + kk] + [gate.weights[kk]];
      kk := kk + 1;
    }
  }

  /** The expert-major copy of the whole weight matrix. */
  function ExpertMajor(weight: seq<seq<real>>, n: nat): (r: seq<seq<real>>)
    requires AllWide(weight, n)
    ensures |r| == n && AllWide(r, |weight|) && forall e :: 0 <= e < n ==> r[e] == Column(weight, e)
  {
    seq(n, e requires 0 <= e < n => Column(weight, e))
  }

  /** One token gated by the logits of `row @ weight + bias`. */
  ghost predicate Gated(exp: Exp, row: seq<real>, weight: seq<seq<real>>, bias: seq<real>, k: nat, gate: Gate)
    requires ExpLike(exp)
    requires |row| == |weight| && AllWide(weight, |bias|)
  {
    Fused(exp, Logits(row, ExpertMajor(weight, |bias|), bias), k, gate.idx, gate.weights)
  }

  /** The fused kernel against the reference on the same token: equal weights at every position
      whatever the argsort does with ties, weights that sum to one, and the k largest logits. */
  lemma GatedMatchesReference(
    exp: Exp, row: seq<real>, weight: seq<seq<real>>, bias: seq<real>, k: nat, gate: Gate, order: seq<nat>,
    reference: seq<real>)
    requires ExpLike(exp) && |row| == |weight| && AllWide(weight, |bias|)
    requires Gated(exp, row, weight, bias, k, gate)
    requires Reference(exp, Logits(row, ExpertMajor(weight, |bias|), bias), k, order, reference)
    ensures gate.weights == reference && (k > 0 ==> Sum(gate.weights) == 1.0)
    ensures |gate.idx| == k && NoRepeats(gate.idx) && InRange(gate.idx, |bias|)
    ensures k > 0 ==> InRatio(exp, gate.weights, ChosenLogits(row, weight, bias, gate.idx),
                              ChosenLogits(row, weight, bias, gate.idx)[0])
  {
    var logits := Logits(row, ExpertMajor(weight, |bias|), bias);
    WeightsAgree(exp, logits, k, order, reference, gate.idx, gate.weights);
    ExtractedIsTop(logits, gate.idx);
    TopIsOrdered(logits, gate.idx);
    if k > 0 {
      WeightsSumToOne(exp, Values(logits, gate.idx), logits[gate.idx[0]]);
      SoftmaxInRatio(exp, Values(logits, gate.idx), logits[gate.idx[0]]);
      ChosenAreValues(row, weight, bias, gate.idx);
    }
  }

  /** Column `e` of `row @ weight + bias`, summed from the first dimension on. */
  function Logit(row: seq<real>, weight: seq<seq<real>>, bias: seq<real>, e: nat, n: nat): real
    requires |row| == |weight| && n <= |row| && AllWide(weight, |bias|) && e < |bias|
  {
    if n == 0 then bias[e] else Logit(row, weight, bias, e, n - 1) + row[n - 1] * weight[n - 1][e]
  }

  lemma {:induction false} DotSnoc(a: seq<real>, b: seq<real>, from: nat, n: nat)
    requires |a| == |b| && from <= n < |a|
    ensures Dot(a[..n + 1], b[..n + 1], from) == Dot(a[..n], b[..n], from) + a[n] * b[n]
    decreases n - from
  {
    if from < n {
      DotSnoc(a, b, from + 1, n);
    } else {
      assert Dot(a[..n + 1], b[..n + 1], n + 1) == 0.0;
    }
  }

  /** The kernel's logits are the reference's `hidden @ gate_weight + gate_bias`. */
  lemma {:induction false} LogitIsDot(row: seq<real>, weight: seq<seq<real>>, bias: seq<real>, e: nat, n: nat)
    requires |row| == |weight| && n <= |row| && AllWide(weight, |bias|) && e < |bias|
    ensures Logit(row, weight, bias, e, n) == Dot(row[..n], Column(weight, e)[..n], 0) + bias[e]
  {
    if n > 0 {
      LogitIsDot(row, weight, bias, e, n - 1);
      DotSnoc(row, Column(weight, e), 0, n - 1);
    }
  }

  lemma LogitsAreReference(row: seq<real>, weight: seq<seq<real>>, bias: seq<real>, e: nat)
    requires |row| == |weight| && AllWide(weight, |bias|) && e < |bias|
    ensures Logits(row, ExpertMajor(weight, |bias|), bias)[e] == Logit(row, weight, bias, e, |row|)
  {
    LogitIsDot(row, weight, bias, e, |row|);
    assert row[..|row|] == row && Column(weight, e)[..|row|] == Column(weight, e);
  }

  /** The logits of the chosen experts. */
  ghost function ChosenLogits(row: seq<real>, weight: seq<seq<real>>, bias: seq<real>, idx: seq<nat>): seq<real>
    requires |row| == |weight| && AllWide(weight, |bias|) && InRange(idx, |bias|)
  {
    seq(|idx|, p requires 0 <= p < |idx| => Logit(row, weight, bias, idx[p], |row|))
  }

  lemma ChosenAreValues(row: seq<real>, weight: seq<seq<real>>, bias: seq<real>, idx: seq<nat>)
    requires |row| == |weight| && AllWide(weight, |bias|) && InRange(idx, |bias|)
    ensures ChosenLogits(row, weight, bias, idx) == Values(Logits(row, ExpertMajor(weight, |bias|), bias), idx)
  {
    var logits := Logits(row, ExpertMajor(weight, |bias|), bias);
    forall p | 0 <= p < |idx| ensures ChosenLogits(row, weight, bias, idx)[p] == Values(logits, idx)[p] {
      LogitsAreReference(row, weight, bias, idx[p]);
    }
  }
}
