/** INT8 matrix multiplication of src/kernels/quantized_gemm.py over the reals. */
module QuantizedGemm {
  import opened SimdSum

  function Abs(x: real): real { if x < 0.0 then -x else x }

  function Max(a: real, b: real): real { if a < b then b else a }

  /** The floor that keeps an all-zero column from dividing by zero. */
  const FLOOR: real := 0.000000000001

  function MaxAbs(col: seq<real>): (r: real)
    ensures r >= 0.0 && forall d :: 0 <= d < |col| ==> Abs(col[d]) <= r
  {
    if col == [] then 0.0 else Max(MaxAbs(col[..|col| - 1]), Abs(col[|col| - 1]))
  }

  /** The scale of a column. */
  function Scale(col: seq<real>): (s: real)
    ensures s > 0.0
  {
    Max(MaxAbs(col) / 127.0, FLOOR)
  }

  /** Rounding to nearest, ties to even. */
  function Round(x: real): int {
    var f := x.Floor;
    var part := x - f as real;
    if part < 0.5 then f else if part > 0.5 then f + 1 else if f % 2 == 0 then f else f + 1
  }

  function Clip(q: int): int { if q < -127 then -127 else if q > 127 then 127 else q }

  type Int8 = q: int | -128 <= q < 128

  function QuantizeAt(w: real, scale: real): Int8
    requires scale > 0.0
  {
    Clip(Round(w / scale))
  }

  /** The quantised column and its scale. */
  function Quantize(col: seq<real>): (r: (seq<Int8>, real))
    ensures |r.0| == |col| && r.1 > 0.0
  {
    (seq(|col|, d requires 0 <= d < |col| => QuantizeAt(col[d], Scale(col))), Scale(col))
  }

  function Dequantize(q: seq<Int8>, scale: real): (r: seq<real>)
    ensures |r| == |q| && forall d :: 0 <= d < |q| ==> r[d] == q[d] as real * scale
  {
    seq(|q|, d requires 0 <= d < |q| => q[d] as real * scale)
  }

  // ---------------------------------------------------------------------------------------
  // Rounding and clipping
  // ---------------------------------------------------------------------------------------

  lemma RoundNearest(x: real)
    ensures Abs(Round(x) as real - x) <= 0.5
  {}

  /** Values between two integers round to between them. */
  lemma RoundWithin(x: real, n: int)
    requires -(n as real) <= x <= n as real
    ensures -n <= Round(x) <= n
  {}

  lemma QuotientBound(w: real, m: real, s: real)
    requires s > 0.0 && Abs(w) <= m && m / 127.0 <= s
    ensures -127.0 <= w / s <= 127.0
  {
    assert m <= 127.0 * s;
    var x := w / s;
    assert x * s == w;
    if x > 127.0 { MultiplyMore(x, 127.0, s); assert false; }
    if x < -127.0 { MultiplyMore(-127.0, x, s); assert false; }
  }

  lemma {:induction false} MaxAbsIs(col: seq<real>, m: real)
    requires forall d :: 0 <= d < |col| ==> Abs(col[d]) <= m
    requires m >= 0.0
    ensures MaxAbs(col) <= m
  {
    if col != [] {
      var n := |col| - 1;
      forall d | 0 <= d < n ensures Abs(col[..n][d]) <= m { assert Abs(col[d]) <= m; }
      MaxAbsIs(col[..n], m);
    }
  }

  lemma {:induction false} MaxAbsReached(col: seq<real>) returns (d: nat)
    requires col != []
    ensures d < |col| && Abs(col[d]) == MaxAbs(col)
  {
    var n := |col| - 1;
    d := n;
    if n > 0 && Abs(col[n]) < MaxAbs(col[..n]) {
      d := MaxAbsReached(col[..n]);
    }
  }

  /** The scale follows from the elements: a bound on them bounds it, unless the floor applies. */
  ghost predicate ElementsWithin(col: seq<real>, m: real) {
    m >= 0.000000000127 && forall d :: 0 <= d < |col| ==> Abs(col[d]) <= m
  }

  lemma ScaleWithin(col: seq<real>, m: real)
    requires ElementsWithin(col, m)
    ensures Scale(col) <= m / 127.0
  {
    MaxAbsIs(col, m);
  }

  lemma RoundInteger(n: int)
    ensures Round(n as real) == n
  {}

  lemma QuotientIs127(w: real, s: real)
    requires s > 0.0 && Abs(w) == 127.0 * s
    ensures w / s == if w < 0.0 then -127.0 else 127.0
  {
    var q := if w < 0.0 then -127.0 else 127.0;
    assert w == q * s;
    DivideExact(q, s);
  }

  lemma DivideExact(q: real, s: real)
    requires s > 0.0
    ensures (q * s) / s == q
  {}

  /** A column that is not tiny uses the whole range of the eight bits. */
  lemma FullRange(col: seq<real>, d: nat) returns (e: nat)
    requires d < |col| && Abs(col[d]) >= 0.000000000127
    ensures e < |col| && Abs(Quantize(col).0[e] as real) == 127.0
    ensures Scale(col) * 127.0 == Abs(col[e]) && forall i :: 0 <= i < |col| ==> Abs(col[i]) <= Abs(col[e])
  {
    e := MaxAbsReached(col);
    assert Abs(col[d]) <= MaxAbs(col);
    assert Scale(col) == MaxAbs(col) / 127.0;
    QuotientIs127(col[e], Scale(col));
    ClipChangesNothing(col, e);
    RoundInteger(127);
    RoundInteger(-127);
  }

  /** Ties are rounded to the even integer. */
  lemma RoundTies(x: real)
    requires x - x.Floor as real == 0.5
    ensures Round(x) % 2 == 0
  {}

  lemma MultiplyMore(a: real, b: real, s: real)
    requires s > 0.0 && a > b
    ensures a * s > b * s
  {}

  /** Clipping never changes a value, also where the floor applies: the scale was chosen so. */
  lemma ClipChangesNothing(col: seq<real>, d: nat)
    requires d < |col|
    ensures -127.0 <= col[d] / Scale(col) <= 127.0
    ensures Quantize(col).0[d] == Round(col[d] / Scale(col))
  {
    QuotientBound(col[d], MaxAbs(col), Scale(col));
    RoundWithin(col[d] / Scale(col), 127);
  }

  lemma ScaleError(q: real, w: real, s: real)
    requires s > 0.0 && Abs(q - w / s) <= 0.5
    ensures Abs(q * s - w) <= s / 2.0
  {
    var e := q - w / s;
    assert w / s * s == w;
    assert q * s - w == e * s;
    assert -0.5 * s <= e * s <= 0.5 * s;
  }

  /** `q` stands for `w` within half a scale. */
  ghost predicate Represents(q: Int8, w: real, s: real) { Abs(q as real * s - w) <= s / 2.0 }

  /** One weight, against any scale that is large enough. */
  lemma ValueError(w: real, m: real, s: real)
    requires s > 0.0 && Abs(w) <= m && m / 127.0 <= s
    ensures Represents(QuantizeAt(w, s), w, s)
  {
    QuotientBound(w, m, s);
    RoundWithin(w / s, 127);
    RoundNearest(w / s);
    ScaleError(Round(w / s) as real, w, s);
  }

  lemma QuantizedRepresents(col: seq<real>, d: nat)
    requires d < |col|
    ensures Represents(Quantize(col).0[d], col[d], Scale(col))
  {
    ValueError(col[d], MaxAbs(col), Scale(col));
  }

  lemma RepresentedNear(col: seq<real>, q: seq<Int8>, s: real, d: nat)
    requires |q| == |col| && d < |col| && Represents(q[d], col[d], s)
    ensures Abs(Dequantize(q, s)[d] - col[d]) <= s / 2.0
  {}

  /** Every weight survives the round trip within half a scale. */
  lemma WeightError(col: seq<real>, d: nat)
    requires d < |col|
    ensures Abs(Dequantize(Quantize(col).0, Quantize(col).1)[d] - col[d]) <= Scale(col) / 2.0
  {
    QuantizedRepresents(col, d);
    RepresentedNear(col, Quantize(col).0, Quantize(col).1, d);
  }

  /** In terms of the elements alone: a weight comes back within 1/254 of the column's bound. */
  lemma WeightWithin(col: seq<real>, d: nat, m: real)
    requires d < |col| && ElementsWithin(col, m)
    ensures Abs(Dequantize(Quantize(col).0, Quantize(col).1)[d] - col[d]) <= m / 254.0
  {
    WeightError(col, d);
    ScaleWithin(col, m);
  }

  /** An all-zero column survives exactly. */
  lemma ZeroColumn(col: seq<real>, d: nat)
    requires d < |col| && forall i :: 0 <= i < |col| ==> col[i] == 0.0
    ensures Scale(col) == FLOOR && Dequantize(Quantize(col).0, Quantize(col).1)[d] == 0.0
  {
    ZeroMaxAbs(col);
    assert col[d] / FLOOR == 0.0;
  }

  lemma {:induction false} ZeroMaxAbs(col: seq<real>)
    requires forall i :: 0 <= i < |col| ==> col[i] == 0.0
    ensures MaxAbs(col) == 0.0
  {
    if col != [] { ZeroMaxAbs(col[..|col| - 1]); }
  }

  // ---------------------------------------------------------------------------------------
  // The product
  // ---------------------------------------------------------------------------------------

  function SumAbs(x: seq<real>, from: nat): real
    decreases |x| - from
  {
    if from >= |x| then 0.0 else Abs(x[from]) + SumAbs(x, from + 1)
  }

  lemma ProductError(x: real, a: real, b: real, h: real)
    requires Abs(a - b) <= h
    ensures Abs(x * a - x * b) <= h * Abs(x)
  {
    var e := a - b;
    assert x * a - x * b == x * e;
    if x >= 0.0 {
      assert -(x * h) <= x * e <= x * h;
    } else {
      assert x * h <= x * e <= -(x * h);
    }
  }

  function Times(x: seq<real>, a: seq<real>): (r: seq<real>)
    requires |x| == |a|
    ensures |r| == |x| && forall d :: 0 <= d < |x| ==> r[d] == x[d] * a[d]
  {
    seq(|x|, d requires 0 <= d < |x| => x[d] * a[d])
  }

  function Spread(x: seq<real>, h: real): (r: seq<real>)
    ensures |r| == |x| && forall d :: 0 <= d < |x| ==> r[d] == h * Abs(x[d])
  {
    seq(|x|, d requires 0 <= d < |x| => h * Abs(x[d]))
  }

  function SumFrom(p: seq<real>, from: nat): real
    decreases |p| - from
  {
    if from >= |p| then 0.0 else p[from] + SumFrom(p, from + 1)
  }

  lemma {:induction false} DotIsSum(x: seq<real>, a: seq<real>, from: nat)
    requires |x| == |a|
    ensures Dot(x, a, from) == SumFrom(Times(x, a), from)
    decreases |x| - from
  {
    if from < |x| { DotIsSum(x, a, from + 1); }
  }

  lemma {:induction false} SpreadIsProduct(x: seq<real>, h: real, from: nat)
    ensures SumFrom(Spread(x, h), from) == h * SumAbs(x, from)
    decreases |x| - from
  {
    if from < |x| {
      SpreadIsProduct(x, h, from + 1);
      Distribute(h, Abs(x[from]), SumAbs(x, from + 1));
    }
  }

  lemma Distribute(h: real, a: real, b: real)
    ensures h * (a + b) == h * a + h * b
  {}

  /** Errors of the terms add up to a bound on the error of the sum. */
  lemma {:induction false} SumError(p: seq<real>, q: seq<real>, u: seq<real>, from: nat)
    requires |p| == |q| == |u| && forall d: nat :: Within(p, q, u, d)
    ensures Abs(SumFrom(p, from) - SumFrom(q, from)) <= SumFrom(u, from)
    decreases |p| - from
  {
    if from < |p| { assert Within(p, q, u, from); SumError(p, q, u, from + 1); }
  }

  ghost predicate Within(p: seq<real>, q: seq<real>, u: seq<real>, d: nat)
    requires |p| == |q| == |u|
  {
    d < |p| ==> Abs(p[d] - q[d]) <= u[d]
  }

  lemma TermError(x: seq<real>, a: seq<real>, b: seq<real>, h: real, d: nat)
    requires |x| == |a| == |b| && d < |x| && Abs(a[d] - b[d]) <= h
    ensures Within(Times(x, a), Times(x, b), Spread(x, h), d)
  {
    ProductError(x[d], a[d], b[d], h);
  }

  ghost predicate Near(a: seq<real>, b: seq<real>, h: real, d: nat)
    requires |a| == |b|
  {
    d < |a| ==> Abs(a[d] - b[d]) <= h
  }

  /** `out` is the product of `x` and `col` from dimension `from` on, up to `h` times the sum of
      `|x|` over those dimensions. */
  ghost predicate Accurate(out: real, x: seq<real>, col: seq<real>, h: real, from: nat)
    requires |x| == |col|
  {
    Abs(out - Dot(x, col, from)) <= h * SumAbs(x, from)
  }

  /** Vectors that differ by at most `h` in each dimension have close products with `x`. */
  lemma DotError(x: seq<real>, a: seq<real>, b: seq<real>, h: real, from: nat)
    requires |x| == |a| == |b| && forall d: nat :: Near(a, b, h, d)
    ensures Accurate(Dot(x, a, from), x, b, h, from)
  {
    TermsError(x, a, b, h);
    SumError(Times(x, a), Times(x, b), Spread(x, h), from);
    DotIsSum(x, a, from);
    DotIsSum(x, b, from);
    SpreadIsProduct(x, h, from);
  }

  lemma TermsError(x: seq<real>, a: seq<real>, b: seq<real>, h: real)
    requires |x| == |a| == |b| && forall d: nat :: Near(a, b, h, d)
    ensures forall d: nat :: Within(Times(x, a), Times(x, b), Spread(x, h), d)
  {
    forall d: nat ensures Within(Times(x, a), Times(x, b), Spread(x, h), d) {
      if d < |x| { assert Near(a, b, h, d); TermError(x, a, b, h, d); }
    }
  }

  /** What the quantised path computes for a column. */
  function Approximate(col: seq<real>): (r: seq<real>)
    ensures |r| == |col|
  {
    Dequantize(Quantize(col).0, Quantize(col).1)
  }

  lemma ApproximateNear(col: seq<real>, h: real)
    requires h == Scale(col) / 2.0
    ensures forall d: nat :: Near(Approximate(col), col, h, d)
  {
    forall d: nat ensures Near(Approximate(col), col, h, d) {
      if d < |col| { WeightError(col, d); }
    }
  }

  lemma {:induction false} SumAbsNonNegative(x: seq<real>, from: nat)
    ensures SumAbs(x, from) >= 0.0
    decreases |x| - from
  {
    if from < |x| { SumAbsNonNegative(x, from + 1); }
  }

  lemma AccurateMore(out: real, x: seq<real>, col: seq<real>, h: real, h': real, from: nat)
    requires |x| == |col| && Accurate(out, x, col, h, from) && h <= h'
    ensures Accurate(out, x, col, h', from)
  {
    SumAbsNonNegative(x, from);
    TimesMonotone(h, h', SumAbs(x, from));
  }

  lemma TimesMonotone(a: real, b: real, t: real)
    requires a <= b && t >= 0.0
    ensures a * t <= b * t
  {}

  /** In terms of the elements alone: an output is within 1/254 of the column's bound times the sum
      of `|x|`. */
  lemma OutputWithin(x: seq<real>, col: seq<real>, m: real)
    requires |x| == |col| && ElementsWithin(col, m)
    ensures Accurate(Dot(x, Approximate(col), 0), x, col, m / 254.0, 0)
  {
    OutputError(x, col);
    ScaleWithin(col, m);
    AccurateMore(Dot(x, Approximate(col), 0), x, col, Scale(col) / 2.0, m / 254.0, 0);
  }

  /** The error of an output is at most half its column's scale times the sum of `|x|`. */
  lemma OutputError(x: seq<real>, col: seq<real>)
    requires |x| == |col|
    ensures Accurate(Dot(x, Approximate(col), 0), x, col, Scale(col) / 2.0, 0)
  {
    var h := Scale(col) / 2.0;
    ApproximateNear(col, h);
    DotError(x, Approximate(col), col, h, 0);
  }

  // ---------------------------------------------------------------------------------------
  // The kernel
  // ---------------------------------------------------------------------------------------

  /** One lane: dequantise at multiply time. */
  method LaneDequantized(x: seq<real>, q: seq<Int8>, s: real, lane: nat) returns (partial: real)
    requires |x| == |q|
    ensures partial == Strided(x, Dequantize(q, s), lane)
  {
    partial := 0.0;
    var d: nat := lane;
    while d < |x|
      invariant partial + Strided(x, Dequantize(q, s), d) == Strided(x, Dequantize(q, s), lane)
    {
      var w := q[d] as real * s;
      assert w == Dequantize(q, s)[d];
      partial := partial + x[d] * w;
      d := d + LANES;
    }
  }

  /** One SIMD group computes one output element: the same number as dequantise-then-multiply. */
  method FusedElement(x: seq<real>, q: seq<Int8>, s: real) returns (total: real)
    requires |x| == |q|
    ensures total == Dot(x, Dequantize(q, s), 0)
  {
    total := 0.0;
    var lane: nat := 0;
    while lane < LANES
      invariant lane <= LANES && total == Lanes(x, Dequantize(q, s), 0, lane)
    {
      var partial := LaneDequantized(x, q, s, lane);
      total := total + partial;
      lane := lane + 1;
    }
    LanesAreDot(x, Dequantize(q, s), 0);
  }

  /** One SIMD group's share of a token's outputs. */
  method GroupOutputs(x: seq<real>, qs: seq<seq<Int8>>, scales: seq<real>, sg: nat, out: array<real>)
    requires sg < 8 && |qs| == |scales| == out.Length && forall e :: 0 <= e < |qs| ==> |qs[e]| == |x|
    modifies out
    ensures forall e :: 0 <= e < |qs| && e % 8 == sg ==> out[e] == Dot(x, Dequantize(qs[e], scales[e]), 0)
    ensures forall e :: 0 <= e < |qs| && e % 8 != sg ==> out[e] == old(out[e])
  {
    var col: nat := sg;
    while col < |qs|
      invariant col % 8 == sg
      invariant forall e :: 0 <= e < col && e < |qs| && e % 8 == sg ==>
                  out[e] == Dot(x, Dequantize(qs[e], scales[e]), 0)
      invariant forall e :: 0 <= e < |qs| && (e % 8 != sg || e >= col) ==> out[e] == old(out[e])
    {
      var total := FusedElement(x, qs[col], scales[col]);
      out[col] := total;
      col := col + 8;
    }
  }

  /** One token's outputs, the SIMD groups in any order: exactly dequantise-then-multiply. */
  method FusedRow(x: seq<real>, qs: seq<seq<Int8>>, scales: seq<real>, out: array<real>)
    requires |qs| == |scales| == out.Length && forall e :: 0 <= e < |qs| ==> |qs[e]| == |x|
    modifies out
    ensures forall e :: 0 <= e < |qs| ==> out[e] == Dot(x, Dequantize(qs[e], scales[e]), 0)
  {
    var todo: set<nat> := {0, 1, 2, 3, 4, 5, 6, 7};
    while todo != {}
      invariant todo <= {0, 1, 2, 3, 4, 5, 6, 7}
      invariant forall e :: 0 <= e < |qs| && e % 8 !in todo ==> out[e] == Dot(x, Dequantize(qs[e], scales[e]), 0)
      decreases |todo|
    {
      var sg :| sg in todo;
      GroupOutputs(x, qs, scales, sg, out);
      todo := todo - {sg};
    }
    assert forall e :: 0 <= e < |qs| ==> e % 8 !in todo;
  }

  /** `out` is within the error bounds of column `col`, by its scale and by any bound on its elements. */
  ghost predicate WithinBounds(out: real, x: seq<real>, col: seq<real>)
    requires |x| == |col|
  {
    && Accurate(out, x, col, Scale(col) / 2.0, 0)
    && forall m :: ElementsWithin(col, m) ==> Accurate(out, x, col, m / 254.0, 0)
  }

  lemma OutputWithinBounds(x: seq<real>, col: seq<real>)
    requires |x| == |col|
    ensures WithinBounds(Dot(x, Approximate(col), 0), x, col)
  {
    OutputError(x, col);
    forall m | ElementsWithin(col, m) ensures Accurate(Dot(x, Approximate(col), 0), x, col, m / 254.0, 0) {
      OutputWithin(x, col, m);
    }
  }

  /** The whole path for one token: quantise every column, multiply with the kernel. Each output is
      within the error bounds of the unquantised product. */
  method QuantizedMatmulRow(x: seq<real>, cols: seq<seq<real>>) returns (out: seq<real>)
    requires forall e :: 0 <= e < |cols| ==> |cols[e]| == |x|
    ensures |out| == |cols| && forall e :: 0 <= e < |cols| ==> WithinBounds(out[e], x, cols[e])
  {
    var qs := seq(|cols|, e requires 0 <= e < |cols| => Quantize(cols[e]).0);
    var scales := seq(|cols|, e requires 0 <= e < |cols| => Scale(cols[e]));
    var a := new real[|cols|](_ => 0.0);
    FusedRow(x, qs, scales, a);
    forall e | 0 <= e < |cols| ensures a[e] == Dot(x, Approximate(cols[e]), 0) {}
    forall e | 0 <= e < |cols| ensures WithinBounds(a[e], x, cols[e]) {
      OutputWithinBounds(x, cols[e]);
    }
    return a[..];
  }
}
