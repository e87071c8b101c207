/** The dot product of a SIMD group: 32 lanes, each taking every 32nd dimension, added up at the end.
    Both kernels of src/kernels reduce this way. */
module SimdSum {
  import opened FlatBuffers

  const LANES: nat := 32

  /** The dot product of the dimensions from `from` on. */
  function Dot(a: seq<real>, b: seq<real>, from: nat): real
    requires |a| == |b|
    decreases |a| - from
  {
    if from >= |a| then 0.0 else a[from] * b[from] + Dot(a, b, from + 1)
  }

  /** What a lane that starts at `from` adds up. */
  function Strided(a: seq<real>, b: seq<real>, from: nat): real
    requires |a| == |b|
    decreases |a| - from
  {
    if from >= |a| then 0.0 else a[from] * b[from] + Strided(a, b, from + LANES)
  }

  /** The partial sums of `n` neighbouring lanes. */
  function Lanes(a: seq<real>, b: seq<real>, from: nat, n: nat): real
    requires |a| == |b|
  {
    if n == 0 then 0.0 else Lanes(a, b, from, n - 1) + Strided(a, b, from + n - 1)
  }

  lemma {:induction false} FirstLane(a: seq<real>, b: seq<real>, from: nat, n: nat)
    requires |a| == |b|
    ensures Lanes(a, b, from, n + 1) == Strided(a, b, from) + Lanes(a, b, from + 1, n)
  {
    if n == 0 {
      assert Lanes(a, b, from, 1) == Lanes(a, b, from, 0) + Strided(a, b, from);
    } else {
      FirstLane(a, b, from, n - 1);
    }
  }

  /** Every dimension is handled by exactly one lane: the 32 partial sums are the dot product. */
  lemma {:induction false} LanesAreDot(a: seq<real>, b: seq<real>, from: nat)
    requires |a| == |b|
    ensures Lanes(a, b, from, LANES) == Dot(a, b, from)
    decreases |a| - from
  {
    if from >= |a| {
      IdleLanes(a, b, from, LANES);
    } else {
      FirstLane(a, b, from, LANES - 1);
      LanesAreDot(a, b, from + 1);
    }
  }

  lemma {:induction false} IdleLanes(a: seq<real>, b: seq<real>, from: nat, n: nat)
    requires |a| == |b| && from >= |a|
    ensures Lanes(a, b, from, n) == 0.0
  {
    if n > 0 { IdleLanes(a, b, from, n - 1); }
  }

  /** One lane's loop over two rows that stand in flat buffers. */
  method LanePartial(
    x: seq<real>, xBase: nat, y: seq<real>, yBase: nat, n: nat, lane: nat, ghost a: seq<real>, ghost b: seq<real>)
    returns (partial: real)
    requires |a| == |b| == n && StandsAt(x, xBase, a) && StandsAt(y, yBase, b)
    ensures partial == Strided(a, b, lane)
  {
    partial := 0.0;
    var d: nat := lane;
    while d < n
      invariant partial + Strided(a, b, d) == Strided(a, b, lane)
    {
      assert x[xBase..xBase + n][d] == a[d] && y[yBase..yBase + n][d] == b[d];
      partial := partial + x[xBase + d] * y[yBase + d];
      d := d + LANES;
    }
  }

  /** All lanes of one SIMD group and the hardware reduction of their partial sums. */
  method GroupDot(x: seq<real>, xBase: nat, y: seq<real>, yBase: nat, n: nat, ghost a: seq<real>, ghost b: seq<real>)
    returns (dot: real)
    requires |a| == |b| == n && StandsAt(x, xBase, a) && StandsAt(y, yBase, b)
    ensures dot == Dot(a, b, 0)
  {
    dot := 0.0;
    var lane: nat := 0;
    while lane < LANES
      invariant lane <= LANES && dot == Lanes(a, b, 0, lane)
    {
      var partial := LanePartial(x, xBase, y, yBase, n, lane, a, b);
      dot := dot + partial;
      lane := lane + 1;
    }
    LanesAreDot(a, b, 0);
  }
}
