/** The binary encoding of src/orchestration/serialization.hpp on values.

    Integers are packed in host byte order; the model fixes little-endian. A float travels as its
    32-bit pattern. A count is truncated to 32 bits before it is written, as the source does. */
module Wire {
  import opened Wrappers
  import opened Bytes

  datatype RoutedToken = RoutedToken(
    tokenId: U64, batchPosition: U32, primaryExpert: U32, secondaryExpert: U32, payload: seq<U32>)

  /** `effectiveExpert` and `failed` are router-only and never travel. */
  datatype RoutedResult = RoutedResult(
    tokenId: U64, batchPosition: U32, processedByShard: U32, effectiveExpert: U32, payload: seq<U32>, failed: bool)

  /** A decoded value and the bytes after it, or the truncation error. */
  type Parsed<T> = Result<(T, seq<Byte>), WireError>

  /** The one error the reader throws. */
  datatype WireError = Truncated

  // ---------------------------------------------------------------------------------------
  // Encoding
  // ---------------------------------------------------------------------------------------

  function PutU32(v: U32): (r: seq<Byte>)
    ensures |r| == 4
  {
    PutLE(v, 4)
  }

  function PutU64(v: U64): (r: seq<Byte>)
    ensures |r| == 8
  {
    PutLE(v, 8)
  }

  /** The cast of a size to 32 bits. */
  function Truncate(n: nat): U32 { if n < 0x1_0000_0000 then n else n % 0x1_0000_0000 }

  function PutWords(ws: seq<U32>): (r: seq<Byte>)
    ensures |r| == 4 * |ws|
  {
    if ws == [] then [] else PutU32(ws[0]) + PutWords(ws[1..])
  }

  function PutFloats(ws: seq<U32>): seq<Byte> { PutU32(Truncate(|ws|)) + PutWords(ws) }

  function PutToken(t: RoutedToken): seq<Byte> {
    PutU64(t.tokenId) + (PutU32(t.batchPosition) + (PutU32(t.primaryExpert)
      + (PutU32(t.secondaryExpert) + PutFloats(t.payload))))
  }

  function PutResult(r: RoutedResult): seq<Byte> {
    PutU64(r.tokenId) + (PutU32(r.batchPosition) + (PutU32(r.processedByShard) + PutFloats(r.payload)))
  }

  function PutAll<T>(put: T -> seq<Byte>, xs: seq<T>): seq<Byte> {
    if xs == [] then [] else put(xs[0]) + PutAll(put, xs[1..])
  }

  function EncodeBatch<T>(put: T -> seq<Byte>, xs: seq<T>): seq<Byte> {
    PutU32(Truncate(|xs|)) + PutAll(put, xs)
  }

  function EncodeTokenBatch(ts: seq<RoutedToken>): seq<Byte> { EncodeBatch(PutToken, ts) }

  function EncodeResultBatch(rs: seq<RoutedResult>): seq<Byte> { EncodeBatch(PutResult, rs) }

  /** Word `k` of a sequence of words stands at offset `4 * k`. */
  lemma {:induction false} WordAt(ws: seq<U32>, k: nat)
    requires k < |ws|
    ensures PutWords(ws)[4 * k..4 * k + 4] == PutU32(ws[k])
  {
    var first, rest := PutU32(ws[0]), PutWords(ws[1..]);
    if k == 0 {
      assert (first + rest)[..4] == first;
    } else {
      WordAt(ws[1..], k - 1);
      assert (first + rest)[4 + 4 * (k - 1)..4 + 4 * (k - 1) + 4] == rest[4 * (k - 1)..4 * (k - 1) + 4];
    }
  }

  /** Where the fields of a token stand in its encoding. */
  lemma TokenLayout(t: RoutedToken)
    ensures var p := PutToken(t);
            && |p| == 24 + 4 * |t.payload|
            && p[..8] == PutLE(t.tokenId, 8) && p[8..12] == PutLE(t.batchPosition, 4)
            && p[12..16] == PutLE(t.primaryExpert, 4) && p[16..20] == PutLE(t.secondaryExpert, 4)
            && p[20..24] == PutLE(Truncate(|t.payload|), 4) && p[24..] == PutWords(t.payload)
  {}

  /** And those of a result; the router-only fields are not there. */
  lemma ResultLayout(r: RoutedResult)
    ensures var p := PutResult(r);
            && |p| == 20 + 4 * |r.payload|
            && p[..8] == PutLE(r.tokenId, 8) && p[8..12] == PutLE(r.batchPosition, 4)
            && p[12..16] == PutLE(r.processedByShard, 4)
            && p[16..20] == PutLE(Truncate(|r.payload|), 4) && p[20..] == PutWords(r.payload)
  {}

  /** A batch is its count and then its elements. */
  lemma {:induction false} BatchLayout<T>(put: T -> seq<Byte>, xs: seq<T>, x: T)
    ensures EncodeBatch(put, [])[..4] == PutLE(0, 4) && |EncodeBatch(put, [])| == 4
    ensures EncodeBatch(put, xs)[..4] == PutLE(|xs| % 0x1_0000_0000, 4)
    ensures EncodeBatch(put, xs + [x])[4..] == EncodeBatch(put, xs)[4..] + put(x)
  {
    PutAllAppend(put, xs, x);
  }

  lemma {:induction false} PutAllAppend<T>(put: T -> seq<Byte>, xs: seq<T>, x: T)
    ensures PutAll(put, xs + [x]) == PutAll(put, xs) + put(x)
  {
    if xs == [] {
      assert xs + [x] == [x] && [x][1..] == [] && put(x) + [] == put(x);
    } else {
      assert (xs + [x])[1..] == xs[1..] + [x];
      PutAllAppend(put, xs[1..], x);
    }
  }

  // ---------------------------------------------------------------------------------------
  // Decoding
  // ---------------------------------------------------------------------------------------

  function GetU32(s: seq<Byte>): Parsed<U32> {
    Pow256Values();
    if |s| < 4 then Err(Truncated) else Ok((GetLE(s[..4]), s[4..]))
  }

  function GetU64(s: seq<Byte>): Parsed<U64> {
    Pow256Values();
    if |s| < 8 then Err(Truncated) else Ok((GetLE(s[..8]), s[8..]))
  }

  function GetWords(s: seq<Byte>, n: nat): (r: seq<U32>)
    requires |s| == 4 * n
    ensures |r| == n
  {
    if n == 0 then [] else [GetU32(s[..4]).value.0] + GetWords(s[4..], n - 1)
  }

  function GetFloats(s: seq<Byte>): Parsed<seq<U32>> {
    match GetU32(s)
    case Err(e) => Err(e)
    case Ok((n, rest)) =>
      if |rest| < 4 * n then Err(Truncated) else Ok((GetWords(rest[..4 * n], n), rest[4 * n..]))
  }

  function GetToken(s: seq<Byte>): Parsed<RoutedToken> {
    match GetU64(s) case Err(e) => Err(e) case Ok((id, s1)) =>
    match GetU32(s1) case Err(e) => Err(e) case Ok((pos, s2)) =>
    match GetU32(s2) case Err(e) => Err(e) case Ok((primary, s3)) =>
    match GetU32(s3) case Err(e) => Err(e) case Ok((secondary, s4)) =>
    match GetFloats(s4) case Err(e) => Err(e) case Ok((payload, s5)) =>
    Ok((RoutedToken(id, pos, primary, secondary, payload), s5))
  }

  /** The router-only fields have their defaults after decoding. */
  function GetResult(s: seq<Byte>): Parsed<RoutedResult> {
    match GetU64(s) case Err(e) => Err(e) case Ok((id, s1)) =>
    match GetU32(s1) case Err(e) => Err(e) case Ok((pos, s2)) =>
    match GetU32(s2) case Err(e) => Err(e) case Ok((shard, s3)) =>
    match GetFloats(s3) case Err(e) => Err(e) case Ok((payload, s4)) =>
    Ok((RoutedResult(id, pos, shard, 0, payload, false), s4))
  }

  function GetMany<T>(get: seq<Byte> -> Parsed<T>, s: seq<Byte>, n: nat): (r: Parsed<seq<T>>)
    ensures r.Ok? ==> |r.value.0| == n
    decreases n
  {
    if n == 0 then Ok(([], s))
    else
      match get(s) case Err(e) => Err(e) case Ok((x, s1)) =>
      match GetMany(get, s1, n - 1) case Err(e) => Err(e) case Ok((xs, s2)) =>
      Ok(([x] + xs, s2))
  }

  /** Bytes after the last element are ignored. */
  function DecodeBatch<T>(get: seq<Byte> -> Parsed<T>, s: seq<Byte>): Result<seq<T>, WireError> {
    match GetU32(s) case Err(e) => Err(e) case Ok((n, s1)) =>
    match GetMany(get, s1, n) case Err(e) => Err(e) case Ok((xs, _)) => Ok(xs)
  }

  function DecodeTokenBatch(s: seq<Byte>): Result<seq<RoutedToken>, WireError> { DecodeBatch(GetToken, s) }

  function DecodeResultBatch(s: seq<Byte>): Result<seq<RoutedResult>, WireError> { DecodeBatch(GetResult, s) }

  // ---------------------------------------------------------------------------------------
  // Round trips
  // ---------------------------------------------------------------------------------------

  lemma U32RoundTrip(v: U32, rest: seq<Byte>)
    ensures GetU32(PutU32(v) + rest) == Ok((v, rest))
  {
    Pow256Values();
    LERoundTrip(v, 4);
    var s := PutU32(v) + rest;
    assert s[..4] == PutU32(v) && s[4..] == rest;
  }

  lemma U64RoundTrip(v: U64, rest: seq<Byte>)
    ensures GetU64(PutU64(v) + rest) == Ok((v, rest))
  {
    Pow256Values();
    LERoundTrip(v, 8);
    var s := PutU64(v) + rest;
    assert s[..8] == PutU64(v) && s[8..] == rest;
  }

  lemma {:induction false} WordsRoundTrip(ws: seq<U32>)
    ensures GetWords(PutWords(ws), |ws|) == ws
  {
    if ws != [] {
      var s := PutWords(ws);
      WordsRoundTrip(ws[1..]);
      U32RoundTrip(ws[0], []);
      assert s[..4] == PutU32(ws[0]) + [] && s[4..] == PutWords(ws[1..]);
    }
  }

  lemma FloatsRoundTrip(ws: seq<U32>, rest: seq<Byte>)
    requires |ws| < 0x1_0000_0000
    ensures GetFloats(PutFloats(ws) + rest) == Ok((ws, rest))
  {
    var body := PutWords(ws) + rest;
    assert PutFloats(ws) + rest == PutU32(|ws|) + body;
    U32RoundTrip(|ws|, body);
    WordsRoundTrip(ws);
    assert body[..4 * |ws|] == PutWords(ws) && body[4 * |ws|..] == rest;
  }

  lemma TokenRoundTrip(t: RoutedToken, rest: seq<Byte>)
    requires |t.payload| < 0x1_0000_0000
    ensures GetToken(PutToken(t) + rest) == Ok((t, rest))
  {
    var r4 := PutFloats(t.payload) + rest;
    var r3 := PutU32(t.secondaryExpert) + r4;
    var r2 := PutU32(t.primaryExpert) + r3;
    var r1 := PutU32(t.batchPosition) + r2;
    assert PutToken(t) + rest == PutU64(t.tokenId) + r1;
    U64RoundTrip(t.tokenId, r1);
    U32RoundTrip(t.batchPosition, r2);
    U32RoundTrip(t.primaryExpert, r3);
    U32RoundTrip(t.secondaryExpert, r4);
    FloatsRoundTrip(t.payload, rest);
  }

  /** What a result looks like after travelling: its router-only fields are reset. */
  function Travelled(r: RoutedResult): RoutedResult { r.(effectiveExpert := 0, failed := false) }

  lemma ResultRoundTrip(r: RoutedResult, rest: seq<Byte>)
    requires |r.payload| < 0x1_0000_0000
    ensures GetResult(PutResult(r) + rest) == Ok((Travelled(r), rest))
  {
    var r3 := PutFloats(r.payload) + rest;
    var r2 := PutU32(r.processedByShard) + r3;
    var r1 := PutU32(r.batchPosition) + r2;
    assert PutResult(r) + rest == PutU64(r.tokenId) + r1;
    U64RoundTrip(r.tokenId, r1);
    U32RoundTrip(r.batchPosition, r2);
    U32RoundTrip(r.processedByShard, r3);
    FloatsRoundTrip(r.payload, rest);
  }

  // ---------------------------------------------------------------------------------------
  // Batches
  // ---------------------------------------------------------------------------------------

  /** `get` reads back what `put` wrote for `x`, as `y`, whatever follows. */
  ghost predicate ReadsBack<T>(put: T -> seq<Byte>, get: seq<Byte> -> Parsed<T>, x: T, y: T) {
    forall rest :: get(put(x) + rest) == Ok((y, rest))
  }

  lemma {:induction false} ManyRoundTrip<T>(
    put: T -> seq<Byte>, get: seq<Byte> -> Parsed<T>, xs: seq<T>, ys: seq<T>, rest: seq<Byte>)
    requires |xs| == |ys| && forall i :: 0 <= i < |xs| ==> ReadsBack(put, get, xs[i], ys[i])
    ensures GetMany(get, PutAll(put, xs) + rest, |xs|) == Ok((ys, rest))
  {
    if xs == [] {
      assert PutAll(put, xs) + rest == rest;
    } else {
      var tail := PutAll(put, xs[1..]) + rest;
      assert PutAll(put, xs) + rest == put(xs[0]) + tail;
      assert ReadsBack(put, get, xs[0], ys[0]);
      ManyRoundTrip(put, get, xs[1..], ys[1..], rest);
      assert ys == [ys[0]] + ys[1..];
    }
  }

  lemma BatchRoundTrip<T>(put: T -> seq<Byte>, get: seq<Byte> -> Parsed<T>, xs: seq<T>, ys: seq<T>)
    requires |xs| == |ys| < 0x1_0000_0000 && forall i :: 0 <= i < |xs| ==> ReadsBack(put, get, xs[i], ys[i])
    ensures DecodeBatch(get, EncodeBatch(put, xs)) == Ok(ys)
  {
    DecodeCounted(get, |xs|, PutAll(put, xs));
    ManyRoundTrip(put, get, xs, ys, []);
    assert PutAll(put, xs) + [] == PutAll(put, xs);
  }

  predicate PayloadsFit(ts: seq<RoutedToken>) {
    forall i :: 0 <= i < |ts| ==> |ts[i].payload| < 0x1_0000_0000
  }

  predicate ResultsFit(rs: seq<RoutedResult>) {
    forall i :: 0 <= i < |rs| ==> |rs[i].payload| < 0x1_0000_0000
  }

  function AllTravelled(rs: seq<RoutedResult>): (r: seq<RoutedResult>)
    ensures |r| == |rs| && forall i :: 0 <= i < |rs| ==> r[i] == Travelled(rs[i])
  {
    if rs == [] then [] else [Travelled(rs[0])] + AllTravelled(rs[1..])
  }

  lemma TokenReadsBack(t: RoutedToken)
    requires |t.payload| < 0x1_0000_0000
    ensures ReadsBack(PutToken, GetToken, t, t)
  {
    forall rest ensures GetToken(PutToken(t) + rest) == Ok((t, rest)) { TokenRoundTrip(t, rest); }
  }

  lemma ResultReadsBack(r: RoutedResult)
    requires |r.payload| < 0x1_0000_0000
    ensures ReadsBack(PutResult, GetResult, r, Travelled(r))
  {
    forall rest ensures GetResult(PutResult(r) + rest) == Ok((Travelled(r), rest)) { ResultRoundTrip(r, rest); }
  }

  /** A token batch whose counts fit 32 bits decodes to itself. */
  lemma TokenBatchRoundTrip(ts: seq<RoutedToken>)
    requires |ts| < 0x1_0000_0000 && PayloadsFit(ts)
    ensures DecodeTokenBatch(EncodeTokenBatch(ts)) == Ok(ts)
  {
    forall i | 0 <= i < |ts| ensures ReadsBack(PutToken, GetToken, ts[i], ts[i]) { TokenReadsBack(ts[i]); }
    BatchRoundTrip(PutToken, GetToken, ts, ts);
  }

  /** A result batch whose counts fit 32 bits decodes to itself with the router-only fields reset. */
  lemma ResultBatchRoundTrip(rs: seq<RoutedResult>)
    requires |rs| < 0x1_0000_0000 && ResultsFit(rs)
    ensures DecodeResultBatch(EncodeResultBatch(rs)) == Ok(AllTravelled(rs))
  {
    forall i | 0 <= i < |rs| ensures ReadsBack(PutResult, GetResult, rs[i], AllTravelled(rs)[i]) {
      ResultReadsBack(rs[i]);
    }
    BatchRoundTrip(PutResult, GetResult, rs, AllTravelled(rs));
  }

  // ---------------------------------------------------------------------------------------
  // The exact condition
  // ---------------------------------------------------------------------------------------

  /** Whatever `get` reads of what `put` wrote for `x`, it is not `y`. */
  ghost predicate Loses<T>(put: T -> seq<Byte>, get: seq<Byte> -> Parsed<T>, x: T, y: T) {
    forall rest :: get(put(x) + rest).Ok? ==> get(put(x) + rest).value.0 != y
  }

  /** A payload of 2^32 or more floats does not survive: its truncated count reads back short. */
  lemma LongFloatsLost(ws: seq<U32>, rest: seq<Byte>)
    requires |ws| >= 0x1_0000_0000
    ensures GetFloats(PutFloats(ws) + rest).Ok? ==> |GetFloats(PutFloats(ws) + rest).value.0| < |ws|
  {
    var n := Truncate(|ws|);
    assert PutFloats(ws) + rest == PutU32(n) + (PutWords(ws) + rest);
    U32RoundTrip(n, PutWords(ws) + rest);
  }

  lemma LongTokenLost(t: RoutedToken)
    requires |t.payload| >= 0x1_0000_0000
    ensures Loses(PutToken, GetToken, t, t)
  {
    forall rest ensures GetToken(PutToken(t) + rest).Ok? ==> GetToken(PutToken(t) + rest).value.0 != t {
      var r4 := PutFloats(t.payload) + rest;
      var r3 := PutU32(t.secondaryExpert) + r4;
      var r2 := PutU32(t.primaryExpert) + r3;
      var r1 := PutU32(t.batchPosition) + r2;
      assert PutToken(t) + rest == PutU64(t.tokenId) + r1;
      U64RoundTrip(t.tokenId, r1);
      U32RoundTrip(t.batchPosition, r2);
      U32RoundTrip(t.primaryExpert, r3);
      U32RoundTrip(t.secondaryExpert, r4);
      LongFloatsLost(t.payload, rest);
    }
  }

  lemma LongResultLost(r: RoutedResult)
    requires |r.payload| >= 0x1_0000_0000
    ensures Loses(PutResult, GetResult, r, Travelled(r))
  {
    forall rest ensures GetResult(PutResult(r) + rest).Ok? ==> GetResult(PutResult(r) + rest).value.0 != Travelled(r) {
      var r3 := PutFloats(r.payload) + rest;
      var r2 := PutU32(r.processedByShard) + r3;
      var r1 := PutU32(r.batchPosition) + r2;
      assert PutResult(r) + rest == PutU64(r.tokenId) + r1;
      U64RoundTrip(r.tokenId, r1);
      U32RoundTrip(r.batchPosition, r2);
      U32RoundTrip(r.processedByShard, r3);
      LongFloatsLost(r.payload, rest);
    }
  }

  lemma {:induction false} ManyLost<T>(
    put: T -> seq<Byte>, get: seq<Byte> -> Parsed<T>, xs: seq<T>, ys: seq<T>, k: nat, rest: seq<Byte>)
    requires k < |xs| == |ys| && Loses(put, get, xs[k], ys[k])
    requires forall i :: 0 <= i < k ==> ReadsBack(put, get, xs[i], ys[i])
    ensures Elements(GetMany(get, PutAll(put, xs) + rest, |xs|)) != Ok(ys)
  {
    var tail := PutAll(put, xs[1..]) + rest;
    assert PutAll(put, xs) + rest == put(xs[0]) + tail;
    if k > 0 {
      assert ReadsBack(put, get, xs[0], ys[0]);
      ManyLost(put, get, xs[1..], ys[1..], k - 1, rest);
      var r := GetMany(get, tail, |xs| - 1);
      assert r.Ok? ==> ([ys[0]] + r.value.0)[1..] == r.value.0;
    }
  }

  /** The position of the first payload that is too long. */
  lemma FirstLong(lengths: seq<nat>) returns (k: nat)
    requires exists i :: 0 <= i < |lengths| && lengths[i] >= 0x1_0000_0000
    ensures k < |lengths| && lengths[k] >= 0x1_0000_0000
    ensures forall i :: 0 <= i < k ==> lengths[i] < 0x1_0000_0000
  {
    k := 0;
    while lengths[k] < 0x1_0000_0000
      invariant k < |lengths| && exists i :: k <= i < |lengths| && lengths[i] >= 0x1_0000_0000
      invariant forall i :: 0 <= i < k ==> lengths[i] < 0x1_0000_0000
      decreases |lengths| - k
    {
      k := k + 1;
    }
  }

  /** The lost element, or the lost count, loses the batch. */
  lemma BatchLostAt<T>(put: T -> seq<Byte>, get: seq<Byte> -> Parsed<T>, xs: seq<T>, ys: seq<T>, k: nat)
    requires k < |xs| == |ys| < 0x1_0000_0000 && Loses(put, get, xs[k], ys[k])
    requires forall i :: 0 <= i < k ==> ReadsBack(put, get, xs[i], ys[i])
    ensures DecodeBatch(get, EncodeBatch(put, xs)) != Ok(ys)
  {
    ManyLost(put, get, xs, ys, k, []);
    assert PutAll(put, xs) + [] == PutAll(put, xs);
    BatchLost(put, get, xs, ys);
  }

  /** A token batch decodes to itself exactly when its counts fit the 32 bits they are written in. */
  lemma TokenBatchRoundTripIff(ts: seq<RoutedToken>)
    ensures DecodeTokenBatch(EncodeTokenBatch(ts)) == Ok(ts) <==> |ts| < 0x1_0000_0000 && PayloadsFit(ts)
  {
    if |ts| < 0x1_0000_0000 && PayloadsFit(ts) {
      TokenBatchRoundTrip(ts);
    } else if |ts| < 0x1_0000_0000 {
      var lengths := seq(|ts|, i requires 0 <= i < |ts| => |ts[i].payload|);
      var j :| 0 <= j < |ts| && |ts[j].payload| >= 0x1_0000_0000;
      assert lengths[j] >= 0x1_0000_0000;
      var k := FirstLong(lengths);
      LongTokenLost(ts[k]);
      forall i | 0 <= i < k ensures ReadsBack(PutToken, GetToken, ts[i], ts[i]) {
        assert lengths[i] < 0x1_0000_0000;
        TokenReadsBack(ts[i]);
      }
      BatchLostAt(PutToken, GetToken, ts, ts, k);
    } else {
      CountLost(PutToken, GetToken, ts, ts);
    }
  }

  /** A result batch decodes to itself with the router-only fields reset under the same condition. */
  lemma ResultBatchRoundTripIff(rs: seq<RoutedResult>)
    ensures DecodeResultBatch(EncodeResultBatch(rs)) == Ok(AllTravelled(rs))
       <==> |rs| < 0x1_0000_0000 && ResultsFit(rs)
  {
    if |rs| < 0x1_0000_0000 && ResultsFit(rs) {
      ResultBatchRoundTrip(rs);
    } else if |rs| < 0x1_0000_0000 {
      LongResultsLost(rs, AllTravelled(rs));
    } else {
      CountLost(PutResult, GetResult, rs, AllTravelled(rs));
    }
  }

  lemma LongResultsLost(rs: seq<RoutedResult>, ys: seq<RoutedResult>)
    requires |rs| == |ys| < 0x1_0000_0000 && !ResultsFit(rs)
    requires forall i :: 0 <= i < |rs| ==> ys[i] == Travelled(rs[i])
    ensures DecodeBatch(GetResult, EncodeBatch(PutResult, rs)) != Ok(ys)
  {
    var lengths := seq(|rs|, i requires 0 <= i < |rs| => |rs[i].payload|);
    var j :| 0 <= j < |rs| && |rs[j].payload| >= 0x1_0000_0000;
    assert lengths[j] >= 0x1_0000_0000;
    var k := FirstLong(lengths);
    LongResultLost(rs[k]);
    forall i | 0 <= i < k ensures ReadsBack(PutResult, GetResult, rs[i], ys[i]) {
      assert lengths[i] < 0x1_0000_0000;
      ResultReadsBack(rs[i]);
    }
    BatchLostAt(PutResult, GetResult, rs, ys, k);
  }

  /** The elements a batch with count `n` decodes to. */
  function Elements<T>(r: Parsed<seq<T>>): Result<seq<T>, WireError> {
    match r case Err(e) => Err(e) case Ok((xs, _)) => Ok(xs)
  }

  lemma DecodeCounted<T>(get: seq<Byte> -> Parsed<T>, n: U32, body: seq<Byte>)
    ensures DecodeBatch(get, PutU32(n) + body) == Elements(GetMany(get, body, n))
  {
    U32RoundTrip(n, body);
  }

  lemma BatchLost<T>(put: T -> seq<Byte>, get: seq<Byte> -> Parsed<T>, xs: seq<T>, ys: seq<T>)
    requires |xs| < 0x1_0000_0000
    requires Elements(GetMany(get, PutAll(put, xs), |xs|)) != Ok(ys)
    ensures DecodeBatch(get, EncodeBatch(put, xs)) != Ok(ys)
  {
    var r := Elements(GetMany(get, PutAll(put, xs), |xs|));
    assert DecodeBatch(get, EncodeBatch(put, xs)) == r by { DecodeCounted(get, |xs|, PutAll(put, xs)); }
  }

  lemma CountLost<T>(put: T -> seq<Byte>, get: seq<Byte> -> Parsed<T>, xs: seq<T>, ys: seq<T>)
    requires |xs| == |ys| >= 0x1_0000_0000
    ensures DecodeBatch(get, EncodeBatch(put, xs)) != Ok(ys)
  {
    DecodeCounted(get, Truncate(|xs|), PutAll(put, xs));
  }

  // ---------------------------------------------------------------------------------------
  // Every strict prefix of an encoding is rejected as truncated
  // ---------------------------------------------------------------------------------------

  ghost predicate RejectsPrefixes<T>(put: T -> seq<Byte>, get: seq<Byte> -> Parsed<T>, x: T) {
    forall q :: q < put(x) ==> get(q) == Err(Truncated)
  }

  /** A strict prefix of `a + b` that covers `a` goes on with a strict prefix of `b`. */
  lemma PrefixBeyond(a: seq<Byte>, b: seq<Byte>, q: seq<Byte>) returns (rest: seq<Byte>)
    requires q < a + b && |a| <= |q|
    ensures q == a + rest && rest < b
  {
    rest := q[|a|..];
    assert q == q[..|a|] + rest;
    assert q[..|a|] == (a + b)[..|a|] == a;
    assert rest == (a + b)[..|q|][|a|..] == b[..|rest|];
  }

  lemma PrefixWithin(a: seq<Byte>, b: seq<Byte>, q: seq<Byte>)
    requires q < a + b && |q| < |a|
    ensures q < a
  {
    assert q == (a + b)[..|q|] == a[..|q|];
  }

  lemma FloatsReject(ws: seq<U32>, q: seq<Byte>)
    requires |ws| < 0x1_0000_0000 && q < PutFloats(ws)
    ensures GetFloats(q) == Err(Truncated)
  {
    if |q| >= 4 {
      var rest := PrefixBeyond(PutU32(|ws|), PutWords(ws), q);
      U32RoundTrip(|ws|, rest);
    }
  }

  lemma TokenRejects(t: RoutedToken, q: seq<Byte>)
    requires |t.payload| < 0x1_0000_0000 && q < PutToken(t)
    ensures GetToken(q) == Err(Truncated)
  {
    var r4 := PutFloats(t.payload);
    var r3 := PutU32(t.secondaryExpert) + r4;
    var r2 := PutU32(t.primaryExpert) + r3;
    var r1 := PutU32(t.batchPosition) + r2;
    if |q| >= 8 {
      var q1 := PrefixBeyond(PutU64(t.tokenId), r1, q);
      U64RoundTrip(t.tokenId, q1);
      if |q1| >= 4 {
        var q2 := PrefixBeyond(PutU32(t.batchPosition), r2, q1);
        U32RoundTrip(t.batchPosition, q2);
        if |q2| >= 4 {
          var q3 := PrefixBeyond(PutU32(t.primaryExpert), r3, q2);
          U32RoundTrip(t.primaryExpert, q3);
          if |q3| >= 4 {
            var q4 := PrefixBeyond(PutU32(t.secondaryExpert), r4, q3);
            U32RoundTrip(t.secondaryExpert, q4);
            FloatsReject(t.payload, q4);
          }
        }
      }
    }
  }

  lemma ResultRejects(r: RoutedResult, q: seq<Byte>)
    requires |r.payload| < 0x1_0000_0000 && q < PutResult(r)
    ensures GetResult(q) == Err(Truncated)
  {
    var r3 := PutFloats(r.payload);
    var r2 := PutU32(r.processedByShard) + r3;
    var r1 := PutU32(r.batchPosition) + r2;
    if |q| >= 8 {
      var q1 := PrefixBeyond(PutU64(r.tokenId), r1, q);
      U64RoundTrip(r.tokenId, q1);
      if |q1| >= 4 {
        var q2 := PrefixBeyond(PutU32(r.batchPosition), r2, q1);
        U32RoundTrip(r.batchPosition, q2);
        if |q2| >= 4 {
          var q3 := PrefixBeyond(PutU32(r.processedByShard), r3, q2);
          U32RoundTrip(r.processedByShard, q3);
          FloatsReject(r.payload, q3);
        }
      }
    }
  }

  lemma {:induction false} ManyReject<T>(
    put: T -> seq<Byte>, get: seq<Byte> -> Parsed<T>, xs: seq<T>, ys: seq<T>, q: seq<Byte>)
    requires |xs| == |ys| && forall i :: 0 <= i < |xs| ==> ReadsBack(put, get, xs[i], ys[i])
    requires forall i :: 0 <= i < |xs| ==> RejectsPrefixes(put, get, xs[i])
    requires q < PutAll(put, xs)
    ensures GetMany(get, q, |xs|) == Err(Truncated)
  {
    var a, b := put(xs[0]), PutAll(put, xs[1..]);
    assert RejectsPrefixes(put, get, xs[0]) && ReadsBack(put, get, xs[0], ys[0]);
    if |q| < |a| {
      PrefixWithin(a, b, q);
    } else {
      var rest := PrefixBeyond(a, b, q);
      ManyReject(put, get, xs[1..], ys[1..], rest);
    }
  }

  lemma BatchRejects<T>(put: T -> seq<Byte>, get: seq<Byte> -> Parsed<T>, xs: seq<T>, ys: seq<T>, q: seq<Byte>)
    requires |xs| == |ys| < 0x1_0000_0000 && forall i :: 0 <= i < |xs| ==> ReadsBack(put, get, xs[i], ys[i])
    requires forall i :: 0 <= i < |xs| ==> RejectsPrefixes(put, get, xs[i])
    requires q < EncodeBatch(put, xs)
    ensures DecodeBatch(get, q) == Err(Truncated)
  {
    if |q| >= 4 {
      var rest := PrefixBeyond(PutU32(|xs|), PutAll(put, xs), q);
      DecodeCounted(get, |xs|, rest);
      ManyReject(put, get, xs, ys, rest);
    }
  }

  /** Every strict prefix of an encoded token batch is rejected. */
  lemma TokenBatchRejectsPrefixes(ts: seq<RoutedToken>, q: seq<Byte>)
    requires |ts| < 0x1_0000_0000 && PayloadsFit(ts) && q < EncodeTokenBatch(ts)
    ensures DecodeTokenBatch(q) == Err(Truncated)
  {
    forall i | 0 <= i < |ts|
      ensures ReadsBack(PutToken, GetToken, ts[i], ts[i]) && RejectsPrefixes(PutToken, GetToken, ts[i])
    {
      TokenReadsBack(ts[i]);
      forall p | p < PutToken(ts[i]) ensures GetToken(p) == Err(Truncated) { TokenRejects(ts[i], p); }
    }
    BatchRejects(PutToken, GetToken, ts, ts, q);
  }

  /** Every strict prefix of an encoded result batch is rejected. */
  lemma ResultBatchRejectsPrefixes(rs: seq<RoutedResult>, q: seq<Byte>)
    requires |rs| < 0x1_0000_0000 && ResultsFit(rs) && q < EncodeResultBatch(rs)
    ensures DecodeResultBatch(q) == Err(Truncated)
  {
    forall i | 0 <= i < |rs|
      ensures ReadsBack(PutResult, GetResult, rs[i], AllTravelled(rs)[i])
      ensures RejectsPrefixes(PutResult, GetResult, rs[i])
    {
      ResultReadsBack(rs[i]);
      forall p | p < PutResult(rs[i]) ensures GetResult(p) == Err(Truncated) { ResultRejects(rs[i], p); }
    }
    BatchRejects(PutResult, GetResult, rs, AllTravelled(rs), q);
  }
}
