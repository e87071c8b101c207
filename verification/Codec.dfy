/** The encoders that append to a growing buffer and the reader that advances a pointer, of
    src/orchestration/serialization.hpp. Each computes the function of `Wire` of the same name. */
module Codec {
  import opened Wrappers
  import opened Bytes
  import Wire

  method EncodeTokenBatch(tokens: seq<Wire.RoutedToken>) returns (buf: seq<Byte>)
    ensures buf == Wire.EncodeTokenBatch(tokens)
  {
    buf := Wire.PutU32(Wire.Truncate(|tokens|));
    var i := 0;
    while i < |tokens|
      invariant i <= |tokens|
      invariant buf + Wire.PutAll(Wire.PutToken, tokens[i..]) == Wire.EncodeTokenBatch(tokens)
    {
      assert tokens[i..][1..] == tokens[i + 1..];
      buf := buf + Wire.PutToken(tokens[i]);
      i := i + 1;
    }
  }

  method EncodeResultBatch(results: seq<Wire.RoutedResult>) returns (buf: seq<Byte>)
    ensures buf == Wire.EncodeResultBatch(results)
  {
    buf := Wire.PutU32(Wire.Truncate(|results|));
    var i := 0;
    while i < |results|
      invariant i <= |results|
      invariant buf + Wire.PutAll(Wire.PutResult, results[i..]) == Wire.EncodeResultBatch(results)
    {
      assert results[i..][1..] == results[i + 1..];
      buf := buf + Wire.PutResult(results[i]);
      i := i + 1;
    }
  }

  /** What a reader method promises: the value `Wire` parses at the pointer, and the pointer just
      behind it; or the error. */
  ghost predicate Reads<T>(before: seq<Byte>, parsed: Wire.Parsed<T>, r: Result<T, Wire.WireError>, after: seq<Byte>) {
    match parsed
    case Err(e) => r == Err(e)
    case Ok((v, rest)) => r == Ok(v) && after == rest
  }

  /** The pair of pointers of the source's reader is the range of bytes still to be read. */
  class Reader {
    var rest: seq<Byte>

    constructor (message: seq<Byte>)
      ensures rest == message
    {
      rest := message;
    }

    method GetU32() returns (r: Result<U32, Wire.WireError>)
      modifies this
      ensures Reads(old(rest), Wire.GetU32(old(rest)), r, rest)
    {
      if |rest| < 4 { return Err(Wire.Truncated); }
      Pow256Values();
      r := Ok(GetLE(rest[..4]));
      rest := rest[4..];
    }

    method GetU64() returns (r: Result<U64, Wire.WireError>)
      modifies this
      ensures Reads(old(rest), Wire.GetU64(old(rest)), r, rest)
    {
      if |rest| < 8 { return Err(Wire.Truncated); }
      Pow256Values();
      r := Ok(GetLE(rest[..8]));
      rest := rest[8..];
    }

    method GetFloats() returns (r: Result<seq<U32>, Wire.WireError>)
      modifies this
      ensures Reads(old(rest), Wire.GetFloats(old(rest)), r, rest)
    {
      var count := GetU32();
      if count.Err? { return Err(count.error); }
      var n := count.value;
      var size: nat := 4 * (n as int);
      if |rest| < size { return Err(Wire.Truncated); }
      r := Ok(Wire.GetWords(rest[..size], n));
      rest := rest[size..];
    }

    method GetToken() returns (r: Result<Wire.RoutedToken, Wire.WireError>)
      modifies this
      ensures Reads(old(rest), Wire.GetToken(old(rest)), r, rest)
    {
      var id := GetU64();
      if id.Err? { return Err(id.error); }
      var pos := GetU32();
      if pos.Err? { return Err(pos.error); }
      var primary := GetU32();
      if primary.Err? { return Err(primary.error); }
      var secondary := GetU32();
      if secondary.Err? { return Err(secondary.error); }
      var payload := GetFloats();
      if payload.Err? { return Err(payload.error); }
      r := Ok(Wire.RoutedToken(id.value, pos.value, primary.value, secondary.value, payload.value));
    }

    method GetResult() returns (r: Result<Wire.RoutedResult, Wire.WireError>)
      modifies this
      ensures Reads(old(rest), Wire.GetResult(old(rest)), r, rest)
    {
      var id := GetU64();
      if id.Err? { return Err(id.error); }
      var pos := GetU32();
      if pos.Err? { return Err(pos.error); }
      var shard := GetU32();
      if shard.Err? { return Err(shard.error); }
      var payload := GetFloats();
      if payload.Err? { return Err(payload.error); }
      r := Ok(Wire.RoutedResult(id.value, pos.value, shard.value, 0, payload.value, false));
    }
  }

  method DecodeTokenBatch(bytes: seq<Byte>) returns (r: Result<seq<Wire.RoutedToken>, Wire.WireError>)
    ensures r == Wire.DecodeTokenBatch(bytes)
  {
    var reader := new Reader(bytes);
    var count := reader.GetU32();
    if count.Err? { return Err(count.error); }
    var out := [];
    ghost var body := reader.rest;
    PrependNothing(Wire.GetMany(Wire.GetToken, body, count.value));
    var i: nat := 0;
    while i < count.value
      invariant i <= count.value
      invariant Wire.Elements(Wire.GetMany(Wire.GetToken, body, count.value))
             == Prepend(out, Wire.GetMany(Wire.GetToken, reader.rest, count.value - i))
    {
      PrependOne(out, Wire.GetToken, reader.rest, count.value - i);
      var t := reader.GetToken();
      if t.Err? { return Err(t.error); }
      out := out + [t.value];
      i := i + 1;
    }
    assert out + [] == out;
    return Ok(out);
  }

  method DecodeResultBatch(bytes: seq<Byte>) returns (r: Result<seq<Wire.RoutedResult>, Wire.WireError>)
    ensures r == Wire.DecodeResultBatch(bytes)
  {
    var reader := new Reader(bytes);
    var count := reader.GetU32();
    if count.Err? { return Err(count.error); }
    var out := [];
    ghost var body := reader.rest;
    PrependNothing(Wire.GetMany(Wire.GetResult, body, count.value));
    var i: nat := 0;
    while i < count.value
      invariant i <= count.value
      invariant Wire.Elements(Wire.GetMany(Wire.GetResult, body, count.value))
             == Prepend(out, Wire.GetMany(Wire.GetResult, reader.rest, count.value - i))
    {
      PrependOne(out, Wire.GetResult, reader.rest, count.value - i);
      var t := reader.GetResult();
      if t.Err? { return Err(t.error); }
      out := out + [t.value];
      i := i + 1;
    }
    assert out + [] == out;
    return Ok(out);
  }

  /** The elements read so far followed by those still to be parsed. */
  ghost function Prepend<T>(done: seq<T>, r: Wire.Parsed<seq<T>>): Result<seq<T>, Wire.WireError> {
    match r case Err(e) => Err(e) case Ok((xs, _)) => Ok(done + xs)
  }

  lemma PrependNothing<T>(r: Wire.Parsed<seq<T>>)
    ensures Prepend([], r) == Wire.Elements(r)
  {
    if r.Ok? { assert [] + r.value.0 == r.value.0; }
  }

  lemma PrependOne<T>(done: seq<T>, get: seq<Byte> -> Wire.Parsed<T>, s: seq<Byte>, n: nat)
    requires n > 0
    ensures match get(s)
            case Err(e) => Prepend(done, Wire.GetMany(get, s, n)) == Err(e)
            case Ok((x, rest)) =>
              Prepend(done, Wire.GetMany(get, s, n)) == Prepend(done + [x], Wire.GetMany(get, rest, n - 1))
  {
    if get(s).Ok? {
      var (x, rest) := get(s).value;
      var r := Wire.GetMany(get, rest, n - 1);
      if r.Ok? { assert done + ([x] + r.value.0) == (done + [x]) + r.value.0; }
    }
  }
}
