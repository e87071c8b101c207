/** The worker side of one shard: src/orchestration/worker_shard.hpp. */
module Worker {
  import opened Wrappers
  import opened Bytes
  import opened Framing
  import opened Transport
  import Wire
  import Codec

  /** Negating a float flips the sign bit of its pattern. */
  function Negate(v: U32): U32 {
    if v < 0x8000_0000 then v + 0x8000_0000 else v - 0x8000_0000
  }

  function NegateAll(ws: seq<U32>): (r: seq<U32>)
    ensures |r| == |ws| && forall i :: 0 <= i < |ws| ==> r[i] == Negate(ws[i])
  {
    if ws == [] then [] else [Negate(ws[0])] + NegateAll(ws[1..])
  }

  /** The placeholder computation is its own inverse, so a payload that comes back identifies the
      one that was sent. */
  lemma {:induction false} NegateAllInvolutive(ws: seq<U32>)
    ensures NegateAll(NegateAll(ws)) == ws
  {
    if ws != [] {
      NegateAllInvolutive(ws[1..]);
      assert NegateAll(ws)[1..] == NegateAll(ws[1..]);
    }
  }

  /** `got` is `sent` with every sign bit flipped: the low 31 bits agree and the top bit does not. */
  predicate Negated(sent: seq<U32>, got: seq<U32>) {
    && |got| == |sent|
    && forall i :: 0 <= i < |sent| ==>
         got[i] % 0x8000_0000 == sent[i] % 0x8000_0000 && got[i] / 0x8000_0000 != sent[i] / 0x8000_0000
  }

  lemma NegateAllNegates(ws: seq<U32>)
    ensures Negated(ws, NegateAll(ws))
  {
    forall i | 0 <= i < |ws|
      ensures Negate(ws[i]) % 0x8000_0000 == ws[i] % 0x8000_0000
      ensures Negate(ws[i]) / 0x8000_0000 != ws[i] / 0x8000_0000
    {
      var v: nat := ws[i];
      var low: nat := if v < 0x8000_0000 then v else v - 0x8000_0000;
      assert v % 0x8000_0000 == low;
    }
  }

  function ProcessToken(t: Wire.RoutedToken, shard: U32): Wire.RoutedResult {
    Wire.RoutedResult(t.tokenId, t.batchPosition, shard, 0, NegateAll(t.payload), false)
  }

  function ProcessBatch(ts: seq<Wire.RoutedToken>, shard: U32): (r: seq<Wire.RoutedResult>)
    ensures |r| == |ts| && forall i :: 0 <= i < |ts| ==> r[i] == ProcessToken(ts[i], shard)
  {
    if ts == [] then [] else [ProcessToken(ts[0], shard)] + ProcessBatch(ts[1..], shard)
  }

  /** The bytes a live worker answers to a request, if it can decode it. */
  function Reply(request: seq<Byte>, shard: U32): Result<seq<Byte>, Wire.WireError> {
    match Wire.DecodeTokenBatch(request)
    case Err(e) => Err(e)
    case Ok(ts) => Ok(Wire.EncodeResultBatch(ProcessBatch(ts, shard)))
  }

  predicate Encodable(ts: seq<Wire.RoutedToken>) {
    |ts| < 0x1_0000_0000 && Wire.PayloadsFit(ts)
  }

  /** A batch of tokens goes out, a batch of results comes back: decoding the reply to an encoded
      batch gives each token's result, in order. */
  lemma ReplyDecodes(ts: seq<Wire.RoutedToken>, shard: U32)
    requires Encodable(ts)
    ensures Reply(Wire.EncodeTokenBatch(ts), shard).Ok?
    ensures Wire.DecodeResultBatch(Reply(Wire.EncodeTokenBatch(ts), shard).value) == Ok(ProcessBatch(ts, shard))
    ensures var rs := ProcessBatch(ts, shard);
            && |rs| == |ts|
            && forall i :: 0 <= i < |ts| ==>
                 && rs[i].tokenId == ts[i].tokenId && rs[i].batchPosition == ts[i].batchPosition
                 && rs[i].processedByShard == shard && Negated(ts[i].payload, rs[i].payload)
  {
    forall i | 0 <= i < |ts| ensures Negated(ts[i].payload, ProcessBatch(ts, shard)[i].payload) {
      NegateAllNegates(ts[i].payload);
    }
    Wire.TokenBatchRoundTrip(ts);
    var rs := ProcessBatch(ts, shard);
    assert Wire.ResultsFit(rs);
    Wire.ResultBatchRoundTrip(rs);
    assert Wire.AllTravelled(rs) == rs;
  }

  // ---------------------------------------------------------------------------------------
  // The loop
  // ---------------------------------------------------------------------------------------

  method ProcessTokenPlaceholder(t: Wire.RoutedToken, shard: U32) returns (r: Wire.RoutedResult)
    ensures r == ProcessToken(t, shard)
    ensures r.tokenId == t.tokenId && r.batchPosition == t.batchPosition && r.processedByShard == shard
    ensures |r.payload| == |t.payload| && forall i :: 0 <= i < |t.payload| ==>
              && r.payload[i] % 0x8000_0000 == t.payload[i] % 0x8000_0000
              && r.payload[i] / 0x8000_0000 != t.payload[i] / 0x8000_0000
  {
    var payload := [];
    var i := 0;
    while i < |t.payload|
      invariant 0 <= i <= |t.payload| && |payload| == i
      invariant forall k :: 0 <= k < i ==> payload[k] == Negate(t.payload[k])
    {
      payload := payload + [Negate(t.payload[i])];
      i := i + 1;
    }
    assert payload == NegateAll(t.payload);
    NegateAllNegates(t.payload);
    r := Wire.RoutedResult(t.tokenId, t.batchPosition, shard, 0, payload, false);
  }

  /** The next reply and the bytes behind the message it answers; or an error, which says whether
      the message could not be decoded. */
  function Answer(rest: seq<Byte>, peerClosed: bool, shard: U32): Result<(seq<Byte>, seq<Byte>), bool> {
    var (first, behind) := ReceiveFrom(rest, peerClosed);
    if !first.Got? then Err(false)
    else
      match Reply(first.data, shard)
      case Err(_) => Err(true)
      case Ok(reply) => if peerClosed then Err(false) else Ok((reply, behind))
  }

  type Answerer = seq<Byte> -> Result<(seq<Byte>, seq<Byte>), bool>

  /** `answer` is the function this shard computes on its stream. */
  ghost predicate Computes(answer: Answerer, peerClosed: bool, shard: U32) {
    forall rest {:trigger Answer(rest, peerClosed, shard)} :: answer(rest) == Answer(rest, peerClosed, shard)
  }

  /** A worker's session: the bytes it has not read yet and the replies it has sent. */
  datatype Session = Session(rest: seq<Byte>, replies: seq<seq<Byte>>)

  /** The session after `n` answered batches. */
  function After(answer: Answerer, incoming: seq<Byte>, n: nat): Session {
    if n == 0 then Session(incoming, [])
    else
      var s := After(answer, incoming, n - 1);
      match answer(s.rest)
      case Err(_) => s
      case Ok((reply, behind)) => Session(behind, s.replies + [reply])
  }

  method ProcessAll(tokens: seq<Wire.RoutedToken>, shard: U32) returns (results: seq<Wire.RoutedResult>)
    ensures results == ProcessBatch(tokens, shard)
  {
    results := [];
    var i := 0;
    while i < |tokens|
      invariant 0 <= i <= |tokens| && |results| == i
      invariant forall k :: 0 <= k < i ==> results[k] == ProcessToken(tokens[k], shard)
    {
      var r := ProcessTokenPlaceholder(tokens[i], shard);
      results := results + [r];
      i := i + 1;
    }
  }

  /** One iteration between the receive and the send. */
  method HandleRequest(raw: seq<Byte>, shard: U32) returns (r: Result<seq<Byte>, Wire.WireError>)
    ensures r == Reply(raw, shard)
  {
    var tokens := Codec.DecodeTokenBatch(raw);
    if tokens.Err? { return Err(tokens.error); }
    var results := ProcessAll(tokens.value, shard);
    var buf := Codec.EncodeResultBatch(results);
    return Ok(buf);
  }

  /** A part of the next reply. */
  ghost predicate PartOfNext(answer: Answerer, rest: seq<Byte>, part: seq<Byte>) {
    part == [] || (answer(rest).Ok? && part <= Frame(answer(rest).value.0))
  }

  /** One turn of the loop: receive, process, send. With an answer, its frame has gone out; without
      one the loop is over, and at most a part of the next reply has gone out, nothing unless a call
      faulted. */
  method Turn(transport: UnixSocketTransport, shard: U32, ghost answer: Answerer)
    returns (r: Result<(), bool>, ghost sent: seq<Byte>)
    requires Computes(answer, transport.peerClosed, shard)
    modifies transport`incoming, transport`outgoing, transport`schedule
    ensures transport.outgoing == old(transport.outgoing) + if r.Ok? then Frame(sent) else sent
    ensures r.Ok? ==>
              && |transport.incoming| < |old(transport.incoming)|
              && answer(old(transport.incoming)) == Ok((sent, transport.incoming))
    ensures r.Err? ==> PartOfNext(answer, old(transport.incoming), sent)
    ensures r == Err(true) ==> sent == [] && answer(old(transport.incoming)) == Err(true)
    ensures FaultFree(old(transport.schedule)) ==>
              && FaultFree(transport.schedule)
              && (r.Err? ==> sent == [] && answer(old(transport.incoming)) == Err(r.error))
  {
    assert answer(transport.incoming) == Answer(transport.incoming, transport.peerClosed, shard);
    ghost var before := transport.outgoing;
    var raw := transport.Receive();
    if !raw.Got? { return Err(false), []; }
    var reply := HandleRequest(raw.data, shard);
    if reply.Err? { return Err(true), []; }
    var thrown := transport.Send(reply.value);
    if thrown {
      sent := transport.outgoing[|before|..];
      PartOfFrame(before, transport.outgoing, Frame(reply.value), sent);
      return Err(false), sent;
    }
    return Ok(()), reply.value;
  }

  lemma PartOfFrame(before: seq<Byte>, out: seq<Byte>, frame: seq<Byte>, part: seq<Byte>)
    requires before <= out <= before + frame && part == out[|before|..]
    ensures part <= frame && out == before + part
  {
    assert part == (before + frame)[..|out|][|before|..] == frame[..|part|];
  }

  /** Receives, processes and answers until the stream gives no further message or fails. `crashed`
      is the exception of a request that does not decode, which the source does not catch. Whatever
      the schedule, what went out are the replies of the messages answered so far and at most a part
      of the next one; without faults the part is empty and the loop stops only where there is no
      further answer. */
  method RunWorkerLoop(transport: UnixSocketTransport, shard: U32, ghost answer: Answerer)
    returns (processed: nat, crashed: bool, ghost part: seq<Byte>)
    requires Computes(answer, transport.peerClosed, shard)
    modifies transport`incoming, transport`outgoing, transport`schedule
    ensures var s := After(answer, old(transport.incoming), processed);
            && transport.outgoing == old(transport.outgoing) + Frames(s.replies) + part
            && PartOfNext(answer, s.rest, part)
            && (crashed ==> part == [] && answer(s.rest) == Err(true))
            && (FaultFree(old(transport.schedule)) ==> part == [] && answer(s.rest) == Err(crashed))
  {
    processed := 0;
    ghost var ok, s := FaultFree(transport.schedule), Session(transport.incoming, []);
    while true
      invariant s == After(answer, old(transport.incoming), processed) && transport.incoming == s.rest
      invariant ok ==> FaultFree(transport.schedule)
      invariant transport.outgoing == old(transport.outgoing) + Frames(s.replies)
      decreases |transport.incoming|
    {
      var r, sent := Turn(transport, shard, answer);
      if r.Err? { return processed, r.error, sent; }
      FramesMore(old(transport.outgoing), s.replies, sent);
      processed := processed + 1;
      s := Session(transport.incoming, s.replies + [sent]);
    }
  }

  lemma FramesMore(before: seq<Byte>, msgs: seq<seq<Byte>>, m: seq<Byte>)
    ensures before + Frames(msgs) + Frame(m) == before + Frames(msgs + [m])
  {
    FramesAppend(msgs, m);
  }

  lemma {:induction false} FramesAppend(msgs: seq<seq<Byte>>, m: seq<Byte>)
    ensures Frames(msgs + [m]) == Frames(msgs) + Frame(m)
  {
    if msgs == [] {
      assert msgs + [m] == [m] && [m][1..] == [];
    } else {
      FramesAppend(msgs[1..], m);
      assert (msgs + [m])[1..] == msgs[1..] + [m];
    }
  }

  // ---------------------------------------------------------------------------------------
  // A live router's batches are all answered
  // ---------------------------------------------------------------------------------------

  function Requests(batches: seq<seq<Wire.RoutedToken>>): (r: seq<seq<Byte>>)
    ensures |r| == |batches|
  {
    if batches == [] then [] else [Wire.EncodeTokenBatch(batches[0])] + Requests(batches[1..])
  }

  function Replies(batches: seq<seq<Wire.RoutedToken>>, shard: U32): (r: seq<seq<Byte>>)
    ensures |r| == |batches|
  {
    if batches == [] then []
    else [Wire.EncodeResultBatch(ProcessBatch(batches[0], shard))] + Replies(batches[1..], shard)
  }

  predicate Travels(ts: seq<Wire.RoutedToken>) {
    Encodable(ts) && Sendable(Wire.EncodeTokenBatch(ts))
  }

  /** After `n` answered batches of a live router: the first `n` replies are out, the other
      requests are still to be read. */
  lemma {:induction false} AnsweredSoFar(answer: Answerer, batches: seq<seq<Wire.RoutedToken>>, shard: U32, n: nat)
    requires Computes(answer, false, shard)
    requires n <= |batches| && forall i :: 0 <= i < |batches| ==> Travels(batches[i])
    ensures After(answer, Frames(Requests(batches)), n)
         == Session(Frames(Requests(batches[n..])), Replies(batches[..n], shard))
  {
    if n > 0 {
      AnsweredSoFar(answer, batches, shard, n - 1);
      var done, rest := batches[..n - 1], batches[n - 1..];
      assert rest[0] == batches[n - 1];
      AnswerOne(answer, rest, shard);
      RepliesAppend(done, rest[0], shard);
      assert rest[1..] == batches[n..] && batches[..n] == done + [rest[0]];
    } else {
      assert batches[0..] == batches;
    }
  }

  lemma AnswerOne(answer: Answerer, batches: seq<seq<Wire.RoutedToken>>, shard: U32)
    requires Computes(answer, false, shard) && batches != [] && Travels(batches[0])
    ensures answer(Frames(Requests(batches)))
         == Ok((Wire.EncodeResultBatch(ProcessBatch(batches[0], shard)), Frames(Requests(batches[1..]))))
  {
    var request := Wire.EncodeTokenBatch(batches[0]);
    assert Requests(batches)[1..] == Requests(batches[1..]);
    ReceiveOne(request, Frames(Requests(batches[1..])), false);
    Wire.TokenBatchRoundTrip(batches[0]);
    var s := Frames(Requests(batches));
    assert answer(s) == Answer(s, false, shard);
  }

  lemma {:induction false} RepliesAppend(batches: seq<seq<Wire.RoutedToken>>, b: seq<Wire.RoutedToken>, shard: U32)
    ensures Replies(batches + [b], shard) == Replies(batches, shard) + [Wire.EncodeResultBatch(ProcessBatch(b, shard))]
  {
    if batches == [] {
      assert batches + [b] == [b] && [b][1..] == [];
    } else {
      RepliesAppend(batches[1..], b, shard);
      assert (batches + [b])[1..] == batches[1..] + [b];
    }
  }

  /** Every whole batch a live router framed is answered, in order, by the results of exactly its
      tokens; the loop does not stop before, and nothing else is sent. */
  lemma EveryBatchAnswered(
    answer: Answerer, batches: seq<seq<Wire.RoutedToken>>, shard: U32, processed: nat, crashed: bool)
    requires Computes(answer, false, shard) && forall i :: 0 <= i < |batches| ==> Travels(batches[i])
    requires answer(After(answer, Frames(Requests(batches)), processed).rest) == Err(crashed)
    ensures !crashed && After(answer, Frames(Requests(batches)), processed).replies == Replies(batches, shard)
  {
    var incoming := Frames(Requests(batches));
    var k := if processed <= |batches| then processed else |batches|;
    AnsweredSoFar(answer, batches, shard, k);
    if k < |batches| {
      AnswerOne(answer, batches[k..], shard);
      assert false;
    }
    assert batches[k..] == [] && batches[..k] == batches;
    NothingToAnswer(answer, shard);
    StaysPut(answer, incoming, k, processed);
  }

  lemma NothingToAnswer(answer: Answerer, shard: U32)
    requires Computes(answer, false, shard)
    ensures answer([]) == Err(false)
  {
    assert answer([]) == Answer([], false, shard);
  }

  lemma {:induction false} StaysPut(answer: Answerer, incoming: seq<Byte>, k: nat, n: nat)
    requires k <= n && answer(After(answer, incoming, k).rest).Err?
    ensures After(answer, incoming, n) == After(answer, incoming, k)
    decreases n
  {
    if k < n {
      StaysPut(answer, incoming, k, n - 1);
    }
  }
}
