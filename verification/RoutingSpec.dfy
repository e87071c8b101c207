/** What one batch through the router of src/orchestration/router.hpp comes to. */
module RoutingSpec {
  import opened Wrappers
  import opened Bytes
  import opened Wire
  import opened Assignment
  import opened Counting

  // ---------------------------------------------------------------------------------------
  // A batch and its plan
  // ---------------------------------------------------------------------------------------

  /** The batch positions are a permutation of `0..n-1`. */
  ghost predicate PositionsPermute(ts: seq<RoutedToken>) {
    DistinctPositions(ts) && forall i :: 0 <= i < |ts| ==> ts[i].batchPosition < |ts|
  }

  /** The expert each token goes to once the capacity ceiling is applied. */
  function Effective(ts: seq<RoutedToken>, capacity: nat): (eff: seq<U32>)
    ensures |eff| == |ts|
  {
    seq(|ts|, i requires 0 <= i < |ts| =>
      if CountAhead(ts, ts[i].primaryExpert, ts[i].batchPosition) < capacity then ts[i].primaryExpert
      else ts[i].secondaryExpert)
  }

  /** With distinct positions, every way of carrying out the ceiling rule gives `Effective`. */
  lemma EffectiveIsTheAssignment(ts: seq<RoutedToken>, capacity: nat, eff: seq<U32>)
    requires Assigned(ts, capacity, eff) && DistinctPositions(ts)
    ensures eff == Effective(ts, capacity)
  {
    forall i | 0 <= i < |ts| ensures eff[i] == Effective(ts, capacity)[i] {
      var e, p := ts[i].primaryExpert, ts[i].batchPosition;
      AssignedExactly(ts, capacity, eff, i);
      CountAheadIsSize(ts, e, p);
      assert Ahead(ts, Group(ts, e), i) == set k: nat | k < |ts| && CountsAhead(ts[k], e, p);
    }
  }

  /** And `Effective` is such a way. */
  lemma EffectiveIsAssigned(ts: seq<RoutedToken>, capacity: nat)
    requires DistinctPositions(ts)
    ensures Assigned(ts, capacity, Effective(ts, capacity))
  {
    forall i | 0 <= i < |ts| ensures AssignedAt(ts, capacity, Effective(ts, capacity), i) {
      var e, p := ts[i].primaryExpert, ts[i].batchPosition;
      var g := Group(ts, e);
      CountAheadIsSize(ts, e, p);
      assert Ahead(ts, g, i) == set k: nat | k < |ts| && CountsAhead(ts[k], e, p);
      assert NotBehind(ts, g, i) == Ahead(ts, g, i) + {i};
    }
  }

  /** The tokens, the expert each goes to, and the shard that holds it. */
  datatype Batch = Batch(tokens: seq<RoutedToken>, eff: seq<U32>, home: seq<U32>)

  ghost predicate Planned(b: Batch) {
    |b.eff| == |b.tokens| && |b.home| == |b.tokens| && PositionsPermute(b.tokens)
  }

  predicate Mapped(eff: seq<U32>, expertToShard: map<U32, U32>) {
    forall i :: 0 <= i < |eff| ==> eff[i] in expertToShard
  }

  /** A plan the router may make for `ts`; with distinct positions there is only one. */
  ghost predicate PlanFor(b: Batch, ts: seq<RoutedToken>, capacity: nat, expertToShard: map<U32, U32>) {
    && b.tokens == ts && Assigned(ts, capacity, b.eff) && |b.home| == |ts|
    && forall i :: 0 <= i < |ts| ==> b.eff[i] in expertToShard && b.home[i] == expertToShard[b.eff[i]]
  }

  /** The indices `i` with `home[i] == s`, in order. */
  function Indices(home: seq<U32>, s: U32): (r: seq<nat>)
    ensures forall k :: 0 <= k < |r| ==> r[k] < |home| && home[r[k]] == s
  {
    if home == [] then []
    else
      var n := |home| - 1;
      Indices(home[..n], s) + if home[n] == s then [n] else []
  }

  lemma {:induction false} IndicesComplete(home: seq<U32>, s: U32, i: nat) returns (k: nat)
    requires i < |home| && home[i] == s
    ensures k < |Indices(home, s)| && Indices(home, s)[k] == i
  {
    var n := |home| - 1;
    if i == n {
      k := |Indices(home, s)| - 1;
    } else {
      k := IndicesComplete(home[..n], s, i);
    }
  }

  lemma IndicesNext(home: seq<U32>, n: nat, s: U32)
    requires n < |home|
    ensures Indices(home[..n + 1], s) == if home[n] == s then Indices(home[..n], s) + [n] else Indices(home[..n], s)
  {
    assert home[..n + 1][..n] == home[..n];
  }

  lemma {:induction false} IndicesAscend(home: seq<U32>, s: U32)
    ensures forall j, k :: 0 <= j < k < |Indices(home, s)| ==> Indices(home, s)[j] < Indices(home, s)[k]
  {
    if home != [] { IndicesAscend(home[..|home| - 1], s); }
  }

  /** The tokens at the given indices. */
  function Select(ts: seq<RoutedToken>, idxs: seq<nat>): (r: seq<RoutedToken>)
    requires forall k :: 0 <= k < |idxs| ==> idxs[k] < |ts|
    ensures |r| == |idxs| && forall k :: 0 <= k < |idxs| ==> r[k] == ts[idxs[k]]
  {
    seq(|idxs|, k requires 0 <= k < |idxs| => ts[idxs[k]])
  }

  /** The tokens the router sends to shard `s`. */
  ghost function GroupOf(b: Batch, s: U32): seq<RoutedToken>
    requires |b.home| == |b.tokens|
  {
    Select(b.tokens, Indices(b.home, s))
  }

  ghost function Homes(b: Batch): set<U32> { set i | 0 <= i < |b.home| :: b.home[i] }

  // ---------------------------------------------------------------------------------------
  // Talking to a shard
  // ---------------------------------------------------------------------------------------

  /** What sending a request's bytes to a shard and receiving one message back comes to; `None` is
      an exception of the transport. */
  type Peer = (U32, seq<Byte>) -> Option<seq<Byte>>

  /** The same for tokens and results: an unregistered shard and an undecodable reply are
      exceptions too. */
  type Talk = (U32, seq<RoutedToken>) -> Option<seq<RoutedResult>>

  function TalkOver(peer: Peer, registered: set<U32>, s: U32, group: seq<RoutedToken>): Option<seq<RoutedResult>> {
    if s !in registered then None
    else
      match peer(s, EncodeTokenBatch(group))
      case None => None
      case Some(raw) =>
        match DecodeResultBatch(raw)
        case Err(_) => None
        case Ok(rs) => Some(rs)
  }

  /** `talk` is `TalkOver` for these transports. */
  ghost predicate Carries(talk: Talk, peer: Peer, registered: set<U32>) {
    forall s, g {:trigger TalkOver(peer, registered, s, g)} :: talk(s, g) == TalkOver(peer, registered, s, g)
  }

  /** The router-only fields have their defaults. */
  ghost predicate Unannotated(rs: seq<RoutedResult>) {
    forall k :: 0 <= k < |rs| ==> Plain(rs[k])
  }

  predicate Plain(r: RoutedResult) { r.effectiveExpert == 0 && !r.failed }

  lemma {:induction false} ManyPlain(s: seq<Byte>, n: nat)
    ensures GetMany(GetResult, s, n).Ok? ==> Unannotated(GetMany(GetResult, s, n).value.0)
    decreases n
  {
    if n > 0 && GetResult(s).Ok? {
      ManyPlain(GetResult(s).value.1, n - 1);
    }
  }

  /** No reply can set the router-only fields, whatever its bytes. */
  lemma DecodedPlain(raw: seq<Byte>)
    ensures DecodeResultBatch(raw).Ok? ==> Unannotated(DecodeResultBatch(raw).value)
  {
    if GetU32(raw).Ok? {
      ManyPlain(GetU32(raw).value.1, GetU32(raw).value.0);
    }
  }

  // ---------------------------------------------------------------------------------------
  // What the tolerant router promises of each slot
  // ---------------------------------------------------------------------------------------

  /** The first result for position `p`. */
  function FirstAt(rs: seq<RoutedResult>, p: nat): (r: Option<RoutedResult>)
    ensures r.Some? ==> r.value.batchPosition == p && r.value in rs
  {
    if rs == [] then None
    else
      var last := rs[|rs| - 1];
      var r := FirstAt(rs[..|rs| - 1], p);
      if r.None? && last.batchPosition == p then Some(last) else r
  }

  /** It is the first one indeed, and there is one if any result has the position. */
  lemma {:induction false} FirstAtIsFirst(rs: seq<RoutedResult>, p: nat)
    ensures FirstAt(rs, p) == None <==> forall k :: 0 <= k < |rs| ==> rs[k].batchPosition != p
    ensures FirstAt(rs, p).Some? ==>
              exists k :: 0 <= k < |rs| && rs[k] == FirstAt(rs, p).value
                          && forall j :: 0 <= j < k ==> rs[j].batchPosition != p
  {
    if rs != [] {
      var n := |rs| - 1;
      FirstAtIsFirst(rs[..n], p);
      assert forall k :: 0 <= k < n ==> rs[..n][k] == rs[k];
      if FirstAt(rs[..n], p).Some? {
        var k :| 0 <= k < n && rs[..n][k] == FirstAt(rs[..n], p).value
                 && forall j :: 0 <= j < k ==> rs[..n][j].batchPosition != p;
        assert forall j :: 0 <= j < k ==> rs[j].batchPosition == rs[..n][j].batchPosition;
      }
    }
  }

  /** The accounted-for failure of token `t` on expert `e`; which shard it names is unspecified. */
  predicate IsFailure(t: RoutedToken, e: U32, r: RoutedResult) {
    && r.failed && r.tokenId == t.tokenId && r.batchPosition == t.batchPosition
    && r.effectiveExpert == e && r.payload == []
  }

  /** `r` is the first result shard `s` gave for token `i`'s position, annotated with the token's
      expert if the token was sent to `s`. */
  ghost predicate AnsweredBy(b: Batch, s: U32, rs: seq<RoutedResult>, i: nat, r: RoutedResult)
    requires Planned(b) && i < |b.tokens|
  {
    var x := FirstAt(rs, b.tokens[i].batchPosition);
    x.Some? && r == if s == b.home[i] then x.value.(effectiveExpert := b.eff[i]) else x.value
  }

  /** The slot of token `i`: a failure if its shard did not answer; otherwise a result some
      answering shard gave for the position, or a failure if its own shard gave none. */
  ghost predicate Slot(b: Batch, answers: map<U32, seq<RoutedResult>>, i: nat, r: RoutedResult)
    requires Planned(b) && i < |b.tokens|
  {
    var s := b.home[i];
    if s !in answers then IsFailure(b.tokens[i], b.eff[i], r)
    else
      || (IsFailure(b.tokens[i], b.eff[i], r) && FirstAt(answers[s], b.tokens[i].batchPosition) == None)
      || (exists a :: a in answers && AnsweredBy(b, a, answers[a], i, r))
  }

  /** The answers of the shards that were asked and did not fail. */
  ghost function Answers(b: Batch, talk: Talk, unhealthy: set<U32>): map<U32, seq<RoutedResult>>
    requires Planned(b)
  {
    map s | s in Homes(b) && s !in unhealthy && talk(s, GroupOf(b, s)).Some? :: talk(s, GroupOf(b, s)).value
  }

  /** The shards this batch finds broken. */
  ghost function Broken(b: Batch, talk: Talk, unhealthy: set<U32>): set<U32>
    requires Planned(b)
  {
    set s | s in Homes(b) && s !in unhealthy && talk(s, GroupOf(b, s)).None?
  }

  /** A shard of the batch that was not yet unhealthy is found broken exactly if it has no transport,
      its transport throws, or its reply does not decode. */
  lemma BrokenIff(b: Batch, talk: Talk, peer: Peer, registered: set<U32>, unhealthy: set<U32>, s: U32)
    requires Planned(b) && Carries(talk, peer, registered) && s in Homes(b) && s !in unhealthy
    ensures var raw := peer(s, EncodeTokenBatch(GroupOf(b, s)));
            s in Broken(b, talk, unhealthy) <==> s !in registered || raw.None? || DecodeResultBatch(raw.value).Err?
  {
    assert talk(s, GroupOf(b, s)) == TalkOver(peer, registered, s, GroupOf(b, s));
  }

  /** A whole tolerant call: every slot, in any visiting order of the shards. */
  ghost predicate Tolerated(b: Batch, talk: Talk, unhealthy: set<U32>, r: seq<RoutedResult>)
    requires Planned(b)
  {
    && |r| == |b.tokens|
    && forall i :: 0 <= i < |r| ==> Slot(b, Answers(b, talk, unhealthy), i, r[b.tokens[i].batchPosition])
  }

  /** Every position is some token's. */
  lemma PositionTaken(ts: seq<RoutedToken>, p: nat) returns (i: nat)
    requires PositionsPermute(ts) && p < |ts|
    ensures i < |ts| && ts[i].batchPosition == p
  {
    var taken := Taken(ts, |ts|);
    if p !in taken {
      SubsetSize(taken, Below(|ts|) - {p});
      assert false;
    }
    i :| 0 <= i < |ts| && ts[i].batchPosition == p;
  }

  /** The positions of the first `n` tokens. */
  ghost function Taken(ts: seq<RoutedToken>, n: nat): (s: set<nat>)
    requires DistinctPositions(ts) && n <= |ts|
    ensures |s| == n
    ensures forall p :: p in s <==> exists j :: 0 <= j < n && ts[j].batchPosition == p
  {
    if n == 0 then {} else Taken(ts, n - 1) + {ts[n - 1].batchPosition as nat}
  }
}
