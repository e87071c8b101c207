/** The router object of src/orchestration/router.hpp. */
module Routing {
  import opened Wrappers
  import opened Bytes
  import opened Wire
  import opened Assignment
  import opened Counting
  import opened RoutingSpec
  import Codec

  datatype RouteError = NoShardMapping | NoTransport | ShardFailed | OutOfRange | Duplicate | Missing

  // ---------------------------------------------------------------------------------------
  // The tolerant router's table while shards are being visited
  // ---------------------------------------------------------------------------------------

  /** Token `i`'s slot when the shards in `done` have been visited: final once its own shard was;
      before that either empty or taken by an answer of another shard. */
  ghost predicate SlotSoFar(
    b: Batch, answers: map<U32, seq<RoutedResult>>, done: set<U32>, i: nat, r: RoutedResult, filled: bool)
    requires Planned(b) && i < |b.tokens|
  {
    if b.home[i] in done then filled && Slot(b, answers, i, r)
    else filled ==> exists a :: a in answers && AnsweredBy(b, a, answers[a], i, r)
  }

  ghost predicate Table(
    b: Batch, answers: map<U32, seq<RoutedResult>>, done: set<U32>, ordered: seq<RoutedResult>, filled: seq<bool>)
    requires Planned(b)
  {
    && |ordered| == |b.tokens| && |filled| == |b.tokens| && answers.Keys <= done
    && forall i :: 0 <= i < |b.tokens| ==>
         SlotSoFar(b, answers, done, i, ordered[b.tokens[i].batchPosition], filled[b.tokens[i].batchPosition])
  }

  /** What failing the group of shard `s` does to a slot; with `keep`, only if it is empty. */
  ghost predicate FailsSlot(b: Batch, s: U32, i: nat, keep: bool, r: RoutedResult, f: bool, r': RoutedResult, f': bool)
    requires Planned(b) && i < |b.tokens|
  {
    if b.home[i] == s && !(keep && f) then f' && IsFailure(b.tokens[i], b.eff[i], r')
    else r' == r && f' == f
  }

  /** What placing the results `rs` of shard `s` does to a slot. */
  ghost predicate PlacesSlot(
    b: Batch, s: U32, rs: seq<RoutedResult>, i: nat, r: RoutedResult, f: bool, r': RoutedResult, f': bool)
    requires Planned(b) && i < |b.tokens|
  {
    if !f && FirstAt(rs, b.tokens[i].batchPosition).Some? then f' && AnsweredBy(b, s, rs, i, r')
    else r' == r && f' == f
  }

  /** Visiting a shard that fails. */
  lemma SlotAfterFailure(
    b: Batch, answers: map<U32, seq<RoutedResult>>, done: set<U32>, s: U32, i: nat,
    r: RoutedResult, f: bool, r': RoutedResult, f': bool)
    requires Planned(b) && i < |b.tokens| && answers.Keys <= done && s !in done
    requires SlotSoFar(b, answers, done, i, r, f) && FailsSlot(b, s, i, false, r, f, r', f')
    ensures SlotSoFar(b, answers, done + {s}, i, r', f')
  {}

  /** Visiting a shard that answers with `rs`. */
  lemma SlotAfterAnswer(
    b: Batch, answers: map<U32, seq<RoutedResult>>, done: set<U32>, s: U32, rs: seq<RoutedResult>, i: nat,
    r: RoutedResult, f: bool, r1: RoutedResult, f1: bool, r2: RoutedResult, f2: bool)
    requires Planned(b) && i < |b.tokens| && answers.Keys <= done && s !in done
    requires SlotSoFar(b, answers, done, i, r, f)
    requires PlacesSlot(b, s, rs, i, r, f, r1, f1) && FailsSlot(b, s, i, true, r1, f1, r2, f2)
    ensures SlotSoFar(b, answers[s := rs], done + {s}, i, r2, f2)
  {
    var answers' := answers[s := rs];
    if && f && (b.home[i] !in done || b.home[i] in answers)
       && exists a :: a in answers && AnsweredBy(b, a, answers[a], i, r)
    {
      var a :| a in answers && AnsweredBy(b, a, answers[a], i, r);
      assert a in answers' && AnsweredBy(b, a, answers'[a], i, r2);
    } else if !f && FirstAt(rs, b.tokens[i].batchPosition).Some? {
      assert s in answers' && AnsweredBy(b, s, answers'[s], i, r2);
    }
  }

  /** The expert of each position in shard `s`'s group. */
  ghost predicate ExpertsByPosition(b: Batch, s: U32, m: map<U32, U32>)
    requires Planned(b)
  {
    forall i :: 0 <= i < |b.tokens| ==>
      var p := b.tokens[i].batchPosition;
      (p in m <==> b.home[i] == s) && (p in m ==> m[p] == b.eff[i])
  }

  /** The group of shard `s`; a shard without tokens has none. */
  ghost predicate Grouped(groups: map<U32, seq<nat>>, home: seq<U32>, s: U32) {
    if s in groups then groups[s] == Indices(home, s) && groups[s] != [] else Indices(home, s) == []
  }

  lemma GroupedKeys(groups: map<U32, seq<nat>>, home: seq<U32>)
    requires forall s :: Grouped(groups, home, s)
    ensures groups.Keys == set i | 0 <= i < |home| :: home[i]
    ensures forall s :: s in groups ==> groups[s] == Indices(home, s)
  {
    forall s ensures s in groups <==> exists i :: 0 <= i < |home| && home[i] == s {
      assert Grouped(groups, home, s);
      if s in groups {
        assert home[Indices(home, s)[0]] == s;
      } else if i :| 0 <= i < |home| && home[i] == s {
        var k := IndicesComplete(home, s, i);
        assert false;
      }
    }
    forall s | s in groups ensures groups[s] == Indices(home, s) { assert Grouped(groups, home, s); }
  }

  // ---------------------------------------------------------------------------------------
  // Strict reassembly
  // ---------------------------------------------------------------------------------------

  ghost predicate PositionsBelow(flat: seq<RoutedResult>, n: nat) {
    forall k :: 0 <= k < |flat| ==> flat[k].batchPosition < n
  }

  ghost predicate DistinctResults(flat: seq<RoutedResult>) {
    forall j, k :: 0 <= j < |flat| && 0 <= k < |flat| && flat[j].batchPosition == flat[k].batchPosition ==> j == k
  }

  ghost predicate Mentioned(flat: seq<RoutedResult>, p: nat) {
    exists k :: 0 <= k < |flat| && flat[k].batchPosition == p
  }

  /** The results' positions are a bijection with `0..n-1`. */
  ghost predicate Bijective(flat: seq<RoutedResult>, n: nat) {
    PositionsBelow(flat, n) && DistinctResults(flat) && forall p: nat :: p < n ==> Mentioned(flat, p)
  }

  method Reassemble(n: nat, flat: seq<RoutedResult>) returns (r: Result<seq<RoutedResult>, RouteError>)
    ensures r.Ok? <==> Bijective(flat, n)
    ensures r.Ok? ==> |r.value| == n && forall k :: 0 <= k < |flat| ==> r.value[flat[k].batchPosition] == flat[k]
    ensures r == Err(OutOfRange) ==> !PositionsBelow(flat, n)
    ensures r == Err(Duplicate) ==> !DistinctResults(flat)
    ensures r == Err(Missing) ==> PositionsBelow(flat, n) && DistinctResults(flat)
    ensures r.Err? ==> r.error in {OutOfRange, Duplicate, Missing}
  {
    var ordered := new RoutedResult[n](_ => RoutedResult(0, 0, 0, 0, [], false));
    var filled := new bool[n](_ => false);
    var k := 0;
    while k < |flat|
      invariant 0 <= k <= |flat| && PositionsBelow(flat[..k], n) && DistinctResults(flat[..k])
      invariant forall j :: 0 <= j < k ==>
                  var p := flat[j].batchPosition; p < n && filled[p] && ordered[p] == flat[j]
      invariant forall p :: 0 <= p < n && filled[p] ==> Mentioned(flat[..k], p)
    {
      var x := flat[k];
      if x.batchPosition >= n { return Err(OutOfRange); }
      MentionedNext(flat, k);
      if filled[x.batchPosition] {
        assert Mentioned(flat[..k], x.batchPosition);
        return Err(Duplicate);
      }
      ordered[x.batchPosition] := x;
      filled[x.batchPosition] := true;
      k := k + 1;
    }
    assert flat[..k] == flat;
    var i := 0;
    while i < n
      invariant 0 <= i <= n && forall p :: 0 <= p < i ==> filled[p]
    {
      if !filled[i] {
        assert !Mentioned(flat, i);
        return Err(Missing);
      }
      i := i + 1;
    }
    return Ok(ordered[..]);
  }

  /** One more result mentions one more position; a second mention is a duplicate. */
  lemma MentionedNext(flat: seq<RoutedResult>, k: nat)
    requires k < |flat|
    ensures forall p: nat :: Mentioned(flat[..k + 1], p) <==> Mentioned(flat[..k], p) || p == flat[k].batchPosition
    ensures Mentioned(flat[..k], flat[k].batchPosition) ==> !DistinctResults(flat)
    ensures !Mentioned(flat[..k], flat[k].batchPosition) && DistinctResults(flat[..k]) ==>
              DistinctResults(flat[..k + 1])
  {
    var more := flat[..k + 1];
    assert more == flat[..k] + [flat[k]];
    forall p: nat | p == flat[k].batchPosition ensures Mentioned(more, p) { assert more[k].batchPosition == p; }
    forall p: nat | Mentioned(flat[..k], p) ensures Mentioned(more, p) {
      var j :| 0 <= j < k && flat[..k][j].batchPosition == p;
      assert more[j].batchPosition == p;
    }
  }

  /** The answers of the shards in visiting order, one after the other. */
  ghost function Flat(b: Batch, talk: Talk, order: seq<U32>): seq<RoutedResult>
    requires |b.home| == |b.tokens|
  {
    if order == [] then []
    else
      var n := |order| - 1;
      var last := talk(order[n], GroupOf(b, order[n]));
      Flat(b, talk, order[..n]) + if last.Some? then last.value else []
  }

  /** Every result on its position, with the expert found at the position as an index. */
  ghost predicate Annotated(flat: seq<RoutedResult>, eff: seq<U32>, r: seq<RoutedResult>) {
    forall k :: 0 <= k < |flat| ==>
      var p := flat[k].batchPosition;
      p < |r| && p < |eff| && r[p] == flat[k].(effectiveExpert := eff[p])
  }

  lemma UnregisteredFails(b: Batch, talk: Talk, peer: Peer, registered: set<U32>)
    requires |b.home| == |b.tokens| && Carries(talk, peer, registered) && !(Homes(b) <= registered)
    ensures !AllAnswer(b, talk)
  {
    var s :| s in Homes(b) && s !in registered;
    assert talk(s, GroupOf(b, s)) == TalkOver(peer, registered, s, GroupOf(b, s));
  }

  /** `order` lists the shards of the batch, each once. */
  ghost predicate Visits(order: seq<U32>, b: Batch) {
    NoRepeats(order) && forall s :: s in order <==> s in Homes(b)
  }

  ghost predicate AllAnswer(b: Batch, talk: Talk)
    requires |b.home| == |b.tokens|
  {
    forall s :: s in Homes(b) ==> talk(s, GroupOf(b, s)).Some?
  }

  // ---------------------------------------------------------------------------------------
  // The object
  // ---------------------------------------------------------------------------------------

  class Router {
    const expertToShard: map<U32, U32>
    /** The shards with a transport. */
    const registered: set<U32>
    const capacity: nat
    var unhealthy: set<U32>

    constructor (expertToShard: map<U32, U32>, registered: set<U32>, capacity: nat)
      ensures this.expertToShard == expertToShard && this.registered == registered && this.capacity == capacity
      ensures unhealthy == {}
    {
      this.expertToShard, this.registered, this.capacity := expertToShard, registered, capacity;
      unhealthy := {};
    }

    /** The ceiling rule, then the shard of each token's expert. */
    method MakePlan(tokens: seq<RoutedToken>) returns (r: Result<Batch, RouteError>, ghost eff: seq<U32>)
      ensures Assigned(tokens, capacity, eff)
      ensures r.Ok? ==> PlanFor(r.value, tokens, capacity, expertToShard) && r.value.eff == eff
      ensures r.Err? ==> r.error == NoShardMapping && !Mapped(eff, expertToShard)
    {
      var a := new U32[|tokens|](_ => 0);
      AssignEffectiveExperts(tokens, capacity, a);
      eff := a[..];
      var home := [];
      var i := 0;
      while i < |tokens|
        invariant 0 <= i <= |tokens| && |home| == i && a[..] == eff
        invariant forall j :: 0 <= j < i ==> a[j] in expertToShard && home[j] == expertToShard[a[j]]
      {
        if a[i] !in expertToShard {
          assert eff[i] !in expertToShard;
          return Err(NoShardMapping), eff;
        }
        home := home + [expertToShard[a[i]]];
        i := i + 1;
      }
      return Ok(Batch(tokens, a[..], home)), eff;
    }

    /** The token indices of each shard. */
    method GroupByShard(home: seq<U32>) returns (groups: map<U32, seq<nat>>)
      ensures groups.Keys == set i | 0 <= i < |home| :: home[i]
      ensures forall s :: s in groups ==> groups[s] == Indices(home, s)
    {
      groups := map[];
      var n := 0;
      while n < |home|
        invariant 0 <= n <= |home|
        invariant forall s :: Grouped(groups, home[..n], s)
      {
        ghost var before := groups;
        var s := home[n];
        groups := groups[s := (if s in groups then groups[s] else []) + [n]];
        ghost var seen := home[..n + 1];
        forall t ensures Grouped(groups, seen, t) {
          assert Grouped(before, home[..n], t);
          IndicesNext(home, n, t);
        }
        n := n + 1;
      }
      assert home[..n] == home;
      GroupedKeys(groups, home);
    }

    /** One exchange with a shard, over its transport. */
    method Converse(
      s: U32, group: seq<RoutedToken>, peer: Peer, ghost talk: Talk)
      returns (r: Option<seq<RoutedResult>>)
      requires Carries(talk, peer, registered)
      ensures r == talk(s, group)
    {
      assert talk(s, group) == TalkOver(peer, registered, s, group);
      if s !in registered { return None; }
      var request := Codec.EncodeTokenBatch(group);
      var raw := peer(s, request);
      if raw.None? { return None; }
      var results := Codec.DecodeResultBatch(raw.value);
      return if results.Ok? then Some(results.value) else None;
    }

    /** Gives every token of the group an explicit failure; with `keep`, only where the slot is
        still empty. */
    method FailGroup(b: Batch, s: U32, idxs: seq<nat>, keep: bool, ordered: array<RoutedResult>, filled: array<bool>)
      requires Planned(b) && ordered.Length == |b.tokens| == filled.Length && idxs == Indices(b.home, s)
      modifies ordered, filled
      ensures forall i :: 0 <= i < |b.tokens| ==>
                var p := b.tokens[i].batchPosition;
                FailsSlot(b, s, i, keep, old(ordered[p]), old(filled[p]), ordered[p], filled[p])
    {
      IndicesAscend(b.home, s);
      var k := 0;
      while k < |idxs|
        invariant 0 <= k <= |idxs|
        invariant forall j :: 0 <= j < k ==>
                    var p := b.tokens[idxs[j]].batchPosition;
                    FailsSlot(b, s, idxs[j], keep, old(ordered[p]), old(filled[p]), ordered[p], filled[p])
        invariant forall i :: 0 <= i < |b.tokens| && i !in idxs[..k] ==>
                    var p := b.tokens[i].batchPosition;
                    ordered[p] == old(ordered[p]) && filled[p] == old(filled[p])
      {
        var i := idxs[k];
        assert i !in idxs[..k];
        assert idxs[..k + 1] == idxs[..k] + [i];
        var t := b.tokens[i];
        if !(keep && filled[t.batchPosition]) {
          var unset: U32 := *;
          ordered[t.batchPosition] := RoutedResult(t.tokenId, t.batchPosition, unset, b.eff[i], [], true);
          filled[t.batchPosition] := true;
        }
        k := k + 1;
      }
      forall i | 0 <= i < |b.tokens|
        ensures var p := b.tokens[i].batchPosition;
                FailsSlot(b, s, i, keep, old(ordered[p]), old(filled[p]), ordered[p], filled[p])
      {
        if b.home[i] == s {
          var j := IndicesComplete(b.home, s, i);
        } else {
          assert i !in idxs[..k];
        }
      }
    }

    method ExpertsOf(b: Batch, s: U32, idxs: seq<nat>) returns (m: map<U32, U32>)
      requires Planned(b) && idxs == Indices(b.home, s)
      ensures ExpertsByPosition(b, s, m)
    {
      m := map[];
      var k := 0;
      while k < |idxs|
        invariant 0 <= k <= |idxs|
        invariant forall j :: 0 <= j < k ==> b.tokens[idxs[j]].batchPosition in m
        invariant forall i :: 0 <= i < |b.tokens| && b.tokens[i].batchPosition in m ==>
                    b.home[i] == s && m[b.tokens[i].batchPosition] == b.eff[i]
      {
        m := m[b.tokens[idxs[k]].batchPosition := b.eff[idxs[k]]];
        k := k + 1;
      }
      forall i | 0 <= i < |b.tokens| && b.home[i] == s ensures b.tokens[i].batchPosition in m {
        var j := IndicesComplete(b.home, s, i);
      }
    }

    /** Puts each result on its position, if that is a position of the batch and still empty. */
    method PlaceResults(
      b: Batch, s: U32, m: map<U32, U32>, rs: seq<RoutedResult>, ordered: array<RoutedResult>, filled: array<bool>)
      requires Planned(b) && ordered.Length == |b.tokens| == filled.Length && ExpertsByPosition(b, s, m)
      modifies ordered, filled
      ensures forall i :: 0 <= i < |b.tokens| ==>
                var p := b.tokens[i].batchPosition;
                PlacesSlot(b, s, rs, i, old(ordered[p]), old(filled[p]), ordered[p], filled[p])
    {
      var k := 0;
      while k < |rs|
        invariant 0 <= k <= |rs|
        invariant forall i :: 0 <= i < |b.tokens| ==>
                    var p := b.tokens[i].batchPosition;
                    PlacesSlot(b, s, rs[..k], i, old(ordered[p]), old(filled[p]), ordered[p], filled[p])
      {
        var x := rs[k];
        assert rs[..k + 1][..k] == rs[..k];
        if x.batchPosition < filled.Length && !filled[x.batchPosition] {
          if x.batchPosition in m { x := x.(effectiveExpert := m[x.batchPosition]); }
          ordered[x.batchPosition] := x;
          filled[x.batchPosition] := true;
        }
        k := k + 1;
      }
      assert rs[..k] == rs;
    }

    /** Asks one healthy shard for its group, or fails the group. */
    method VisitShard(
      b: Batch, s: U32, idxs: seq<nat>, peer: Peer, ghost talk: Talk, ordered: array<RoutedResult>, filled: array<bool>,
      ghost answers: map<U32, seq<RoutedResult>>, ghost done: set<U32>)
      returns (ghost answers': map<U32, seq<RoutedResult>>)
      requires Planned(b) && Carries(talk, peer, registered) && idxs == Indices(b.home, s) && s !in done
      requires ordered.Length == |b.tokens| == filled.Length && Table(b, answers, done, ordered[..], filled[..])
      modifies ordered, filled, this`unhealthy
      ensures Table(b, answers', done + {s}, ordered[..], filled[..])
      ensures s in old(unhealthy) ==> answers' == answers && unhealthy == old(unhealthy)
      ensures var reply := talk(s, GroupOf(b, s));
              s !in old(unhealthy) ==>
                && answers' == (if reply.Some? then answers[s := reply.value] else answers)
                && unhealthy == if reply.Some? then old(unhealthy) else old(unhealthy) + {s}
    {
      if s in unhealthy {
        answers' := answers;
        FailWhole(b, s, idxs, ordered, filled, answers, done);
        return;
      }
      var results := Converse(s, Select(b.tokens, idxs), peer, talk);
      if results.None? {
        unhealthy := unhealthy + {s};
        answers' := answers;
        FailWhole(b, s, idxs, ordered, filled, answers, done);
        return;
      }
      answers' := answers[s := results.value];
      FillIn(b, s, idxs, results.value, ordered, filled, answers, done);
    }

    method FailWhole(
      b: Batch, s: U32, idxs: seq<nat>, ordered: array<RoutedResult>, filled: array<bool>,
      ghost answers: map<U32, seq<RoutedResult>>, ghost done: set<U32>)
      requires Planned(b) && idxs == Indices(b.home, s) && s !in done
      requires ordered.Length == |b.tokens| == filled.Length && Table(b, answers, done, ordered[..], filled[..])
      modifies ordered, filled
      ensures Table(b, answers, done + {s}, ordered[..], filled[..])
    {
      ghost var r0, f0 := ordered[..], filled[..];
      FailGroup(b, s, idxs, false, ordered, filled);
      forall i | 0 <= i < |b.tokens|
        ensures var p := b.tokens[i].batchPosition; SlotSoFar(b, answers, done + {s}, i, ordered[..][p], filled[..][p])
      {
        var p := b.tokens[i].batchPosition;
        SlotAfterFailure(b, answers, done, s, i, r0[p], f0[p], ordered[p], filled[p]);
      }
    }

    /** Places what the shard returned; what it should have returned and did not is a failure. */
    method FillIn(
      b: Batch, s: U32, idxs: seq<nat>, rs: seq<RoutedResult>, ordered: array<RoutedResult>, filled: array<bool>,
      ghost answers: map<U32, seq<RoutedResult>>, ghost done: set<U32>)
      requires Planned(b) && idxs == Indices(b.home, s) && s !in done
      requires ordered.Length == |b.tokens| == filled.Length && Table(b, answers, done, ordered[..], filled[..])
      modifies ordered, filled
      ensures Table(b, answers[s := rs], done + {s}, ordered[..], filled[..])
    {
      ghost var r0, f0 := ordered[..], filled[..];
      var experts := ExpertsOf(b, s, idxs);
      PlaceResults(b, s, experts, rs, ordered, filled);
      ghost var r1, f1 := ordered[..], filled[..];
      FailGroup(b, s, idxs, true, ordered, filled);
      forall i | 0 <= i < |b.tokens|
        ensures var p := b.tokens[i].batchPosition;
                SlotSoFar(b, answers[s := rs], done + {s}, i, ordered[..][p], filled[..][p])
      {
        var p := b.tokens[i].batchPosition;
        SlotAfterAnswer(b, answers, done, s, rs, i, r0[p], f0[p], r1[p], f1[p], ordered[p], filled[p]);
      }
    }

    /** Routes one batch; a shard that fails costs its own tokens and is remembered. Shards are
        visited in no particular order. The only exception is an expert without a shard, and then
        nothing has changed. */
    method RouteBatchTolerant(tokens: seq<RoutedToken>, peer: Peer, ghost talk: Talk)
      returns (r: Result<seq<RoutedResult>, RouteError>, ghost b: Batch)
      requires PositionsPermute(tokens) && Carries(talk, peer, registered)
      modifies this`unhealthy
      ensures r.Err? <==> !Mapped(Effective(tokens, capacity), expertToShard)
      ensures r.Err? ==> r.error == NoShardMapping && unhealthy == old(unhealthy)
      ensures r.Ok? ==>
                && Planned(b) && PlanFor(b, tokens, capacity, expertToShard) && b.eff == Effective(tokens, capacity)
                && unhealthy == old(unhealthy) + Broken(b, talk, old(unhealthy))
                && Tolerated(b, talk, old(unhealthy), r.value)
    {
      ghost var eff: seq<U32>;
      var plan;
      plan, eff := MakePlan(tokens);
      EffectiveIsTheAssignment(tokens, capacity, eff);
      if plan.Err? { return Err(plan.error), Batch([], [], []); }
      b := plan.value;
      var groups := GroupByShard(plan.value.home);
      var ordered := new RoutedResult[|tokens|](_ => RoutedResult(0, 0, 0, 0, [], false));
      var filled := new bool[|tokens|](_ => false);
      VisitAll(plan.value, groups, peer, talk, ordered, filled);
      return Ok(ordered[..]), b;
    }

    method VisitAll(
      b: Batch, groups: map<U32, seq<nat>>, peer: Peer, ghost talk: Talk, ordered: array<RoutedResult>,
      filled: array<bool>)
      requires Planned(b) && Carries(talk, peer, registered) && groups.Keys == Homes(b)
      requires forall s :: s in groups ==> groups[s] == Indices(b.home, s)
      requires ordered.Length == |b.tokens| == filled.Length && forall p :: 0 <= p < |b.tokens| ==> !filled[p]
      modifies ordered, filled, this`unhealthy
      ensures unhealthy == old(unhealthy) + Broken(b, talk, old(unhealthy))
      ensures Tolerated(b, talk, old(unhealthy), ordered[..])
    {
      ghost var done: set<U32>, answers: map<U32, seq<RoutedResult>> := {}, map[];
      TableEmpty(b, ordered[..], filled[..]);
      var todo := groups.Keys;
      while todo != {}
        invariant todo <= groups.Keys && done == Homes(b) - todo && Table(b, answers, done, ordered[..], filled[..])
        invariant Recorded(b, talk, old(unhealthy), done, answers, unhealthy)
        decreases |todo|
      {
        var s :| s in todo;
        ghost var answers0, now := answers, unhealthy;
        answers := VisitShard(b, s, groups[s], peer, talk, ordered, filled, answers, done);
        RecordedStep(b, talk, old(unhealthy), done, s, answers0, now, answers, unhealthy);
        done, todo := done + {s}, todo - {s};
      }
      assert done == Homes(b);
      RecordedAll(b, talk, old(unhealthy), done, answers, unhealthy);
      TableComplete(b, talk, old(unhealthy), answers, ordered[..], filled[..]);
    }

    /** Routes one batch or throws, whatever the positions of the tokens: all groups are sent before
        the first reply is read, and the replies must cover `0..n-1` once. Ignores and keeps the
        unhealthy set. */
    method RouteBatch(tokens: seq<RoutedToken>, peer: Peer, ghost talk: Talk)
      returns (r: Result<seq<RoutedResult>, RouteError>, ghost b: Batch, ghost order: seq<U32>)
      requires Carries(talk, peer, registered)
      ensures Assigned(tokens, capacity, b.eff) && (r == Err(NoShardMapping) <==> !Mapped(b.eff, expertToShard))
      ensures r != Err(NoShardMapping) ==>
                && PlanFor(b, tokens, capacity, expertToShard)
                && (r.Ok? <==> AllAnswer(b, talk) && Visits(order, b) && Bijective(Flat(b, talk, order), |tokens|))
                && (r.Ok? ==> |r.value| == |tokens| && Annotated(Flat(b, talk, order), b.eff, r.value))
                && (AllAnswer(b, talk) ==> Visits(order, b))
    {
      order := [];
      ghost var eff: seq<U32>;
      var plan;
      plan, eff := MakePlan(tokens);
      if plan.Err? { return Err(plan.error), Batch(tokens, eff, []), order; }
      b := plan.value;
      var groups := GroupByShard(plan.value.home);
      var sent := Scatter(plan.value, groups);
      if sent.Err? {
        UnregisteredFails(b, talk, peer, registered);
        return Err(NoTransport), b, order;
      }
      var flat := Gather(plan.value, groups, sent.value, peer, talk);
      if flat.None? { return Err(ShardFailed), b, order; }
      order := sent.value;
      var placed := Reassemble(|tokens|, flat.value);
      if placed.Err? { return Err(placed.error), b, order; }
      var ordered := placed.value;
      var i := 0;
      while i < |ordered|
        invariant 0 <= i <= |ordered| == |tokens|
        invariant forall p :: 0 <= p < |ordered| ==>
                    ordered[p] == if p < i then placed.value[p].(effectiveExpert := b.eff[p]) else placed.value[p]
      {
        ordered := ordered[i := ordered[i].(effectiveExpert := plan.value.eff[i])];
        i := i + 1;
      }
      return Ok(ordered), b, order;
    }

    /** The order in which the groups are sent, or the error of a shard without a transport. */
    method Scatter(b: Batch, groups: map<U32, seq<nat>>) returns (r: Result<seq<U32>, RouteError>)
      requires groups.Keys == Homes(b)
      ensures r.Ok? ==> Visits(r.value, b)
      ensures r.Err? ==> !(Homes(b) <= registered)
    {
      var order: seq<U32> := [];
      var todo := groups.Keys;
      while todo != {}
        invariant todo <= groups.Keys && NoRepeats(order)
        invariant forall s :: s in order <==> s in groups.Keys - todo
        decreases |todo|
      {
        var s :| s in todo;
        if s !in registered { return Err(NoTransport); }
        assert s !in order;
        order := order + [s];
        todo := todo - {s};
      }
      return Ok(order);
    }

    /** The replies one after the other, in the order the groups were sent. */
    method Gather(b: Batch, groups: map<U32, seq<nat>>, order: seq<U32>, peer: Peer, ghost talk: Talk)
      returns (r: Option<seq<RoutedResult>>)
      requires |b.home| == |b.tokens| && groups.Keys == Homes(b) && Carries(talk, peer, registered) && Visits(order, b)
      requires forall s :: s in groups ==> groups[s] == Indices(b.home, s)
      ensures r.None? ==> !AllAnswer(b, talk)
      ensures r.Some? ==> AllAnswer(b, talk) && r.value == Flat(b, talk, order)
    {
      var flat := [];
      var k := 0;
      while k < |order|
        invariant 0 <= k <= |order| && flat == Flat(b, talk, order[..k])
        invariant forall j :: 0 <= j < k ==> talk(order[j], GroupOf(b, order[j])).Some?
      {
        var s := order[k];
        assert s in order && order[..k + 1][..k] == order[..k];
        var results := Converse(s, Select(b.tokens, groups[s]), peer, talk);
        if results.None? { return None; }
        flat := flat + results.value;
        k := k + 1;
      }
      assert order[..k] == order;
      return Some(flat);
    }
  }

  lemma TableEmpty(b: Batch, ordered: seq<RoutedResult>, filled: seq<bool>)
    requires Planned(b) && |ordered| == |b.tokens| == |filled| && forall p :: 0 <= p < |filled| ==> !filled[p]
    ensures Table(b, map[], {}, ordered, filled)
  {}

  lemma TableComplete(
    b: Batch, talk: Talk, unhealthy: set<U32>, answers: map<U32, seq<RoutedResult>>, ordered: seq<RoutedResult>,
    filled: seq<bool>)
    requires Planned(b) && answers == Answers(b, talk, unhealthy) && Table(b, answers, Homes(b), ordered, filled)
    ensures Tolerated(b, talk, unhealthy, ordered)
  {
    forall i | 0 <= i < |b.tokens| ensures Slot(b, answers, i, ordered[b.tokens[i].batchPosition]) {
      assert b.home[i] in Homes(b);
      assert SlotSoFar(b, answers, Homes(b), i, ordered[b.tokens[i].batchPosition], filled[b.tokens[i].batchPosition]);
    }
  }

  /** What is recorded of a visited shard. */
  ghost predicate RecordedAt(
    reply: Option<seq<RoutedResult>>, s: U32, unhealthy: set<U32>, answers: map<U32, seq<RoutedResult>>,
    unhealthy': set<U32>)
  {
    if s in unhealthy then s !in answers
    else if reply.None? then s !in answers && s in unhealthy'
    else s in answers && answers[s] == reply.value && s !in unhealthy'
  }

  /** What has been recorded when the shards in `done` have been visited. */
  ghost predicate Recorded(
    b: Batch, talk: Talk, unhealthy: set<U32>, done: set<U32>, answers: map<U32, seq<RoutedResult>>,
    unhealthy': set<U32>)
    requires Planned(b)
  {
    && unhealthy <= unhealthy' <= unhealthy + done && answers.Keys <= done
    && forall s :: s in done ==> RecordedAt(talk(s, GroupOf(b, s)), s, unhealthy, answers, unhealthy')
  }

  lemma RecordedStep(
    b: Batch, talk: Talk, unhealthy: set<U32>, done: set<U32>, s: U32,
    answers: map<U32, seq<RoutedResult>>, now: set<U32>, answers': map<U32, seq<RoutedResult>>, now': set<U32>)
    requires Planned(b) && Recorded(b, talk, unhealthy, done, answers, now) && s !in done
    requires s in now ==> answers' == answers && now' == now
    requires var reply := talk(s, GroupOf(b, s));
             s !in now ==>
               && answers' == (if reply.Some? then answers[s := reply.value] else answers)
               && now' == if reply.Some? then now else now + {s}
    ensures Recorded(b, talk, unhealthy, done + {s}, answers', now')
  {}

  lemma RecordedAll(
    b: Batch, talk: Talk, unhealthy: set<U32>, done: set<U32>, answers: map<U32, seq<RoutedResult>>,
    unhealthy': set<U32>)
    requires Planned(b) && done == Homes(b) && Recorded(b, talk, unhealthy, done, answers, unhealthy')
    ensures unhealthy' == unhealthy + Broken(b, talk, unhealthy) && answers == Answers(b, talk, unhealthy)
  {
    var all := Answers(b, talk, unhealthy);
    forall s | s in done
      ensures (s in answers <==> s in all) && (s in answers ==> answers[s] == all[s])
      ensures s in unhealthy' <==> s in unhealthy || s in Broken(b, talk, unhealthy)
    {
      assert RecordedAt(talk(s, GroupOf(b, s)), s, unhealthy, answers, unhealthy');
    }
  }
}
