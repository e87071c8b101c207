/** What the two routing methods promise, from their contracts. */
module RoutingTheorems {
  import opened Wrappers
  import opened Bytes
  import opened Wire
  import opened Assignment
  import opened Counting
  import opened RoutingSpec
  import opened Routing
  import Worker

  // ---------------------------------------------------------------------------------------
  // Whatever the shards do
  // ---------------------------------------------------------------------------------------

  ghost predicate TalkPlain(talk: Talk) {
    forall s, g :: talk(s, g).Some? ==> Unannotated(talk(s, g).value)
  }

  /** Whatever bytes the transports deliver, results arrive with their router-only fields unset. */
  lemma CarriedIsPlain(talk: Talk, peer: Peer, registered: set<U32>)
    requires Carries(talk, peer, registered)
    ensures TalkPlain(talk)
  {
    forall s, g | talk(s, g).Some? ensures Unannotated(talk(s, g).value) {
      CarriedPlain(talk, peer, registered, s, g);
    }
  }

  lemma CarriedPlain(talk: Talk, peer: Peer, registered: set<U32>, s: U32, g: seq<RoutedToken>)
    requires Carries(talk, peer, registered) && talk(s, g).Some?
    ensures Unannotated(talk(s, g).value)
  {
    assert talk(s, g) == TalkOver(peer, registered, s, g);
    DecodedPlain(peer(s, EncodeTokenBatch(g)).value);
  }

  /** For any shards and any visiting order: slot `p` is for the token `i` of position `p`. It is marked
      failed exactly when it is that token's accounted-for failure; otherwise it is the first result for
      `p` that a shard `a` asked in this very call returned, at index `k` of its reply, and it carries
      the token's expert if `a` is the token's own shard. */
  lemma EverySlotAccounted(b: Batch, talk: Talk, unhealthy: set<U32>, r: seq<RoutedResult>, p: nat)
    returns (i: nat, a: U32, k: nat)
    requires Planned(b) && TalkPlain(talk) && Tolerated(b, talk, unhealthy, r) && p < |r|
    ensures |r| == |b.tokens| && i < |b.tokens| && b.tokens[i].batchPosition == p == r[p].batchPosition
    ensures r[p].failed <==> IsFailure(b.tokens[i], b.eff[i], r[p])
    ensures r[p].failed ==>
              r[p].tokenId == b.tokens[i].tokenId && r[p].effectiveExpert == b.eff[i] && r[p].payload == []
    ensures !r[p].failed ==>
              && a in Homes(b) && a !in unhealthy && talk(a, GroupOf(b, a)).Some?
              && var rs := talk(a, GroupOf(b, a)).value;
              && k < |rs| && rs[k].batchPosition == p && (forall j :: 0 <= j < k ==> rs[j].batchPosition != p)
              && r[p] == if a == b.home[i] then rs[k].(effectiveExpert := b.eff[i]) else rs[k]
  {
    i := PositionTaken(b.tokens, p);
    var answers := Answers(b, talk, unhealthy);
    assert Slot(b, answers, i, r[b.tokens[i].batchPosition]);
    if exists a :: a in answers && AnsweredBy(b, a, answers[a], i, r[p]) {
      a :| a in answers && AnsweredBy(b, a, answers[a], i, r[p]);
      k := FirstIndex(answers[a], p);
      assert Unannotated(answers[a]) && Plain(answers[a][k]);
    } else {
      a, k := 0, 0;
    }
  }

  lemma FirstIndex(rs: seq<RoutedResult>, p: nat) returns (k: nat)
    requires FirstAt(rs, p).Some?
    ensures k < |rs| && rs[k] == FirstAt(rs, p).value && rs[k].batchPosition == p
    ensures forall j :: 0 <= j < k ==> rs[j].batchPosition != p
  {
    FirstAtIsFirst(rs, p);
    k :| k < |rs| && rs[k] == FirstAt(rs, p).value && forall j :: 0 <= j < k ==> rs[j].batchPosition != p;
  }

  // ---------------------------------------------------------------------------------------
  // Honest shards, dead or alive
  // ---------------------------------------------------------------------------------------

  /** Every shard of the batch answers with the results of its group, or not at all. */
  ghost predicate Honest(b: Batch, talk: Talk)
    requires Planned(b)
  {
    forall s :: s in Homes(b) && talk(s, GroupOf(b, s)).Some? ==>
      talk(s, GroupOf(b, s)).value == Worker.ProcessBatch(GroupOf(b, s), s)
  }

  /** Token `i`'s genuine result: its own id and negated payload, from the shard of its expert. */
  ghost function Genuine(b: Batch, i: nat): RoutedResult
    requires Planned(b) && i < |b.tokens|
  {
    Worker.ProcessToken(b.tokens[i], b.home[i]).(effectiveExpert := b.eff[i])
  }

  /** In the honest answer of shard `a`, position `p` belongs to token `i` if to any. */
  lemma HonestAt(b: Batch, a: U32, i: nat)
    requires Planned(b) && i < |b.tokens|
    ensures FirstAt(Worker.ProcessBatch(GroupOf(b, a), a), b.tokens[i].batchPosition)
         == if b.home[i] == a then Some(Worker.ProcessToken(b.tokens[i], a)) else None
  {
    var rs, p := Worker.ProcessBatch(GroupOf(b, a), a), b.tokens[i].batchPosition;
    var first := FirstAt(rs, p);
    var idxs := Indices(b.home, a);
    if first.Some? {
      var k :| 0 <= k < |rs| && rs[k] == first.value;
      assert rs[k] == Worker.ProcessToken(b.tokens[idxs[k]], a);
      assert idxs[k] == i;
    } else if b.home[i] == a {
      var k := IndicesComplete(b.home, a, i);
      FirstAtFinds(rs, p, k);
      assert false;
    }
  }

  lemma {:induction false} FirstAtFinds(rs: seq<RoutedResult>, p: nat, k: nat)
    requires k < |rs| && rs[k].batchPosition == p
    ensures FirstAt(rs, p).Some?
  {
    if k < |rs| - 1 { FirstAtFinds(rs[..|rs| - 1], p, k); }
  }

  /** Over honest shards the tolerant result is determined, slot by slot: a token whose shard was
      or is now found broken fails, every other token has its genuine result. */
  lemma TolerantOverHonest(b: Batch, talk: Talk, unhealthy: set<U32>, r: seq<RoutedResult>, i: nat)
    requires Planned(b) && Honest(b, talk) && Tolerated(b, talk, unhealthy, r) && i < |b.tokens|
    ensures var slot := r[b.tokens[i].batchPosition];
            if b.home[i] in unhealthy + Broken(b, talk, unhealthy) then IsFailure(b.tokens[i], b.eff[i], slot)
            else slot == Genuine(b, i) && Worker.Negated(b.tokens[i].payload, slot.payload)
  {
    Worker.NegateAllNegates(b.tokens[i].payload);
    var answers, slot := Answers(b, talk, unhealthy), r[b.tokens[i].batchPosition];
    assert Slot(b, answers, i, slot);
    assert b.home[i] in Homes(b);
    HonestAt(b, b.home[i], i);
    if b.home[i] in answers && exists a :: a in answers && AnsweredBy(b, a, answers[a], i, slot) {
      var a :| a in answers && AnsweredBy(b, a, answers[a], i, slot);
      HonestAt(b, a, i);
    }
  }

  // ---------------------------------------------------------------------------------------
  // The strict method
  // ---------------------------------------------------------------------------------------

  /** The results of the groups of the visited shards, one after the other. */
  ghost function Answered(b: Batch, order: seq<U32>): seq<RoutedResult>
    requires Planned(b)
  {
    if order == [] then []
    else
      var n := |order| - 1;
      Answered(b, order[..n]) + Worker.ProcessBatch(GroupOf(b, order[n]), order[n])
  }

  /** Honest shards that are all alive give exactly these. */
  lemma {:induction false} HonestFlat(b: Batch, talk: Talk, order: seq<U32>)
    requires Planned(b) && Honest(b, talk) && AllAnswer(b, talk)
    requires forall k :: 0 <= k < |order| ==> order[k] in Homes(b)
    ensures Flat(b, talk, order) == Answered(b, order)
  {
    if order != [] {
      var n := |order| - 1;
      HonestFlat(b, talk, order[..n]);
      assert talk(order[n], GroupOf(b, order[n])).Some?;
    }
  }

  /** Each of them is a visited token's result, and no position occurs twice. */
  lemma {:induction false} AnsweredOnce(b: Batch, order: seq<U32>)
    requires Planned(b) && NoRepeats(order)
    ensures forall k :: 0 <= k < |Answered(b, order)| ==> ComesFrom(b, order, Answered(b, order)[k])
    ensures DistinctResults(Answered(b, order))
  {
    if order != [] {
      var n := |order| - 1;
      var s, init := order[n], order[..n];
      AnsweredOnce(b, init);
      var before, rs := Answered(b, init), Worker.ProcessBatch(GroupOf(b, s), s);
      GroupFresh(b, s, init, before);
      forall k | 0 <= k < |before| ensures ComesFrom(b, order, before[k]) {
        assert ComesFrom(b, init, before[k]);
        assert forall a :: a in init ==> a in order;
      }
      forall k | 0 <= k < |rs| ensures ComesFrom(b, order, rs[k]) {
        assert IsResultOf(b, Indices(b.home, s)[k], rs[k]);
      }
    }
  }

  ghost predicate IsResultOf(b: Batch, i: nat, x: RoutedResult)
    requires Planned(b)
  {
    i < |b.tokens| && x == Worker.ProcessToken(b.tokens[i], b.home[i])
  }

  ghost predicate ComesFrom(b: Batch, order: seq<U32>, x: RoutedResult)
    requires Planned(b)
  {
    exists i: nat :: IsResultOf(b, i, x) && b.home[i] in order
  }

  lemma GroupFresh(b: Batch, s: U32, init: seq<U32>, before: seq<RoutedResult>)
    requires Planned(b) && s !in init && DistinctResults(before)
    requires forall k :: 0 <= k < |before| ==> ComesFrom(b, init, before[k])
    ensures DistinctResults(before + Worker.ProcessBatch(GroupOf(b, s), s))
  {
    var rs := Worker.ProcessBatch(GroupOf(b, s), s);
    var idxs := Indices(b.home, s);
    IndicesAscend(b.home, s);
    forall j, k | 0 <= j < |rs| && 0 <= k < |rs| && rs[j].batchPosition == rs[k].batchPosition ensures j == k {
      assert idxs[j] == idxs[k];
    }
    forall j, k | 0 <= j < |before| && 0 <= k < |rs| ensures before[j].batchPosition != rs[k].batchPosition {
      var i: nat :| IsResultOf(b, i, before[j]) && b.home[i] in init;
      assert i != idxs[k];
    }
  }

  lemma GroupHas(b: Batch, s: U32, i: nat) returns (j: nat)
    requires Planned(b) && i < |b.tokens| && b.home[i] == s
    ensures j < |Worker.ProcessBatch(GroupOf(b, s), s)|
    ensures Worker.ProcessBatch(GroupOf(b, s), s)[j] == Worker.ProcessToken(b.tokens[i], s)
  {
    j := IndicesComplete(b.home, s, i);
  }

  /** Every token of a visited shard has its result among them. */
  lemma {:induction false} AnsweredHas(b: Batch, order: seq<U32>, i: nat, m: nat) returns (k: nat)
    requires Planned(b) && i < |b.tokens| && m < |order| && order[m] == b.home[i]
    ensures k < |Answered(b, order)| && Answered(b, order)[k] == Worker.ProcessToken(b.tokens[i], b.home[i])
  {
    var n := |order| - 1;
    if m == n {
      var j := GroupHas(b, order[n], i);
      k := |Answered(b, order[..n])| + j;
    } else {
      k := AnsweredHas(b, order[..n], i, m);
    }
  }

  /** Over live honest shards, for any visiting order, the strict method's replies cover every
      position once. */
  lemma StrictAccepts(b: Batch, talk: Talk, order: seq<U32>)
    requires Planned(b) && Honest(b, talk) && AllAnswer(b, talk) && Visits(order, b)
    ensures Bijective(Flat(b, talk, order), |b.tokens|)
  {
    var flat := Flat(b, talk, order);
    HonestFlat(b, talk, order);
    AnsweredOnce(b, order);
    forall k | 0 <= k < |flat| ensures flat[k].batchPosition < |b.tokens| { assert ComesFrom(b, order, flat[k]); }
    forall p: nat | p < |b.tokens| ensures Mentioned(flat, p) {
      var i := PositionTaken(b.tokens, p);
      assert b.home[i] in Homes(b);
      var m :| 0 <= m < |order| && order[m] == b.home[i];
      var k := AnsweredHas(b, order, i, m);
    }
  }

  /** Over live honest shards the strict slot of token `i` is its genuine result, except that the
      expert named is the one at index `batchPosition`, not at index `i`. */
  lemma StrictOverHonest(b: Batch, talk: Talk, order: seq<U32>, r: seq<RoutedResult>, i: nat)
    requires Planned(b) && Honest(b, talk) && AllAnswer(b, talk) && Visits(order, b) && i < |b.tokens| == |r|
    requires Annotated(Flat(b, talk, order), b.eff, r)
    ensures var p := b.tokens[i].batchPosition; r[p] == Genuine(b, i).(effectiveExpert := b.eff[p])
  {
    assert b.home[i] in Homes(b);
    var m :| 0 <= m < |order| && order[m] == b.home[i];
    HonestFlat(b, talk, order);
    var k := AnsweredHas(b, order, i, m);
  }

  /** Over live honest shards and an empty unhealthy set, strict and tolerant routing return the
      same results exactly when every token's expert is also the one at index `batchPosition`. */
  lemma StrictEqualsTolerant(
    b: Batch, talk: Talk, order: seq<U32>, strict: seq<RoutedResult>, tolerant: seq<RoutedResult>)
    requires Planned(b) && Honest(b, talk) && AllAnswer(b, talk) && Visits(order, b)
    requires |strict| == |b.tokens| && Annotated(Flat(b, talk, order), b.eff, strict)
    requires Tolerated(b, talk, {}, tolerant)
    ensures strict == tolerant <==> forall i :: 0 <= i < |b.tokens| ==> b.eff[b.tokens[i].batchPosition] == b.eff[i]
  {
    forall i | 0 <= i < |b.tokens|
      ensures var p := b.tokens[i].batchPosition;
              tolerant[p] == Genuine(b, i) && strict[p] == Genuine(b, i).(effectiveExpert := b.eff[p])
    {
      assert b.home[i] in Homes(b);
      TolerantOverHonest(b, talk, {}, tolerant, i);
      StrictOverHonest(b, talk, order, strict, i);
    }
    if forall i :: 0 <= i < |b.tokens| ==> b.eff[b.tokens[i].batchPosition] == b.eff[i] {
      forall p | 0 <= p < |strict| ensures strict[p] == tolerant[p] {
        var i := PositionTaken(b.tokens, p);
      }
    }
  }

  /** In particular they agree when every token stands at its own position. */
  lemma StrictEqualsTolerantInOrder(
    b: Batch, talk: Talk, order: seq<U32>, strict: seq<RoutedResult>, tolerant: seq<RoutedResult>)
    requires Planned(b) && Honest(b, talk) && AllAnswer(b, talk) && Visits(order, b)
    requires |strict| == |b.tokens| && Annotated(Flat(b, talk, order), b.eff, strict)
    requires Tolerated(b, talk, {}, tolerant)
    requires forall i :: 0 <= i < |b.tokens| ==> b.tokens[i].batchPosition == i
    ensures strict == tolerant
  {
    StrictEqualsTolerant(b, talk, order, strict, tolerant);
  }

  /** What the strict method returns over live honest shards. */
  ghost predicate StrictResult(b: Batch, talk: Talk, order: seq<U32>, strict: seq<RoutedResult>)
    requires Planned(b)
  {
    && Honest(b, talk) && AllAnswer(b, talk) && Visits(order, b)
    && |strict| == |b.tokens| && Annotated(Flat(b, talk, order), b.eff, strict)
  }

  /** Two tokens in swapped places and with different experts: the strict method names the wrong
      expert in both results. */
  lemma StrictMisannotates(talk: Talk, order: seq<U32>, strict: seq<RoutedResult>) returns (b: Batch)
    ensures Planned(b) && PlanFor(b, b.tokens, 2, map[1 := 0, 2 := 0]) && |b.tokens| == 2
    ensures StrictResult(b, talk, order, strict) ==>
              strict[1].tokenId == b.tokens[0].tokenId && strict[1].effectiveExpert == 2 != b.eff[0]
  {
    var ts := [RoutedToken(10, 1, 1, 1, []), RoutedToken(11, 0, 2, 2, [])];
    b := Batch(ts, [1, 2], [0, 0]);
    SmallCounts(ts);
    EffectiveIsAssigned(ts, 2);
    if StrictResult(b, talk, order, strict) {
      StrictOverHonest(b, talk, order, strict, 0);
    }
  }

  lemma {:induction false} SmallCounts(ts: seq<RoutedToken>)
    requires |ts| == 2 && ts[0].primaryExpert == ts[0].secondaryExpert && ts[1].primaryExpert == ts[1].secondaryExpert
    ensures Effective(ts, 2) == [ts[0].primaryExpert, ts[1].primaryExpert]
  {}

  // ---------------------------------------------------------------------------------------
  // From bytes to honesty
  // ---------------------------------------------------------------------------------------

  /** The transport delivers the worker's own reply to the request, or throws. */
  ghost predicate FaithfulOrDead(peer: Peer, s: U32, request: seq<Byte>) {
    peer(s, request).Some? ==> Worker.Reply(request, s) == Ok(peer(s, request).value)
  }

  lemma FaithfulIsHonest(b: Batch, talk: Talk, peer: Peer, registered: set<U32>)
    requires Planned(b) && Carries(talk, peer, registered)
    requires forall s :: s in Homes(b) ==>
               Worker.Encodable(GroupOf(b, s)) && FaithfulOrDead(peer, s, EncodeTokenBatch(GroupOf(b, s)))
    ensures Honest(b, talk)
  {
    forall s | s in Homes(b) && talk(s, GroupOf(b, s)).Some?
      ensures talk(s, GroupOf(b, s)).value == Worker.ProcessBatch(GroupOf(b, s), s)
    {
      FaithfulTalk(GroupOf(b, s), talk, peer, registered, s);
    }
  }

  lemma FaithfulTalk(g: seq<RoutedToken>, talk: Talk, peer: Peer, registered: set<U32>, s: U32)
    requires Carries(talk, peer, registered) && Worker.Encodable(g) && FaithfulOrDead(peer, s, EncodeTokenBatch(g))
    ensures talk(s, g).Some? ==> talk(s, g).value == Worker.ProcessBatch(g, s)
  {
    assert talk(s, g) == TalkOver(peer, registered, s, g);
    Worker.ReplyDecodes(g, s);
  }
}
