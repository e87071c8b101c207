/** Graceful degradation end to end: the tolerant router of `Routing` over the byte-level shards of
    `ShardProtocol`, for any number of batches, with workers killed at arbitrary points. */
module Degradation {
  import opened Wrappers
  import opened Bytes
  import opened Wire
  import opened RoutingSpec
  import opened RoutingTheorems
  import opened ShardProtocol
  import opened ShardInvariants
  import opened ShardCalls
  import Framing
  import Worker

  /** The processes run the worker loop: they answer what `Worker.Reply` says or crash. */
  ghost predicate RunsWorkers(sys: System) {
    forall s: U32, m {:trigger Worker.Reply(m, s)} ::
      sys.compute(s, m) == if Worker.Reply(m, s).Ok? then Some(Worker.Reply(m, s).value) else None
  }

  type Replies = map<nat, (seq<Byte>, seq<Byte>)>

  /** What the transports delivered in one call. */
  ghost function PeerOf(replies: Replies): Peer {
    (s: U32, m: seq<Byte>) => if s in replies && replies[s].0 == m then Some(replies[s].1) else None
  }

  /** The router's unhealthy set names the shards whose links are given up. */
  ghost predicate Agree(unhealthy: set<U32>, st: State) {
    forall s: U32 :: s in unhealthy <==> s < |st.views| && st.views[s].GivenUp?
  }

  /** One request per healthy shard of the batch. */
  ghost predicate RequestsOf(b: Batch, unhealthy: set<U32>, calls: seq<Call>)
    requires Planned(b)
  {
    && (forall i :: 0 <= i < |calls| ==> IsRequest(b, unhealthy, calls[i]))
    && (forall s :: s in Homes(b) && s !in unhealthy ==> Calls(calls, s))
  }

  ghost predicate IsRequest(b: Batch, unhealthy: set<U32>, call: Call)
    requires Planned(b)
  {
    exists s: U32 :: s in Homes(b) && s !in unhealthy && call == (s, EncodeTokenBatch(GroupOf(b, s)))
  }

  ghost predicate Calls(calls: seq<Call>, s: nat) { exists i :: 0 <= i < |calls| && calls[i].0 == s }

  /** One batch: what happens before it, its calls, what happens during it, the shards with a
      transport, what the exchanges came to, and the results. */
  datatype Round = Round(
    idle: seq<Choice>, batch: Batch, calls: seq<Call>, steps: seq<Choice>, registered: set<U32>, talk: Talk,
    results: seq<RoutedResult>)

  ghost predicate NoStart(cs: seq<Choice>) { forall i :: 0 <= i < |cs| ==> !cs[i].Start? }

  /** Between calls only kills can happen, and they give up no shard. */
  lemma {:induction false} IdleKeeps(sys: System, st: State, cs: seq<Choice>)
    requires Inv(sys, st) && Runs(sys, st, cs) && NoStart(cs) && st.program == []
    ensures After(sys, st, cs).program == [] && After(sys, st, cs).views == st.views
    decreases |cs|
  {
    if cs != [] {
      StepKeepsInv(sys, st, cs[0]);
      IdleKeeps(sys, Next(sys, st, cs[0]), cs[1..]);
    }
  }

  lemma CallsStart(sys: System, st: State, calls: seq<Call>)
    requires Inv(sys, st) && st.program == [] && Callable(sys, calls, st.views)
    ensures Enabled(sys, st, Start(Tolerant(calls))) && Inv(sys, Next(sys, st, Start(Tolerant(calls))))
  {
    TolerantIsAPlan(sys, calls, st.views);
    StepKeepsInv(sys, st, Start(Tolerant(calls)));
  }

  ghost function Started(sys: System, st: State, calls: seq<Call>): (st': State)
    requires Inv(sys, st) && st.program == [] && Callable(sys, calls, st.views)
    ensures Inv(sys, st')
  {
    CallsStart(sys, st, calls);
    Next(sys, st, Start(Tolerant(calls)))
  }

  /** A round that can happen from `st` with this unhealthy set. */
  ghost predicate Possible(sys: System, st: State, unhealthy: set<U32>, r: Round) {
    && Inv(sys, st) && st.program == [] && Planned(r.batch) && Worker.Encodable(r.batch.tokens)
    && (forall s :: s in Homes(r.batch) ==> s < |st.views| && s in r.registered)
    && RequestsOf(r.batch, unhealthy, r.calls)
    && NoStart(r.idle) && Runs(sys, st, r.idle) && After(sys, st, r.idle).program == []
    && Callable(sys, r.calls, After(sys, st, r.idle).views)
    && var started := Started(sys, After(sys, st, r.idle), r.calls);
    && NoStart(r.steps) && Runs(sys, started, r.steps) && After(sys, started, r.steps).program == []
    && Carries(r.talk, PeerOf(After(sys, started, r.steps).replies), r.registered)
    && Tolerated(r.batch, r.talk, unhealthy, r.results)
  }

  ghost function End(sys: System, st: State, unhealthy: set<U32>, r: Round): (st': State)
    requires Possible(sys, st, unhealthy, r)
    ensures Inv(sys, st') && st'.program == []
  {
    After(sys, Started(sys, After(sys, st, r.idle), r.calls), r.steps)
  }

  ghost function Unhealthy(unhealthy: set<U32>, r: Round): set<U32>
    requires Planned(r.batch)
  {
    unhealthy + Broken(r.batch, r.talk, unhealthy)
  }

  // ---------------------------------------------------------------------------------------
  // One round
  // ---------------------------------------------------------------------------------------

  lemma {:induction false} FewIndices(home: seq<U32>, s: U32)
    ensures |Indices(home, s)| <= |home|
  {
    if home != [] { FewIndices(home[..|home| - 1], s); }
  }

  lemma GroupEncodable(b: Batch, s: U32)
    requires Planned(b) && Worker.Encodable(b.tokens)
    ensures Worker.Encodable(GroupOf(b, s))
  {
    FewIndices(b.home, s);
  }

  /** What the round did to the link of shard `s`. */
  ghost predicate Outcome(sys: System, unhealthy: set<U32>, r: Round, end: State, s: U32)
    requires Planned(r.batch)
  {
    var msg := EncodeTokenBatch(GroupOf(r.batch, s));
    && s < |end.views|
    && (s in Homes(r.batch) && s !in unhealthy ==>
          && (end.views[s].GivenUp? <==> s !in end.replies)
          && (s in end.replies ==> end.replies[s].0 == msg && sys.compute(s, msg) == Some(end.replies[s].1)))
    && (!(s in Homes(r.batch) && s !in unhealthy) ==> s !in end.replies && (end.views[s].GivenUp? <==> s in unhealthy))
  }

  lemma RoundOutcome(sys: System, st: State, unhealthy: set<U32>, r: Round, s: U32)
    requires Possible(sys, st, unhealthy, r) && Agree(unhealthy, st) && s < |st.views|
    ensures Outcome(sys, unhealthy, r, End(sys, st, unhealthy, r), s)
  {
    var ready := After(sys, st, r.idle);
    IdleKeeps(sys, st, r.idle);
    CallsStart(sys, ready, r.calls);
    if s in Homes(r.batch) && s !in unhealthy {
      assert Calls(r.calls, s);
      var i :| 0 <= i < |r.calls| && r.calls[i].0 == s;
      assert IsRequest(r.batch, unhealthy, r.calls[i]);
      TolerantCall(sys, ready, r.calls, r.steps, i);
    } else {
      forall i | 0 <= i < |r.calls| ensures r.calls[i].0 != s {
        assert IsRequest(r.batch, unhealthy, r.calls[i]);
      }
      NotCalled(sys, ready, r.calls, r.steps, s);
    }
  }

  /** What the router gets from shard `s` is what the link's record says. */
  lemma TalkOutcome(sys: System, st: State, unhealthy: set<U32>, r: Round, s: U32)
    requires Possible(sys, st, unhealthy, r) && Agree(unhealthy, st) && RunsWorkers(sys) && s in Homes(r.batch)
    ensures s < |st.views| == |End(sys, st, unhealthy, r).views|
    ensures var reply := r.talk(s, GroupOf(r.batch, s));
            && (reply.Some? ==> reply.value == Worker.ProcessBatch(GroupOf(r.batch, s), s))
            && (reply.None? <==> s in unhealthy || End(sys, st, unhealthy, r).views[s].GivenUp?)
  {
    var end, g := End(sys, st, unhealthy, r), GroupOf(r.batch, s);
    var msg := EncodeTokenBatch(g);
    SizeKept(sys, st, unhealthy, r);
    RoundOutcome(sys, st, unhealthy, r, s);
    GroupEncodable(r.batch, s);
    Worker.ReplyDecodes(g, s);
    assert sys.compute(s, msg) == Some(Worker.Reply(msg, s).value);
    assert r.talk(s, g) == TalkOver(PeerOf(end.replies), r.registered, s, g);
  }

  /** One batch: each slot is determined, the unhealthy set tracks the given-up links, and all other
      channels are empty again. */
  lemma RoundCorrect(sys: System, st: State, unhealthy: set<U32>, r: Round)
    requires Possible(sys, st, unhealthy, r) && Agree(unhealthy, st) && RunsWorkers(sys)
    ensures |r.results| == |r.batch.tokens|
    ensures forall i :: 0 <= i < |r.results| ==> Right(r, Unhealthy(unhealthy, r), i)
    ensures Agree(Unhealthy(unhealthy, r), End(sys, st, unhealthy, r))
    ensures |End(sys, st, unhealthy, r).views| == |st.views|
    ensures forall s :: 0 <= s < |st.views| ==> CleanOrBroken(End(sys, st, unhealthy, r), s)
  {
    var end, b := End(sys, st, unhealthy, r), r.batch;
    forall s | s in Homes(b) && r.talk(s, GroupOf(b, s)).Some?
      ensures r.talk(s, GroupOf(b, s)).value == Worker.ProcessBatch(GroupOf(b, s), s)
    {
      TalkOutcome(sys, st, unhealthy, r, s);
    }
    forall i | 0 <= i < |r.results| ensures Right(r, Unhealthy(unhealthy, r), i) {
      TolerantOverHonest(b, r.talk, unhealthy, r.results, i);
      Worker.NegateAllNegates(b.tokens[i].payload);
    }
    SizeKept(sys, st, unhealthy, r);
    forall s: U32 ensures s in Unhealthy(unhealthy, r) <==> s < |end.views| && end.views[s].GivenUp? {
      if s < |st.views| {
        RoundOutcome(sys, st, unhealthy, r, s);
        if s in Homes(b) { TalkOutcome(sys, st, unhealthy, r, s); }
      } else {
        assert s !in Homes(b);
      }
    }
    forall s | 0 <= s < |st.views| ensures CleanOrBroken(end, s) {
      if !end.views[s].GivenUp? { ChannelsEmptyBetweenCalls(sys, end, s); }
    }
  }

  lemma SizeKept(sys: System, st: State, unhealthy: set<U32>, r: Round)
    requires Possible(sys, st, unhealthy, r)
    ensures |End(sys, st, unhealthy, r).views| == |st.views|
  {
    GivenUpOnlyGrows(sys, st, r.idle);
    GivenUpOnlyGrows(sys, Started(sys, After(sys, st, r.idle), r.calls), r.steps);
  }

  /** Slot of token `i`: its accounted-for failure if its shard is unhealthy, else its own result: its
      id and position, its payload negated, the shard that holds its expert, and that expert. */
  ghost predicate Right(r: Round, unhealthy: set<U32>, i: nat)
    requires Planned(r.batch) && |r.results| == |r.batch.tokens| && i < |r.results|
  {
    var t := r.batch.tokens[i];
    var slot := r.results[t.batchPosition];
    if r.batch.home[i] in unhealthy then
      && slot.failed && slot.tokenId == t.tokenId && slot.batchPosition == t.batchPosition
      && slot.effectiveExpert == r.batch.eff[i] && slot.payload == []
    else
      && slot == RoutedResult(
           t.tokenId, t.batchPosition, r.batch.home[i], r.batch.eff[i], Worker.NegateAll(t.payload), false)
      && Worker.Negated(t.payload, slot.payload)
  }

  ghost predicate CleanOrBroken(st: State, s: nat) {
    && s < |st.views| && s < |st.links|
    && (st.views[s].GivenUp? || (st.links[s].toWorker == [] && st.links[s].toRouter == []))
  }

  // ---------------------------------------------------------------------------------------
  // Any number of rounds
  // ---------------------------------------------------------------------------------------

  /** The rounds can follow one another from `st`. */
  ghost predicate Session(sys: System, st: State, unhealthy: set<U32>, rounds: seq<Round>)
    decreases |rounds|
  {
    rounds == [] || (
      && Possible(sys, st, unhealthy, rounds[0])
      && Session(sys, End(sys, st, unhealthy, rounds[0]), Unhealthy(unhealthy, rounds[0]), rounds[1..]))
  }

  /** The router's unhealthy set when `k` rounds are over. */
  ghost function UnhealthyAt(sys: System, st: State, unhealthy: set<U32>, rounds: seq<Round>, k: nat): set<U32>
    requires Session(sys, st, unhealthy, rounds) && k <= |rounds|
    decreases k
  {
    if k == 0 then unhealthy
    else UnhealthyAt(sys, End(sys, st, unhealthy, rounds[0]), Unhealthy(unhealthy, rounds[0]), rounds[1..], k - 1)
  }

  /** The state of the processes when `k` rounds are over. */
  ghost function StateAt(sys: System, st: State, unhealthy: set<U32>, rounds: seq<Round>, k: nat): State
    requires Session(sys, st, unhealthy, rounds) && k <= |rounds|
    decreases k
  {
    if k == 0 then st
    else StateAt(sys, End(sys, st, unhealthy, rounds[0]), Unhealthy(unhealthy, rounds[0]), rounds[1..], k - 1)
  }

  /** Every round of a session starts where the ones before it ended. */
  lemma {:induction false} RoundPossible(sys: System, st: State, unhealthy: set<U32>, rounds: seq<Round>, k: nat)
    requires RunsWorkers(sys) && Agree(unhealthy, st) && Session(sys, st, unhealthy, rounds) && k < |rounds|
    ensures var now, u := StateAt(sys, st, unhealthy, rounds, k), UnhealthyAt(sys, st, unhealthy, rounds, k);
            && Possible(sys, now, u, rounds[k]) && Agree(u, now) && |now.views| == |st.views|
            && StateAt(sys, st, unhealthy, rounds, k + 1) == End(sys, now, u, rounds[k])
            && UnhealthyAt(sys, st, unhealthy, rounds, k + 1) == Unhealthy(u, rounds[k])
    decreases k
  {
    if k > 0 {
      RoundCorrect(sys, st, unhealthy, rounds[0]);
      RoundPossible(sys, End(sys, st, unhealthy, rounds[0]), Unhealthy(unhealthy, rounds[0]), rounds[1..], k - 1);
    }
  }

  ghost predicate AllRight(r: Round, unhealthy: set<U32>) {
    && Planned(r.batch) && |r.results| == |r.batch.tokens|
    && forall i :: 0 <= i < |r.results| ==> Right(r, unhealthy, i)
  }

  ghost predicate AllCleanOrBroken(st: State) { forall s :: 0 <= s < |st.views| ==> CleanOrBroken(st, s) }

  /** Round `k` of any session: each slot is right for the unhealthy set the round leaves behind,
      that set grew by exactly the shards the round found broken and names exactly the given-up
      links, and all other channels are empty again. */
  lemma EveryRoundRight(sys: System, st: State, unhealthy: set<U32>, rounds: seq<Round>, k: nat)
    requires RunsWorkers(sys) && Agree(unhealthy, st) && Session(sys, st, unhealthy, rounds) && k < |rounds|
    ensures var u, u' := UnhealthyAt(sys, st, unhealthy, rounds, k), UnhealthyAt(sys, st, unhealthy, rounds, k + 1);
            var st' := StateAt(sys, st, unhealthy, rounds, k + 1);
            && AllRight(rounds[k], u')
            && u' == u + Broken(rounds[k].batch, rounds[k].talk, u)
            && Agree(u', st') && |st'.views| == |st.views| && AllCleanOrBroken(st')
  {
    RoundPossible(sys, st, unhealthy, rounds, k);
    var now, u := StateAt(sys, st, unhealthy, rounds, k), UnhealthyAt(sys, st, unhealthy, rounds, k);
    RoundCorrect(sys, now, u, rounds[k]);
  }

  /** From fresh workers and an empty unhealthy set. */
  lemma FreshSessionRight(sys: System, n: nat, rounds: seq<Round>, k: nat)
    requires RunsWorkers(sys) && Session(sys, Initial(n), {}, rounds) && k < |rounds|
    ensures var u, u' := UnhealthyAt(sys, Initial(n), {}, rounds, k), UnhealthyAt(sys, Initial(n), {}, rounds, k + 1);
            var st' := StateAt(sys, Initial(n), {}, rounds, k + 1);
            && AllRight(rounds[k], u')
            && u' == u + Broken(rounds[k].batch, rounds[k].talk, u)
            && Agree(u', st') && |st'.views| == n && AllCleanOrBroken(st')
  {
    InitialInv(sys, n);
    EveryRoundRight(sys, Initial(n), {}, rounds, k);
  }

  // ---------------------------------------------------------------------------------------
  // Healthy shards are unaffected
  // ---------------------------------------------------------------------------------------

  lemma {:induction false} IdleStaysAlive(sys: System, st: State, cs: seq<Choice>, s: nat)
    requires Inv(sys, st) && Runs(sys, st, cs) && NoStart(cs) && st.program == []
    requires Alive(st, s) && NotKilled(cs, s)
    ensures Alive(After(sys, st, cs), s)
    decreases |cs|
  {
    if cs != [] {
      StepKeepsInv(sys, st, cs[0]);
      AliveStep(sys, st, cs[0], s);
      IdleStaysAlive(sys, Next(sys, st, cs[0]), cs[1..], s);
    }
  }

  ghost predicate Spared(r: Round, s: nat) { NotKilled(r.idle, s) && NotKilled(r.steps, s) }

  /** A round in which shard `s` is not killed leaves it alive, so it is not given up. */
  lemma RoundSpares(sys: System, st: State, unhealthy: set<U32>, r: Round, s: U32)
    requires Possible(sys, st, unhealthy, r) && Agree(unhealthy, st) && RunsWorkers(sys)
    requires Alive(st, s) && Spared(r, s)
    ensures Alive(End(sys, st, unhealthy, r), s) && s !in Unhealthy(unhealthy, r)
  {
    var ready := After(sys, st, r.idle);
    IdleStaysAlive(sys, st, r.idle, s);
    CallsStart(sys, ready, r.calls);
    forall i | 0 <= i < |r.calls| && r.calls[i].0 == s ensures sys.compute(s, r.calls[i].1).Some? {
      assert IsRequest(r.batch, unhealthy, r.calls[i]);
      RequestAnswered(sys, r.batch, s);
    }
    TolerantCallSpares(sys, ready, r.calls, r.steps, s);
    RoundCorrect(sys, st, unhealthy, r);
    var end := End(sys, st, unhealthy, r);
    assert LinkInv(sys, s, end.links[s], end.views[s]);
  }

  lemma RequestAnswered(sys: System, b: Batch, s: U32)
    requires RunsWorkers(sys) && Planned(b) && Worker.Encodable(b.tokens)
    ensures sys.compute(s, EncodeTokenBatch(GroupOf(b, s))).Some?
  {
    GroupEncodable(b, s);
    Worker.ReplyDecodes(GroupOf(b, s), s);
    var msg := EncodeTokenBatch(GroupOf(b, s));
    assert Worker.Reply(msg, s).Ok?;
  }

  lemma NextRoundSpares(sys: System, st: State, unhealthy: set<U32>, rounds: seq<Round>, k: nat, s: U32)
    requires RunsWorkers(sys) && Agree(unhealthy, st) && Session(sys, st, unhealthy, rounds) && k < |rounds|
    requires Alive(StateAt(sys, st, unhealthy, rounds, k), s) && Spared(rounds[k], s)
    ensures Alive(StateAt(sys, st, unhealthy, rounds, k + 1), s)
    ensures s !in UnhealthyAt(sys, st, unhealthy, rounds, k + 1)
  {
    var now, u := StateAt(sys, st, unhealthy, rounds, k), UnhealthyAt(sys, st, unhealthy, rounds, k);
    RoundPossible(sys, st, unhealthy, rounds, k);
    RoundSpares(sys, now, u, rounds[k], s);
  }

  lemma {:induction false} StaysHealthy(sys: System, st: State, unhealthy: set<U32>, rounds: seq<Round>, k: nat, s: U32)
    requires RunsWorkers(sys) && Agree(unhealthy, st) && Session(sys, st, unhealthy, rounds) && k <= |rounds|
    requires Inv(sys, st) && Alive(st, s) && forall j :: 0 <= j < k ==> Spared(rounds[j], s)
    ensures Alive(StateAt(sys, st, unhealthy, rounds, k), s) && s !in UnhealthyAt(sys, st, unhealthy, rounds, k)
  {
    if k == 0 {
      assert LinkInv(sys, s, st.links[s], st.views[s]);
    } else {
      StaysHealthy(sys, st, unhealthy, rounds, k - 1, s);
      assert Spared(rounds[k - 1], s);
      NextRoundSpares(sys, st, unhealthy, rounds, k - 1, s);
    }
  }

  /** Every token sent to shard `s` has its genuine result. */
  ghost predicate Served(r: Round, s: U32) {
    && Planned(r.batch) && |r.results| == |r.batch.tokens|
    && forall i :: 0 <= i < |r.results| && r.batch.home[i] == s ==>
         r.results[r.batch.tokens[i].batchPosition] == Genuine(r.batch, i)
  }

  /** A shard whose worker is never killed is never marked unhealthy, whatever happens to the others. */
  lemma NeverKilledNeverUnhealthy(
    sys: System, st: State, unhealthy: set<U32>, rounds: seq<Round>, k: nat, u: set<U32>, s: U32)
    requires RunsWorkers(sys) && Agree(unhealthy, st) && Session(sys, st, unhealthy, rounds) && k <= |rounds|
    requires u == UnhealthyAt(sys, st, unhealthy, rounds, k)
    requires Inv(sys, st) && Alive(st, s) && forall j :: 0 <= j < k ==> Spared(rounds[j], s)
    ensures s !in u
  {
    StaysHealthy(sys, st, unhealthy, rounds, k, s);
  }

  /** Every token of a shard that is healthy after a round got its genuine result in that round. */
  lemma HealthyShardServed(
    sys: System, st: State, unhealthy: set<U32>, rounds: seq<Round>, k: nat, u: set<U32>, s: U32)
    requires RunsWorkers(sys) && Agree(unhealthy, st) && Session(sys, st, unhealthy, rounds) && k < |rounds|
    requires u == UnhealthyAt(sys, st, unhealthy, rounds, k + 1) && s !in u
    ensures Served(rounds[k], s)
  {
    RoundAllRight(sys, st, unhealthy, rounds, k, u);
    HealthyTokens(rounds[k], u, s);
  }

  lemma RoundAllRight(sys: System, st: State, unhealthy: set<U32>, rounds: seq<Round>, k: nat, u: set<U32>)
    requires RunsWorkers(sys) && Agree(unhealthy, st) && Session(sys, st, unhealthy, rounds) && k < |rounds|
    requires u == UnhealthyAt(sys, st, unhealthy, rounds, k + 1)
    ensures AllRight(rounds[k], u)
  {
    EveryRoundRight(sys, st, unhealthy, rounds, k);
  }

  lemma HealthyTokens(r: Round, unhealthy: set<U32>, s: U32)
    requires AllRight(r, unhealthy) && s !in unhealthy
    ensures Served(r, s)
  {
    forall i | 0 <= i < |r.results| && r.batch.home[i] == s
      ensures r.results[r.batch.tokens[i].batchPosition] == Genuine(r.batch, i)
    {
      assert Right(r, unhealthy, i);
    }
  }
}
