/** The continuous-batching scheduler of src/core/scheduler.hpp on values.

    The three loops of `step` are recursive functions here; `Scheduler.dfy` holds the object whose
    loops update sequences, queues and page table in place and compute exactly these functions. */
module SchedulerSpec {
  import opened PageTable
  import opened Sequences
  import opened Metrics

  datatype Config = Config(maxBatchTokens: nat, maxPrefillChunk: nat, blockSize: nat, numBlocks: nat)

  datatype StepResult = StepResult(id: nat, wasPrefill: bool, tokens: nat, phaseAfter: Phase)

  /** One call of the telemetry recorder. */
  datatype Recorded = Recorded(id: nat, kind: MetricKind)

  /** `finished` and `log` record what left the scheduler: finished sequences and telemetry calls. */
  datatype State = State(
    pool: Pool,
    waiting: seq<Sequence>,
    active: seq<Sequence>,
    finished: seq<Sequence>,
    log: seq<Recorded>)

  /** The state inside one iteration; `denied` records that a block request was refused. */
  datatype Work = Work(st: State, budget: nat, results: seq<StepResult>, denied: bool)

  function Min(a: nat, b: nat): nat { if a <= b then a else b }

  // ---------------------------------------------------------------------------------------
  // The iteration
  // ---------------------------------------------------------------------------------------

  function Admit(st: State, s: Sequence): State {
    st.(waiting := st.waiting + [s])
  }

  /** Generates one token for the active sequence at index `i`, whose blocks are already granted,
      and the next index: a finished sequence frees its blocks and leaves the active set. */
  function EmitToken(w: Work, i: nat): (r: (Work, nat))
    requires i < |w.st.active| && w.budget > 0
    ensures |r.0.st.active| - r.1 < |w.st.active| - i && r.1 <= |r.0.st.active|
  {
    var s := w.st.active[i];
    var kind := if s.generated == [] then TTFT else InterToken;
    var st := w.st.(log := w.st.log + [Recorded(s.id, kind)]);
    var s' := s.(generated := s.generated + [PLACEHOLDER]);
    if |s'.generated| >= s'.maxNew then
      (w.(st := st.(pool := FreeSequence(st.pool, s.id),
                    active := st.active[..i] + st.active[i + 1..],
                    finished := st.finished + [s'.(phase := Finished)]),
          budget := w.budget - 1,
          results := w.results + [StepResult(s.id, false, 1, Finished)]), i)
    else
      (w.(st := st.(active := st.active[i := s']),
          budget := w.budget - 1,
          results := w.results + [StepResult(s.id, false, 1, Decode)]), i + 1)
  }

  /** One iteration of the decode loop at index `i`, and the next index. */
  function DecodeOne(cfg: Config, w: Work, i: nat): (r: (Work, nat))
    requires cfg.blockSize > 0 && i < |w.st.active| && w.budget > 0
    ensures |r.0.st.active| - r.1 < |w.st.active| - i && r.1 <= |r.0.st.active|
  {
    var s := w.st.active[i];
    if s.phase != Decode then (w, i + 1)
    else
      var g := EnsureCapacity(w.st.pool, s.id, s.TotalTokens() + 1, cfg.blockSize);
      if !g.ok then (w.(st := w.st.(pool := g.pool), denied := true), i + 1)
      else EmitToken(w.(st := w.st.(pool := g.pool)), i)
  }

  function DecodeLoop(cfg: Config, w: Work, i: nat): Work
    requires cfg.blockSize > 0
    decreases |w.st.active| - i
  {
    if i < |w.st.active| && w.budget > 0 then
      var (w', i') := DecodeOne(cfg, w, i);
      DecodeLoop(cfg, w', i')
    else w
  }

  datatype Chunk = Chunk(pool: Pool, s: Sequence, tokens: nat, denied: bool)

  /** Prefills up to `maxPrefillChunk` tokens of one sequence, bounded by the budget. */
  function PrefillChunk(cfg: Config, pool: Pool, s: Sequence, budget: nat): (c: Chunk)
    requires cfg.blockSize > 0
    ensures c.tokens <= budget
  {
    if s.PrefillComplete() then Chunk(pool, s.(phase := Decode), 0, false)
    else
      var n := Min(Min(|s.prompt| - s.cursor, cfg.maxPrefillChunk), budget);
      if n == 0 then Chunk(pool, s, 0, false)
      else
        var g := EnsureCapacity(pool, s.id, s.cursor + n, cfg.blockSize);
        if !g.ok then Chunk(g.pool, s, 0, true)
        else
          var s' := s.(cursor := s.cursor + n);
          Chunk(g.pool, if s'.PrefillComplete() then s'.(phase := Decode) else s', n, false)
  }

  /** One iteration of the loop over active sequences still in prefill. */
  function PrefillOne(cfg: Config, w: Work, i: nat): (r: Work)
    requires cfg.blockSize > 0 && i < |w.st.active| && w.budget > 0
    ensures |r.st.active| == |w.st.active|
  {
    var s := w.st.active[i];
    if s.phase != Prefill then w
    else
      var c := PrefillChunk(cfg, w.st.pool, s, w.budget);
      Work(w.st.(pool := c.pool, active := w.st.active[i := c.s]), w.budget - c.tokens,
           if c.tokens > 0 then w.results + [StepResult(s.id, true, c.tokens, c.s.phase)] else w.results,
           w.denied || c.denied)
  }

  function PrefillLoop(cfg: Config, w: Work, i: nat): Work
    requires cfg.blockSize > 0
    decreases |w.st.active| - i
  {
    if i < |w.st.active| && w.budget > 0 then PrefillLoop(cfg, PrefillOne(cfg, w, i), i + 1) else w
  }

  /** One iteration of the admission loop, and whether the loop goes on. */
  function AdmitOne(cfg: Config, w: Work): (r: (Work, bool))
    requires cfg.blockSize > 0 && w.st.waiting != [] && w.budget > 0
    ensures r.1 ==> |r.0.st.waiting| < |w.st.waiting|
  {
    var c := PrefillChunk(cfg, w.st.pool, w.st.waiting[0], w.budget);
    if c.tokens == 0 then
      (w.(st := w.st.(pool := c.pool, waiting := w.st.waiting[0 := c.s]), denied := w.denied || c.denied), false)
    else
      (w.(st := w.st.(pool := c.pool, waiting := w.st.waiting[1..], active := w.st.active + [c.s]),
          budget := w.budget - c.tokens,
          results := w.results + [StepResult(c.s.id, true, c.tokens, c.s.phase)]), true)
  }

  function AdmitLoop(cfg: Config, w: Work): Work
    requires cfg.blockSize > 0
    decreases |w.st.waiting|
  {
    if w.budget > 0 && w.st.waiting != [] then
      var (w', more) := AdmitOne(cfg, w);
      if more then AdmitLoop(cfg, w') else w'
    else w
  }

  /** One scheduling iteration. */
  function Step(cfg: Config, st: State): Work
    requires cfg.blockSize > 0
  {
    var w1 := DecodeLoop(cfg, Work(st, cfg.maxBatchTokens, [], false), 0);
    var w2 := PrefillLoop(cfg, w1, 0);
    AdmitLoop(cfg, w2)
  }

  // ---------------------------------------------------------------------------------------
  // The invariant
  // ---------------------------------------------------------------------------------------

  function Ids(ss: seq<Sequence>): (r: seq<nat>)
    ensures |r| == |ss| && forall i :: 0 <= i < |ss| ==> r[i] == ss[i].id
  {
    seq(|ss|, i requires 0 <= i < |ss| => ss[i].id)
  }

  function LiveIds(st: State): seq<nat> { Ids(st.active) + Ids(st.waiting) }

  /** A running sequence is either inside its prompt or generating, and owns exactly the blocks
      its processed tokens need. */
  ghost predicate ActiveOk(cfg: Config, pool: Pool, s: Sequence)
    requires cfg.blockSize > 0
  {
    && (s.phase == Prefill ==> 0 < s.cursor < |s.prompt| && s.generated == [])
    && (s.phase == Decode ==> 0 < s.cursor == |s.prompt| && |s.generated| < s.Target())
    && s.phase != Finished
    && |pool.Owned(s.id)| == BlocksNeeded(s.cursor + |s.generated|, cfg.blockSize)
  }

  /** A waiting sequence is untouched, except that an empty prompt at the head of the queue has
      been moved to the decode phase without ever being admitted. It owns nothing. */
  ghost predicate WaitingOk(pool: Pool, s: Sequence) {
    && s.cursor == 0 && s.generated == []
    && (s.phase == Prefill || (s.phase == Decode && s.prompt == []))
    && pool.Owned(s.id) == []
  }

  ghost predicate FinishedOk(s: Sequence) {
    s.phase == Finished && s.cursor == |s.prompt| && |s.generated| == s.Target()
  }

  ghost predicate Inv(cfg: Config, st: State)
    requires cfg.blockSize > 0
  {
    && (forall i :: 0 <= i < |st.active| ==> ActiveOk(cfg, st.pool, st.active[i]))
    && (forall i :: 0 <= i < |st.waiting| ==> WaitingOk(st.pool, st.waiting[i]))
    && (forall i :: 0 <= i < |st.finished| ==> FinishedOk(st.finished[i]))
    && Ledger(st.pool, LiveIds(st), cfg.numBlocks)
  }

  // ---------------------------------------------------------------------------------------
  // Measures
  // ---------------------------------------------------------------------------------------

  function Outstanding(ss: seq<Sequence>): int {
    if ss == [] then 0 else ss[0].Remaining() + Outstanding(ss[1..])
  }

  /** Tokens still to be processed by the live sequences. */
  function RemainingWork(st: State): int { Outstanding(st.active) + Outstanding(st.waiting) }

  function TokensIn(results: seq<StepResult>): nat {
    if results == [] then 0 else TokensIn(results[..|results| - 1]) + results[|results| - 1].tokens
  }

  /** Every token is paid for with exactly one unit of budget and one unit of remaining work. */
  ghost predicate Pays(w: Work, w': Work) {
    && w'.budget <= w.budget
    && w'.budget + TokensIn(w'.results) == w.budget + TokensIn(w.results)
    && RemainingWork(w.st) - RemainingWork(w'.st) == w.budget - w'.budget
    && (w.denied ==> w'.denied)
  }

  lemma {:induction false} OutstandingUpdate(ss: seq<Sequence>, i: nat, s: Sequence)
    requires i < |ss|
    ensures Outstanding(ss[i := s]) == Outstanding(ss) - ss[i].Remaining() + s.Remaining()
  {
    if i > 0 {
      assert ss[i := s][1..] == ss[1..][i - 1 := s];
      OutstandingUpdate(ss[1..], i - 1, s);
    } else {
      assert ss[i := s][1..] == ss[1..];
    }
  }

  lemma {:induction false} OutstandingRemove(ss: seq<Sequence>, i: nat)
    requires i < |ss|
    ensures Outstanding(ss[..i] + ss[i + 1..]) == Outstanding(ss) - ss[i].Remaining()
  {
    var rest := ss[..i] + ss[i + 1..];
    if i > 0 {
      assert rest[1..] == ss[1..][..i - 1] + ss[1..][i..];
      OutstandingRemove(ss[1..], i - 1);
    } else {
      assert rest == ss[1..];
    }
  }

  lemma {:induction false} OutstandingAppend(ss: seq<Sequence>, s: Sequence)
    ensures Outstanding(ss + [s]) == Outstanding(ss) + s.Remaining()
  {
    if ss == [] {
      assert ss + [s] == [s] && [s][1..] == [];
    } else {
      assert (ss + [s])[1..] == ss[1..] + [s];
      OutstandingAppend(ss[1..], s);
    }
  }

  lemma TokensAppend(results: seq<StepResult>, r: StepResult)
    ensures TokensIn(results + [r]) == TokensIn(results) + r.tokens
  {
    assert (results + [r])[..|results|] == results;
  }
}
