/** When an iteration processes nothing, exactly, and for ever. */
module SchedulerBlocked {
  import opened PageTable
  import opened Sequences
  import opened SchedulerSpec
  import opened SchedulerInvariants

  /** The pool can grow sequence `id` to `tokens` tokens. */
  predicate Grantable(cfg: Config, pool: Pool, id: nat, tokens: nat)
    requires cfg.blockSize > 0
  {
    BlocksNeeded(tokens, cfg.blockSize) <= |pool.Owned(id)| + |pool.free|
  }

  /** The prompt tokens the next chunk of `s` takes out of a full budget. */
  function NextChunk(cfg: Config, s: Sequence): nat {
    if s.cursor >= |s.prompt| then 0
    else Min(Min(|s.prompt| - s.cursor, cfg.maxPrefillChunk), cfg.maxBatchTokens)
  }

  /** What an active sequence asks for next is refused. */
  predicate Refused(cfg: Config, pool: Pool, s: Sequence)
    requires cfg.blockSize > 0
  {
    match s.phase
    case Decode => !Grantable(cfg, pool, s.id, s.TotalTokens() + 1)
    case Prefill => !Grantable(cfg, pool, s.id, s.cursor + NextChunk(cfg, s))
    case Finished => true
  }

  /** The head of the waiting queue has an empty prompt or asks for what is refused. */
  predicate HeadRefused(cfg: Config, pool: Pool, waiting: seq<Sequence>)
    requires cfg.blockSize > 0
  {
    waiting == [] || waiting[0].prompt == []
    || !Grantable(cfg, pool, waiting[0].id, waiting[0].cursor + NextChunk(cfg, waiting[0]))
  }

  /** No active sequence and not the head of the queue can be given what it asks for. */
  predicate Blocked(cfg: Config, st: State)
    requires cfg.blockSize > 0
  {
    && (forall i :: 0 <= i < |st.active| ==> Refused(cfg, st.pool, st.active[i]))
    && HeadRefused(cfg, st.pool, st.waiting)
  }

  /** The pools differ at most in empty table entries. */
  ghost predicate SamePool(p: Pool, q: Pool) {
    p.free == q.free && forall id :: p.Owned(id) == q.Owned(id)
  }

  /** Nothing happened, apart from requests that were refused. */
  ghost predicate Idle(w: Work, w': Work) {
    && w'.budget == w.budget && w'.results == w.results && SamePool(w.st.pool, w'.st.pool)
    && w'.st == w.st.(pool := w'.st.pool)
  }

  lemma RefusedGrant(cfg: Config, pool: Pool, id: nat, tokens: nat)
    requires cfg.blockSize > 0
    ensures var g := EnsureCapacity(pool, id, tokens, cfg.blockSize);
            && (g.ok <==> Grantable(cfg, pool, id, tokens))
            && (!g.ok ==> SamePool(pool, g.pool))
  {
    GrowCorrect(pool, id, BlocksNeeded(tokens, cfg.blockSize));
  }

  // ---------------------------------------------------------------------------------------
  // The decode loop
  // ---------------------------------------------------------------------------------------

  predicate DecodeRefused(cfg: Config, pool: Pool, s: Sequence)
    requires cfg.blockSize > 0
  {
    s.phase == Decode ==> Refused(cfg, pool, s)
  }

  ghost predicate DecodesRefused(cfg: Config, pool: Pool, active: seq<Sequence>, i: nat)
    requires cfg.blockSize > 0
  {
    forall j :: i <= j < |active| ==> DecodeRefused(cfg, pool, active[j])
  }

  lemma DecodesRefusedFrom(cfg: Config, p: Pool, q: Pool, active: seq<Sequence>, i: nat)
    requires cfg.blockSize > 0 && SamePool(p, q) && i < |active|
    ensures DecodesRefused(cfg, p, active, i) <==>
              DecodeRefused(cfg, p, active[i]) && DecodesRefused(cfg, q, active, i + 1)
  {
    if DecodeRefused(cfg, p, active[i]) && DecodesRefused(cfg, q, active, i + 1) {
      forall j | i <= j < |active| ensures DecodeRefused(cfg, p, active[j]) {
        if j > i { assert DecodeRefused(cfg, q, active[j]); }
      }
    }
  }

  lemma DecodeOneIdle(cfg: Config, w: Work, i: nat)
    requires cfg.blockSize > 0 && i < |w.st.active| && w.budget > 0
    ensures var (w', i') := DecodeOne(cfg, w, i);
            if DecodeRefused(cfg, w.st.pool, w.st.active[i]) then Idle(w, w') && i' == i + 1
            else w'.budget < w.budget
  {
    var s := w.st.active[i];
    if s.phase == Decode { RefusedGrant(cfg, w.st.pool, s.id, s.TotalTokens() + 1); }
  }

  /** From index `i` on, the loop does nothing if every request is refused, and else spends budget. */
  lemma {:induction false} DecodeLoopIdle(cfg: Config, w: Work, i: nat)
    requires cfg.blockSize > 0 && Inv(cfg, w.st) && w.budget > 0
    ensures var w' := DecodeLoop(cfg, w, i);
            if DecodesRefused(cfg, w.st.pool, w.st.active, i) then Idle(w, w') else w'.budget < w.budget
    decreases |w.st.active| - i
  {
    if i < |w.st.active| {
      var (w', i') := DecodeOne(cfg, w, i);
      DecodeOneIdle(cfg, w, i);
      DecodeOneInv(cfg, w, i);
      if DecodeRefused(cfg, w.st.pool, w.st.active[i]) {
        DecodesRefusedFrom(cfg, w.st.pool, w'.st.pool, w.st.active, i);
        DecodeLoopIdle(cfg, w', i');
      } else {
        DecodeLoopCorrect(cfg, w', i');
      }
    }
  }

  // ---------------------------------------------------------------------------------------
  // The prefill loop
  // ---------------------------------------------------------------------------------------

  predicate PrefillRefused(cfg: Config, pool: Pool, s: Sequence)
    requires cfg.blockSize > 0
  {
    s.phase == Prefill ==> Refused(cfg, pool, s)
  }

  ghost predicate PrefillsRefused(cfg: Config, pool: Pool, active: seq<Sequence>, i: nat)
    requires cfg.blockSize > 0
  {
    forall j :: i <= j < |active| ==> PrefillRefused(cfg, pool, active[j])
  }

  lemma PrefillsRefusedFrom(cfg: Config, p: Pool, q: Pool, active: seq<Sequence>, i: nat)
    requires cfg.blockSize > 0 && SamePool(p, q) && i < |active|
    ensures PrefillsRefused(cfg, p, active, i) <==>
              PrefillRefused(cfg, p, active[i]) && PrefillsRefused(cfg, q, active, i + 1)
  {
    if PrefillRefused(cfg, p, active[i]) && PrefillsRefused(cfg, q, active, i + 1) {
      forall j | i <= j < |active| ensures PrefillRefused(cfg, p, active[j]) {
        if j > i { assert PrefillRefused(cfg, q, active[j]); }
      }
    }
  }

  /** A chunk out of the full budget processes nothing if it is empty or refused. */
  lemma ChunkIdle(cfg: Config, pool: Pool, s: Sequence)
    requires cfg.blockSize > 0 && cfg.maxBatchTokens > 0 && cfg.maxPrefillChunk > 0
    ensures var c := PrefillChunk(cfg, pool, s, cfg.maxBatchTokens);
            && (c.tokens == 0 <==> s.cursor >= |s.prompt| || !Grantable(cfg, pool, s.id, s.cursor + NextChunk(cfg, s)))
            && (c.tokens == 0 ==> SamePool(pool, c.pool))
            && (c.tokens == 0 ==> c.s == if s.cursor >= |s.prompt| then s.(phase := Decode) else s)
  {
    RefusedGrant(cfg, pool, s.id, s.cursor + NextChunk(cfg, s));
  }

  lemma PrefillOneIdle(cfg: Config, w: Work, i: nat)
    requires cfg.blockSize > 0 && i < |w.st.active| && w.budget == cfg.maxBatchTokens > 0 && cfg.maxPrefillChunk > 0
    requires ActiveOk(cfg, w.st.pool, w.st.active[i])
    ensures var w' := PrefillOne(cfg, w, i);
            if PrefillRefused(cfg, w.st.pool, w.st.active[i]) then Idle(w, w') else w'.budget < w.budget
  {
    var s := w.st.active[i];
    if s.phase == Prefill {
      ChunkIdle(cfg, w.st.pool, s);
      assert w.st.active[i := s] == w.st.active;
    }
  }

  lemma {:induction false} PrefillLoopIdle(cfg: Config, w: Work, i: nat)
    requires cfg.blockSize > 0 && Inv(cfg, w.st) && w.budget == cfg.maxBatchTokens > 0 && cfg.maxPrefillChunk > 0
    ensures var w' := PrefillLoop(cfg, w, i);
            if PrefillsRefused(cfg, w.st.pool, w.st.active, i) then Idle(w, w') else w'.budget < w.budget
    decreases |w.st.active| - i
  {
    if i < |w.st.active| {
      var w' := PrefillOne(cfg, w, i);
      assert ActiveOk(cfg, w.st.pool, w.st.active[i]);
      PrefillOneIdle(cfg, w, i);
      PrefillOneCorrect(cfg, w, i);
      if PrefillRefused(cfg, w.st.pool, w.st.active[i]) {
        PrefillsRefusedFrom(cfg, w.st.pool, w'.st.pool, w.st.active, i);
        PrefillLoopIdle(cfg, w', i + 1);
      } else {
        PrefillLoopCorrect(cfg, w', i + 1);
      }
    }
  }

  // ---------------------------------------------------------------------------------------
  // The admission loop and the whole iteration
  // ---------------------------------------------------------------------------------------

  /** The waiting queue after a refused admission: an empty prompt at its head has changed phase. */
  function HeadTried(waiting: seq<Sequence>): seq<Sequence> {
    if waiting != [] && waiting[0].prompt == [] then waiting[0 := waiting[0].(phase := Decode)] else waiting
  }

  /** One try of the admission loop. */
  lemma AdmitOneIdle(cfg: Config, w: Work)
    requires cfg.blockSize > 0 && w.st.waiting != [] && WaitingOk(w.st.pool, w.st.waiting[0])
    requires w.budget == cfg.maxBatchTokens > 0 && cfg.maxPrefillChunk > 0
    ensures var (w', more) := AdmitOne(cfg, w);
            if HeadRefused(cfg, w.st.pool, w.st.waiting) then
              !more && Idle(w.(st := w.st.(waiting := HeadTried(w.st.waiting))), w')
            else more && w'.budget < w.budget
  {
    var s := w.st.waiting[0];
    ChunkIdle(cfg, w.st.pool, s);
    assert w.st.waiting[0 := s] == w.st.waiting;
  }

  lemma AdmitLoopIdle(cfg: Config, w: Work)
    requires cfg.blockSize > 0 && Inv(cfg, w.st) && w.budget == cfg.maxBatchTokens > 0 && cfg.maxPrefillChunk > 0
    ensures var w' := AdmitLoop(cfg, w);
            if HeadRefused(cfg, w.st.pool, w.st.waiting) then
              Idle(w.(st := w.st.(waiting := HeadTried(w.st.waiting))), w')
            else w'.budget < w.budget
  {
    if w.st.waiting != [] {
      assert WaitingOk(w.st.pool, w.st.waiting[0]);
      AdmitOneIdle(cfg, w);
      AdmitOneCorrect(cfg, w);
      var (w', more) := AdmitOne(cfg, w);
      if more { AdmitLoopCorrect(cfg, w'); }
    }
  }

  lemma BlockedIsStages(cfg: Config, st: State)
    requires cfg.blockSize > 0 && Inv(cfg, st)
    ensures Blocked(cfg, st) <==>
              && DecodesRefused(cfg, st.pool, st.active, 0) && PrefillsRefused(cfg, st.pool, st.active, 0)
              && HeadRefused(cfg, st.pool, st.waiting)
  {
    if DecodesRefused(cfg, st.pool, st.active, 0) && PrefillsRefused(cfg, st.pool, st.active, 0) {
      forall j | 0 <= j < |st.active| ensures Refused(cfg, st.pool, st.active[j]) {
        assert DecodeRefused(cfg, st.pool, st.active[j]) && PrefillRefused(cfg, st.pool, st.active[j]);
      }
    }
  }

  /** Refusals look at the free blocks and the owned ones only. */
  lemma SameRefusals(cfg: Config, p: Pool, q: Pool, active: seq<Sequence>, waiting: seq<Sequence>)
    requires cfg.blockSize > 0 && SamePool(p, q)
    ensures PrefillsRefused(cfg, p, active, 0) <==> PrefillsRefused(cfg, q, active, 0)
    ensures DecodesRefused(cfg, p, active, 0) <==> DecodesRefused(cfg, q, active, 0)
    ensures HeadRefused(cfg, p, waiting) <==> HeadRefused(cfg, q, waiting)
    ensures HeadRefused(cfg, p, waiting) <==> HeadRefused(cfg, q, HeadTried(waiting))
  {
    forall j | 0 <= j < |active|
      ensures PrefillRefused(cfg, p, active[j]) <==> PrefillRefused(cfg, q, active[j])
      ensures DecodeRefused(cfg, p, active[j]) <==> DecodeRefused(cfg, q, active[j])
    {}
  }

  /** The three loops one after the other, each on what the one before it left. */
  lemma StagesIdle(cfg: Config, st: State, w0: Work, w1: Work, w2: Work, w3: Work)
    requires cfg.blockSize > 0 && Inv(cfg, st) && cfg.maxBatchTokens > 0 && cfg.maxPrefillChunk > 0
    requires w0 == Work(st, cfg.maxBatchTokens, [], false) && w1 == DecodeLoop(cfg, w0, 0)
    requires w2 == PrefillLoop(cfg, w1, 0) && w3 == AdmitLoop(cfg, w2)
    requires Inv(cfg, w1.st) && Inv(cfg, w2.st) && w3.budget <= w2.budget <= w1.budget <= w0.budget
    ensures if Blocked(cfg, st) then Idle(w0.(st := st.(waiting := HeadTried(st.waiting))), w3)
            else w3.budget < w0.budget
  {
    BlockedIsStages(cfg, st);
    DecodeLoopIdle(cfg, w0, 0);
    if DecodesRefused(cfg, st.pool, st.active, 0) {
      SameRefusals(cfg, st.pool, w1.st.pool, st.active, st.waiting);
      PrefillLoopIdle(cfg, w1, 0);
      if PrefillsRefused(cfg, st.pool, st.active, 0) {
        SameRefusals(cfg, st.pool, w2.st.pool, st.active, st.waiting);
        AdmitLoopIdle(cfg, w2);
      }
    }
  }

  /** An iteration with positive budget and chunk size processes nothing exactly when everything it
      could do is refused, whatever the pool. */
  lemma NothingDoneIff(cfg: Config, st: State)
    requires cfg.blockSize > 0 && Inv(cfg, st) && cfg.maxBatchTokens > 0 && cfg.maxPrefillChunk > 0
    ensures TokensIn(Step(cfg, st).results) == 0 <==> Blocked(cfg, st)
    ensures Blocked(cfg, st) ==>
              Idle(Work(st.(waiting := HeadTried(st.waiting)), cfg.maxBatchTokens, [], false), Step(cfg, st))
  {
    var w0 := Work(st, cfg.maxBatchTokens, [], false);
    var w1 := DecodeLoop(cfg, w0, 0);
    var w2 := PrefillLoop(cfg, w1, 0);
    DecodeLoopCorrect(cfg, w0, 0);
    PrefillLoopCorrect(cfg, w1, 0);
    AdmitLoopCorrect(cfg, w2);
    StagesIdle(cfg, st, w0, w1, w2, Step(cfg, st));
  }

  /** A blocked scheduler stays blocked. */
  lemma BlockedStep(cfg: Config, st: State)
    requires cfg.blockSize > 0 && Inv(cfg, st) && cfg.maxBatchTokens > 0 && cfg.maxPrefillChunk > 0 && Blocked(cfg, st)
    ensures var st' := Step(cfg, st).st;
            && Step(cfg, st).results == [] && Inv(cfg, st') && Blocked(cfg, st')
            && st'.active == st.active && st'.finished == st.finished && st'.log == st.log
            && st'.waiting == HeadTried(st.waiting)
  {
    NothingDoneIff(cfg, st);
    StepCorrect(cfg, st);
    var st' := Step(cfg, st).st;
    SameRefusals(cfg, st.pool, st'.pool, st.active, st.waiting);
    BlockedIsStages(cfg, st);
    BlockedIsStages(cfg, st');
  }
}
