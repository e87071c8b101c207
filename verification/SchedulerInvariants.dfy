/** What every iteration of the scheduler keeps: exact memory accounting, the token budget, the
    exact drop in remaining work, admission order and telemetry counts. */
module SchedulerInvariants {
  import opened Counting
  import opened PageTable
  import opened Sequences
  import opened SchedulerSpec

  // ---------------------------------------------------------------------------------------
  // Block requests
  // ---------------------------------------------------------------------------------------

  /** A request of a live sequence that already owns what `before <= after` tokens need. */
  lemma Request(cfg: Config, pool: Pool, ids: seq<nat>, id: nat, before: nat, after: nat) returns (g: Grant)
    requires cfg.blockSize > 0 && Ledger(pool, ids, cfg.numBlocks) && id in ids && before <= after
    requires |pool.Owned(id)| == BlocksNeeded(before, cfg.blockSize)
    ensures g == EnsureCapacity(pool, id, after, cfg.blockSize)
    ensures Ledger(g.pool, ids, cfg.numBlocks)
    ensures |g.pool.Owned(id)| == BlocksNeeded(if g.ok then after else before, cfg.blockSize)
    ensures forall other :: other != id ==> g.pool.Owned(other) == pool.Owned(other)
  {
    g := EnsureCapacity(pool, id, after, cfg.blockSize);
    var needed := BlocksNeeded(after, cfg.blockSize);
    BlocksNeededMonotone(before, after, cfg.blockSize);
    GrowCorrect(pool, id, needed);
    GrowKeepsLedger(pool, id, needed, ids, cfg.numBlocks);
  }

  /** Live ids are distinct, so a change to the blocks of one sequence leaves the others alone. */
  lemma OthersKept(cfg: Config, st: State, pool: Pool, k: nat)
    requires cfg.blockSize > 0 && Inv(cfg, st) && k < |LiveIds(st)|
    requires forall other :: other != LiveIds(st)[k] ==> pool.Owned(other) == st.pool.Owned(other)
    ensures forall i :: 0 <= i < |st.active| && i != k ==> ActiveOk(cfg, pool, st.active[i])
    ensures forall i :: 0 <= i < |st.waiting| && |st.active| + i != k ==> WaitingOk(pool, st.waiting[i])
  {
    var ids := LiveIds(st);
    forall i | 0 <= i < |st.active| && i != k ensures ActiveOk(cfg, pool, st.active[i]) {
      assert ids[i] == st.active[i].id;
      DistinctAt(ids, i, k);
      assert ActiveOk(cfg, st.pool, st.active[i]);
    }
    forall i | 0 <= i < |st.waiting| && |st.active| + i != k ensures WaitingOk(pool, st.waiting[i]) {
      assert ids[|st.active| + i] == st.waiting[i].id;
      DistinctAt(ids, |st.active| + i, k);
      assert WaitingOk(st.pool, st.waiting[i]);
    }
  }

  /** Replacing one active sequence by its successor. */
  lemma ReplaceActive(cfg: Config, st: State, i: nat, s: Sequence, pool: Pool)
    requires cfg.blockSize > 0 && Inv(cfg, st) && i < |st.active| && s.id == st.active[i].id
    requires Ledger(pool, LiveIds(st), cfg.numBlocks) && ActiveOk(cfg, pool, s)
    requires forall other :: other != s.id ==> pool.Owned(other) == st.pool.Owned(other)
    ensures Inv(cfg, st.(pool := pool, active := st.active[i := s]))
  {
    var st' := st.(pool := pool, active := st.active[i := s]);
    assert LiveIds(st)[i] == s.id;
    OthersKept(cfg, st, pool, i);
    assert LiveIds(st') == LiveIds(st);
  }

  /** Moving the head of the waiting queue to the end of the active set. */
  lemma MoveHead(cfg: Config, st: State, s: Sequence, pool: Pool)
    requires cfg.blockSize > 0 && Inv(cfg, st) && st.waiting != [] && s.id == st.waiting[0].id
    requires Ledger(pool, LiveIds(st), cfg.numBlocks) && ActiveOk(cfg, pool, s)
    requires forall other :: other != s.id ==> pool.Owned(other) == st.pool.Owned(other)
    ensures Inv(cfg, st.(pool := pool, active := st.active + [s], waiting := st.waiting[1..]))
  {
    var st' := st.(pool := pool, active := st.active + [s], waiting := st.waiting[1..]);
    assert LiveIds(st)[|st.active|] == s.id;
    OthersKept(cfg, st, pool, |st.active|);
    assert LiveIds(st') == LiveIds(st);
    forall i | 0 <= i < |st'.waiting| ensures WaitingOk(pool, st'.waiting[i]) {
      assert st'.waiting[i] == st.waiting[i + 1];
    }
  }

  /** The head of the waiting queue is examined but not admitted. */
  lemma KeepHead(cfg: Config, st: State, s: Sequence, pool: Pool)
    requires cfg.blockSize > 0 && Inv(cfg, st) && st.waiting != [] && s.id == st.waiting[0].id
    requires Ledger(pool, LiveIds(st), cfg.numBlocks) && WaitingOk(pool, s)
    requires forall other :: other != s.id ==> pool.Owned(other) == st.pool.Owned(other)
    ensures Inv(cfg, st.(pool := pool, waiting := st.waiting[0 := s]))
  {
    var st' := st.(pool := pool, waiting := st.waiting[0 := s]);
    assert LiveIds(st)[|st.active|] == s.id;
    OthersKept(cfg, st, pool, |st.active|);
    assert LiveIds(st') == LiveIds(st);
  }

  // ---------------------------------------------------------------------------------------
  // The decode loop
  // ---------------------------------------------------------------------------------------

  lemma DecodeRequest(cfg: Config, w: Work, i: nat) returns (s: Sequence, g: Grant)
    requires cfg.blockSize > 0 && Inv(cfg, w.st) && i < |w.st.active| && w.st.active[i].phase == Decode
    ensures s == w.st.active[i] && ActiveOk(cfg, w.st.pool, s) && LiveIds(w.st)[i] == s.id
    ensures g == EnsureCapacity(w.st.pool, s.id, s.TotalTokens() + 1, cfg.blockSize)
    ensures Ledger(g.pool, LiveIds(w.st), cfg.numBlocks)
    ensures |g.pool.Owned(s.id)| == BlocksNeeded(s.TotalTokens() + (if g.ok then 1 else 0), cfg.blockSize)
    ensures forall other :: other != s.id ==> g.pool.Owned(other) == w.st.pool.Owned(other)
  {
    s := w.st.active[i];
    assert LiveIds(w.st)[i] == s.id;
    assert ActiveOk(cfg, w.st.pool, s);
    g := Request(cfg, w.st.pool, LiveIds(w.st), s.id, s.TotalTokens(), s.TotalTokens() + 1);
  }

  /** A decode step that is refused its block, or that does not finish its sequence. */
  lemma DecodeKeeps(cfg: Config, w: Work, i: nat)
    requires cfg.blockSize > 0 && Inv(cfg, w.st) && i < |w.st.active| && w.st.active[i].phase == Decode
    requires w.budget > 0 && DecodeOne(cfg, w, i).1 == i + 1
    ensures Inv(cfg, DecodeOne(cfg, w, i).0.st)
  {
    var s, g := DecodeRequest(cfg, w, i);
    var st' := DecodeOne(cfg, w, i).0.st;
    var s' := KeepingStep(cfg, w, i, s, g, st');
    ReplaceActive(cfg, w.st, i, s', g.pool);
  }

  /** What any other decode step changes. */
  lemma KeepingStep(cfg: Config, w: Work, i: nat, s: Sequence, g: Grant, st': State) returns (s': Sequence)
    requires cfg.blockSize > 0 && i < |w.st.active| && s == w.st.active[i] && s.phase == Decode && w.budget > 0
    requires DecodeOne(cfg, w, i).1 == i + 1 && st' == DecodeOne(cfg, w, i).0.st
    requires g == EnsureCapacity(w.st.pool, s.id, s.TotalTokens() + 1, cfg.blockSize)
    ensures s' == if g.ok then s.(generated := s.generated + [PLACEHOLDER]) else s
    ensures g.ok ==> |s'.generated| < s'.maxNew
    ensures st'.pool == g.pool && st'.waiting == w.st.waiting && st'.finished == w.st.finished
    ensures st'.active == w.st.active[i := s'] && st' == w.st.(pool := st'.pool, active := st'.active, log := st'.log)
  {
    s' := if g.ok then s.(generated := s.generated + [PLACEHOLDER]) else s;
    assert w.st.active[i := s] == w.st.active;
  }

  lemma DecodeFinishes(cfg: Config, w: Work, i: nat)
    requires cfg.blockSize > 0 && Inv(cfg, w.st) && i < |w.st.active| && w.st.active[i].phase == Decode
    requires w.budget > 0 && DecodeOne(cfg, w, i).1 == i
    ensures Inv(cfg, DecodeOne(cfg, w, i).0.st)
  {
    var s, g := DecodeRequest(cfg, w, i);
    var st' := DecodeOne(cfg, w, i).0.st;
    var done := FinishingStep(cfg, w, i, s, g, st');
    assert FinishedOk(done);
    FinishDecode(cfg, w.st, i, g.pool, done, st');
  }

  /** What a decode step that finishes its sequence changes. */
  lemma FinishingStep(cfg: Config, w: Work, i: nat, s: Sequence, g: Grant, st': State) returns (done: Sequence)
    requires cfg.blockSize > 0 && i < |w.st.active| && s == w.st.active[i] && s.phase == Decode && w.budget > 0
    requires DecodeOne(cfg, w, i).1 == i && st' == DecodeOne(cfg, w, i).0.st
    requires g == EnsureCapacity(w.st.pool, s.id, s.TotalTokens() + 1, cfg.blockSize)
    ensures g.ok && done == s.(generated := s.generated + [PLACEHOLDER], phase := Finished)
    ensures |done.generated| >= done.maxNew
    ensures st'.pool == FreeSequence(g.pool, s.id) && st'.waiting == w.st.waiting
    ensures st'.active == w.st.active[..i] + w.st.active[i + 1..] && st'.finished == w.st.finished + [done]
  {
    done := s.(generated := s.generated + [PLACEHOLDER], phase := Finished);
  }

  lemma DecodeOneInv(cfg: Config, w: Work, i: nat)
    requires cfg.blockSize > 0 && Inv(cfg, w.st) && i < |w.st.active| && w.budget > 0
    ensures Inv(cfg, DecodeOne(cfg, w, i).0.st)
  {
    if w.st.active[i].phase == Decode {
      if DecodeOne(cfg, w, i).1 == i {
        DecodeFinishes(cfg, w, i);
      } else {
        DecodeKeeps(cfg, w, i);
      }
    }
  }

  /** The last decode step of a sequence, from the grown pool on. */
  lemma FinishDecode(cfg: Config, st: State, i: nat, pool: Pool, done: Sequence, st': State)
    requires cfg.blockSize > 0 && Inv(cfg, st) && i < |st.active| && FinishedOk(done)
    requires Ledger(pool, LiveIds(st), cfg.numBlocks)
    requires forall other :: other != st.active[i].id ==> pool.Owned(other) == st.pool.Owned(other)
    requires st'.pool == FreeSequence(pool, st.active[i].id)
    requires st'.active == st.active[..i] + st.active[i + 1..] && st'.waiting == st.waiting
    requires st'.finished == st.finished + [done]
    ensures Inv(cfg, st')
  {
    var ids := LiveIds(st);
    assert ids[i] == st.active[i].id;
    FreeSequenceCorrect(pool, ids[i]);
    FreeKeepsLedger(pool, ids, cfg.numBlocks, i);
    OthersKept(cfg, st, st'.pool, i);
    assert LiveIds(st') == ids[..i] + ids[i + 1..];
    forall j | 0 <= j < |st'.active| ensures ActiveOk(cfg, st'.pool, st'.active[j]) {
      assert st'.active[j] == st.active[if j < i then j else j + 1];
    }
  }

  lemma DecodeOnePays(cfg: Config, w: Work, i: nat)
    requires cfg.blockSize > 0 && i < |w.st.active| && w.budget > 0
    requires ActiveOk(cfg, w.st.pool, w.st.active[i])
    ensures Pays(w, DecodeOne(cfg, w, i).0)
  {
    var s := w.st.active[i];
    var w' := DecodeOne(cfg, w, i).0;
    OutstandingRemove(w.st.active, i);
    OutstandingUpdate(w.st.active, i, s.(generated := s.generated + [PLACEHOLDER]));
    TokensAppend(w.results, StepResult(s.id, false, 1, Finished));
    TokensAppend(w.results, StepResult(s.id, false, 1, Decode));
  }

  lemma {:induction false} DecodeLoopCorrect(cfg: Config, w: Work, i: nat)
    requires cfg.blockSize > 0 && Inv(cfg, w.st)
    ensures Inv(cfg, DecodeLoop(cfg, w, i).st)
    ensures Pays(w, DecodeLoop(cfg, w, i))
    decreases |w.st.active| - i
  {
    if i < |w.st.active| && w.budget > 0 {
      var (w', i') := DecodeOne(cfg, w, i);
      DecodeOneInv(cfg, w, i);
      DecodeOnePays(cfg, w, i);
      DecodeLoopCorrect(cfg, w', i');
    }
  }

  // ---------------------------------------------------------------------------------------
  // The prefill and admission loops
  // ---------------------------------------------------------------------------------------

  /** A prefill chunk of a live sequence inside its prompt. */
  lemma ChunkCorrect(cfg: Config, pool: Pool, ids: seq<nat>, s: Sequence, budget: nat) returns (c: Chunk)
    requires cfg.blockSize > 0 && Ledger(pool, ids, cfg.numBlocks) && s.id in ids && budget > 0
    requires s.cursor <= |s.prompt|
    requires |pool.Owned(s.id)| == BlocksNeeded(s.cursor, cfg.blockSize)
    ensures c == PrefillChunk(cfg, pool, s, budget)
    ensures Ledger(c.pool, ids, cfg.numBlocks)
    ensures forall other :: other != s.id ==> c.pool.Owned(other) == pool.Owned(other)
    ensures |c.pool.Owned(s.id)| == BlocksNeeded(s.cursor + c.tokens, cfg.blockSize)
  {
    c := PrefillChunk(cfg, pool, s, budget);
    var n := Min(Min(|s.prompt| - s.cursor, cfg.maxPrefillChunk), budget);
    if !s.PrefillComplete() && n > 0 {
      var g := Request(cfg, pool, ids, s.id, s.cursor, s.cursor + n);
      ChunkPool(cfg, pool, s, budget, n, g);
    } else {
      ChunkNone(cfg, pool, s, budget);
    }
  }

  lemma ChunkNone(cfg: Config, pool: Pool, s: Sequence, budget: nat)
    requires cfg.blockSize > 0
    requires s.PrefillComplete() || Min(Min(|s.prompt| - s.cursor, cfg.maxPrefillChunk), budget) == 0
    ensures var c := PrefillChunk(cfg, pool, s, budget); c.pool == pool && c.tokens == 0
  {}

  lemma ChunkPool(cfg: Config, pool: Pool, s: Sequence, budget: nat, n: nat, g: Grant)
    requires cfg.blockSize > 0 && !s.PrefillComplete() && n > 0
    requires n == Min(Min(|s.prompt| - s.cursor, cfg.maxPrefillChunk), budget)
    requires g == EnsureCapacity(pool, s.id, s.cursor + n, cfg.blockSize)
    ensures var c := PrefillChunk(cfg, pool, s, budget); c.pool == g.pool && c.tokens == if g.ok then n else 0
  {}

  /** What a chunk does to its sequence, and when it does nothing. */
  lemma ChunkSequence(cfg: Config, pool: Pool, s: Sequence, budget: nat)
    requires cfg.blockSize > 0 && s.cursor <= |s.prompt| && budget > 0
    ensures var c := PrefillChunk(cfg, pool, s, budget);
            && c.s == s.(cursor := s.cursor + c.tokens, phase := c.s.phase)
            && c.s.cursor <= |s.prompt|
            && c.s.phase == (if c.s.cursor == |s.prompt| then Decode else s.phase)
            && (c.tokens == 0 ==> c.denied || s.cursor == |s.prompt| || cfg.maxPrefillChunk == 0)
            && (c.tokens > 0 ==> !c.denied)
  {
  }

  lemma PrefillOneInv(cfg: Config, w: Work, i: nat)
    requires cfg.blockSize > 0 && Inv(cfg, w.st) && i < |w.st.active| && w.budget > 0 && w.st.active[i].phase == Prefill
    ensures Inv(cfg, PrefillOne(cfg, w, i).st)
  {
    var s := w.st.active[i];
    assert ActiveOk(cfg, w.st.pool, s);
    assert LiveIds(w.st)[i] == s.id;
    var c := ChunkCorrect(cfg, w.st.pool, LiveIds(w.st), s, w.budget);
    ChunkSequence(cfg, w.st.pool, s, w.budget);
    ReplaceActive(cfg, w.st, i, c.s, c.pool);
  }

  lemma PrefillOnePays(cfg: Config, w: Work, i: nat)
    requires cfg.blockSize > 0 && i < |w.st.active| && w.budget > 0
    requires w.st.active[i].phase == Prefill && w.st.active[i].cursor <= |w.st.active[i].prompt|
    ensures Pays(w, PrefillOne(cfg, w, i))
  {
    var s := w.st.active[i];
    var c := PrefillChunk(cfg, w.st.pool, s, w.budget);
    ChunkSequence(cfg, w.st.pool, s, w.budget);
    OutstandingUpdate(w.st.active, i, c.s);
    TokensAppend(w.results, StepResult(s.id, true, c.tokens, c.s.phase));
  }

  lemma PrefillOneCorrect(cfg: Config, w: Work, i: nat)
    requires cfg.blockSize > 0 && Inv(cfg, w.st) && i < |w.st.active| && w.budget > 0
    ensures Inv(cfg, PrefillOne(cfg, w, i).st)
    ensures Pays(w, PrefillOne(cfg, w, i))
  {
    if w.st.active[i].phase == Prefill {
      assert ActiveOk(cfg, w.st.pool, w.st.active[i]);
      PrefillOneInv(cfg, w, i);
      PrefillOnePays(cfg, w, i);
    }
  }

  lemma {:induction false} PrefillLoopCorrect(cfg: Config, w: Work, i: nat)
    requires cfg.blockSize > 0 && Inv(cfg, w.st)
    ensures Inv(cfg, PrefillLoop(cfg, w, i).st)
    ensures Pays(w, PrefillLoop(cfg, w, i))
    decreases |w.st.active| - i
  {
    if i < |w.st.active| && w.budget > 0 {
      PrefillOneCorrect(cfg, w, i);
      PrefillLoopCorrect(cfg, PrefillOne(cfg, w, i), i + 1);
    }
  }

  lemma AdmitOneInv(cfg: Config, w: Work)
    requires cfg.blockSize > 0 && Inv(cfg, w.st) && w.st.waiting != [] && w.budget > 0
    ensures Inv(cfg, AdmitOne(cfg, w).0.st)
  {
    var s := w.st.waiting[0];
    assert WaitingOk(w.st.pool, s);
    assert LiveIds(w.st)[|w.st.active|] == s.id;
    var c := ChunkCorrect(cfg, w.st.pool, LiveIds(w.st), s, w.budget);
    ChunkSequence(cfg, w.st.pool, s, w.budget);
    if c.tokens > 0 {
      MoveHead(cfg, w.st, c.s, c.pool);
    } else {
      KeepHead(cfg, w.st, c.s, c.pool);
    }
  }

  lemma AdmitOnePays(cfg: Config, w: Work)
    requires cfg.blockSize > 0 && w.st.waiting != [] && w.budget > 0
    requires w.st.waiting[0].cursor <= |w.st.waiting[0].prompt|
    ensures Pays(w, AdmitOne(cfg, w).0)
  {
    var s := w.st.waiting[0];
    var c := PrefillChunk(cfg, w.st.pool, s, w.budget);
    ChunkSequence(cfg, w.st.pool, s, w.budget);
    if c.tokens > 0 {
      OutstandingAppend(w.st.active, c.s);
      TokensAppend(w.results, StepResult(c.s.id, true, c.tokens, c.s.phase));
    } else {
      OutstandingUpdate(w.st.waiting, 0, c.s);
    }
  }

  lemma AdmitOneCorrect(cfg: Config, w: Work)
    requires cfg.blockSize > 0 && Inv(cfg, w.st) && w.st.waiting != [] && w.budget > 0
    ensures Inv(cfg, AdmitOne(cfg, w).0.st)
    ensures Pays(w, AdmitOne(cfg, w).0)
  {
    assert WaitingOk(w.st.pool, w.st.waiting[0]);
    AdmitOneInv(cfg, w);
    AdmitOnePays(cfg, w);
  }

  lemma {:induction false} AdmitLoopCorrect(cfg: Config, w: Work)
    requires cfg.blockSize > 0 && Inv(cfg, w.st)
    ensures Inv(cfg, AdmitLoop(cfg, w).st)
    ensures Pays(w, AdmitLoop(cfg, w))
    decreases |w.st.waiting|
  {
    if w.budget > 0 && w.st.waiting != [] {
      var (w', more) := AdmitOne(cfg, w);
      AdmitOneCorrect(cfg, w);
      if more { AdmitLoopCorrect(cfg, w'); }
    }
  }

  /** One iteration keeps the accounting invariant, spends at most `maxBatchTokens` tokens, and
      the tokens it reports are exactly the drop in remaining work. */
  lemma StepCorrect(cfg: Config, st: State)
    requires cfg.blockSize > 0 && Inv(cfg, st)
    ensures Inv(cfg, Step(cfg, st).st)
    ensures TokensIn(Step(cfg, st).results) <= cfg.maxBatchTokens
    ensures TokensIn(Step(cfg, st).results) == RemainingWork(st) - RemainingWork(Step(cfg, st).st)
  {
    var w0 := Work(st, cfg.maxBatchTokens, [], false);
    var w1 := DecodeLoop(cfg, w0, 0);
    var w2 := PrefillLoop(cfg, w1, 0);
    DecodeLoopCorrect(cfg, w0, 0);
    PrefillLoopCorrect(cfg, w1, 0);
    AdmitLoopCorrect(cfg, w2);
  }
}
