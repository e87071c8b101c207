/** What the scheduler guarantees over whole runs: in-flight generations are never starved, a pool
    that jointly fits the admitted sequences never refuses a block, and everything drains. */
module SchedulerProgress {
  import opened PageTable
  import opened Sequences
  import opened SchedulerSpec
  import opened SchedulerInvariants
  import opened SchedulerBlocked

  // ---------------------------------------------------------------------------------------
  // Decode before prefill, and a bounded active set
  // ---------------------------------------------------------------------------------------

  /** One reported token for each sequence in the decode phase, in queue order. */
  function DecodeResults(active: seq<Sequence>): seq<StepResult> {
    if active == [] then []
    else
      var s := active[0];
      (if s.phase == Decode
       then [StepResult(s.id, false, 1, if |s.generated| + 1 >= s.maxNew then Finished else Decode)]
       else []) + DecodeResults(active[1..])
  }

  function CountPhase(ss: seq<Sequence>, p: Phase): nat {
    if ss == [] then 0 else (if ss[0].phase == p then 1 else 0) + CountPhase(ss[1..], p)
  }

  lemma {:induction false} CountSplit(a: seq<Sequence>, b: seq<Sequence>, p: Phase)
    ensures CountPhase(a + b, p) == CountPhase(a, p) + CountPhase(b, p)
  {
    if a == [] {
      assert a + b == b;
    } else {
      assert (a + b)[1..] == a[1..] + b;
      CountSplit(a[1..], b, p);
    }
  }

  lemma {:induction false} CountAll(ss: seq<Sequence>)
    ensures CountPhase(ss, Prefill) + CountPhase(ss, Decode) + CountPhase(ss, Finished) == |ss|
  {
    if ss != [] { CountAll(ss[1..]); }
  }

  /** One iteration of the decode loop that is not refused a block. */
  lemma DecodeOneServes(cfg: Config, w: Work, i: nat)
    requires cfg.blockSize > 0 && i < |w.st.active| && w.budget > 0
    requires !DecodeOne(cfg, w, i).0.denied
    ensures var (w', i') := DecodeOne(cfg, w, i);
            && i' <= |w'.st.active| && w'.st.active[i'..] == w.st.active[i + 1..]
            && w'.results + DecodeResults(w.st.active[i + 1..]) == w.results + DecodeResults(w.st.active[i..])
            && w'.budget == w.budget - (if w.st.active[i].phase == Decode then 1 else 0)
            && CountPhase(w'.st.active, Decode) <= CountPhase(w.st.active, Decode)
            && |w'.st.active| <= |w.st.active|
  {
    var (w', i') := DecodeOne(cfg, w, i);
    var a := w.st.active;
    assert a[i..][1..] == a[i + 1..];
    if i' == i + 1 {
      assert w'.st.active == a[i := w'.st.active[i]];
      CountReplaced(a, i, w'.st.active[i]);
    } else {
      CountRemoved(a, i);
    }
  }

  lemma CountRemoved(a: seq<Sequence>, i: nat)
    requires i < |a|
    ensures CountPhase(a[..i] + a[i + 1..], Decode) <= CountPhase(a, Decode)
  {
    var before, from, after := a[..i], a[i..], a[i + 1..];
    assert a == before + from && from[1..] == after;
    CountSplit(before, from, Decode);
    CountSplit(before, after, Decode);
  }

  lemma CountReplaced(a: seq<Sequence>, i: nat, s: Sequence)
    requires i < |a| && s.phase == a[i].phase
    ensures CountPhase(a[i := s], Decode) == CountPhase(a, Decode)
  {
    var before, from, from' := a[..i], a[i..], [s] + a[i + 1..];
    assert a == before + from && a[i := s] == before + from' && from[1..] == from'[1..];
    CountSplit(before, from, Decode);
    CountSplit(before, from', Decode);
  }

  /** The decode loop from index `i` on, when the budget covers the rest of the active set and no
      block request is refused: every remaining sequence in the decode phase gets exactly one
      token, in queue order. */
  lemma {:induction false} DecodeLoopServes(cfg: Config, w: Work, i: nat)
    requires cfg.blockSize > 0 && i <= |w.st.active| && |w.st.active| - i <= w.budget
    requires Inv(cfg, w.st) && !DecodeLoop(cfg, w, i).denied
    ensures DecodeLoop(cfg, w, i).results == w.results + DecodeResults(w.st.active[i..])
    ensures DecodeLoop(cfg, w, i).budget == w.budget - CountPhase(w.st.active[i..], Decode)
    ensures CountPhase(DecodeLoop(cfg, w, i).st.active, Decode) <= CountPhase(w.st.active, Decode)
    ensures |DecodeLoop(cfg, w, i).st.active| <= |w.st.active|
    decreases |w.st.active| - i
  {
    if i < |w.st.active| {
      var (w', i') := DecodeOne(cfg, w, i);
      DecodeOneInv(cfg, w, i);
      DecodeLoopCorrect(cfg, w', i');
      DecodeOneServes(cfg, w, i);
      DecodeLoopServes(cfg, w', i');
      assert w.st.active[i..][1..] == w.st.active[i + 1..];
    }
  }

  /** The prefill loop only reports prefill chunks; if it ends with budget to spare and no request
      was refused, every sequence still in prefill cost at least one token. */
  lemma {:induction false} PrefillLoopSpends(cfg: Config, w: Work, i: nat)
    requires cfg.blockSize > 0 && i <= |w.st.active| && Inv(cfg, w.st)
    ensures var r := PrefillLoop(cfg, w, i);
            && w.results <= r.results
            && (forall k :: |w.results| <= k < |r.results| ==> r.results[k].wasPrefill)
            && |r.st.active| == |w.st.active|
            && (!r.denied && r.budget > 0 && cfg.maxPrefillChunk > 0 ==>
                  r.budget <= w.budget - CountPhase(w.st.active[i..], Prefill))
    decreases |w.st.active| - i
  {
    if i < |w.st.active| && w.budget > 0 {
      var w' := PrefillOne(cfg, w, i);
      var s := w.st.active[i];
      assert ActiveOk(cfg, w.st.pool, s);
      PrefillOneCorrect(cfg, w, i);
      PrefillLoopCorrect(cfg, w', i + 1);
      PrefillLoopSpends(cfg, w', i + 1);
      assert w.st.active[i..][1..] == w.st.active[i + 1..];
      assert w'.st.active[i + 1..] == w.st.active[i + 1..];
      if s.phase == Prefill { ChunkSequence(cfg, w.st.pool, s, w.budget); }
    }
  }

  /** Every admission costs at least one token, so budget plus active set never grows. */
  lemma {:induction false} AdmitLoopSpends(cfg: Config, w: Work)
    requires cfg.blockSize > 0
    ensures var r := AdmitLoop(cfg, w);
            && w.results <= r.results
            && (forall k :: |w.results| <= k < |r.results| ==> r.results[k].wasPrefill)
            && |r.st.active| + r.budget <= |w.st.active| + w.budget
            && (cfg.maxPrefillChunk == 0 || w.budget == 0 ==> r.st.active == w.st.active)
            && (w.denied ==> r.denied)
    decreases |w.st.waiting|
  {
    if w.budget > 0 && w.st.waiting != [] {
      var (w', more) := AdmitOne(cfg, w);
      if more { AdmitLoopSpends(cfg, w'); }
    }
  }

  lemma DecodePhase(cfg: Config, st: State, w1: Work)
    requires cfg.blockSize > 0 && Inv(cfg, st) && |st.active| <= cfg.maxBatchTokens
    requires w1 == DecodeLoop(cfg, Work(st, cfg.maxBatchTokens, [], false), 0) && !w1.denied
    ensures Inv(cfg, w1.st) && w1.results == DecodeResults(st.active) && |w1.st.active| <= |st.active|
    ensures w1.budget == cfg.maxBatchTokens - CountPhase(st.active, Decode)
    ensures CountPhase(w1.st.active, Decode) <= CountPhase(st.active, Decode)
  {
    var w0 := Work(st, cfg.maxBatchTokens, [], false);
    DecodeLoopCorrect(cfg, w0, 0);
    DecodeLoopServes(cfg, w0, 0);
    assert st.active[0..] == st.active && [] + DecodeResults(st.active) == DecodeResults(st.active);
  }

  lemma PrefillPhase(cfg: Config, w1: Work, w2: Work)
    requires cfg.blockSize > 0 && Inv(cfg, w1.st) && w2 == PrefillLoop(cfg, w1, 0)
    ensures w1.results <= w2.results && forall k :: |w1.results| <= k < |w2.results| ==> w2.results[k].wasPrefill
    ensures |w2.st.active| == |w1.st.active| && w2.budget <= w1.budget && (w1.denied ==> w2.denied)
    ensures !w2.denied && w2.budget > 0 && cfg.maxPrefillChunk > 0 ==>
              w2.budget <= w1.budget - |w1.st.active| + CountPhase(w1.st.active, Decode)
  {
    PrefillLoopCorrect(cfg, w1, 0);
    PrefillLoopSpends(cfg, w1, 0);
    assert w1.st.active[0..] == w1.st.active;
    NoneFinished(cfg, w1.st, 0);
    CountAll(w1.st.active);
  }

  /** In an iteration in which no block request is refused, an active set that fits the token
      budget still fits it afterwards, and the report starts with exactly one token for every
      sequence that was in the decode phase, before any prefill token is spent. */
  lemma NoStarvation(cfg: Config, st: State)
    requires cfg.blockSize > 0 && Inv(cfg, st)
    requires |st.active| <= cfg.maxBatchTokens && !Step(cfg, st).denied
    ensures |Step(cfg, st).st.active| <= cfg.maxBatchTokens
    ensures DecodeResults(st.active) <= Step(cfg, st).results
    ensures forall k :: |DecodeResults(st.active)| <= k < |Step(cfg, st).results|
              ==> Step(cfg, st).results[k].wasPrefill
  {
    var w1 := DecodeLoop(cfg, Work(st, cfg.maxBatchTokens, [], false), 0);
    var w2 := PrefillLoop(cfg, w1, 0);
    DecodeLoopCorrect(cfg, Work(st, cfg.maxBatchTokens, [], false), 0);
    PrefillPhase(cfg, w1, w2);
    AdmitLoopSpends(cfg, w2);
    DecodePhase(cfg, st, w1);
  }

  lemma {:induction false} NoneFinished(cfg: Config, st: State, i: nat)
    requires cfg.blockSize > 0 && Inv(cfg, st) && i <= |st.active|
    ensures CountPhase(st.active[i..], Finished) == 0
    decreases |st.active| - i
  {
    if i < |st.active| {
      NoneFinished(cfg, st, i + 1);
      assert st.active[i..][1..] == st.active[i + 1..];
      assert ActiveOk(cfg, st.pool, st.active[i]);
    }
  }

  // ---------------------------------------------------------------------------------------
  // A pool that jointly fits the live sequences never refuses a block
  // ---------------------------------------------------------------------------------------

  /** The most blocks a sequence ever owns. */
  function WorstCase(cfg: Config, s: Sequence): nat
    requires cfg.blockSize > 0
  {
    BlocksNeeded(|s.prompt| + s.Target(), cfg.blockSize)
  }

  /** The rounded-up quotient for the prompt and max(1, max_new) tokens. */
  lemma WorstCaseIs(cfg: Config, s: Sequence)
    requires cfg.blockSize > 0
    ensures WorstCase(cfg, s)
         == (|s.prompt| + (if s.maxNew == 0 then 1 else s.maxNew) + cfg.blockSize - 1) / cfg.blockSize
  {
    BlocksNeededIsRoundedUp(|s.prompt| + s.Target(), cfg.blockSize);
  }

  function WorstCases(cfg: Config, ss: seq<Sequence>): nat
    requires cfg.blockSize > 0
  {
    if ss == [] then 0 else WorstCase(cfg, ss[0]) + WorstCases(cfg, ss[1..])
  }

  ghost predicate JointFit(cfg: Config, st: State)
    requires cfg.blockSize > 0
  {
    WorstCases(cfg, st.active) + WorstCases(cfg, st.waiting) <= cfg.numBlocks
  }

  lemma {:induction false} WorstUpdate(cfg: Config, ss: seq<Sequence>, i: nat, s: Sequence)
    requires cfg.blockSize > 0 && i < |ss| && s.prompt == ss[i].prompt && s.maxNew == ss[i].maxNew
    ensures WorstCases(cfg, ss[i := s]) == WorstCases(cfg, ss)
  {
    if i > 0 {
      assert ss[i := s][1..] == ss[1..][i - 1 := s];
      WorstUpdate(cfg, ss[1..], i - 1, s);
    } else {
      assert ss[i := s][1..] == ss[1..];
    }
  }

  lemma {:induction false} WorstSplit(cfg: Config, a: seq<Sequence>, b: seq<Sequence>)
    requires cfg.blockSize > 0
    ensures WorstCases(cfg, a + b) == WorstCases(cfg, a) + WorstCases(cfg, b)
  {
    if a == [] {
      assert a + b == b;
    } else {
      assert (a + b)[1..] == a[1..] + b;
      WorstSplit(cfg, a[1..], b);
    }
  }

  lemma WorstRemove(cfg: Config, ss: seq<Sequence>, i: nat)
    requires cfg.blockSize > 0 && i < |ss|
    ensures WorstCases(cfg, ss[..i] + ss[i + 1..]) <= WorstCases(cfg, ss)
  {
    assert ss == ss[..i] + ([ss[i]] + ss[i + 1..]);
    WorstSplit(cfg, ss[..i], [ss[i]] + ss[i + 1..]);
    WorstSplit(cfg, [ss[i]], ss[i + 1..]);
    WorstSplit(cfg, ss[..i], ss[i + 1..]);
  }

  ghost predicate WithinWorst(cfg: Config, pool: Pool, ss: seq<Sequence>)
    requires cfg.blockSize > 0
  {
    forall i :: 0 <= i < |ss| ==> |pool.Owned(ss[i].id)| <= WorstCase(cfg, ss[i])
  }

  /** What the others own plus the worst case of one stays within the sum of the worst cases. */
  lemma {:induction false} RoomToGrow(cfg: Config, pool: Pool, ss: seq<Sequence>, k: nat)
    requires cfg.blockSize > 0 && k < |ss| && WithinWorst(cfg, pool, ss)
    ensures OwnedCount(pool, Ids(ss)) - |pool.Owned(ss[k].id)| + WorstCase(cfg, ss[k]) <= WorstCases(cfg, ss)
  {
    assert Ids(ss)[1..] == Ids(ss[1..]);
    if k > 0 {
      RoomToGrow(cfg, pool, ss[1..], k - 1);
    } else {
      OwnedWithinWorst(cfg, pool, ss[1..]);
    }
  }

  lemma {:induction false} OwnedWithinWorst(cfg: Config, pool: Pool, ss: seq<Sequence>)
    requires cfg.blockSize > 0 && WithinWorst(cfg, pool, ss)
    ensures OwnedCount(pool, Ids(ss)) <= WorstCases(cfg, ss)
  {
    if ss != [] {
      assert Ids(ss)[1..] == Ids(ss[1..]);
      OwnedWithinWorst(cfg, pool, ss[1..]);
    }
  }

  lemma InvWithinWorst(cfg: Config, st: State)
    requires cfg.blockSize > 0 && Inv(cfg, st)
    ensures WithinWorst(cfg, st.pool, st.active + st.waiting)
  {
    forall i | 0 <= i < |st.active| + |st.waiting|
      ensures |st.pool.Owned((st.active + st.waiting)[i].id)| <= WorstCase(cfg, (st.active + st.waiting)[i])
    {
      if i < |st.active| {
        var s := st.active[i];
        assert ActiveOk(cfg, st.pool, s);
        BlocksNeededMonotone(s.cursor + |s.generated|, |s.prompt| + s.Target(), cfg.blockSize);
      } else {
        assert WaitingOk(st.pool, st.waiting[i - |st.active|]);
      }
    }
  }

  /** No request of a live sequence for at most its worst case is refused. */
  lemma NeverRefused(cfg: Config, st: State, k: nat, tokens: nat)
    requires cfg.blockSize > 0 && Inv(cfg, st) && JointFit(cfg, st) && k < |st.active| + |st.waiting|
    requires tokens <= |(st.active + st.waiting)[k].prompt| + (st.active + st.waiting)[k].Target()
    ensures EnsureCapacity(st.pool, (st.active + st.waiting)[k].id, tokens, cfg.blockSize).ok
  {
    var live := st.active + st.waiting;
    assert Ids(live) == LiveIds(st);
    InvWithinWorst(cfg, st);
    RoomToGrow(cfg, st.pool, live, k);
    WorstSplit(cfg, st.active, st.waiting);
    Conservation(st.pool, LiveIds(st), cfg.numBlocks);
    BlocksNeededMonotone(tokens, |live[k].prompt| + live[k].Target(), cfg.blockSize);
    GrowCorrect(st.pool, live[k].id, BlocksNeeded(tokens, cfg.blockSize));
  }

  lemma DecodeOneFits(cfg: Config, w: Work, i: nat)
    requires cfg.blockSize > 0 && Inv(cfg, w.st) && JointFit(cfg, w.st) && i < |w.st.active| && w.budget > 0
    ensures JointFit(cfg, DecodeOne(cfg, w, i).0.st)
    ensures DecodeOne(cfg, w, i).0.denied == w.denied
  {
    var s := w.st.active[i];
    assert ActiveOk(cfg, w.st.pool, s);
    if s.phase == Decode {
      NeverRefused(cfg, w.st, i, s.TotalTokens() + 1);
      WorstRemove(cfg, w.st.active, i);
      WorstUpdate(cfg, w.st.active, i, s.(generated := s.generated + [PLACEHOLDER]));
    }
  }

  lemma {:induction false} DecodeLoopFits(cfg: Config, w: Work, i: nat)
    requires cfg.blockSize > 0 && Inv(cfg, w.st) && JointFit(cfg, w.st)
    ensures JointFit(cfg, DecodeLoop(cfg, w, i).st)
    ensures DecodeLoop(cfg, w, i).denied == w.denied
    decreases |w.st.active| - i
  {
    if i < |w.st.active| && w.budget > 0 {
      DecodeOneInv(cfg, w, i);
      DecodeOneFits(cfg, w, i);
      DecodeLoopFits(cfg, DecodeOne(cfg, w, i).0, DecodeOne(cfg, w, i).1);
    }
  }

  lemma PrefillOneFits(cfg: Config, w: Work, i: nat)
    requires cfg.blockSize > 0 && Inv(cfg, w.st) && JointFit(cfg, w.st) && i < |w.st.active| && w.budget > 0
    ensures JointFit(cfg, PrefillOne(cfg, w, i).st)
    ensures PrefillOne(cfg, w, i).denied == w.denied
  {
    var s := w.st.active[i];
    assert ActiveOk(cfg, w.st.pool, s);
    if s.phase == Prefill {
      NeverRefused(cfg, w.st, i, s.cursor + Min(Min(|s.prompt| - s.cursor, cfg.maxPrefillChunk), w.budget));
      var c := PrefillChunk(cfg, w.st.pool, s, w.budget);
      WorstUpdate(cfg, w.st.active, i, c.s);
    }
  }

  lemma {:induction false} PrefillLoopFits(cfg: Config, w: Work, i: nat)
    requires cfg.blockSize > 0 && Inv(cfg, w.st) && JointFit(cfg, w.st)
    ensures JointFit(cfg, PrefillLoop(cfg, w, i).st)
    ensures PrefillLoop(cfg, w, i).denied == w.denied
    decreases |w.st.active| - i
  {
    if i < |w.st.active| && w.budget > 0 {
      PrefillOneCorrect(cfg, w, i);
      PrefillOneFits(cfg, w, i);
      PrefillLoopFits(cfg, PrefillOne(cfg, w, i), i + 1);
    }
  }

  lemma AdmitOneFits(cfg: Config, w: Work)
    requires cfg.blockSize > 0 && Inv(cfg, w.st) && JointFit(cfg, w.st) && w.st.waiting != [] && w.budget > 0
    ensures JointFit(cfg, AdmitOne(cfg, w).0.st)
    ensures AdmitOne(cfg, w).0.denied == w.denied
  {
    var s := w.st.waiting[0];
    assert WaitingOk(w.st.pool, s);
    if s.prompt != [] {
      NeverRefused(cfg, w.st, |w.st.active|, Min(Min(|s.prompt|, cfg.maxPrefillChunk), w.budget));
    }
    var c := PrefillChunk(cfg, w.st.pool, s, w.budget);
    WorstUpdate(cfg, w.st.waiting, 0, c.s);
    WorstSplit(cfg, w.st.active, [c.s]);
  }

  lemma {:induction false} AdmitLoopFits(cfg: Config, w: Work)
    requires cfg.blockSize > 0 && Inv(cfg, w.st) && JointFit(cfg, w.st)
    ensures JointFit(cfg, AdmitLoop(cfg, w).st)
    ensures AdmitLoop(cfg, w).denied == w.denied
    decreases |w.st.waiting|
  {
    if w.budget > 0 && w.st.waiting != [] {
      var (w', more) := AdmitOne(cfg, w);
      AdmitOneCorrect(cfg, w);
      AdmitOneFits(cfg, w);
      if more { AdmitLoopFits(cfg, w'); }
    }
  }

  /** If the worst cases of all live sequences jointly fit the pool, no block request of the
      iteration is refused, and they still fit afterwards. */
  lemma StepNeverDenied(cfg: Config, st: State)
    requires cfg.blockSize > 0 && Inv(cfg, st) && JointFit(cfg, st)
    ensures !Step(cfg, st).denied && JointFit(cfg, Step(cfg, st).st)
  {
    var w0 := Work(st, cfg.maxBatchTokens, [], false);
    var w1 := DecodeLoop(cfg, w0, 0);
    var w2 := PrefillLoop(cfg, w1, 0);
    DecodeLoopCorrect(cfg, w0, 0);
    PrefillLoopCorrect(cfg, w1, 0);
    DecodeLoopFits(cfg, w0, 0);
    PrefillLoopFits(cfg, w1, 0);
    AdmitLoopFits(cfg, w2);
  }

  // ---------------------------------------------------------------------------------------
  // Everything drains, exactly when no waiting prompt is empty
  // ---------------------------------------------------------------------------------------

  predicate HasEmptyPrompt(ss: seq<Sequence>) {
    ss != [] && (ss[0].prompt == [] || HasEmptyPrompt(ss[1..]))
  }

  predicate Drained(st: State) { st.active == [] && st.waiting == [] }

  /** When everything live jointly fits, something can go on. */
  lemma FittingIsNotBlocked(cfg: Config, st: State)
    requires cfg.blockSize > 0 && Inv(cfg, st) && JointFit(cfg, st)
    requires !HasEmptyPrompt(st.waiting) && !Drained(st)
    ensures !Blocked(cfg, st)
  {
    var s := (st.active + st.waiting)[0];
    if st.active != [] {
      assert ActiveOk(cfg, st.pool, s);
    } else {
      assert WaitingOk(st.pool, s);
    }
    var tokens := if s.phase == Decode then s.TotalTokens() + 1 else s.cursor + NextChunk(cfg, s);
    NeverRefused(cfg, st, 0, tokens);
    RefusedGrant(cfg, st.pool, s.id, tokens);
  }

  /** Each iteration with anything to do processes at least one token. */
  lemma StepProgress(cfg: Config, st: State)
    requires cfg.blockSize > 0 && Inv(cfg, st) && JointFit(cfg, st)
    requires cfg.maxBatchTokens > 0 && cfg.maxPrefillChunk > 0
    requires !HasEmptyPrompt(st.waiting) && !Drained(st)
    ensures TokensIn(Step(cfg, st).results) > 0
  {
    FittingIsNotBlocked(cfg, st);
    NothingDoneIff(cfg, st);
  }

  lemma {:induction false} DecodeLoopWaiting(cfg: Config, w: Work, i: nat)
    requires cfg.blockSize > 0
    ensures DecodeLoop(cfg, w, i).st.waiting == w.st.waiting
    decreases |w.st.active| - i
  {
    if i < |w.st.active| && w.budget > 0 {
      DecodeLoopWaiting(cfg, DecodeOne(cfg, w, i).0, DecodeOne(cfg, w, i).1);
    }
  }

  lemma {:induction false} PrefillLoopWaiting(cfg: Config, w: Work, i: nat)
    requires cfg.blockSize > 0
    ensures PrefillLoop(cfg, w, i).st.waiting == w.st.waiting
    decreases |w.st.active| - i
  {
    if i < |w.st.active| && w.budget > 0 { PrefillLoopWaiting(cfg, PrefillOne(cfg, w, i), i + 1); }
  }

  lemma {:induction false} AdmitLoopEmptyPrompt(cfg: Config, w: Work)
    requires cfg.blockSize > 0
    ensures HasEmptyPrompt(AdmitLoop(cfg, w).st.waiting) == HasEmptyPrompt(w.st.waiting)
    decreases |w.st.waiting|
  {
    if w.budget > 0 && w.st.waiting != [] {
      var (w', more) := AdmitOne(cfg, w);
      if more {
        AdmitLoopEmptyPrompt(cfg, w');
      } else {
        assert w'.st.waiting[1..] == w.st.waiting[1..];
      }
    }
  }

  /** A waiting empty prompt is never admitted, and nothing behind it either. */
  lemma StepKeepsEmptyPrompt(cfg: Config, st: State)
    requires cfg.blockSize > 0
    ensures HasEmptyPrompt(Step(cfg, st).st.waiting) == HasEmptyPrompt(st.waiting)
  {
    var w0 := Work(st, cfg.maxBatchTokens, [], false);
    DecodeLoopWaiting(cfg, w0, 0);
    PrefillLoopWaiting(cfg, DecodeLoop(cfg, w0, 0), 0);
    AdmitLoopEmptyPrompt(cfg, PrefillLoop(cfg, DecodeLoop(cfg, w0, 0), 0));
  }

  function StepN(cfg: Config, st: State, n: nat): State
    requires cfg.blockSize > 0
    decreases n
  {
    if n == 0 then st else StepN(cfg, Step(cfg, st).st, n - 1)
  }

  lemma {:induction false} ActiveWork(cfg: Config, pool: Pool, ss: seq<Sequence>)
    requires cfg.blockSize > 0 && forall i :: 0 <= i < |ss| ==> ActiveOk(cfg, pool, ss[i])
    ensures Outstanding(ss) >= |ss|
  {
    if ss != [] {
      assert ActiveOk(cfg, pool, ss[0]);
      ActiveWork(cfg, pool, ss[1..]);
    }
  }

  lemma {:induction false} WaitingWork(pool: Pool, ss: seq<Sequence>)
    requires forall i :: 0 <= i < |ss| ==> WaitingOk(pool, ss[i])
    ensures Outstanding(ss) >= |ss|
  {
    if ss != [] {
      assert WaitingOk(pool, ss[0]);
      WaitingWork(pool, ss[1..]);
    }
  }

  /** Work remains exactly as long as something is live. */
  lemma WorkMeasuresLive(cfg: Config, st: State)
    requires cfg.blockSize > 0 && Inv(cfg, st)
    ensures RemainingWork(st) >= 0
    ensures RemainingWork(st) == 0 <==> Drained(st)
  {
    ActiveWork(cfg, st.pool, st.active);
    WaitingWork(st.pool, st.waiting);
  }

  /** Repeated stepping drains everything within as many steps as tokens remain. */
  lemma {:induction false} Drains(cfg: Config, st: State, n: nat)
    requires cfg.blockSize > 0 && Inv(cfg, st) && JointFit(cfg, st)
    requires cfg.maxBatchTokens > 0 && cfg.maxPrefillChunk > 0
    requires !HasEmptyPrompt(st.waiting) && RemainingWork(st) <= n
    ensures Drained(StepN(cfg, st, n))
    decreases n
  {
    WorkMeasuresLive(cfg, st);
    if n > 0 {
      var st' := Step(cfg, st).st;
      StepCorrect(cfg, st);
      StepNeverDenied(cfg, st);
      StepKeepsEmptyPrompt(cfg, st);
      WorkMeasuresLive(cfg, st');
      if !Drained(st) { StepProgress(cfg, st); }
      Drains(cfg, st', n - 1);
    }
  }

  lemma {:induction false} EmptyPromptStays(cfg: Config, st: State, n: nat)
    requires cfg.blockSize > 0 && HasEmptyPrompt(st.waiting)
    ensures HasEmptyPrompt(StepN(cfg, st, n).waiting)
    decreases n
  {
    if n > 0 {
      StepKeepsEmptyPrompt(cfg, st);
      EmptyPromptStays(cfg, Step(cfg, st).st, n - 1);
    }
  }

  ghost predicate DrainedAfter(cfg: Config, st: State, n: nat)
    requires cfg.blockSize > 0
  {
    Drained(StepN(cfg, st, n))
  }

  /** Under joint capacity the scheduler drains if and only if no waiting prompt is empty. */
  lemma DrainsIffNoEmptyPrompt(cfg: Config, st: State)
    requires cfg.blockSize > 0 && Inv(cfg, st) && JointFit(cfg, st)
    requires cfg.maxBatchTokens > 0 && cfg.maxPrefillChunk > 0
    ensures (exists n: nat :: DrainedAfter(cfg, st, n)) <==> !HasEmptyPrompt(st.waiting)
  {
    if HasEmptyPrompt(st.waiting) {
      forall n: nat ensures !DrainedAfter(cfg, st, n) { EmptyPromptStays(cfg, st, n); }
    } else {
      WorkMeasuresLive(cfg, st);
      var n: nat := RemainingWork(st);
      Drains(cfg, st, n);
      assert DrainedAfter(cfg, st, n);
    }
  }

  // ---------------------------------------------------------------------------------------
  // Without joint capacity: it drains exactly when it never gets stuck
  // ---------------------------------------------------------------------------------------

  /** After `n` iterations there is work left and all of it is refused. */
  ghost predicate StuckAfter(cfg: Config, st: State, n: nat)
    requires cfg.blockSize > 0
  {
    Blocked(cfg, StepN(cfg, st, n)) && !Drained(StepN(cfg, st, n))
  }

  lemma {:induction false} StepNSplit(cfg: Config, st: State, m: nat, n: nat)
    requires cfg.blockSize > 0
    ensures StepN(cfg, st, m + n) == StepN(cfg, StepN(cfg, st, m), n)
    decreases m
  {
    if m > 0 { StepNSplit(cfg, Step(cfg, st).st, m - 1, n); }
  }

  lemma {:induction false} StepNInv(cfg: Config, st: State, n: nat)
    requires cfg.blockSize > 0 && Inv(cfg, st)
    ensures Inv(cfg, StepN(cfg, st, n))
    decreases n
  {
    if n > 0 {
      StepCorrect(cfg, st);
      StepNInv(cfg, Step(cfg, st).st, n - 1);
    }
  }

  /** Once blocked, every later iteration is blocked, reports nothing and changes no sequence, except
      that an empty prompt at the head of the queue changes phase. */
  lemma {:induction false} BlockedForever(cfg: Config, st: State, n: nat)
    requires cfg.blockSize > 0 && Inv(cfg, st) && cfg.maxBatchTokens > 0 && cfg.maxPrefillChunk > 0 && Blocked(cfg, st)
    ensures var end := StepN(cfg, st, n);
            && Inv(cfg, end) && Blocked(cfg, end) && Step(cfg, end).results == []
            && end.active == st.active && end.finished == st.finished && end.log == st.log
            && |end.waiting| == |st.waiting| && HeadTried(end.waiting) == HeadTried(st.waiting)
    decreases n
  {
    BlockedStep(cfg, st);
    if n > 0 { BlockedForever(cfg, Step(cfg, st).st, n - 1); }
  }

  lemma {:induction false} RunsDown(cfg: Config, st: State, n: nat)
    requires cfg.blockSize > 0 && Inv(cfg, st) && cfg.maxBatchTokens > 0 && cfg.maxPrefillChunk > 0
    requires RemainingWork(st) <= n && forall k: nat :: !StuckAfter(cfg, st, k)
    ensures Drained(StepN(cfg, st, n))
    decreases n
  {
    WorkMeasuresLive(cfg, st);
    if n > 0 {
      var st' := Step(cfg, st).st;
      StepCorrect(cfg, st);
      WorkMeasuresLive(cfg, st');
      assert !StuckAfter(cfg, st, 0);
      NothingDoneIff(cfg, st);
      forall k: nat ensures !StuckAfter(cfg, st', k) { assert !StuckAfter(cfg, st, k + 1); }
      RunsDown(cfg, st', n - 1);
    }
  }

  /** In any pool the scheduler drains if and only if no iteration leaves work all of which is
      refused. */
  lemma DrainsIffNeverStuck(cfg: Config, st: State)
    requires cfg.blockSize > 0 && Inv(cfg, st) && cfg.maxBatchTokens > 0 && cfg.maxPrefillChunk > 0
    ensures (exists n: nat :: DrainedAfter(cfg, st, n)) <==> forall k: nat :: !StuckAfter(cfg, st, k)
  {
    if forall k: nat :: !StuckAfter(cfg, st, k) {
      WorkMeasuresLive(cfg, st);
      var n: nat := RemainingWork(st);
      RunsDown(cfg, st, n);
      assert DrainedAfter(cfg, st, n);
    } else {
      var k: nat :| StuckAfter(cfg, st, k);
      forall n: nat ensures !DrainedAfter(cfg, st, n) { StuckNeverDrains(cfg, st, k, n); }
    }
  }

  /** What is live stays live once blocked; what is drained stays drained. */
  lemma LiveForever(cfg: Config, st: State, n: nat)
    requires cfg.blockSize > 0 && Inv(cfg, st) && cfg.maxBatchTokens > 0 && cfg.maxPrefillChunk > 0
    requires Blocked(cfg, st) || Drained(st)
    ensures Drained(StepN(cfg, st, n)) <==> Drained(st)
  {
    BlockedForever(cfg, st, n);
  }

  lemma StuckNeverDrains(cfg: Config, st: State, k: nat, n: nat)
    requires cfg.blockSize > 0 && Inv(cfg, st) && cfg.maxBatchTokens > 0 && cfg.maxPrefillChunk > 0
    requires StuckAfter(cfg, st, k)
    ensures !DrainedAfter(cfg, st, n)
  {
    if k <= n {
      StuckLater(cfg, st, k, n);
    } else if DrainedAfter(cfg, st, n) {
      DrainedLater(cfg, st, n, k);
      assert false;
    }
  }

  lemma StuckLater(cfg: Config, st: State, k: nat, n: nat)
    requires cfg.blockSize > 0 && Inv(cfg, st) && cfg.maxBatchTokens > 0 && cfg.maxPrefillChunk > 0
    requires StuckAfter(cfg, st, k) && k <= n
    ensures !DrainedAfter(cfg, st, n)
  {
    StepNInv(cfg, st, k);
    StepNSplit(cfg, st, k, n - k);
    LiveForever(cfg, StepN(cfg, st, k), n - k);
  }

  lemma DrainedLater(cfg: Config, st: State, n: nat, k: nat)
    requires cfg.blockSize > 0 && Inv(cfg, st) && cfg.maxBatchTokens > 0 && cfg.maxPrefillChunk > 0
    requires DrainedAfter(cfg, st, n) && n <= k
    ensures DrainedAfter(cfg, st, k)
  {
    StepNInv(cfg, st, n);
    StepNSplit(cfg, st, n, k - n);
    LiveForever(cfg, StepN(cfg, st, n), k - n);
  }
}
