/** Runs of the scheduler: any interleaving of admissions and iterations. */
module SchedulerRuns {
  import opened Counting
  import opened PageTable
  import opened Sequences
  import opened SchedulerSpec
  import opened SchedulerInvariants
  import opened SchedulerBlocked
  import opened SchedulerProgress

  datatype Event = Arrive(s: Sequence) | Iterate

  function Initial(cfg: Config): State {
    State(Pool(InitialFree(cfg.numBlocks), map[]), [], [], [], [])
  }

  function Apply(cfg: Config, st: State, e: Event): State
    requires cfg.blockSize > 0
  {
    match e
    case Arrive(s) => Admit(st, s)
    case Iterate => Step(cfg, st).st
  }

  function Play(cfg: Config, events: seq<Event>): State
    requires cfg.blockSize > 0
  {
    if events == [] then Initial(cfg)
    else Apply(cfg, Play(cfg, events[..|events| - 1]), events[|events| - 1])
  }

  /** Arriving sequences are fresh and their ids differ from those of live sequences. */
  ghost predicate ValidRun(cfg: Config, events: seq<Event>)
    requires cfg.blockSize > 0
  {
    if events == [] then true
    else
      var before, e := events[..|events| - 1], events[|events| - 1];
      && ValidRun(cfg, before)
      && (e.Arrive? ==> Fresh(e.s) && e.s.id !in LiveIds(Play(cfg, before)))
  }

  /** Some block request of the run was refused. */
  ghost predicate RunDenied(cfg: Config, events: seq<Event>)
    requires cfg.blockSize > 0
  {
    if events == [] then false
    else
      var before, e := events[..|events| - 1], events[|events| - 1];
      RunDenied(cfg, before) || (e.Iterate? && Step(cfg, Play(cfg, before)).denied)
  }

  /** Every arrival leaves a set of live sequences that jointly fits the pool. */
  ghost predicate FittingRun(cfg: Config, events: seq<Event>)
    requires cfg.blockSize > 0
  {
    if events == [] then true
    else
      var before, e := events[..|events| - 1], events[|events| - 1];
      FittingRun(cfg, before) && (e.Arrive? ==> JointFit(cfg, Play(cfg, events)))
  }

  // ---------------------------------------------------------------------------------------
  // Accounting over runs
  // ---------------------------------------------------------------------------------------

  lemma {:induction false} InitialPlaces(n: nat, b: nat)
    ensures Count(InitialFree(n), b) == if b < n then 1 else 0
  {
    if n > 0 {
      InitialPlaces(n - 1, b);
      assert InitialFree(n)[1..] == InitialFree(n - 1);
    }
  }

  lemma InitialInv(cfg: Config)
    requires cfg.blockSize > 0
    ensures Inv(cfg, Initial(cfg))
  {
    var st := Initial(cfg);
    assert LiveIds(st) == [];
    forall b: nat ensures Places(st.pool, [], b) == if b < cfg.numBlocks then 1 else 0 {
      InitialPlaces(cfg.numBlocks, b);
    }
  }

  lemma AdmitInv(cfg: Config, st: State, s: Sequence)
    requires cfg.blockSize > 0 && Inv(cfg, st) && Fresh(s) && s.id !in LiveIds(st)
    ensures Inv(cfg, Admit(st, s))
  {
    var st' := Admit(st, s);
    var ids := LiveIds(st);
    assert LiveIds(st') == ids + [s.id];
    assert !Stray(st.pool, ids, s.id);
    AddId(st.pool, ids, s.id, cfg.numBlocks);
  }

  lemma AddId(p: Pool, ids: seq<nat>, id: nat, n: nat)
    requires Ledger(p, ids, n) && id !in ids
    ensures Ledger(p, ids + [id], n) && p.Owned(id) == []
  {
    assert !Stray(p, ids, id);
    DistinctAppend(ids, id);
    forall b: nat ensures Places(p, ids + [id], b) == Places(p, ids, b) { OwnedSplit(p, ids, [id], b); }
    forall x ensures !Stray(p, ids + [id], x) { assert !Stray(p, ids, x); }
  }

  lemma {:induction false} DistinctAppend(ids: seq<nat>, id: nat)
    requires Distinct(ids) && id !in ids
    ensures Distinct(ids + [id])
  {
    if ids != [] {
      DistinctAppend(ids[1..], id);
      assert (ids + [id])[1..] == ids[1..] + [id];
    }
  }

  /** After every run: each live sequence owns exactly the blocks its processed tokens need,
      waiting sequences own none, nobody else owns any, free and owned blocks partition the pool,
      and every phase is legal. */
  lemma {:induction false} RunInv(cfg: Config, events: seq<Event>)
    requires cfg.blockSize > 0 && ValidRun(cfg, events)
    ensures Inv(cfg, Play(cfg, events))
  {
    if events == [] {
      InitialInv(cfg);
    } else {
      var before := events[..|events| - 1];
      RunInv(cfg, before);
      match events[|events| - 1]
      case Arrive(s) => AdmitInv(cfg, Play(cfg, before), s);
      case Iterate => StepCorrect(cfg, Play(cfg, before));
    }
  }

  /** In every run in which no block request is refused, the active set fits the token budget, so
      by `NoStarvation` no generating sequence ever misses an iteration. */
  lemma {:induction false} ActiveFitsBudget(cfg: Config, events: seq<Event>)
    requires cfg.blockSize > 0 && ValidRun(cfg, events) && !RunDenied(cfg, events)
    ensures |Play(cfg, events).active| <= cfg.maxBatchTokens
  {
    if events != [] {
      var before := events[..|events| - 1];
      ActiveFitsBudget(cfg, before);
      RunInv(cfg, before);
      if events[|events| - 1].Iterate? { NoStarvation(cfg, Play(cfg, before)); }
    }
  }

  /** If every arrival leaves a jointly fitting set, no block request of the run is refused. */
  lemma {:induction false} FittingRunNeverDenied(cfg: Config, events: seq<Event>)
    requires cfg.blockSize > 0 && ValidRun(cfg, events) && FittingRun(cfg, events)
    ensures !RunDenied(cfg, events) && JointFit(cfg, Play(cfg, events))
  {
    if events != [] {
      var before := events[..|events| - 1];
      FittingRunNeverDenied(cfg, before);
      RunInv(cfg, before);
      if events[|events| - 1].Iterate? { StepNeverDenied(cfg, Play(cfg, before)); }
    }
  }

  /** Waste: a live sequence holds fewer than `blockSize` unused token slots. */
  lemma BoundedWaste(cfg: Config, events: seq<Event>, i: nat)
    requires cfg.blockSize > 0 && ValidRun(cfg, events) && i < |Play(cfg, events).active|
    ensures var st := Play(cfg, events);
            var s := st.active[i];
            var slots := |st.pool.Owned(s.id)| * cfg.blockSize;
            s.cursor + |s.generated| <= slots < s.cursor + |s.generated| + cfg.blockSize
  {
    RunInv(cfg, events);
    var st := Play(cfg, events);
    assert ActiveOk(cfg, st.pool, st.active[i]);
    BlocksNeededIsCeiling(st.active[i].cursor + |st.active[i].generated|, cfg.blockSize);
  }

  // ---------------------------------------------------------------------------------------
  // Without joint capacity, half-grown sequences can block each other for ever
  // ---------------------------------------------------------------------------------------

  /** Two generating sequences that each own one of two blocks and need a second one: an iteration
      processes nothing, and so does every later one. */
  lemma {:induction false} HalfGrownStuck(cfg: Config, st: State, a: Sequence, b: Sequence, n: nat)
    requires cfg == Config(8, 8, 1, 2)
    requires a == Sequence(0, Decode, [7], [], 1, 1) && b == Sequence(1, Decode, [7], [], 1, 1)
    requires st == State(Pool([], map[0 := [0], 1 := [1]]), [], [a, b], [], [])
    ensures Inv(cfg, st) && Blocked(cfg, st) && Step(cfg, st).results == [] && StepN(cfg, st, n) == st
    decreases n
  {
    StuckInv(cfg, st, a, b);
    assert BlocksNeeded(2, 1) == 2;
    assert Blocked(cfg, st);
    BlockedStep(cfg, st);
    NothingDoneIff(cfg, st);
    SameTables(cfg, st, Step(cfg, st).st);
    if n > 0 { HalfGrownStuck(cfg, st, a, b, n - 1); }
  }

  /** With nothing waiting and every live sequence owning blocks, equal ownership is equal tables. */
  lemma SameTables(cfg: Config, st: State, st': State)
    requires cfg.blockSize > 0 && Inv(cfg, st) && Inv(cfg, st') && SamePool(st.pool, st'.pool)
    requires st' == st.(pool := st'.pool) && forall id :: id in LiveIds(st) ==> st.pool.Owned(id) != []
    ensures st' == st
  {
    forall id ensures id in st.pool.tables <==> id in st'.pool.tables {
      assert !Stray(st.pool, LiveIds(st), id) && !Stray(st'.pool, LiveIds(st), id);
    }
    forall id | id in st.pool.tables ensures st.pool.tables[id] == st'.pool.tables[id] {
      assert st.pool.Owned(id) == st'.pool.Owned(id);
    }
    assert st.pool.tables == st'.pool.tables;
  }

  lemma StuckInv(cfg: Config, st: State, a: Sequence, b: Sequence)
    requires cfg == Config(8, 8, 1, 2)
    requires a == Sequence(0, Decode, [7], [], 1, 1) && b == Sequence(1, Decode, [7], [], 1, 1)
    requires st == State(Pool([], map[0 := [0], 1 := [1]]), [], [a, b], [], [])
    ensures Inv(cfg, st)
  {
    var p := st.pool;
    assert LiveIds(st) == [0, 1];
    assert [0, 1][1..] == [1] && [1][1..] == [];
    assert Distinct([1]);
    forall x ensures !Stray(p, [0, 1], x) {}
    forall x: nat ensures Places(p, [0, 1], x) == if x < 2 then 1 else 0 { TwoOwners(p, x); }
  }

  lemma TwoOwners(p: Pool, x: nat)
    requires p == Pool([], map[0 := [0], 1 := [1]])
    ensures Places(p, [0, 1], x) == if x < 2 then 1 else 0
  {
    assert Count([0], x) == if x == 0 then 1 else 0;
    assert Count([1], x) == if x == 1 then 1 else 0;
    assert OwnedAt(p, [1], x) == Count([1], x);
    assert [0, 1][1..] == [1];
  }

  lemma GrowOne(free: seq<nat>, b: nat, tables: map<nat, seq<nat>>, id: nat)
    requires id !in tables
    ensures Grow(Pool(free + [b], tables), id, 1) == Grant(true, Pool(free, tables[id := [b]]))
  {
    var all := free + [b];
    assert all[..|all| - 1] == free;
    assert Popped(all, 1) == [b];
    assert [] + [b] == [b];
  }

  /** A fresh sequence with a one-token prompt is prefilled with one block. */
  lemma OneTokenPrompt(cfg: Config, free: seq<nat>, b: nat, tables: map<nat, seq<nat>>, s: Sequence, budget: nat)
    requires cfg.blockSize == 1 && cfg.maxPrefillChunk > 0 && budget > 0
    requires Fresh(s) && |s.prompt| == 1 && s.id !in tables
    ensures PrefillChunk(cfg, Pool(free + [b], tables), s, budget)
         == Chunk(Pool(free, tables[s.id := [b]]), s.(phase := Decode, cursor := 1), 1, false)
  {
    GrowOne(free, b, tables, s.id);
    assert BlocksNeeded(1, 1) == 1;
  }

  /** Two one-token prompts in an otherwise idle scheduler are both admitted. */
  lemma TwoAdmitted(cfg: Config, st: State, a: Sequence, b: Sequence)
    requires cfg == Config(8, 8, 1, 2)
    requires Fresh(a) && Fresh(b) && |a.prompt| == 1 == |b.prompt| && a.id == 0 && b.id == 1
    requires st == State(Pool([1, 0], map[]), [a, b], [], [], [])
    ensures Step(cfg, st).st == State(Pool([], map[0 := [0], 1 := [1]]), [],
              [a.(phase := Decode, cursor := 1), b.(phase := Decode, cursor := 1)], [], [])
  {
    var w := Work(st, 8, [], false);
    var a', b' := a.(phase := Decode, cursor := 1), b.(phase := Decode, cursor := 1);
    assert DecodeLoop(cfg, w, 0) == w && PrefillLoop(cfg, w, 0) == w;
    assert [1] + [0] == [1, 0] && [] + [1] == [1];
    OneTokenPrompt(cfg, [1], 0, map[], a, 8);
    var w1 := Work(State(Pool([1], map[0 := [0]]), [b], [a'], [], []), 7, [StepResult(0, true, 1, Decode)], false);
    assert [] + [a'] == [a'] && [a, b][1..] == [b] && [] + w1.results == w1.results;
    assert st.pool.tables[0 := [0]] == map[0 := [0]];
    assert AdmitOne(cfg, w) == (w1, true);
    OneTokenPrompt(cfg, [], 1, map[0 := [0]], b, 7);
    var w2 := AdmitOne(cfg, w1).0;
    assert w2.st == State(Pool([], map[0 := [0], 1 := [1]]), [], [a', b'], [], []);
    assert AdmitLoop(cfg, w2) == w2;
    assert AdmitLoop(cfg, w1) == w2;
  }

  /** Two one-token prompts arrive and are prefilled: the stuck state is reached. */
  lemma HalfGrownReached(cfg: Config, a: Sequence, b: Sequence)
    requires cfg == Config(8, 8, 1, 2)
    requires a == Sequence(0, Prefill, [7], [], 1, 0) && b == Sequence(1, Prefill, [7], [], 1, 0)
    ensures ValidRun(cfg, [Arrive(a), Arrive(b), Iterate])
    ensures Play(cfg, [Arrive(a), Arrive(b), Iterate]) == State(Pool([], map[0 := [0], 1 := [1]]), [],
              [Sequence(0, Decode, [7], [], 1, 1), Sequence(1, Decode, [7], [], 1, 1)], [], [])
  {
    var one, two := [Arrive(a)], [Arrive(a), Arrive(b)];
    assert [Arrive(a), Arrive(b), Iterate][..2] == two && two[..1] == one && one[..0] == [];
    assert InitialFree(1) == [0];
    assert Initial(cfg).pool == Pool([1, 0], map[]);
    assert Play(cfg, one) == Initial(cfg).(waiting := [a]);
    assert ValidRun(cfg, one) && ValidRun(cfg, two);
    assert Play(cfg, two) == Initial(cfg).(waiting := [a, b]);
    TwoAdmitted(cfg, Play(cfg, two), a, b);
  }
}
