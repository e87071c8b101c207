/** The scheduler object of src/core/scheduler.hpp over sequence objects and the allocator object.

    Each method is proved to compute the function of `SchedulerSpec` of the same name, so the
    theorems about those functions are theorems about these loops. */
module Scheduler {
  import opened Wrappers
  import PageTable
  import opened PagedKVCache
  import Sequences
  import opened Metrics
  import Spec = SchedulerSpec

  /** src/core/sequence.hpp: the fields a run updates change in place. */
  class SequenceObject {
    const id: nat
    var phase: Sequences.Phase
    const promptTokens: seq<nat>
    var generatedTokens: seq<nat>
    const maxNewTokens: nat
    var prefillCursor: nat

    ghost function View(): Sequences.Sequence
      reads this
    {
      Sequences.Sequence(id, phase, promptTokens, generatedTokens, maxNewTokens, prefillCursor)
    }

    constructor (seqId: nat, prompt: seq<nat>, maxNew: nat)
      ensures View() == Sequences.Sequence(seqId, Sequences.Prefill, prompt, [], maxNew, 0)
      ensures Sequences.Fresh(View())
    {
      id, phase, promptTokens, generatedTokens, maxNewTokens, prefillCursor
        := seqId, Sequences.Prefill, prompt, [], maxNew, 0;
    }

    predicate PrefillComplete()
      reads this
    {
      prefillCursor >= |promptTokens|
    }

    function TotalTokens(): nat
      reads this
    {
      |promptTokens| + |generatedTokens|
    }

    /** Moves to `next`, or throws and changes nothing. */
    method TransitionTo(next: Sequences.Phase) returns (thrown: bool)
      modifies this`phase
      ensures thrown <==> Sequences.TransitionTo(old(View()), next).Err?
      ensures !thrown ==> View() == Sequences.TransitionTo(old(View()), next).value
      ensures thrown ==> View() == old(View())
    {
      if !Sequences.Legal(phase, next) { return true; }
      phase := next;
      return false;
    }
  }

  ghost function Views(ss: seq<SequenceObject>): (r: seq<Sequences.Sequence>)
    reads ss
    ensures |r| == |ss| && forall i :: 0 <= i < |ss| ==> r[i] == ss[i].View()
  {
    seq(|ss|, i requires 0 <= i < |ss| reads ss => ss[i].View())
  }

  ghost function Objects(ss: seq<SequenceObject>): set<SequenceObject> {
    set s | s in ss
  }

  ghost predicate Apart(ss: seq<SequenceObject>, i: int, j: int) {
    0 <= i < |ss| && 0 <= j < |ss| && i != j ==> ss[i] != ss[j]
  }

  ghost predicate NoAlias(ss: seq<SequenceObject>) {
    forall i, j :: Apart(ss, i, j)
  }

  /** The object at index `i` of the active set occurs nowhere else. */
  lemma OnlyOnce(active: seq<SequenceObject>, waiting: seq<SequenceObject>, i: nat)
    requires NoAlias(active + waiting) && i < |active|
    ensures forall j :: 0 <= j < |active| && j != i ==> active[j] != active[i]
    ensures active[i] !in waiting
  {
    var all := active + waiting;
    forall j | 0 <= j < |active| && j != i ensures active[j] != active[i] { assert Apart(all, i, j); }
    forall j | 0 <= j < |waiting| ensures waiting[j] != active[i] { assert Apart(all, i, |active| + j); }
  }

  class ContinuousBatchingScheduler {
    const config: Spec.Config
    const pageTable: PagedKVCacheAllocator
    var waiting: seq<SequenceObject>
    var active: seq<SequenceObject>
    ghost var finished: seq<Sequences.Sequence>
    ghost var log: seq<Spec.Recorded>

    ghost predicate Valid()
      reads this, waiting
    {
      && config.blockSize > 0
      && config.blockSize == pageTable.blockSize
      && NoAlias(active + waiting)
      && (forall i :: 0 <= i < |waiting| ==> waiting[i].phase != Sequences.Finished)
    }

    ghost function View(): Spec.State
      reads this, pageTable, waiting, active
    {
      Spec.State(pageTable.View(), Views(waiting), Views(active), finished, log)
    }

    constructor (cfg: Spec.Config, allocator: PagedKVCacheAllocator)
      requires cfg.blockSize > 0 && cfg.blockSize == allocator.blockSize
      ensures Valid() && config == cfg && pageTable == allocator
      ensures View() == Spec.State(allocator.View(), [], [], [], [])
    {
      config, pageTable := cfg, allocator;
      waiting, active, finished, log := [], [], [], [];
    }

    method Admit(s: SequenceObject)
      requires Valid() && s !in active && s !in waiting && s.phase != Sequences.Finished
      modifies this`waiting
      ensures Valid() && View() == Spec.Admit(old(View()), s.View())
    {
      waiting := waiting + [s];
      assert Views(waiting) == old(Views(waiting)) + [s.View()];
      assert active + waiting == old(active + waiting) + [s];
      forall j, k ensures Apart(active + waiting, j, k) { assert Apart(old(active + waiting), j, k); }
    }

    /** Finishes the sequence at index `i`: its blocks are freed and it leaves the active set. */
    method FinishSequence(i: nat, s: SequenceObject)
      requires Valid() && i < |active| && s == active[i] && s.phase == Sequences.Decode
      modifies this`active, this`finished, pageTable, s`phase
      ensures Valid() && waiting == old(waiting) && active == old(active[..i] + active[i + 1..])
      ensures s.phase == Sequences.Finished
      ensures var st := old(View());
              View() == Spec.State(PageTable.FreeSequence(st.pool, s.id), st.waiting,
                                   st.active[..i] + st.active[i + 1..],
                                   st.finished + [old(s.View()).(phase := Sequences.Finished)], st.log)
    {
      ghost var st := View();
      OnlyOnce(active, waiting, i);
      var thrown := s.TransitionTo(Sequences.Finished);
      assert !thrown;
      pageTable.FreeSequence(s.id);
      finished := finished + [s.View()];
      Removed(active, waiting, i);
      active := active[..i] + active[i + 1..];
      assert Views(waiting) == st.waiting;
      assert Views(active) == st.active[..i] + st.active[i + 1..];
    }

    /** Appends the next token to the sequence at index `i` and records its latency sample. */
    method AppendToken(i: nat, s: SequenceObject) returns (done: bool)
      requires Valid() && i < |active| && s == active[i]
      modifies this`log, s`generatedTokens
      ensures Valid()
      ensures var st, v := old(View()), old(s.View());
              var v' := v.(generated := v.generated + [Sequences.PLACEHOLDER]);
              && done == (|v'.generated| >= v'.maxNew)
              && View() == st.(active := st.active[i := v'],
                               log := st.log + [Spec.Recorded(v.id, if v.generated == [] then TTFT else InterToken)])
    {
      ghost var st := View();
      OnlyOnce(active, waiting, i);
      log := log + [Spec.Recorded(s.id, if s.generatedTokens == [] then TTFT else InterToken)];
      s.generatedTokens := s.generatedTokens + [Sequences.PLACEHOLDER];
      done := |s.generatedTokens| >= s.maxNewTokens;
      assert Views(waiting) == st.waiting && Views(active) == st.active[i := s.View()];
    }

    /** The part of the decode loop after the blocks are granted. */
    method EmitToken(i: nat, budget: nat, results: seq<Spec.StepResult>, ghost denied: bool)
      returns (i': nat, budget': nat, results': seq<Spec.StepResult>)
      requires Valid() && i < |active| && budget > 0 && active[i].phase == Sequences.Decode
      modifies this`active, this`finished, this`log, pageTable, Objects(active)
      ensures Valid() && waiting == old(waiting) && Objects(active) <= old(Objects(active))
      ensures (Spec.Work(View(), budget', results', denied), i')
           == Spec.EmitToken(Spec.Work(old(View()), budget, results, denied), i)
    {
      var s := active[i];
      var done := AppendToken(i, s);
      if done { FinishSequence(i, s); }
      budget' := budget - 1;
      results' := results + [Spec.StepResult(s.id, false, 1, s.phase)];
      i' := if done then i else i + 1;
    }

    /** The body of the decode loop for index `i`. */
    method DecodeOne(i: nat, budget: nat, results: seq<Spec.StepResult>, ghost denied: bool)
      returns (i': nat, budget': nat, results': seq<Spec.StepResult>, ghost denied': bool)
      requires Valid() && i < |active| && budget > 0
      modifies this`active, this`finished, this`log, pageTable, Objects(active)
      ensures Valid() && waiting == old(waiting) && Objects(active) <= old(Objects(active))
      ensures (Spec.Work(View(), budget', results', denied'), i')
           == Spec.DecodeOne(config, Spec.Work(old(View()), budget, results, denied), i)
    {
      ghost var st := View();
      i', budget', results', denied' := i + 1, budget, results, denied;
      var s := active[i];
      if s.phase != Sequences.Decode { return; }
      var ok := pageTable.EnsureCapacity(s.id, s.TotalTokens() + 1);
      assert Views(active) == st.active && Views(waiting) == st.waiting;
      if ok {
        i', budget', results' := EmitToken(i, budget, results, denied);
      } else {
        denied' := true;
      }
    }

    /** Prefills up to `maxPrefillChunk` prompt tokens of one sequence, bounded by the budget. */
    method PrefillChunk(s: SequenceObject, budget: nat) returns (chunk: nat, ghost denied: bool)
      requires config.blockSize > 0 && config.blockSize == pageTable.blockSize
      requires s.phase != Sequences.Finished
      modifies s`phase, s`prefillCursor, pageTable
      ensures Spec.Chunk(pageTable.View(), s.View(), chunk, denied)
           == Spec.PrefillChunk(config, old(pageTable.View()), old(s.View()), budget)
      ensures s.phase != Sequences.Finished && chunk <= budget
    {
      denied := false;
      if s.PrefillComplete() {
        var thrown := s.TransitionTo(Sequences.Decode);
        assert !thrown;
        return 0, false;
      }
      var remainingPrompt := |s.promptTokens| - s.prefillCursor;
      chunk := Spec.Min(Spec.Min(remainingPrompt, config.maxPrefillChunk), budget);
      if chunk == 0 { return; }
      var ok := pageTable.EnsureCapacity(s.id, s.prefillCursor + chunk);
      if !ok { return 0, true; }
      s.prefillCursor := s.prefillCursor + chunk;
      if s.PrefillComplete() {
        var thrown := s.TransitionTo(Sequences.Decode);
        assert !thrown;
      }
    }

    /** The body of the loop over active sequences still in prefill. */
    method PrefillOne(i: nat, budget: nat, results: seq<Spec.StepResult>, ghost denied: bool)
      returns (budget': nat, results': seq<Spec.StepResult>, ghost denied': bool)
      requires Valid() && i < |active| && budget > 0
      modifies pageTable, Objects(active)
      ensures Valid()
      ensures Spec.Work(View(), budget', results', denied')
           == Spec.PrefillOne(config, Spec.Work(old(View()), budget, results, denied), i)
    {
      ghost var st := View();
      budget', results', denied' := budget, results, denied;
      var s := active[i];
      if s.phase != Sequences.Prefill { return; }
      OnlyOnce(active, waiting, i);
      ghost var refused: bool;
      var chunk: nat;
      chunk, refused := PrefillChunk(s, budget);
      denied' := denied || refused;
      assert Views(active) == st.active[i := s.View()] && Views(waiting) == st.waiting;
      if chunk > 0 {
        budget' := budget - chunk;
        results' := results + [Spec.StepResult(s.id, true, chunk, s.phase)];
      }
    }

    /** The body of the admission loop. */
    method AdmitOne(budget: nat, results: seq<Spec.StepResult>, ghost denied: bool)
      returns (more: bool, budget': nat, results': seq<Spec.StepResult>, ghost denied': bool)
      requires Valid() && waiting != [] && budget > 0
      modifies this`active, this`waiting, pageTable, Objects(waiting)
      ensures Valid() && Objects(waiting) <= old(Objects(waiting))
      ensures (Spec.Work(View(), budget', results', denied'), more)
           == Spec.AdmitOne(config, Spec.Work(old(View()), budget, results, denied))
    {
      ghost var st := View();
      budget', results' := budget, results;
      var s := waiting[0];
      HeadOnce(active, waiting);
      ghost var refused: bool;
      var chunk: nat;
      chunk, refused := PrefillChunk(s, budget);
      denied' := denied || refused;
      assert Views(waiting) == st.waiting[0 := s.View()] && Views(active) == st.active;
      if chunk == 0 { return false, budget, results, denied'; }
      budget' := budget - chunk;
      results' := results + [Spec.StepResult(s.id, true, chunk, s.phase)];
      Promote();
      more := true;
    }

    /** Moves the head of the waiting queue to the end of the active set. */
    method Promote()
      requires Valid() && waiting != []
      modifies this`active, this`waiting
      ensures Valid() && waiting == old(waiting[1..]) && active == old(active + [waiting[0]])
      ensures var st := old(View()); View() == st.(waiting := st.waiting[1..], active := st.active + [st.waiting[0]])
    {
      ghost var st := View();
      active := active + [waiting[0]];
      waiting := waiting[1..];
      assert active + waiting == old(active + waiting);
      assert Views(waiting) == st.waiting[1..] && Views(active) == st.active + [st.waiting[0]];
    }

    /** Loop 1: one token for every active sequence in the decode phase. */
    method DecodeLoop(budget0: nat)
      returns (budget: nat, results: seq<Spec.StepResult>, ghost denied: bool)
      requires Valid()
      modifies this`active, this`finished, this`log, pageTable, Objects(active)
      ensures Valid() && waiting == old(waiting) && Objects(active) <= old(Objects(active))
      ensures Spec.Work(View(), budget, results, denied)
           == Spec.DecodeLoop(config, Spec.Work(old(View()), budget0, [], false), 0)
    {
      ghost var w0 := Spec.Work(View(), budget0, [], false);
      budget, results, denied := budget0, [], false;
      var i: nat := 0;
      while i < |active| && budget > 0
        invariant Valid() && waiting == old(waiting) && Objects(active) <= old(Objects(active))
        invariant Spec.DecodeLoop(config, Spec.Work(View(), budget, results, denied), i)
               == Spec.DecodeLoop(config, w0, 0)
        decreases |active| - i
      {
        i, budget, results, denied := DecodeOne(i, budget, results, denied);
      }
    }

    /** Loop 2: further prefill chunks for the active sequences still in prefill. */
    method PrefillLoop(budget1: nat, results1: seq<Spec.StepResult>, ghost denied1: bool)
      returns (budget: nat, results: seq<Spec.StepResult>, ghost denied: bool)
      requires Valid()
      modifies pageTable, Objects(active)
      ensures Valid()
      ensures Spec.Work(View(), budget, results, denied)
           == Spec.PrefillLoop(config, Spec.Work(old(View()), budget1, results1, denied1), 0)
    {
      ghost var w1 := Spec.Work(View(), budget1, results1, denied1);
      budget, results, denied := budget1, results1, denied1;
      var i: nat := 0;
      while i < |active| && budget > 0
        invariant Valid()
        invariant Spec.PrefillLoop(config, Spec.Work(View(), budget, results, denied), i)
               == Spec.PrefillLoop(config, w1, 0)
        decreases |active| - i
      {
        budget, results, denied := PrefillOne(i, budget, results, denied);
        i := i + 1;
      }
    }

    /** Loop 3: admission from the waiting queue, in order, until a chunk fails. */
    method AdmitLoop(budget2: nat, results2: seq<Spec.StepResult>, ghost denied2: bool)
      returns (budget: nat, results: seq<Spec.StepResult>, ghost denied: bool)
      requires Valid()
      modifies this`active, this`waiting, pageTable, Objects(waiting)
      ensures Valid()
      ensures Spec.Work(View(), budget, results, denied)
           == Spec.AdmitLoop(config, Spec.Work(old(View()), budget2, results2, denied2))
    {
      ghost var w2 := Spec.Work(View(), budget2, results2, denied2);
      budget, results, denied := budget2, results2, denied2;
      var more := true;
      while more && budget > 0 && waiting != []
        invariant Valid() && Objects(waiting) <= old(Objects(waiting))
        invariant var w := Spec.Work(View(), budget, results, denied);
                  (if more then Spec.AdmitLoop(config, w) else w) == Spec.AdmitLoop(config, w2)
        decreases more, |waiting|
      {
        more, budget, results, denied := AdmitOne(budget, results, denied);
      }
    }

    /** One scheduling iteration. */
    method Step() returns (results: seq<Spec.StepResult>, ghost denied: bool)
      requires Valid()
      modifies this`active, this`waiting, this`finished, this`log, pageTable, Objects(active), Objects(waiting)
      ensures Valid()
      ensures View() == Spec.Step(config, old(View())).st
      ensures results == Spec.Step(config, old(View())).results
      ensures denied == Spec.Step(config, old(View())).denied
    {
      var budget: nat;
      budget, results, denied := DecodeLoop(config.maxBatchTokens);
      budget, results, denied := PrefillLoop(budget, results, denied);
      budget, results, denied := AdmitLoop(budget, results, denied);
    }
  }

  lemma HeadOnce(active: seq<SequenceObject>, waiting: seq<SequenceObject>)
    requires NoAlias(active + waiting) && waiting != []
    ensures waiting[0] !in active && forall j :: 0 < j < |waiting| ==> waiting[j] != waiting[0]
  {
    var all, k := active + waiting, |active|;
    forall j | 0 <= j < |active| ensures active[j] != waiting[0] { assert Apart(all, j, k); }
    forall j | 0 < j < |waiting| ensures waiting[j] != waiting[0] { assert Apart(all, k, k + j); }
  }

  lemma Removed(active: seq<SequenceObject>, waiting: seq<SequenceObject>, i: nat)
    requires NoAlias(active + waiting) && i < |active|
    ensures NoAlias(active[..i] + active[i + 1..] + waiting)
  {
    var rest := active[..i] + active[i + 1..] + waiting;
    forall j, k ensures Apart(rest, j, k) {
      assert Apart(active + waiting, if j < i then j else j + 1, if k < i then k else k + 1);
    }
  }
}
