/** The ring refines a bounded first-in first-out queue.

    The specification is a plain sequence plus the calls in progress. A push takes effect at its
    winning compare-exchange on `enqueue_pos_`, a pop at its winning compare-exchange on
    `dequeue_pos_`; every other atomic step is invisible or only makes an outcome known.
    A call may report "full" or "empty" while a conflicting call on the opposite side is between
    taking effect and returning: that is the precise sense in which the ring is not a strict queue.
 */
module RingRefinement {
  import opened Wrappers
  import opened RingBuffer

  /** The calls in progress, as a client of the queue sees them. */
  datatype Call<T> =
    | NoCall
    | Pushing(item: T)
    | Pushed(item: T)
    | PushResult(ok: bool)
    | Popping
    | Popped(value: T)
    | PopResult(result: Option<T>)
    | Sizing
    | SizeResult(size: nat)

  datatype Fifo<T> = Fifo(capacity: nat, queue: seq<T>, calls: seq<Call<T>>)

  ghost predicate TakesEffectPush<T>(a: Fifo<T>, b: Fifo<T>, t: nat)
    requires t < |a.calls|
  {
    && a.calls[t].Pushing? && |a.queue| < a.capacity
    && b == a.(queue := a.queue + [a.calls[t].item], calls := a.calls[t := Pushed(a.calls[t].item)])
  }

  ghost predicate TakesEffectPop<T>(a: Fifo<T>, b: Fifo<T>, t: nat)
    requires t < |a.calls|
  {
    && a.calls[t].Popping? && a.queue != []
    && b == a.(queue := a.queue[1..], calls := a.calls[t := Popped(a.queue[0])])
  }

  /** "Full" is reported only when the queue is full or some pop is still to release its cell. */
  ghost predicate MayFailPush<T>(a: Fifo<T>) {
    |a.queue| == a.capacity || exists u :: 0 <= u < |a.calls| && a.calls[u].Popped?
  }

  /** "Empty" is reported only when the queue is empty or its head is still to be published. */
  ghost predicate MayFailPop<T>(a: Fifo<T>) {
    a.queue == [] || exists u :: 0 <= u < |a.calls| && a.calls[u] == Pushed(a.queue[0])
  }

  /** The steps of one call that leave the queue alone. */
  ghost predicate CallStep<T>(a: Fifo<T>, before: Call<T>, after: Call<T>) {
    match before
    case NoCall => after.Pushing? || after.Popping? || after.Sizing?
    case Pushing(_) => after == PushResult(false) && MayFailPush(a)
    case Pushed(_) => after == PushResult(true)
    case PushResult(_) => after == NoCall
    case Popping => after == PopResult(None) && MayFailPop(a)
    case Popped(v) => after == PopResult(Some(v))
    case PopResult(_) => after == NoCall
    case Sizing => after.SizeResult? && after.size <= a.capacity
    case SizeResult(_) => after == NoCall
  }

  ghost predicate FifoNext<T>(a: Fifo<T>, b: Fifo<T>, t: nat)
    requires t < |a.calls|
  {
    || b == a
    || TakesEffectPush(a, b, t)
    || TakesEffectPop(a, b, t)
    || (|b.calls| == |a.calls| && b == a.(calls := a.calls[t := b.calls[t]])
        && CallStep(a, a.calls[t], b.calls[t]))
  }

  // ---------------------------------------------------------------------------------------
  // The abstraction
  // ---------------------------------------------------------------------------------------

  ghost function AbsPc<T>(pc: Pc<T>, items: seq<T>): Call<T>
    requires pc.PopRead? ==> pc.pos < |items|
  {
    match pc
    case Idle => NoCall
    case PushLoadPos(item) => Pushing(item)
    case PushLoadSeq(item, _) => Pushing(item)
    case PushCas(item, _) => Pushing(item)
    case PushWrite(item, _) => Pushed(item)
    case PushPublish(item, _) => Pushed(item)
    case PushReturn(ok) => PushResult(ok)
    case PopLoadPos => Popping
    case PopLoadSeq(_) => Popping
    case PopCas(_) => Popping
    case PopRead(p) => Popped(items[p])
    case PopRelease(_, out) => Popped(out)
    case PopReturn(result) => PopResult(result)
    case SizeLoadEnq => Sizing
    case SizeLoadDeq(_) => Sizing
    case SizeReturn(n) => SizeResult(n)
  }

  ghost predicate Mappable<T>(s: State<T>) {
    && s.deq <= s.enq <= |s.items|
    && forall t :: 0 <= t < |s.threads| && s.threads[t].PopRead? ==> s.threads[t].pos < |s.items|
  }

  ghost function Abs<T>(s: State<T>): Fifo<T>
    requires Mappable(s)
  {
    Fifo(|s.cells|, s.items[s.deq..s.enq],
         seq(|s.threads|, t requires 0 <= t < |s.threads| => AbsPc(s.threads[t], s.items)))
  }

  lemma InvMappable<T>(s: State<T>)
    requires Inv(s)
    ensures Mappable(s)
  {
    forall t | 0 <= t < |s.threads| && s.threads[t].PopRead? ensures s.threads[t].pos < |s.items| {
      assert ThreadInv(s, t);
    }
  }

  // ---------------------------------------------------------------------------------------
  // Refinement
  // ---------------------------------------------------------------------------------------

  lemma ClaimsRefine<T>(s: State<T>, t: nat, c: Choice<T>)
    requires Inv(s) && t < |s.threads| && !Quiet(s, t, c)
    requires s.threads[t].PushCas? || s.threads[t].PopCas?
    ensures Mappable(s) && Mappable(Next(s, t, c))
    ensures TakesEffectPush(Abs(s), Abs(Next(s, t, c)), t) || TakesEffectPop(Abs(s), Abs(Next(s, t, c)), t)
  {
    var s' := Next(s, t, c);
    NextInv(s, t, c);
    InvMappable(s);
    InvMappable(s');
    var a, b := Abs(s), Abs(s');
    if s.threads[t].PushCas? {
      ClaimPush(s, t, c);
      assert b.queue == a.queue + [a.calls[t].item];
      assert b.calls == a.calls[t := Pushed(a.calls[t].item)];
    } else {
      ClaimPop(s, t, c);
      assert b.queue == a.queue[1..];
      assert b.calls == a.calls[t := Popped(a.queue[0])];
    }
  }

  lemma FailuresRefine<T>(s: State<T>, t: nat, c: Choice<T>)
    requires Inv(s) && Mappable(s) && t < |s.threads|
    requires s.threads[t].PushLoadSeq? || s.threads[t].PopLoadSeq?
    ensures s.threads[t].PushLoadSeq? && Next(s, t, c).threads[t] == PushReturn(false) ==> MayFailPush(Abs(s))
    ensures s.threads[t].PopLoadSeq? && Next(s, t, c).threads[t] == PopReturn(None) ==> MayFailPop(Abs(s))
  {
    var a := Abs(s);
    if s.threads[t].PushLoadSeq? {
      PushFailure(s, t, c);
      var p := s.enq - |s.cells|;
      if p >= 0 && BeingPopped(s, p) {
        assert a.calls[s.consumers[p]].Popped?;
      }
    } else {
      PopFailure(s, t, c);
      if BeingPushed(s, s.deq) {
        assert ThreadInv(s, s.producers[s.deq]);
        assert a.calls[s.producers[s.deq]] == Pushed(a.queue[0]);
      }
    }
  }

  lemma CallsRefine<T>(s: State<T>, t: nat, c: Choice<T>)
    requires Inv(s) && t < |s.threads|
    requires Quiet(s, t, c) || (!s.threads[t].PushCas? && !s.threads[t].PopCas?)
    ensures Mappable(s) && Mappable(Next(s, t, c))
    ensures FifoNext(Abs(s), Abs(Next(s, t, c)), t)
  {
    var s' := Next(s, t, c);
    NextInv(s, t, c);
    InvMappable(s);
    InvMappable(s');
    var a, b := Abs(s), Abs(s');
    assert ThreadInv(s, t);
    if s.threads[t].PushLoadSeq? || s.threads[t].PopLoadSeq? { FailuresRefine(s, t, c); }
    var after := AbsPc(s'.threads[t], s'.items);
    assert b.queue == a.queue;
    assert b.calls == a.calls[t := after];
    if after == a.calls[t] {
      assert b.calls == a.calls;
    } else {
      assert CallStep(a, a.calls[t], after);
    }
  }

  /** Every atomic step of the ring is a step of the queue, or invisible. */
  lemma StepRefinesFifo<T>(s: State<T>, t: nat, c: Choice<T>)
    requires Inv(s) && t < |s.threads|
    ensures Mappable(s) && Mappable(Next(s, t, c))
    ensures FifoNext(Abs(s), Abs(Next(s, t, c)), t)
  {
    if !Quiet(s, t, c) && (s.threads[t].PushCas? || s.threads[t].PopCas?) {
      ClaimsRefine(s, t, c);
    } else {
      CallsRefine(s, t, c);
    }
  }

  /** A run of the queue under the same thread choices. */
  ghost predicate FifoRun<T>(trace: seq<Fifo<T>>, sched: Schedule<T>) {
    && |trace| == |sched| + 1
    && (forall i :: 0 <= i < |sched| ==>
          sched[i].0 < |trace[i].calls| && FifoNext(trace[i], trace[i + 1], sched[i].0))
  }

  /** `a` is what a client sees of the ring. */
  ghost predicate Shows<T>(r: State<T>, a: Fifo<T>) { Mappable(r) && a == Abs(r) }

  lemma EmptyQueue<T>(s: State<T>)
    requires Init(s) && Mappable(s)
    ensures Abs(s) == Fifo(|s.cells|, [], seq(|s.threads|, _ => NoCall))
  {
    assert s.items[0..0] == [];
  }

  /** One more step of the schedule, one more state of the trace. */
  lemma FifoRunExtends<T>(before: seq<Fifo<T>>, last: Fifo<T>, init: Schedule<T>, t: nat, c: Choice<T>)
    requires FifoRun(before, init) && t < |before[|init|].calls| && FifoNext(before[|init|], last, t)
    ensures FifoRun(before + [last], init + [(t, c)])
  {
    var trace, sched := before + [last], init + [(t, c)];
    forall i | 0 <= i < |sched|
      ensures sched[i].0 < |trace[i].calls| && FifoNext(trace[i], trace[i + 1], sched[i].0)
    {
      if i < |init| { assert sched[i] == init[i]; }
    }
  }

  /** The whole run of the ring under any schedule is, state by state, a run of the queue that
      starts empty: every queue content and every returned value is the queue's. */
  lemma {:induction false} RunRefinesFifo<T>(s: State<T>, sched: Schedule<T>) returns (trace: seq<Fifo<T>>)
    requires Init(s) && |s.cells| >= 2 && ValidSchedule(|s.threads|, sched)
    ensures FifoRun(trace, sched)
    ensures trace[0] == Fifo(|s.cells|, [], seq(|s.threads|, _ => NoCall))
    ensures forall i :: 0 <= i <= |sched| ==> Shows(Run(s, sched[..i]), trace[i])
  {
    RunInv(s, sched);
    var r := Run(s, sched);
    InvMappable(r);
    if sched == [] {
      trace := [Abs(s)];
      EmptyQueue(s);
    } else {
      var n := |sched| - 1;
      var init, t, c := sched[..n], sched[n].0, sched[n].1;
      var before := RunRefinesFifo(s, init);
      trace := before + [Abs(r)];
      forall i | 0 <= i <= |sched| ensures Shows(Run(s, sched[..i]), trace[i]) {
        if i <= n { assert init[..i] == sched[..i] && trace[i] == before[i]; } else { assert sched[..i] == sched; }
      }
      RunInv(s, init);
      assert init[..n] == init && Shows(Run(s, init[..n]), before[n]);
      StepRefinesFifo(Run(s, init), t, c);
      FifoRunExtends(before, Abs(r), init, t, c);
      assert sched == init + [(t, c)];
    }
  }

  // ---------------------------------------------------------------------------------------
  // A call that runs alone
  // ---------------------------------------------------------------------------------------

  ghost predicate OthersIdle<T>(s: State<T>, t: nat) {
    forall u :: 0 <= u < |s.threads| && u != t ==> s.threads[u].Idle?
  }

  /** `n` consecutive steps of thread `t`. */
  function Alone<T>(s: State<T>, t: nat, n: nat): (r: State<T>)
    requires |s.cells| > 0 && t < |s.threads|
    ensures |r.cells| == |s.cells| && |r.threads| == |s.threads|
  {
    if n == 0 then s else Next(Alone(s, t, n - 1), t, Continue)
  }

  lemma {:induction false} AloneIsARun<T>(s: State<T>, t: nat, n: nat)
    requires |s.cells| > 0 && t < |s.threads|
    ensures Alone(s, t, n) == Run(s, seq(n, _ => (t, Continue)))
  {
    if n > 0 {
      AloneIsARun(s, t, n - 1);
      var sched: Schedule<T> := seq(n, _ => (t, Continue));
      assert sched[..n - 1] == seq(n - 1, _ => (t, Continue));
    }
  }

  lemma {:induction false} AloneSplit<T>(s: State<T>, t: nat, m: nat, n: nat)
    requires |s.cells| > 0 && t < |s.threads|
    ensures Alone(s, t, m + n) == Alone(Alone(s, t, m), t, n)
  {
    if n > 0 { AloneSplit(s, t, m, n - 1); }
  }

  /** From its winning compare-exchange on, a push needs three steps. */
  lemma PushTail<T>(s: State<T>, t: nat)
    requires Inv(s) && Mappable(s) && t < |s.threads|
    requires s.threads[t].PushCas? && s.threads[t].pos == s.enq
    ensures var r := Alone(s, t, 3);
            && Inv(r) && Mappable(r) && r.threads[t] == PushReturn(true)
            && Abs(r).queue == Abs(s).queue + [s.threads[t].item]
  {
    var s1 := Next(s, t, Continue);
    NextInv(s, t, Continue);
    var s2 := Next(s1, t, Continue);
    NextInv(s1, t, Continue);
    var s3 := Next(s2, t, Continue);
    NextInv(s2, t, Continue);
    assert Alone(s, t, 1) == s1 && Alone(s, t, 2) == s2;
    InvMappable(s3);
    assert s3.items == s.items + [s.threads[t].item];
  }

  /** From its winning compare-exchange on, a pop needs three steps. */
  lemma PopTail<T>(s: State<T>, t: nat)
    requires Inv(s) && Mappable(s) && t < |s.threads|
    requires s.threads[t].PopCas? && s.threads[t].pos == s.deq
    ensures Abs(s).queue != []
    ensures var r := Alone(s, t, 3);
            && Inv(r) && Mappable(r) && r.threads[t] == PopReturn(Some(Abs(s).queue[0]))
            && Abs(r).queue == Abs(s).queue[1..]
  {
    ClaimPop(s, t, Continue);
    var r := Alone(s, t, 3);
    PopSteps(s, t);
    InvMappable(r);
    assert Abs(s).queue[0] == s.items[s.deq];
    assert s.items[s.deq..s.enq][1..] == s.items[s.deq + 1..s.enq];
  }

  lemma PopSteps<T>(s: State<T>, t: nat)
    requires Inv(s) && t < |s.threads| && s.deq < |s.items|
    requires s.threads[t].PopCas? && s.threads[t].pos == s.deq
    ensures var r := Alone(s, t, 3);
            && Inv(r) && r.threads[t] == PopReturn(Some(s.items[s.deq]))
            && r.items == s.items && r.deq == s.deq + 1 && r.enq == s.enq
  {
    ClaimPop(s, t, Continue);
    var s1 := Next(s, t, Continue);
    assert Alone(s, t, 1) == s1;
    PopReadAndRelease(s1, t, s.deq);
    assert Alone(s, t, 3) == Next(Next(s1, t, Continue), t, Continue) by {
      assert Alone(s, t, 2) == Next(s1, t, Continue);
    }
  }

  lemma PopReadAndRelease<T>(s: State<T>, t: nat, p: nat)
    requires Inv(s) && t < |s.threads| && s.threads[t] == PopRead(p) && p < |s.items|
    ensures var r := Next(Next(s, t, Continue), t, Continue);
            && Inv(r) && r.threads[t] == PopReturn(Some(s.items[p]))
            && r.items == s.items && r.deq == s.deq && r.enq == s.enq
  {
    ConsumerReadsItsTicket(s, t, Continue);
    NextInv(s, t, Continue);
    NextInv(Next(s, t, Continue), t, Continue);
  }

  /** With no other call in flight, a push returns false exactly when the ring holds `Capacity`
      items, and otherwise appends its item and returns true. */
  lemma SoloPush<T>(s: State<T>, t: nat, item: T)
    requires Inv(s) && Mappable(s) && t < |s.threads| && OthersIdle(s, t)
    requires s.threads[t] == PushLoadPos(item)
    ensures |Abs(s).queue| == |s.cells| ==> Alone(s, t, 2) == s.Goto(t, PushReturn(false))
    ensures |Abs(s).queue| < |s.cells| ==>
              var r := Alone(s, t, 5);
              Mappable(r) && r.threads[t] == PushReturn(true) && Abs(r).queue == Abs(s).queue + [item]
  {
    var s1 := Next(s, t, Continue);
    NextInv(s, t, Continue);
    assert s1 == Alone(s, t, 1);
    PushFailure(s1, t, Continue);
    var s2 := Next(s1, t, Continue);
    NextInv(s1, t, Continue);
    assert s2 == Alone(s, t, 2);
    NextCell(s1);
    if |Abs(s).queue| < |s.cells| {
      InvMappable(s2);
      assert s2.items == s.items;
      PushTail(s2, t);
      AloneSplit(s, t, 2, 3);
    }
  }

  /** With no other call in flight, a pop returns false exactly when the ring is empty, and
      otherwise removes and returns the oldest item. */
  lemma SoloPop<T>(s: State<T>, t: nat)
    requires Inv(s) && Mappable(s) && t < |s.threads| && OthersIdle(s, t)
    requires s.threads[t] == PopLoadPos
    ensures Abs(s).queue == [] ==> Alone(s, t, 2) == s.Goto(t, PopReturn(None))
    ensures Abs(s).queue != [] ==>
              var r := Alone(s, t, 5);
              && Mappable(r) && r.threads[t] == PopReturn(Some(Abs(s).queue[0]))
              && Abs(r).queue == Abs(s).queue[1..]
  {
    var s1 := Next(s, t, Continue);
    NextInv(s, t, Continue);
    assert s1 == Alone(s, t, 1);
    PopFailure(s1, t, Continue);
    var s2 := Next(s1, t, Continue);
    NextInv(s1, t, Continue);
    assert s2 == Alone(s, t, 2);
    if Abs(s).queue != [] {
      assert TicketInv(s1, s.deq);
      InvMappable(s2);
      assert s2.items == s.items;
      PopTail(s2, t);
      AloneSplit(s, t, 2, 3);
    }
  }

  /** With no other call in flight, the size reported is the number of items held. */
  lemma SoloSize<T>(s: State<T>, t: nat)
    requires Inv(s) && Mappable(s) && t < |s.threads| && OthersIdle(s, t)
    requires s.threads[t] == SizeLoadEnq
    ensures Alone(s, t, 2) == s.Goto(t, SizeReturn(|Abs(s).queue|))
  {
    assert Alone(s, t, 1) == s.Goto(t, SizeLoadDeq(s.enq));
  }

  // ---------------------------------------------------------------------------------------
  // Concrete schedules
  // ---------------------------------------------------------------------------------------

  /** The schedule goes on with one step of thread `t` with choice `c` and `n` steps of its own. */
  lemma GoOn<T>(s: State<T>, sched: Schedule<T>, t: nat, c: Choice<T>, n: nat) returns (more: Schedule<T>)
    requires |s.cells| > 0 && t < |s.threads| && ValidSchedule(|s.threads|, sched)
    ensures ValidSchedule(|s.threads|, more)
    ensures Run(s, more) == Alone(Next(Run(s, sched), t, c), t, n)
  {
    var r := Run(s, sched);
    var a: Schedule<T>, b: Schedule<T> := [(t, c)], seq(n, _ => (t, Continue));
    OneStep(r, a);
    AloneIsARun(Next(r, t, c), t, n);
    RunSplit(s, sched, a);
    RunSplit(s, sched + a, b);
    more := sched + a + b;
  }

  /** After a whole push or pop of one thread; its program counter is idle again. */
  function AfterPush<T>(s: State<T>, t: nat, item: T): State<T>
    requires |s.cells| > 0
  {
    s.Put(s.enq, Cell(s.enq + 1, item))
     .(enq := s.enq + 1, items := s.items + [item], producers := s.producers + [t])
  }

  function AfterPop<T>(s: State<T>, t: nat): State<T>
    requires |s.cells| > 0
  {
    s.Put(s.deq, s.At(s.deq).(sequence := s.deq + |s.cells|)).(deq := s.deq + 1, consumers := s.consumers + [t])
  }

  /** A thread that has won its compare-exchange and does nothing more. */
  function StalledPush<T>(s: State<T>, t: nat, item: T): State<T>
    requires t < |s.threads|
  {
    s.Goto(t, PushWrite(item, s.enq)).(enq := s.enq + 1, items := s.items + [item], producers := s.producers + [t])
  }

  function StalledPop<T>(s: State<T>, t: nat): State<T>
    requires t < |s.threads|
  {
    s.Goto(t, PopRead(s.deq)).(deq := s.deq + 1, consumers := s.consumers + [t])
  }

  lemma PushStalls<T>(s: State<T>, t: nat, item: T)
    requires |s.cells| > 0 && t < |s.threads| && s.threads[t].Idle? && s.At(s.enq).sequence == s.enq
    ensures Alone(Next(s, t, CallPush(item)), t, 3) == StalledPush(s, t, item)
  {
    var s0 := s.Goto(t, PushLoadPos(item));
    assert Alone(s0, t, 1) == s.Goto(t, PushLoadSeq(item, s.enq));
    assert Alone(s0, t, 2) == s.Goto(t, PushCas(item, s.enq));
    assert Alone(s0, t, 3) == StalledPush(s, t, item);
  }

  lemma PopStalls<T>(s: State<T>, t: nat)
    requires |s.cells| > 0 && t < |s.threads| && s.threads[t].Idle? && s.At(s.deq).sequence == s.deq + 1
    ensures Alone(Next(s, t, CallPop), t, 3) == StalledPop(s, t)
  {
    var s0 := s.Goto(t, PopLoadPos);
    assert Alone(s0, t, 1) == s.Goto(t, PopLoadSeq(s.deq));
    assert Alone(s0, t, 2) == s.Goto(t, PopCas(s.deq));
    assert Alone(s0, t, 3) == StalledPop(s, t);
  }

  lemma PushWhole<T>(s: State<T>, t: nat, item: T)
    requires |s.cells| > 0 && t < |s.threads| && s.threads[t].Idle? && s.At(s.enq).sequence == s.enq
    ensures Alone(Next(s, t, CallPush(item)), t, 6) == AfterPush(s, t, item)
  {
    PushStalls(s, t, item);
    var s0, s3 := Next(s, t, CallPush(item)), StalledPush(s, t, item);
    var s4 := s3.Put(s.enq, Cell(s.enq, item)).Goto(t, PushPublish(item, s.enq));
    assert Alone(s3, t, 1) == s4;
    var s5 := s4.Put(s.enq, Cell(s.enq + 1, item)).Goto(t, PushReturn(true));
    assert Alone(s3, t, 2) == s5;
    assert Alone(s3, t, 3) == s5.Goto(t, Idle) == AfterPush(s, t, item);
    AloneSplit(s0, t, 3, 3);
  }

  lemma PopWhole<T>(s: State<T>, t: nat)
    requires |s.cells| > 0 && t < |s.threads| && s.threads[t].Idle? && s.At(s.deq).sequence == s.deq + 1
    ensures Alone(Next(s, t, CallPop), t, 6) == AfterPop(s, t)
  {
    PopStalls(s, t);
    var s0, s3, cell := Next(s, t, CallPop), StalledPop(s, t), s.At(s.deq);
    var s4 := s3.Goto(t, PopRelease(s.deq, cell.data));
    assert Alone(s3, t, 1) == s4;
    var s5 := s4.Put(s.deq, cell.(sequence := s.deq + |s.cells|)).Goto(t, PopReturn(Some(cell.data)));
    assert Alone(s3, t, 2) == s5;
    assert Alone(s3, t, 3) == s5.Goto(t, Idle) == AfterPop(s, t);
    AloneSplit(s0, t, 3, 3);
  }

  lemma PushRefused<T>(s: State<T>, t: nat, item: T)
    requires |s.cells| > 0 && t < |s.threads| && s.threads[t].Idle? && s.At(s.enq).sequence < s.enq
    ensures Alone(Next(s, t, CallPush(item)), t, 2) == s.Goto(t, PushReturn(false))
  {
    var s0 := s.Goto(t, PushLoadPos(item));
    assert Alone(s0, t, 1) == s.Goto(t, PushLoadSeq(item, s.enq));
    assert Alone(s0, t, 2) == s.Goto(t, PushReturn(false));
  }

  lemma PopRefused<T>(s: State<T>, t: nat)
    requires |s.cells| > 0 && t < |s.threads| && s.threads[t].Idle? && s.At(s.deq).sequence < s.deq + 1
    ensures Alone(Next(s, t, CallPop), t, 2) == s.Goto(t, PopReturn(None))
  {
    var s0 := s.Goto(t, PopLoadPos);
    assert Alone(s0, t, 1) == s.Goto(t, PopLoadSeq(s.deq));
    assert Alone(s0, t, 2) == s.Goto(t, PopReturn(None));
  }

  // ---------------------------------------------------------------------------------------
  // "Full" and "empty" are not always so
  // ---------------------------------------------------------------------------------------

  /** Two pushes; one pop stops behind its compare-exchange, another pop completes; nothing is
      held any more, and yet a push reports that the ring is full. */
  lemma FullWhileEmpty<T>(s: State<T>, a: T, b: T, c: T) returns (sched: Schedule<T>)
    requires Init(s) && |s.cells| == 2 && |s.threads| >= 2
    ensures ValidSchedule(|s.threads|, sched) && Mappable(Run(s, sched))
    ensures Abs(Run(s, sched)).queue == [] && Run(s, sched).threads[0] == PushReturn(false)
  {
    var s1 := AfterPush(s, 0, a);
    PushWhole(s, 0, a);
    sched := GoOn(s, [], 0, CallPush(a), 6);
    var s2 := AfterPush(s1, 0, b);
    assert Slot(1, 2) == 1 && Slot(2, 2) == 0;
    PushWhole(s1, 0, b);
    sched := GoOn(s, sched, 0, CallPush(b), 6);
    var s3 := StalledPop(s2, 1);
    PopStalls(s2, 1);
    sched := GoOn(s, sched, 1, CallPop, 3);
    var s4 := AfterPop(s3, 0);
    PopWhole(s3, 0);
    sched := GoOn(s, sched, 0, CallPop, 6);
    PushRefused(s4, 0, c);
    sched := GoOn(s, sched, 0, CallPush(c), 2);
    var r := s4.Goto(0, PushReturn(false));
    assert Run(s, sched) == r && r.enq == 2 && r.deq == 2;
    assert r.items[2..2] == [];
  }

  /** A push stops behind its compare-exchange, another push completes and returns true; its item
      is held, and yet a pop reports that the ring is empty. */
  lemma EmptyWhileHeld<T>(s: State<T>, a: T, b: T) returns (sched: Schedule<T>)
    requires Init(s) && |s.cells| == 2 && |s.threads| >= 2
    ensures ValidSchedule(|s.threads|, sched) && Mappable(Run(s, sched))
    ensures Abs(Run(s, sched)).queue == [a, b] && Run(s, sched).threads[1] == PopReturn(None)
  {
    var s1 := StalledPush(s, 0, a);
    PushStalls(s, 0, a);
    sched := GoOn(s, [], 0, CallPush(a), 3);
    var s2 := AfterPush(s1, 1, b);
    assert Slot(1, 2) == 1;
    PushWhole(s1, 1, b);
    sched := GoOn(s, sched, 1, CallPush(b), 6);
    PopRefused(s2, 1);
    sched := GoOn(s, sched, 1, CallPop, 2);
    var r := s2.Goto(1, PopReturn(None));
    assert Run(s, sched) == r && r.items == [a, b] && r.deq == 0 && r.enq == 2;
    assert r.items[0..2] == [a, b];
  }

  // ---------------------------------------------------------------------------------------
  // Why the capacity is at least two
  // ---------------------------------------------------------------------------------------

  /** With a single cell, "published" and "released for the next lap" are the same sequence
      number: a second push claims the cell although nothing was popped, so the bound
      `enq <= deq + Capacity` and with it the first item are lost. */
  lemma OneCellOverruns<T>(s: State<T>, first: T, second: T) returns (sched: Schedule<T>)
    requires |s.cells| == 1 && |s.threads| > 0 && Init(s)
    ensures ValidSchedule(|s.threads|, sched)
    ensures var r := Run(s, sched); r.enq == 2 && r.deq == 0 && r.threads[0] == PushWrite(second, 1)
  {
    var s1 := AfterPush(s, 0, first);
    PushWhole(s, 0, first);
    sched := GoOn(s, [], 0, CallPush(first), 6);
    assert Slot(1, 1) == 0;
    PushStalls(s1, 0, second);
    sched := GoOn(s, sched, 0, CallPush(second), 3);
  }

  lemma OneStep<T>(s: State<T>, sched: Schedule<T>)
    requires |s.cells| > 0 && ValidSchedule(|s.threads|, sched) && |sched| == 1
    ensures Run(s, sched) == Next(s, sched[0].0, sched[0].1)
  {
    assert Run(s, sched[..0]) == s;
  }

  lemma {:induction false} RunSplit<T>(s: State<T>, a: Schedule<T>, b: Schedule<T>)
    requires |s.cells| > 0 && ValidSchedule(|s.threads|, a) && ValidSchedule(|s.threads|, b)
    ensures ValidSchedule(|s.threads|, a + b)
    ensures Run(s, a + b) == Run(Run(s, a), b)
  {
    if b == [] {
      assert a + b == a;
    } else {
      var n := |b| - 1;
      RunSplit(s, a, b[..n]);
      assert (a + b)[..|a + b| - 1] == a + b[..n];
    }
  }

  // ---------------------------------------------------------------------------------------
  // No call waits for another thread
  // ---------------------------------------------------------------------------------------

  predicate Returned<T>(pc: Pc<T>) { pc.PushReturn? || pc.PopReturn? || pc.SizeReturn? }

  /** The steps from the load of the current cursor to the return. */
  lemma FreshPushReturns<T>(s: State<T>, t: nat) returns (n: nat)
    requires Inv(s) && t < |s.threads| && s.threads[t].PushLoadSeq? && s.threads[t].pos == s.enq
    ensures n <= 5 && Returned(Alone(s, t, n).threads[t])
  {
    NextCell(s);
    var s1 := Next(s, t, Continue);
    assert Alone(s, t, 1) == s1;
    n := 1;
    if s1.threads[t].PushCas? {
      NextInv(s, t, Continue);
      InvMappable(s1);
      PushTail(s1, t);
      AloneSplit(s, t, 1, 3);
      n := 4;
    }
  }

  lemma FreshPopReturns<T>(s: State<T>, t: nat) returns (n: nat)
    requires Inv(s) && t < |s.threads| && s.threads[t].PopLoadSeq? && s.threads[t].pos == s.deq
    ensures n <= 5 && Returned(Alone(s, t, n).threads[t])
  {
    PopSequence(s);
    var s1 := Next(s, t, Continue);
    assert Alone(s, t, 1) == s1;
    n := 1;
    if s1.threads[t].PopCas? {
      NextInv(s, t, Continue);
      InvMappable(s1);
      PopTail(s1, t);
      AloneSplit(s, t, 1, 3);
      n := 4;
    }
  }

  /** The cell of the next pop is never ahead of it. */
  lemma PopSequence<T>(s: State<T>)
    requires Inv(s)
    ensures s.At(s.deq).sequence <= s.deq + 1
  {
    if s.deq < s.enq { assert TicketInv(s, s.deq); } else { NextCell(s); }
  }

  /** `n` more steps after `m`. */
  lemma Later<T>(s: State<T>, t: nat, m: nat, n: nat)
    requires |s.cells| > 0 && t < |s.threads| && Returned(Alone(Alone(s, t, m), t, n).threads[t])
    ensures Returned(Alone(s, t, m + n).threads[t])
  {
    AloneSplit(s, t, m, n);
  }

  /** A call in the middle of its retry loop. */
  lemma PushReturns<T>(s: State<T>, t: nat) returns (n: nat)
    requires Inv(s) && t < |s.threads|
    requires var pc := s.threads[t]; pc.PushLoadPos? || pc.PushLoadSeq? || pc.PushCas?
    ensures n <= 7 && Returned(Alone(s, t, n).threads[t])
  {
    assert ThreadInv(s, t);
    var s1 := Next(s, t, Continue);
    assert Alone(s, t, 1) == s1;
    NextInv(s, t, Continue);
    if s.threads[t].PushLoadSeq? && s.threads[t].pos == s.enq {
      n := FreshPushReturns(s, t);
    } else if s.threads[t].PushCas? && s.threads[t].pos == s.enq {
      InvMappable(s);
      PushTail(s, t);
      n := 3;
    } else if s.threads[t].PushLoadSeq? {
      n := StalePush(s, t);
    } else {
      var k := FreshPushReturns(s1, t);
      Later(s, t, 1, k);
      n := 1 + k;
    }
  }

  /** A stale position: the loop loads the cursor again, or the stale ticket's cell lets it try the
      compare-exchange, which fails and loads the cursor too. */
  lemma StalePush<T>(s: State<T>, t: nat) returns (n: nat)
    requires Inv(s) && t < |s.threads| && s.threads[t].PushLoadSeq? && s.threads[t].pos < s.enq
    ensures n <= 7 && Returned(Alone(s, t, n).threads[t])
  {
    assert ThreadInv(s, t);
    PushFailure(s, t, Continue);
    var s1 := Next(s, t, Continue);
    NextInv(s, t, Continue);
    assert Alone(s, t, 1) == s1;
    var s2 := Next(s1, t, Continue);
    NextInv(s1, t, Continue);
    assert Alone(s, t, 2) == s2;
    var k := FreshPushReturns(s2, t);
    Later(s, t, 2, k);
    n := 2 + k;
  }

  lemma PopReturns<T>(s: State<T>, t: nat) returns (n: nat)
    requires Inv(s) && t < |s.threads|
    requires var pc := s.threads[t]; pc.PopLoadPos? || pc.PopLoadSeq? || pc.PopCas?
    ensures n <= 7 && Returned(Alone(s, t, n).threads[t])
  {
    assert ThreadInv(s, t);
    var s1 := Next(s, t, Continue);
    assert Alone(s, t, 1) == s1;
    NextInv(s, t, Continue);
    if s.threads[t].PopLoadSeq? && s.threads[t].pos == s.deq {
      n := FreshPopReturns(s, t);
    } else if s.threads[t].PopCas? && s.threads[t].pos == s.deq {
      InvMappable(s);
      PopTail(s, t);
      n := 3;
    } else if s.threads[t].PopLoadSeq? {
      n := StalePop(s, t);
    } else {
      var k := FreshPopReturns(s1, t);
      Later(s, t, 1, k);
      n := 1 + k;
    }
  }

  lemma StalePop<T>(s: State<T>, t: nat) returns (n: nat)
    requires Inv(s) && t < |s.threads| && s.threads[t].PopLoadSeq? && s.threads[t].pos < s.deq
    ensures n <= 7 && Returned(Alone(s, t, n).threads[t])
  {
    assert ThreadInv(s, t);
    PopFailure(s, t, Continue);
    var s1 := Next(s, t, Continue);
    NextInv(s, t, Continue);
    assert Alone(s, t, 1) == s1;
    var s2 := Next(s1, t, Continue);
    NextInv(s1, t, Continue);
    assert Alone(s, t, 2) == s2;
    var k := FreshPopReturns(s2, t);
    Later(s, t, 2, k);
    n := 2 + k;
  }

  /** A call past its compare-exchange, or one that reads the size. */
  lemma TailReturns<T>(s: State<T>, t: nat) returns (n: nat)
    requires Inv(s) && t < |s.threads|
    requires var pc := s.threads[t];
             || pc.PushWrite? || pc.PushPublish? || pc.PopRead? || pc.PopRelease? || pc.SizeLoadEnq? || pc.SizeLoadDeq?
    ensures n <= 2 && Returned(Alone(s, t, n).threads[t])
  {
    var s1 := Next(s, t, Continue);
    assert Alone(s, t, 1) == s1;
    if Returned(s1.threads[t]) {
      n := 1;
    } else {
      n := 2;
      assert Alone(s, t, 2) == Next(s1, t, Continue);
    }
  }

  /** From any reachable state, however the other threads were stopped in the middle of their calls, a
      call that runs alone returns within seven steps. */
  lemma EveryCallReturnsAlone<T>(s: State<T>, t: nat) returns (n: nat)
    requires Inv(s) && t < |s.threads| && !s.threads[t].Idle?
    ensures n <= 7 && Returned(Alone(s, t, n).threads[t])
  {
    var pc := s.threads[t];
    if Returned(pc) {
      n := 0;
    } else if pc.PushLoadPos? || pc.PushLoadSeq? || pc.PushCas? {
      n := PushReturns(s, t);
    } else if pc.PopLoadPos? || pc.PopLoadSeq? || pc.PopCas? {
      n := PopReturns(s, t);
    } else {
      n := TailReturns(s, t);
    }
  }
}
