/** The recorder and the flusher of src/core/telemetry.hpp over the shared ring.

    Recording threads push samples and count those the ring refuses; draining threads pop samples
    and append them to the list of their kind. All threads interleave at the ring's atomic steps;
    counting a refusal and appending a sample are one step each. */
module Telemetry {
  import opened Wrappers
  import opened RingBuffer
  import opened RingRefinement
  import opened Metrics

  datatype Sample = Sample(seqId: nat, kind: MetricKind, latency: nat)

  /** `recorded`, `collected` and `lost` record what happened; no step reads them. */
  datatype State = State(
    ring: RingBuffer.State<Sample>,
    enabled: bool,
    dropped: nat,
    ttft: seq<nat>,
    interToken: seq<nat>,
    recorded: seq<Sample>,
    collected: seq<Sample>,
    lost: seq<Sample>)

  datatype Action = SetEnabled(on: bool) | Move(t: nat, c: Choice<Sample>)

  /** A disabled recorder ignores the sample. */
  predicate Ignored(s: State, t: nat, c: Choice<Sample>)
    requires t < |s.ring.threads|
  {
    s.ring.threads[t].Idle? && c.CallPush? && !s.enabled
  }

  function Latencies(samples: seq<Sample>, kind: MetricKind): seq<nat> {
    if samples == [] then []
    else
      var last := samples[|samples| - 1];
      Latencies(samples[..|samples| - 1], kind) + if last.kind == kind then [last.latency] else []
  }

  function Step(s: State, a: Action): (r: State)
    requires |s.ring.cells| > 0 && (a.Move? ==> a.t < |s.ring.threads|)
    ensures |r.ring.cells| == |s.ring.cells| && |r.ring.threads| == |s.ring.threads|
  {
    match a
    case SetEnabled(on) => s.(enabled := on)
    case Move(t, c) =>
      if Ignored(s, t, c) then s
      else Account(s, s.ring.threads[t], c, Next(s.ring, t, c), t)
  }

  /** The bookkeeping around one atomic step of the ring. */
  function Account(s: State, pc: Pc<Sample>, c: Choice<Sample>, ring': RingBuffer.State<Sample>, t: nat): (r: State)
    requires t < |ring'.threads|
    ensures r.ring == ring'
  {
    if pc.Idle? && c.CallPush? then s.(ring := ring', recorded := s.recorded + [c.item])
    else if pc.PushLoadSeq? && ring'.threads[t] == PushReturn(false) then
      s.(ring := ring', lost := s.lost + [pc.item])
    else if pc == PushReturn(false) then s.(ring := ring', dropped := s.dropped + 1)
    else if pc.PopReturn? && pc.result.Some? then
      var x := pc.result.value;
      s.(ring := ring', collected := s.collected + [x],
         ttft := if x.kind == TTFT then s.ttft + [x.latency] else s.ttft,
         interToken := if x.kind == InterToken then s.interToken + [x.latency] else s.interToken)
    else s.(ring := ring')
  }

  // ---------------------------------------------------------------------------------------
  // Where the samples are
  // ---------------------------------------------------------------------------------------

  /** A choice of samples to count: one certain sample, one kind, or all. */
  type Which = Sample -> bool

  function One(w: Which, x: Sample): nat { if w(x) then 1 else 0 }

  function Count(w: Which, samples: seq<Sample>): nat {
    if samples == [] then 0 else Count(w, samples[..|samples| - 1]) + One(w, samples[|samples| - 1])
  }

  /** The sample a call in progress has in its hands: not yet in the ring, or no longer. */
  function Held(w: Which, call: Call<Sample>): nat {
    match call
    case Pushing(x) => One(w, x)
    case Popped(x) => One(w, x)
    case PopResult(r) => if r.Some? then One(w, r.value) else 0
    case _ => 0
  }

  function InHands(w: Which, calls: seq<Call<Sample>>): nat {
    if calls == [] then 0 else InHands(w, calls[..|calls| - 1]) + Held(w, calls[|calls| - 1])
  }

  /** A thread whose sample was refused and that has not counted it yet. */
  function Refused(call: Call<Sample>): nat { if call == PushResult(false) then 1 else 0 }

  function ToCount(calls: seq<Call<Sample>>): nat {
    if calls == [] then 0 else ToCount(calls[..|calls| - 1]) + Refused(calls[|calls| - 1])
  }

  /** However samples are chosen, those recorded are those collected, lost, in the ring or in the
      hands of a call. */
  ghost predicate Balanced(w: Which, s: State, a: Fifo<Sample>) {
    Count(w, s.recorded) == Count(w, s.collected) + Count(w, s.lost) + Count(w, a.queue) + InHands(w, a.calls)
  }

  /** The drop counter counts the lost samples and the lists hold the collected ones. */
  ghost predicate Conserved(w: Which, s: State)
    requires Mappable(s.ring)
  {
    && Balanced(w, s, Abs(s.ring))
    && |s.lost| == s.dropped + ToCount(Abs(s.ring).calls)
    && s.ttft == Latencies(s.collected, TTFT)
    && s.interToken == Latencies(s.collected, InterToken)
  }

  lemma CountAppend(w: Which, samples: seq<Sample>, x: Sample)
    ensures Count(w, samples + [x]) == Count(w, samples) + One(w, x)
  {
    assert (samples + [x])[..|samples|] == samples;
  }

  lemma {:induction false} CountHead(w: Which, samples: seq<Sample>)
    requires samples != []
    ensures Count(w, samples) == One(w, samples[0]) + Count(w, samples[1..])
  {
    if |samples| == 1 {
      assert samples[..0] == [] && samples[1..] == [];
    } else {
      var n := |samples| - 1;
      CountHead(w, samples[..n]);
      assert samples[..n][1..] == samples[1..][..n - 1];
    }
  }

  lemma {:induction false} InHandsUpdate(w: Which, calls: seq<Call<Sample>>, t: nat, call: Call<Sample>)
    requires t < |calls|
    ensures InHands(w, calls[t := call]) + Held(w, calls[t]) == InHands(w, calls) + Held(w, call)
  {
    var n := |calls| - 1;
    if t == n {
      assert calls[t := call][..n] == calls[..n];
    } else {
      assert calls[t := call][..n] == calls[..n][t := call];
      InHandsUpdate(w, calls[..n], t, call);
    }
  }

  lemma {:induction false} ToCountUpdate(calls: seq<Call<Sample>>, t: nat, call: Call<Sample>)
    requires t < |calls|
    ensures ToCount(calls[t := call]) + Refused(calls[t]) == ToCount(calls) + Refused(call)
  {
    var n := |calls| - 1;
    if t == n {
      assert calls[t := call][..n] == calls[..n];
    } else {
      assert calls[t := call][..n] == calls[..n][t := call];
      ToCountUpdate(calls[..n], t, call);
    }
  }

  /** Samples that a step of one call brings in. */
  function Entered(w: Which, before: Call<Sample>, after: Call<Sample>): nat {
    if before.NoCall? && after.Pushing? then One(w, after.item) else 0
  }

  /** Samples that a step of one call gives up: a refused one, or one handed to the flusher. */
  function Left(w: Which, before: Call<Sample>, after: Call<Sample>): nat {
    if before.Pushing? && after == PushResult(false) then One(w, before.item)
    else if before.PopResult? && before.result.Some? && after.NoCall? then One(w, before.result.value)
    else 0
  }

  /** The ring's part of a step: what leaves the hands and the queue, and what enters them. */
  lemma RingStep(w: Which, a: Fifo<Sample>, b: Fifo<Sample>, t: nat)
    requires t < |a.calls| == |b.calls| && FifoNext(a, b, t)
    ensures b.calls == a.calls[t := b.calls[t]]
    ensures Count(w, b.queue) + Held(w, b.calls[t]) + Left(w, a.calls[t], b.calls[t])
         == Count(w, a.queue) + Held(w, a.calls[t]) + Entered(w, a.calls[t], b.calls[t])
  {
    if TakesEffectPush(a, b, t) {
      CountAppend(w, a.queue, a.calls[t].item);
    } else if TakesEffectPop(a, b, t) {
      CountHead(w, a.queue);
    }
  }

  /** What the account of a step has to do with the call it belongs to. */
  ghost predicate Matches(
    pc: Pc<Sample>, c: Choice<Sample>, pc': Pc<Sample>, before: Call<Sample>, after: Call<Sample>) {
    if pc.Idle? && c.CallPush? then before.NoCall? && after == Pushing(c.item)
    else if pc.PushLoadSeq? && pc' == PushReturn(false) then before == Pushing(pc.item) && after == PushResult(false)
    else if pc == PushReturn(false) then before == PushResult(false) && after.NoCall?
    else if pc.PopReturn? && pc.result.Some? then before == PopResult(pc.result) && after.NoCall?
    else
      && !(before.NoCall? && after.Pushing?) && !(before.PopResult? && before.result.Some?)
      && before != PushResult(false) && after != PushResult(false)
  }

  lemma CallMatches(r: RingBuffer.State<Sample>, t: nat, c: Choice<Sample>)
    requires Inv(r) && t < |r.threads| && Mappable(r) && Mappable(Next(r, t, c))
    ensures Matches(r.threads[t], c, Next(r, t, c).threads[t], Abs(r).calls[t], Abs(Next(r, t, c)).calls[t])
  {
    var pc := r.threads[t];
    assert Abs(r).calls[t] == AbsPc(pc, r.items);
    var r' := Next(r, t, c);
    assert Abs(r').calls[t] == AbsPc(r'.threads[t], r'.items);
  }

  /** The samples a step records, loses and collects are those entering and leaving. */
  lemma AccountMatches(
    w: Which, s: State, pc: Pc<Sample>, c: Choice<Sample>, r': RingBuffer.State<Sample>, t: nat,
    before: Call<Sample>, after: Call<Sample>, s': State)
    requires t < |r'.threads| && Matches(pc, c, r'.threads[t], before, after) && s' == Account(s, pc, c, r', t)
    ensures Count(w, s'.recorded) == Count(w, s.recorded) + Entered(w, before, after)
    ensures Count(w, s'.collected) + Count(w, s'.lost)
         == Count(w, s.collected) + Count(w, s.lost) + Left(w, before, after)
    ensures |s'.lost| + s.dropped + Refused(before) == |s.lost| + s'.dropped + Refused(after)
  {
    if pc.Idle? && c.CallPush? {
      assert s'.recorded == s.recorded + [c.item] && s'.collected == s.collected && s'.lost == s.lost;
      CountAppend(w, s.recorded, c.item);
    } else if pc.PushLoadSeq? && r'.threads[t] == PushReturn(false) {
      assert s'.recorded == s.recorded && s'.collected == s.collected && s'.lost == s.lost + [pc.item];
      CountAppend(w, s.lost, pc.item);
    } else if pc == PushReturn(false) {
      assert s'.recorded == s.recorded && s'.collected == s.collected && s'.lost == s.lost;
    } else if pc.PopReturn? && pc.result.Some? {
      assert s'.recorded == s.recorded && s'.collected == s.collected + [pc.result.value] && s'.lost == s.lost;
      CountAppend(w, s.collected, pc.result.value);
    } else {
      assert s' == s.(ring := r');
    }
  }

  lemma ListsMatch(s: State, pc: Pc<Sample>, c: Choice<Sample>, r': RingBuffer.State<Sample>, t: nat, s': State)
    requires t < |r'.threads| && s' == Account(s, pc, c, r', t)
    requires s.ttft == Latencies(s.collected, TTFT) && s.interToken == Latencies(s.collected, InterToken)
    ensures s'.ttft == Latencies(s'.collected, TTFT) && s'.interToken == Latencies(s'.collected, InterToken)
  {
    if pc.PopReturn? && pc.result.Some? {
      LatenciesAppend(s.collected, pc.result.value, TTFT);
      LatenciesAppend(s.collected, pc.result.value, InterToken);
    }
  }

  /** The list of a kind holds the latencies of the samples of that kind, in order. */
  lemma {:induction false} LatenciesOfKind(samples: seq<Sample>, kind: MetricKind)
    requires forall i :: 0 <= i < |samples| ==> samples[i].kind == kind
    ensures |Latencies(samples, kind)| == |samples|
    ensures forall i :: 0 <= i < |samples| ==> Latencies(samples, kind)[i] == samples[i].latency
  {
    if samples != [] { LatenciesOfKind(samples[..|samples| - 1], kind); }
  }

  lemma {:induction false} LatenciesOfOther(samples: seq<Sample>, kind: MetricKind)
    requires forall i :: 0 <= i < |samples| ==> samples[i].kind != kind
    ensures Latencies(samples, kind) == []
  {
    if samples != [] { LatenciesOfOther(samples[..|samples| - 1], kind); }
  }

  lemma {:induction false} LatenciesSum(a: seq<Sample>, b: seq<Sample>, kind: MetricKind)
    ensures Latencies(a + b, kind) == Latencies(a, kind) + Latencies(b, kind)
  {
    if b == [] {
      assert a + b == a;
    } else {
      assert (a + b)[..|a + b| - 1] == a + b[..|b| - 1];
      LatenciesSum(a, b[..|b| - 1], kind);
    }
  }

  lemma LatenciesAppend(samples: seq<Sample>, x: Sample, kind: MetricKind)
    ensures Latencies(samples + [x], kind)
         == if x.kind == kind then Latencies(samples, kind) + [x.latency] else Latencies(samples, kind)
  {
    assert (samples + [x])[..|samples|] == samples;
  }

  /** Every step of every thread keeps the account. */
  lemma StepConserves(w: Which, s: State, t: nat, c: Choice<Sample>)
    requires Inv(s.ring) && Mappable(s.ring) && t < |s.ring.threads| && Conserved(w, s)
    ensures Inv(Step(s, Move(t, c)).ring) && Mappable(Step(s, Move(t, c)).ring) && Conserved(w, Step(s, Move(t, c)))
  {
    if !Ignored(s, t, c) {
      NextInv(s.ring, t, c);
      StepRefinesFifo(s.ring, t, c);
      var a, b := Abs(s.ring), Abs(Next(s.ring, t, c));
      CallMatches(s.ring, t, c);
      AccountMatches(w, s, s.ring.threads[t], c, Next(s.ring, t, c), t, a.calls[t], b.calls[t], Step(s, Move(t, c)));
      RingStep(w, a, b, t);
      InHandsUpdate(w, a.calls, t, b.calls[t]);
      ToCountUpdate(a.calls, t, b.calls[t]);
      ListsMatch(s, s.ring.threads[t], c, Next(s.ring, t, c), t, Step(s, Move(t, c)));
    }
  }

  // ---------------------------------------------------------------------------------------
  // Runs
  // ---------------------------------------------------------------------------------------

  ghost predicate ValidActions(threads: nat, actions: seq<Action>) {
    forall i :: 0 <= i < |actions| && actions[i].Move? ==> actions[i].t < threads
  }

  ghost function After(s: State, actions: seq<Action>): (r: State)
    requires |s.ring.cells| > 0 && ValidActions(|s.ring.threads|, actions)
    ensures |r.ring.cells| == |s.ring.cells| && |r.ring.threads| == |s.ring.threads|
  {
    if actions == [] then s else Step(After(s, actions[..|actions| - 1]), actions[|actions| - 1])
  }

  /** An enabled recorder takes the sample of an idle thread into its push; a disabled one does
      nothing; and no other action records anything. */
  lemma RecordsIffEnabled(s: State, t: nat, c: Choice<Sample>)
    requires |s.ring.cells| > 0 && t < |s.ring.threads|
    ensures s.ring.threads[t].Idle? && c.CallPush? && s.enabled ==>
              var r := Step(s, Move(t, c));
              && r.recorded == s.recorded + [c.item] && r.ring == s.ring.Goto(t, PushLoadPos(c.item))
              && r == s.(recorded := r.recorded, ring := r.ring)
    ensures s.ring.threads[t].Idle? && c.CallPush? && !s.enabled ==> Step(s, Move(t, c)) == s
    ensures !(s.ring.threads[t].Idle? && c.CallPush?) ==> Step(s, Move(t, c)).recorded == s.recorded
    ensures Step(s, Move(t, c)).enabled == s.enabled
  {}

  /** Whether the last switch among `actions` left the recorder on. */
  ghost function EnabledAfter(on: bool, actions: seq<Action>): bool {
    if actions == [] then on
    else
      match actions[|actions| - 1]
      case SetEnabled(b) => b
      case Move(_, _) => EnabledAfter(on, actions[..|actions| - 1])
  }

  /** The samples that idle threads brought while the recorder was on, in order. */
  ghost function Offered(s: State, actions: seq<Action>): seq<Sample>
    requires |s.ring.cells| > 0 && ValidActions(|s.ring.threads|, actions)
  {
    if actions == [] then []
    else
      var init, last := actions[..|actions| - 1], actions[|actions| - 1];
      Offered(s, init) +
      if last.Move? && last.c.CallPush? && After(s, init).ring.threads[last.t].Idle? && EnabledAfter(s.enabled, init)
      then [last.c.item] else []
  }

  /** Over any actions of any threads, exactly those samples are recorded. */
  lemma {:induction false} RecordedAreOffered(s: State, actions: seq<Action>)
    requires |s.ring.cells| > 0 && ValidActions(|s.ring.threads|, actions)
    ensures After(s, actions).enabled == EnabledAfter(s.enabled, actions)
    ensures After(s, actions).recorded == s.recorded + Offered(s, actions)
  {
    if actions != [] {
      var init, last := actions[..|actions| - 1], actions[|actions| - 1];
      RecordedAreOffered(s, init);
      if last.Move? { RecordsIffEnabled(After(s, init), last.t, last.c); }
    }
  }

  ghost predicate Start(s: State) {
    && Init(s.ring) && |s.ring.cells| >= 2 && s.dropped == 0 && s.ttft == [] && s.interToken == []
    && s.recorded == [] && s.collected == [] && s.lost == []
  }

  lemma {:induction false} NothingInHands(w: Which, calls: seq<Call<Sample>>)
    requires forall t :: 0 <= t < |calls| ==> calls[t].NoCall?
    ensures InHands(w, calls) == 0 && ToCount(calls) == 0
  {
    if calls != [] { NothingInHands(w, calls[..|calls| - 1]); }
  }

  /** After any actions of any threads in any interleaving. */
  lemma {:induction false} RunConserves(w: Which, s: State, actions: seq<Action>)
    requires Start(s) && ValidActions(|s.ring.threads|, actions)
    ensures Inv(After(s, actions).ring) && Mappable(After(s, actions).ring) && Conserved(w, After(s, actions))
  {
    if actions == [] {
      StartConserves(w, s);
    } else {
      var n := |actions| - 1;
      RunConserves(w, s, actions[..n]);
      if actions[n].Move? { StepConserves(w, After(s, actions[..n]), actions[n].t, actions[n].c); }
    }
  }

  lemma StartConserves(w: Which, s: State)
    requires Start(s)
    ensures Inv(s.ring) && Mappable(s.ring) && Conserved(w, s)
  {
    InitInv(s.ring);
    InvMappable(s.ring);
    NothingInHands(w, Abs(s.ring).calls);
  }

  /** Whenever no call is in progress, and however samples are chosen: those recorded are those
      collected, plus those lost, plus those still in the ring; and the counters say how many. */
  lemma QuietAccount(w: Which, s: State, actions: seq<Action>)
    requires Start(s) && ValidActions(|s.ring.threads|, actions)
    requires forall t :: 0 <= t < |s.ring.threads| ==> After(s, actions).ring.threads[t].Idle?
    ensures var e := After(s, actions);
            && Mappable(e.ring)
            && Count(w, e.recorded) == Count(w, e.collected) + Count(w, e.lost) + Count(w, Abs(e.ring).queue)
            && |e.recorded| == |e.ttft| + |e.interToken| + e.dropped + (e.ring.enq - e.ring.deq)
  {
    RunConserves(w, s, actions);
    var e := After(s, actions);
    NothingInHands(w, Abs(e.ring).calls);
    var all: Which := _ => true;
    RunConserves(all, s, actions);
    NothingInHands(all, Abs(e.ring).calls);
    ListSizes(e.collected);
    CountAll(all, e.recorded);
    CountAll(all, e.collected);
    CountAll(all, e.lost);
    CountAll(all, Abs(e.ring).queue);
  }

  lemma {:induction false} CountAll(all: Which, samples: seq<Sample>)
    requires forall x :: all(x)
    ensures Count(all, samples) == |samples|
  {
    if samples != [] { CountAll(all, samples[..|samples| - 1]); }
  }

  lemma {:induction false} ListSizes(samples: seq<Sample>)
    ensures |Latencies(samples, TTFT)| + |Latencies(samples, InterToken)| == |samples|
  {
    if samples != [] { ListSizes(samples[..|samples| - 1]); }
  }
}
