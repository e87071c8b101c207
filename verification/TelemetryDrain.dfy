/** The flusher's last drain: with no recording in progress it collects all that is in the ring. */
module TelemetryDrain {
  import opened Wrappers
  import opened RingBuffer
  import opened RingRefinement
  import opened Telemetry

  predicate Popping(pc: Pc<Sample>) {
    pc.PopLoadPos? || pc.PopLoadSeq? || pc.PopCas? || pc.PopRead? || pc.PopRelease?
  }

  ghost predicate AllIdle(r: RingBuffer.State<Sample>) { forall t :: 0 <= t < |r.threads| ==> r.threads[t].Idle? }

  /** `n` further steps of thread `t`. */
  ghost function Steps(s: Telemetry.State, t: nat, n: nat): (r: Telemetry.State)
    requires |s.ring.cells| > 0 && t < |s.ring.threads|
    ensures |r.ring.cells| == |s.ring.cells| && |r.ring.threads| == |s.ring.threads|
  {
    if n == 0 then s else Step(Steps(s, t, n - 1), Move(t, Continue))
  }

  lemma {:induction false} AloneKeeps(r: RingBuffer.State<Sample>, t: nat, n: nat)
    requires Inv(r) && t < |r.threads|
    ensures Inv(Alone(r, t, n))
    ensures forall u :: 0 <= u < |r.threads| && u != t ==> Alone(r, t, n).threads[u] == r.threads[u]
  {
    if n > 0 {
      AloneKeeps(r, t, n - 1);
      NextInv(Alone(r, t, n - 1), t, Continue);
      NextElsewhere(Alone(r, t, n - 1), t, Continue);
    }
  }

  lemma NextElsewhere(r: RingBuffer.State<Sample>, t: nat, c: Choice<Sample>)
    requires |r.cells| > 0 && t < |r.threads|
    ensures forall u :: 0 <= u < |r.threads| && u != t ==> Next(r, t, c).threads[u] == r.threads[u]
  {}

  /** A pop that is still under way, or has just returned, was under way before. */
  lemma WasPopping(r: RingBuffer.State<Sample>, t: nat, n: nat)
    requires |r.cells| > 0 && t < |r.threads| && n > 0
    requires var pc := Alone(r, t, n).threads[t]; Popping(pc) || pc.PopReturn?
    ensures Popping(Alone(r, t, n - 1).threads[t])
  {}

  /** The steps of a pop touch no counter and no list. */
  lemma {:induction false} PopSteps(s: Telemetry.State, t: nat, n: nat)
    requires |s.ring.cells| > 0 && t < |s.ring.threads|
    requires var pc := Alone(s.ring, t, n).threads[t]; Popping(pc) || pc.PopReturn?
    ensures Steps(s, t, n) == s.(ring := Alone(s.ring, t, n))
  {
    if n > 0 {
      WasPopping(s.ring, t, n);
      PopSteps(s, t, n - 1);
    }
  }

  lemma Popped(s: Telemetry.State, t: nat)
    requires Inv(s.ring) && Mappable(s.ring) && t < |s.ring.threads| && OthersIdle(s.ring, t)
    requires s.ring.threads[t].PopLoadPos? && Abs(s.ring).queue != []
    ensures var r := Steps(s, t, 6);
            && Inv(r.ring) && Mappable(r.ring) && AllIdle(r.ring)
            && Abs(r.ring).queue == Abs(s.ring).queue[1..] && r.collected == s.collected + [Abs(s.ring).queue[0]]
            && r.recorded == s.recorded && r.lost == s.lost && r.dropped == s.dropped
  {
    SoloPop(s.ring, t);
    PopSteps(s, t, 5);
    AloneKeeps(s.ring, t, 5);
    var s5 := Steps(s, t, 5);
    var r := Step(s5, Move(t, Continue));
    NextInv(s5.ring, t, Continue);
    InvMappable(r.ring);
    assert r.ring == s5.ring.Goto(t, Idle);
    assert Steps(s, t, 6) == r;
  }

  /** One pass of the loop `while (try_pop(sample))` of an idle thread: the call up to its return and
      what follows the return. The pass returns false if the call has returned nothing after its
      sequence load; otherwise the returned sample is appended. */
  ghost function Pass(s: Telemetry.State, t: nat): (r: (Telemetry.State, bool))
    requires |s.ring.cells| > 0 && t < |s.ring.threads|
  {
    var called := Step(s, Move(t, CallPop));
    if Steps(called, t, 2).ring.threads[t] == PopReturn(None) then (Steps(called, t, 3), false)
    else (Steps(called, t, 6), true)
  }

  ghost predicate Calm(s: Telemetry.State, t: nat) {
    Inv(s.ring) && Mappable(s.ring) && t < |s.ring.threads| && AllIdle(s.ring)
  }

  /** The call of a pass: the thread stands before its first load, and the queue is as before. */
  lemma Called(s: Telemetry.State, t: nat) returns (s1: Telemetry.State)
    requires Calm(s, t)
    ensures s1 == Step(s, Move(t, CallPop)) && s1.ring == s.ring.Goto(t, PopLoadPos)
    ensures s1 == s.(ring := s1.ring) && Inv(s1.ring) && Mappable(s1.ring) && Abs(s1.ring).queue == Abs(s.ring).queue
  {
    s1 := Step(s, Move(t, CallPop));
    NextInv(s.ring, t, CallPop);
    InvMappable(s1.ring);
  }

  lemma PassFails(s: Telemetry.State, t: nat)
    requires Calm(s, t) && Abs(s.ring).queue == []
    ensures Pass(s, t) == (s, false)
  {
    var s1 := Called(s, t);
    SoloPop(s1.ring, t);
    PopSteps(s1, t, 2);
    var s2 := Steps(s1, t, 2);
    assert s2 == s.(ring := s.ring.Goto(t, PopReturn(None)));
    assert s.ring.threads[t := Idle] == s.ring.threads;
    assert Steps(s1, t, 3) == Step(s2, Move(t, Continue)) == s;
  }

  lemma PassSucceeds(s: Telemetry.State, t: nat)
    requires Calm(s, t) && Abs(s.ring).queue != []
    ensures Pass(s, t).1 && Pass(s, t).0 == Steps(Step(s, Move(t, CallPop)), t, 6)
    ensures var r, queue := Pass(s, t).0, Abs(s.ring).queue;
            && Calm(r, t) && Abs(r.ring).queue == queue[1..] && r.collected == s.collected + [queue[0]]
            && r.recorded == s.recorded && r.lost == s.lost && r.dropped == s.dropped
  {
    var s1 := Called(s, t);
    StillPopping(s1.ring, t);
    PopSteps(s1, t, 2);
    Popped(s1, t);
  }

  /** A pop that will succeed has not returned after two steps. */
  lemma StillPopping(r: RingBuffer.State<Sample>, t: nat)
    requires Inv(r) && Mappable(r) && t < |r.threads| && OthersIdle(r, t)
    requires r.threads[t].PopLoadPos? && Abs(r).queue != []
    ensures Popping(Alone(r, t, 2).threads[t])
  {
    SoloPop(r, t);
    WasPopping(r, t, 5);
    WasPopping(r, t, 4);
    WasPopping(r, t, 3);
  }

  /** With every other thread idle, a pass succeeds exactly if the ring holds a sample; then the oldest
      one is collected, and otherwise nothing changes. */
  lemma PassCollects(s: Telemetry.State, t: nat)
    requires Calm(s, t)
    ensures var (r, ok) := Pass(s, t);
            var queue := Abs(s.ring).queue;
            && Calm(r, t) && (ok <==> queue != [])
            && r.recorded == s.recorded && r.lost == s.lost && r.dropped == s.dropped
            && (ok ==> Abs(r.ring).queue == queue[1..] && r.collected == s.collected + [queue[0]])
            && (!ok ==> r == s)
  {
    if Abs(s.ring).queue == [] { PassFails(s, t); } else { PassSucceeds(s, t); }
  }

  /** The whole loop, and how many of its pops succeeded. */
  ghost function Drain(s: Telemetry.State, t: nat): (r: (Telemetry.State, nat))
    requires Calm(s, t)
    decreases |Abs(s.ring).queue|
  {
    PassCollects(s, t);
    var (next, ok) := Pass(s, t);
    if ok then
      var (end, n) := Drain(next, t);
      (end, n + 1)
    else (next, 0)
  }

  /** The drain stops after exactly as many pops as the ring held samples; it has collected them all,
      oldest first, and nothing else has happened. */
  lemma {:induction false} DrainCollectsAll(s: Telemetry.State, t: nat)
    requires Calm(s, t)
    ensures var queue, (r, n) := Abs(s.ring).queue, Drain(s, t);
            && Calm(r, t) && n == |queue| && Abs(r.ring).queue == []
            && r.collected == s.collected + queue
            && r.recorded == s.recorded && r.lost == s.lost && r.dropped == s.dropped
    decreases |Abs(s.ring).queue|
  {
    var queue := Abs(s.ring).queue;
    PassCollects(s, t);
    var (next, ok) := Pass(s, t);
    if ok {
      DrainCollectsAll(next, t);
      HeadFirst(s.collected, queue);
    } else {
      assert s.collected + queue == s.collected;
    }
  }

  lemma HeadFirst(done: seq<Sample>, queue: seq<Sample>)
    requires queue != []
    ensures (done + [queue[0]]) + queue[1..] == done + queue
  {}

  /** So after a last drain, whatever happened before: every recorded sample was collected or
      counted as dropped. */
  lemma LastDrainAccountsForAll(s: Telemetry.State, actions: seq<Action>, t: nat, w: Which)
    requires Start(s) && ValidActions(|s.ring.threads|, actions) && t < |s.ring.threads|
    requires AllIdle(Telemetry.After(s, actions).ring)
    ensures var e := Telemetry.After(s, actions);
            && Calm(e, t)
            && var r := Drain(e, t).0;
               && Count(w, r.recorded) == Count(w, r.collected) + Count(w, r.lost)
               && |r.recorded| == |r.collected| + r.dropped
  {
    RunConserves(w, s, actions);
    QuietAccount(w, s, actions);
    var e := Telemetry.After(s, actions);
    DrainCollectsAll(e, t);
    CountSum(w, e.collected, Abs(e.ring).queue);
    ListSizes(e.collected);
  }

  lemma {:induction false} CountSum(w: Which, a: seq<Sample>, b: seq<Sample>)
    ensures Count(w, a + b) == Count(w, a) + Count(w, b)
  {
    if b == [] {
      assert a + b == a;
    } else {
      var n := |b| - 1;
      CountSum(w, a, b[..n]);
      assert (a + b)[..|a + b| - 1] == a + b[..n];
    }
  }
}
