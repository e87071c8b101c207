/** Every call returns: a measure on the bytes left to move falls with every step. */
module ShardTermination {
  import opened Wrappers
  import opened Bytes
  import opened Framing
  import opened ShardProtocol
  import opened ShardInvariants

  // ---------------------------------------------------------------------------------------
  // The measure
  // ---------------------------------------------------------------------------------------

  /** What computing and moving the reply will cost: one step, and every byte twice. */
  ghost function ReplyCost(sys: System, s: nat, msg: seq<Byte>): nat {
    1 + match sys.compute(s, msg) case None => 0 case Some(reply) => 2 * |Frame(reply)|
  }

  ghost function SendCost(sys: System, s: nat, msg: seq<Byte>): nat { 2 * |Frame(msg)| + ReplyCost(sys, s, msg) }

  /** The moves left on a link: one for each byte in a channel that will be read, two for each byte
      still to be written, what a request under way will cost, and one for the worker's death. */
  ghost function LinkWork(sys: System, s: nat, l: Link, v: View): nat {
    |l.toRouter| +
    match l.worker
    case Dead => 0
    case Writing(rest) => 1 + 2 * |rest|
    case Reading(buf) =>
      1 + |l.toWorker| + if |buf| + |l.toWorker| == 0 || v.Idle? || v.GivenUp? then 0 else ReplyCost(sys, s, v.msg)
  }

  ghost function ProgramWork(sys: System, program: seq<Op>): nat {
    if program == [] then 0
    else
      ProgramWork(sys, program[1..]) +
      match program[0] case Send(s, msg) => SendCost(sys, s, msg) case Recv(_) => 1
  }

  /** What has already been done of a first operation. */
  ghost function Saved(sys: System, program: seq<Op>, views: seq<View>): nat {
    if program != [] && program[0].shard < |views| && views[program[0].shard].Sending? then
      var v := views[program[0].shard];
      2 * v.sent + ReplyCost(sys, program[0].shard, v.msg)
    else 0
  }

  ghost function LinksWork(sys: System, links: seq<Link>, views: seq<View>): nat
    requires |links| == |views|
  {
    if links == [] then 0
    else
      var n := |links| - 1;
      LinksWork(sys, links[..n], views[..n]) + LinkWork(sys, n, links[n], views[n])
  }

  ghost function Measure(sys: System, st: State): int
    requires |st.links| == |st.views|
  {
    LinksWork(sys, st.links, st.views) + ProgramWork(sys, st.program) - Saved(sys, st.program, st.views)
  }

  // ---------------------------------------------------------------------------------------
  // It is a natural number
  // ---------------------------------------------------------------------------------------

  lemma SavedBounded(sys: System, st: State)
    requires Inv(sys, st)
    ensures Saved(sys, st.program, st.views) <= ProgramWork(sys, st.program)
    ensures st.program != [] ==>
              Saved(sys, st.program, st.views) < ProgramWork(sys, st.program) - ProgramWork(sys, st.program[1..])
  {
    if st.program != [] {
      var s := st.program[0].shard;
      assert LinkInv(sys, s, st.links[s], st.views[s]);
    }
  }

  lemma MeasureNonNegative(sys: System, st: State)
    requires Inv(sys, st)
    ensures Measure(sys, st) >= 0
  {
    SavedBounded(sys, st);
  }

  /** A program that has not begun has nothing saved. */
  lemma PlanSavesNothing(sys: System, program: seq<Op>, views: seq<View>)
    requires Plan(sys, program, views)
    ensures Saved(sys, program, views) == 0
  {}

  // ---------------------------------------------------------------------------------------
  // It falls
  // ---------------------------------------------------------------------------------------

  lemma {:induction false} LinksWorkUpdate(sys: System, links: seq<Link>, views: seq<View>, s: nat, l: Link, v: View)
    requires |links| == |views| && s < |links|
    ensures LinksWork(sys, links[s := l], views[s := v])
         == LinksWork(sys, links, views) - LinkWork(sys, s, links[s], views[s]) + LinkWork(sys, s, l, v)
  {
    var n := |links| - 1;
    if s == n {
      assert links[s := l][..n] == links[..n] && views[s := v][..n] == views[..n];
    } else {
      assert links[s := l][..n] == links[..n][s := l] && views[s := v][..n] == views[..n][s := v];
      LinksWorkUpdate(sys, links[..n], views[..n], s, l, v);
    }
  }

  lemma WorkerWorkFalls(sys: System, s: nat, l: Link, v: View, c: Choice)
    requires LinkInv(sys, s, l, v) && WorkerCan(sys, l, c)
    ensures LinkWork(sys, s, WorkerStep(sys, s, l, c), v) < LinkWork(sys, s, l, v)
  {
    if c.WorkerComputes? { ComputeWorkFalls(sys, s, l, v); }
  }

  lemma ComputeWorkFalls(sys: System, s: nat, l: Link, v: View)
    requires LinkInv(sys, s, l, v) && l.worker.Reading? && Whole(l.worker.buf)
    ensures LinkWork(sys, s, WorkerStep(sys, s, l, WorkerComputes(s)), v) < LinkWork(sys, s, l, v)
  {
    var buf := l.worker.buf;
    if v.Sending? {
      assert buf <= Frame(v.msg)[..v.sent] <= Frame(v.msg);
      FrameNeed(v.msg, buf);
      assert false;
    } else {
      assert buf <= Frame(v.msg);
      FrameNeed(v.msg, buf);
    }
  }

  lemma {:induction false} DropWork(sys: System, program: seq<Op>, s: nat)
    ensures ProgramWork(sys, Drop(program, s)) <= ProgramWork(sys, program)
  {
    if program != [] {
      DropWork(sys, program[1..], s);
      if program[0].shard == s {
        assert Drop(program, s) == Drop(program[1..], s);
      } else {
        assert Drop(program, s)[1..] == Drop(program[1..], s);
      }
    }
  }

  lemma FailFalls(sys: System, st: State)
    requires Inv(sys, st) && RouterCan(sys, st, RouterFails)
    ensures Measure(sys, RouterStep(sys, st, RouterFails)) < Measure(sys, st)
  {
    var s := st.program[0].shard;
    var rest := st.program[1..];
    SavedBounded(sys, st);
    LinksWorkUpdate(sys, st.links, st.views, s, st.links[s], GivenUp);
    assert st.links[s := st.links[s]] == st.links;
    DropWork(sys, rest, s);
    assert Drop(st.program, s) == Drop(rest, s);
  }

  lemma WriteFalls(sys: System, st: State, k: nat)
    requires Inv(sys, st) && RouterCan(sys, st, RouterWrite(k))
    ensures Measure(sys, RouterStep(sys, st, RouterWrite(k))) < Measure(sys, st)
  {
    var op := st.program[0];
    var s := op.shard;
    var l, v := st.links[s], st.views[s];
    var l', v' := WriteLink(l, op.msg, SentOf(v), k), WriteView(op.msg, SentOf(v) + k);
    assert LinkInv(sys, s, l, v);
    LinksWorkUpdate(sys, st.links, st.views, s, l', v');
    if v'.Awaiting? { PlanSavesNothing(sys, st.program[1..], st.views[s := v']); }
  }

  lemma ReadFalls(sys: System, st: State, k: nat)
    requires Inv(sys, st) && RouterCan(sys, st, RouterRead(k))
    ensures Measure(sys, RouterStep(sys, st, RouterRead(k))) < Measure(sys, st)
  {
    var s := st.program[0].shard;
    var l, v := st.links[s], st.views[s];
    var got, l' := v.got + l.toRouter[..k], l.(toRouter := l.toRouter[k..]);
    assert LinkInv(sys, s, l, v);
    var v' := if Whole(got) then Idle else Awaiting(v.msg, got);
    LinksWorkUpdate(sys, st.links, st.views, s, l', v');
    if Whole(got) { PlanSavesNothing(sys, st.program[1..], st.views[s := Idle]); }
  }

  lemma WorkerFalls(sys: System, st: State, s: nat, c: Choice)
    requires Inv(sys, st) && s < |st.links| && WorkerCan(sys, st.links[s], c)
    ensures Measure(sys, st.(links := st.links[s := WorkerStep(sys, s, st.links[s], c)])) < Measure(sys, st)
  {
    var l' := WorkerStep(sys, s, st.links[s], c);
    WorkerWorkFalls(sys, s, st.links[s], st.views[s], c);
    LinksWorkUpdate(sys, st.links, st.views, s, l', st.views[s]);
    assert st.views[s := st.views[s]] == st.views;
  }

  /** Every step of the router, a worker or a killer brings the measure down. */
  lemma StepFalls(sys: System, st: State, c: Choice)
    requires Inv(sys, st) && Enabled(sys, st, c) && !c.Start?
    ensures Measure(sys, Next(sys, st, c)) < Measure(sys, st)
  {
    match c
    case RouterWrite(k) => WriteFalls(sys, st, k);
    case RouterRead(k) => ReadFalls(sys, st, k);
    case RouterFails => FailFalls(sys, st);
    case Start(_) =>
    case WorkerRead(s, _) => WorkerFalls(sys, st, s, c);
    case WorkerComputes(s) => WorkerFalls(sys, st, s, c);
    case WorkerWrites(s, _) => WorkerFalls(sys, st, s, c);
    case Kill(s) => WorkerFalls(sys, st, s, c);
  }

  /** No run without a new call is longer than the measure. Together with `NoDeadlock`: a call
      under way always goes on, and after finitely many steps it has returned. */
  lemma {:induction false} EveryCallReturns(sys: System, st: State, cs: seq<Choice>)
    requires Inv(sys, st) && Runs(sys, st, cs) && forall i :: 0 <= i < |cs| ==> !cs[i].Start?
    ensures |cs| + Measure(sys, After(sys, st, cs)) <= Measure(sys, st)
    ensures |cs| <= Measure(sys, st)
    decreases |cs|
  {
    if cs == [] {
      MeasureNonNegative(sys, st);
    } else {
      StepKeepsInv(sys, st, cs[0]);
      StepFalls(sys, st, cs[0]);
      EveryCallReturns(sys, Next(sys, st, cs[0]), cs[1..]);
      MeasureNonNegative(sys, After(sys, st, cs));
    }
  }

  /** From every reachable state the call can be run to its end. */
  lemma {:induction false} CanFinish(sys: System, st: State) returns (cs: seq<Choice>)
    requires Inv(sys, st) && sys.cap >= 1
    ensures Runs(sys, st, cs) && After(sys, st, cs).program == []
    ensures forall i :: 0 <= i < |cs| ==> !cs[i].Start? && !cs[i].Kill?
    decreases Measure(sys, st)
  {
    cs := [];
    if st.program != [] {
      var c := NoDeadlock(sys, st);
      StepKeepsInv(sys, st, c);
      StepFalls(sys, st, c);
      MeasureNonNegative(sys, st);
      MeasureNonNegative(sys, Next(sys, st, c));
      var rest := CanFinish(sys, Next(sys, st, c));
      cs := [c] + rest;
    }
  }
}
