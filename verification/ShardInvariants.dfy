/** What every run of the shard protocol keeps, and why it never gets stuck. */
module ShardInvariants {
  import opened Wrappers
  import opened Bytes
  import opened Framing
  import opened ShardProtocol

  // ---------------------------------------------------------------------------------------
  // The invariant of every run
  // ---------------------------------------------------------------------------------------

  /** A program under way: its first operation may be half done, all others have yet to begin. */
  ghost predicate Running(sys: System, program: seq<Op>, views: seq<View>) {
    if program == [] then Plan(sys, program, views)
    else
      var s := program[0].shard;
      s < |views| &&
      match program[0]
      case Send(_, msg) =>
        && (views[s].Idle? || (views[s].Sending? && views[s].msg == msg)) && Fits(sys, s, msg)
        && Plan(sys, program[1..], views[s := Awaiting(msg, [])])
      case Recv(_) => views[s].Awaiting? && Plan(sys, program[1..], views[s := Idle])
  }

  ghost predicate Bounded(sys: System, l: Link) { |l.toWorker| <= sys.cap && |l.toRouter| <= sys.cap }

  /** Recorded replies are what the worker computes on the recorded requests. */
  ghost predicate Faithful(sys: System, replies: map<nat, (seq<Byte>, seq<Byte>)>) {
    forall s :: s in replies ==> sys.compute(s, replies[s].0) == Some(replies[s].1)
  }

  ghost predicate Inv(sys: System, st: State) {
    && |st.links| == |st.views| && Running(sys, st.program, st.views) && Faithful(sys, st.replies)
    && forall s :: 0 <= s < |st.links| ==> Bounded(sys, st.links[s]) && LinkInv(sys, s, st.links[s], st.views[s])
  }

  /** Between calls every shard that was not given up has two empty channels, so nothing of an old
      batch can be taken for an answer of a new one. */
  lemma ChannelsEmptyBetweenCalls(sys: System, st: State, s: nat)
    requires Inv(sys, st) && st.program == [] && s < |st.links| && !st.views[s].GivenUp?
    ensures st.links[s].toWorker == [] && st.links[s].toRouter == []
    ensures st.links[s].worker.Dead? || st.links[s].worker == Reading([])
  {
    assert LinkInv(sys, s, st.links[s], st.views[s]);
  }

  lemma PlanRuns(sys: System, program: seq<Op>, views: seq<View>)
    requires Plan(sys, program, views)
    ensures Running(sys, program, views)
  {}

  /** Giving up a shard leaves a plan for the others. */
  lemma {:induction false} PlanWithout(sys: System, program: seq<Op>, views: seq<View>, s: nat)
    requires Plan(sys, program, views) && s < |views|
    ensures Plan(sys, Drop(program, s), views[s := GivenUp])
    decreases |program|
  {
    if program != [] {
      var op := program[0];
      var t := op.shard;
      var v := if op.Send? then Awaiting(op.msg, []) else Idle;
      PlanWithout(sys, program[1..], views[t := v], s);
      if t == s {
        assert views[t := v][s := GivenUp] == views[s := GivenUp];
        assert Drop(program, s) == Drop(program[1..], s);
      } else {
        assert views[t := v][s := GivenUp] == views[s := GivenUp][t := v];
        assert Drop(program, s)[1..] == Drop(program[1..], s);
      }
    }
  }

  lemma FailKeepsRunning(sys: System, program: seq<Op>, views: seq<View>)
    requires Running(sys, program, views) && program != []
    ensures Running(sys, Drop(program, program[0].shard), views[program[0].shard := GivenUp])
  {
    var op := program[0];
    var s := op.shard;
    var v := if op.Send? then Awaiting(op.msg, []) else Idle;
    PlanWithout(sys, program[1..], views[s := v], s);
    assert views[s := v][s := GivenUp] == views[s := GivenUp];
    assert Drop(program, s) == Drop(program[1..], s);
    PlanRuns(sys, Drop(program, s), views[s := GivenUp]);
  }

  lemma RouterWriteKeepsInv(sys: System, st: State, k: nat)
    requires Inv(sys, st) && RouterCan(sys, st, RouterWrite(k))
    ensures Inv(sys, RouterStep(sys, st, RouterWrite(k)))
  {
    var op := st.program[0];
    var s := op.shard;
    RouterWriteKeepsLink(sys, s, st.links[s], st.views[s], op.msg, k);
    var v' := WriteView(op.msg, SentOf(st.views[s]) + k);
    if v'.Awaiting? {
      PlanRuns(sys, st.program[1..], st.views[s := v']);
    } else {
      assert st.views[s := v'][s := Awaiting(op.msg, [])] == st.views[s := Awaiting(op.msg, [])];
    }
  }

  lemma RouterReadKeepsInv(sys: System, st: State, k: nat)
    requires Inv(sys, st) && RouterCan(sys, st, RouterRead(k))
    ensures Inv(sys, RouterStep(sys, st, RouterRead(k)))
  {
    var s := st.program[0].shard;
    var l, v := st.links[s], st.views[s];
    RouterReadKeepsLink(sys, s, l, v, k);
    var got := v.got + l.toRouter[..k];
    if Whole(got) {
      PlanRuns(sys, st.program[1..], st.views[s := Idle]);
    } else {
      assert st.views[s := Awaiting(v.msg, got)][s := Idle] == st.views[s := Idle];
    }
  }

  lemma StepKeepsInv(sys: System, st: State, c: Choice)
    requires Inv(sys, st) && Enabled(sys, st, c)
    ensures Inv(sys, Next(sys, st, c))
  {
    match c
    case RouterWrite(k) => RouterWriteKeepsInv(sys, st, k);
    case RouterRead(k) => RouterReadKeepsInv(sys, st, k);
    case RouterFails => FailKeepsRunning(sys, st.program, st.views);
    case Start(calls) => PlanRuns(sys, calls, st.views);
    case WorkerRead(s, k) => WorkerKeepsLink(sys, s, st.links[s], st.views[s], c);
    case WorkerComputes(s) => WorkerKeepsLink(sys, s, st.links[s], st.views[s], c);
    case WorkerWrites(s, k) => WorkerKeepsLink(sys, s, st.links[s], st.views[s], c);
    case Kill(s) => WorkerKeepsLink(sys, s, st.links[s], st.views[s], c);
  }

  // ---------------------------------------------------------------------------------------
  // Runs
  // ---------------------------------------------------------------------------------------

  /** The choices can be taken one after the other from `st`. */
  ghost predicate Runs(sys: System, st: State, cs: seq<Choice>)
    requires Inv(sys, st)
    decreases |cs|
  {
    cs == [] || (Enabled(sys, st, cs[0]) && (StepKeepsInv(sys, st, cs[0]); Runs(sys, Next(sys, st, cs[0]), cs[1..])))
  }

  /** The state after them; the invariant holds there. */
  ghost function After(sys: System, st: State, cs: seq<Choice>): (st': State)
    requires Inv(sys, st) && Runs(sys, st, cs)
    ensures Inv(sys, st')
    decreases |cs|
  {
    if cs == [] then st else StepKeepsInv(sys, st, cs[0]); After(sys, Next(sys, st, cs[0]), cs[1..])
  }

  /** `n` fresh workers. */
  ghost function Initial(n: nat): State {
    State(seq(n, _ => Link([], [], Reading([]))), seq(n, _ => Idle), [], map[])
  }

  lemma InitialInv(sys: System, n: nat)
    ensures Inv(sys, Initial(n))
  {}

  ghost function GivenUpShards(st: State): set<nat> { set s: nat | s < |st.views| && st.views[s].GivenUp? }

  lemma StepKeepsGivenUp(sys: System, st: State, c: Choice)
    requires Inv(sys, st) && Enabled(sys, st, c)
    ensures GivenUpShards(st) <= GivenUpShards(Next(sys, st, c)) && |Next(sys, st, c).views| == |st.views|
  {}

  /** The unhealthy set only grows, over any run with any kills and calls. */
  lemma {:induction false} GivenUpOnlyGrows(sys: System, st: State, cs: seq<Choice>)
    requires Inv(sys, st) && Runs(sys, st, cs)
    ensures GivenUpShards(st) <= GivenUpShards(After(sys, st, cs)) && |After(sys, st, cs).views| == |st.views|
    decreases |cs|
  {
    if cs != [] {
      StepKeepsInv(sys, st, cs[0]);
      StepKeepsGivenUp(sys, st, cs[0]);
      GivenUpOnlyGrows(sys, Next(sys, st, cs[0]), cs[1..]);
    }
  }

  // ---------------------------------------------------------------------------------------
  // No deadlock
  // ---------------------------------------------------------------------------------------

  lemma SendCanMove(sys: System, st: State) returns (c: Choice)
    requires Inv(sys, st) && sys.cap >= 1 && st.program != [] && st.program[0].Send?
    requires !st.links[st.program[0].shard].worker.Dead?
    ensures Enabled(sys, st, c) && !c.Start? && !c.Kill?
  {
    var s := st.program[0].shard;
    var l, v := st.links[s], st.views[s];
    assert LinkInv(sys, s, l, v);
    if |l.toWorker| < sys.cap {
      c := RouterWrite(1);
    } else {
      assert |l.worker.buf + l.toWorker| == v.sent;
      assert l.worker.buf <= Frame(v.msg)[..v.sent] <= Frame(v.msg);
      FrameNeed(v.msg, l.worker.buf);
      c := WorkerRead(s, 1);
    }
  }

  lemma RecvCanMove(sys: System, st: State) returns (c: Choice)
    requires Inv(sys, st) && sys.cap >= 1 && st.program != [] && st.program[0].Recv?
    requires !st.links[st.program[0].shard].worker.Dead?
    ensures Enabled(sys, st, c) && !c.Start? && !c.Kill?
  {
    var s := st.program[0].shard;
    var l, v := st.links[s], st.views[s];
    assert LinkInv(sys, s, l, v);
    if l.toRouter != [] {
      var reply := sys.compute(s, v.msg).value;
      assert v.got <= Frame(reply);
      FrameNeed(reply, v.got);
      c := RouterRead(1);
    } else if l.worker.Writing? {
      c := WorkerWrites(s, 1);
    } else {
      assert Unanswered(l, v.msg, v.got);
      assert l.worker.buf <= Frame(v.msg);
      FrameNeed(v.msg, l.worker.buf);
      if l.toWorker == [] {
        c := WorkerComputes(s);
      } else {
        assert |l.worker.buf| < |Frame(v.msg)|;
        c := WorkerRead(s, 1);
      }
    }
  }

  /** In every reachable state with a call under way some process can move, for any channel capacity
      of at least one byte, whatever has been killed. */
  lemma NoDeadlock(sys: System, st: State) returns (c: Choice)
    requires Inv(sys, st) && sys.cap >= 1 && st.program != []
    ensures Enabled(sys, st, c) && !c.Start? && !c.Kill?
  {
    var op := st.program[0];
    if st.links[op.shard].worker.Dead? {
      c := RouterFails;
    } else if op.Send? {
      c := SendCanMove(sys, st);
    } else {
      c := RecvCanMove(sys, st);
    }
  }
}
