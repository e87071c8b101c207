/** The two ways the router talks to its shards, and what one call comes to. */
module ShardCalls {
  import opened Wrappers
  import opened Bytes
  import opened Framing
  import opened ShardProtocol
  import opened ShardInvariants

  /** A shard and the request for it. */
  type Call = (nat, seq<Byte>)

  /** The tolerant method: one exchange after the other. */
  function Tolerant(calls: seq<Call>): seq<Op> {
    if calls == [] then [] else [Send(calls[0].0, calls[0].1), Recv(calls[0].0)] + Tolerant(calls[1..])
  }

  function Sends(calls: seq<Call>): seq<Op> {
    if calls == [] then [] else [Send(calls[0].0, calls[0].1)] + Sends(calls[1..])
  }

  function Recvs(calls: seq<Call>): seq<Op> {
    if calls == [] then [] else [Recv(calls[0].0)] + Recvs(calls[1..])
  }

  /** The strict method: all requests go out before the first reply is read. */
  function ScatterGather(calls: seq<Call>): seq<Op> { Sends(calls) + Recvs(calls) }

  /** Request `k`, then reply `k`, before anything of the next call. */
  lemma {:induction false} TolerantShape(calls: seq<Call>, k: nat)
    requires k < |calls|
    ensures |Tolerant(calls)| == 2 * |calls|
    ensures Tolerant(calls)[2 * k] == Send(calls[k].0, calls[k].1) && Tolerant(calls)[2 * k + 1] == Recv(calls[k].0)
  {
    if |calls| > 1 {
      TolerantShape(calls[1..], if k == 0 then 0 else k - 1);
    }
  }

  /** All requests, then all replies in the same order. */
  lemma {:induction false} ScatterGatherShape(calls: seq<Call>, k: nat)
    requires k < |calls|
    ensures |ScatterGather(calls)| == 2 * |calls|
    ensures ScatterGather(calls)[k] == Send(calls[k].0, calls[k].1)
    ensures ScatterGather(calls)[|calls| + k] == Recv(calls[k].0)
  {
    SendsRecvsAt(calls, k);
  }

  lemma {:induction false} SendsRecvsAt(calls: seq<Call>, k: nat)
    requires k < |calls|
    ensures |Sends(calls)| == |calls| == |Recvs(calls)|
    ensures Sends(calls)[k] == Send(calls[k].0, calls[k].1) && Recvs(calls)[k] == Recv(calls[k].0)
  {
    if |calls| > 1 { SendsRecvsAt(calls[1..], if k == 0 then 0 else k - 1); }
  }

  /** Each called shard is called once, is not given up, and its request fits a frame. */
  ghost predicate Callable(sys: System, calls: seq<Call>, views: seq<View>) {
    && (forall i :: 0 <= i < |calls| ==>
          calls[i].0 < |views| && views[calls[i].0].Idle? && Fits(sys, calls[i].0, calls[i].1))
    && (forall i, j :: 0 <= i < j < |calls| ==> calls[i].0 != calls[j].0)
  }

  ghost predicate Quiet(views: seq<View>) { forall s :: 0 <= s < |views| ==> views[s].Idle? || views[s].GivenUp? }

  /** The tolerant program can be started between calls. */
  lemma {:induction false} TolerantIsAPlan(sys: System, calls: seq<Call>, views: seq<View>)
    requires Quiet(views) && Callable(sys, calls, views)
    ensures Plan(sys, Tolerant(calls), views)
    decreases |calls|
  {
    if calls != [] {
      var (s, msg) := calls[0];
      TolerantIsAPlan(sys, calls[1..], views);
      var program := Tolerant(calls);
      assert program[1..][0] == Recv(s) && program[1..][1..] == Tolerant(calls[1..]);
      assert views[s := Awaiting(msg, [])][s := Idle] == views;
    }
  }

  function AllAwaiting(views: seq<View>, calls: seq<Call>): (r: seq<View>)
    requires forall i :: 0 <= i < |calls| ==> calls[i].0 < |views|
    ensures |r| == |views|
    decreases |calls|
  {
    if calls == [] then views
    else AllAwaiting(views[calls[0].0 := Awaiting(calls[0].1, [])], calls[1..])
  }

  lemma {:induction false} AllAwaitingAt(views: seq<View>, calls: seq<Call>, s: nat, v: View)
    requires forall i :: 0 <= i < |calls| ==> calls[i].0 < |views| && calls[i].0 != s
    requires s < |views|
    ensures AllAwaiting(views[s := v], calls) == AllAwaiting(views, calls)[s := v]
    decreases |calls|
  {
    if calls != [] {
      var (t, msg) := calls[0];
      assert views[s := v][t := Awaiting(msg, [])] == views[t := Awaiting(msg, [])][s := v];
      AllAwaitingAt(views[t := Awaiting(msg, [])], calls[1..], s, v);
    }
  }

  lemma {:induction false} RecvsPlan(sys: System, calls: seq<Call>, views: seq<View>)
    requires Quiet(views) && Callable(sys, calls, views)
    ensures Plan(sys, Recvs(calls), AllAwaiting(views, calls))
    decreases |calls|
  {
    if calls != [] {
      var (s, msg) := calls[0];
      var rest := calls[1..];
      RecvsPlan(sys, rest, views);
      assert Recvs(calls)[1..] == Recvs(rest);
      AllAwaitingAt(views, rest, s, Awaiting(msg, []));
      AllAwaitingAt(views, rest, s, Idle);
      assert views[s := Idle] == views;
      assert AllAwaiting(views, calls)[s := Idle] == AllAwaiting(views, rest);
    }
  }

  lemma CallableRest(sys: System, calls: seq<Call>, views: seq<View>)
    requires Callable(sys, calls, views) && calls != []
    ensures Callable(sys, calls[1..], views[calls[0].0 := Awaiting(calls[0].1, [])])
  {}

  lemma SendFirst(calls: seq<Call>, more: seq<Op>)
    requires calls != []
    ensures Sends(calls) + more != []
    ensures (Sends(calls) + more)[0] == Send(calls[0].0, calls[0].1)
    ensures (Sends(calls) + more)[1..] == Sends(calls[1..]) + more
  {
    HeadOfSum(Send(calls[0].0, calls[0].1), Sends(calls[1..]), more);
  }

  lemma HeadOfSum<T>(x: T, a: seq<T>, b: seq<T>)
    ensures ([x] + a) + b != [] && (([x] + a) + b)[0] == x && (([x] + a) + b)[1..] == a + b
  {
    assert ([x] + a) + b == [x] + (a + b);
  }

  lemma {:induction false} SendsPlan(sys: System, calls: seq<Call>, views: seq<View>, more: seq<Op>)
    requires Callable(sys, calls, views) && Plan(sys, more, AllAwaiting(views, calls))
    ensures Plan(sys, Sends(calls) + more, views)
    decreases |calls|
  {
    if calls == [] {
      assert [] + more == more;
    } else {
      var (s, msg) := calls[0];
      var views' := views[s := Awaiting(msg, [])];
      assert Callable(sys, calls[1..], views') by { CallableRest(sys, calls, views); }
      SendsPlan(sys, calls[1..], views', more);
      SendFirst(calls, more);
    }
  }

  /** So can the strict program; with `NoDeadlock` and `EveryCallReturns`, sending everything before
      reading anything cannot block for ever, however small the socket buffers are. */
  lemma ScatterGatherIsAPlan(sys: System, calls: seq<Call>, views: seq<View>)
    requires Quiet(views) && Callable(sys, calls, views)
    ensures Plan(sys, ScatterGather(calls), views)
  {
    RecvsPlan(sys, calls, views);
    SendsPlan(sys, calls, views, Recvs(calls));
  }

  // ---------------------------------------------------------------------------------------
  // The life of one exchange
  // ---------------------------------------------------------------------------------------

  /** The operations left on shard `s`. */
  function On(program: seq<Op>, s: nat): seq<Op> {
    if program == [] then []
    else (if program[0].shard == s then [program[0]] else []) + On(program[1..], s)
  }

  /** The exchange of `msg` with shard `s` is to come, is under way, is complete, or is given up. */
  ghost predicate Stage(st: State, s: nat, msg: seq<Byte>) {
    && s < |st.views|
    && var left, v := On(st.program, s), st.views[s];
       || (left == [Send(s, msg), Recv(s)] && (v.Idle? || (v.Sending? && v.msg == msg)) && s !in st.replies)
       || (left == [Recv(s)] && v.Awaiting? && v.msg == msg && s !in st.replies)
       || (left == [] && v.Idle? && s in st.replies && st.replies[s].0 == msg)
       || (left == [] && v.GivenUp? && s !in st.replies)
  }

  lemma {:induction false} OnDrop(program: seq<Op>, s: nat, t: nat)
    ensures On(Drop(program, t), s) == if s == t then [] else On(program, s)
  {
    if program != [] {
      OnDrop(program[1..], s, t);
      if program[0].shard == t {
        assert Drop(program, t) == Drop(program[1..], t);
        if s != t { assert On(program, s) == On(program[1..], s); }
      } else {
        assert Drop(program, t)[1..] == Drop(program[1..], t);
        if s == t { assert [] + On(Drop(program[1..], t), s) == []; }
      }
    }
  }

  lemma OnTail(program: seq<Op>, s: nat)
    requires program != []
    ensures program[0].shard != s ==> On(program, s) == On(program[1..], s)
    ensures program[0].shard == s ==> On(program, s)[1..] == On(program[1..], s) && On(program, s)[0] == program[0]
  {}

  /** Another shard's operation. */
  lemma StageElsewhere(sys: System, st: State, c: Choice, s: nat, msg: seq<Byte>)
    requires Inv(sys, st) && RouterCan(sys, st, c) && st.program[0].shard != s && Stage(st, s, msg)
    ensures Stage(RouterStep(sys, st, c), s, msg)
  {
    OnTail(st.program, s);
    OnDrop(st.program, s, st.program[0].shard);
  }

  lemma StageWrite(sys: System, st: State, k: nat, s: nat, msg: seq<Byte>)
    requires Inv(sys, st) && RouterCan(sys, st, RouterWrite(k)) && st.program[0].shard == s && Stage(st, s, msg)
    ensures Stage(RouterStep(sys, st, RouterWrite(k)), s, msg)
  {
    OnTail(st.program, s);
    assert On(st.program, s) == [Send(s, msg), Recv(s)];
  }

  lemma StageRead(sys: System, st: State, k: nat, s: nat, msg: seq<Byte>)
    requires Inv(sys, st) && RouterCan(sys, st, RouterRead(k)) && st.program[0].shard == s && Stage(st, s, msg)
    ensures Stage(RouterStep(sys, st, RouterRead(k)), s, msg)
  {
    OnTail(st.program, s);
    assert On(st.program, s) == [Recv(s)];
  }

  lemma StageFail(sys: System, st: State, s: nat, msg: seq<Byte>)
    requires Inv(sys, st) && RouterCan(sys, st, RouterFails) && st.program[0].shard == s && Stage(st, s, msg)
    ensures Stage(RouterStep(sys, st, RouterFails), s, msg)
  {
    OnDrop(st.program, s, s);
    OnTail(st.program, s);
  }

  lemma StageStep(sys: System, st: State, c: Choice, s: nat, msg: seq<Byte>)
    requires Inv(sys, st) && Enabled(sys, st, c) && !c.Start? && Stage(st, s, msg)
    ensures Stage(Next(sys, st, c), s, msg)
  {
    if c.RouterWrite? || c.RouterRead? || c.RouterFails? {
      if st.program[0].shard != s { StageElsewhere(sys, st, c, s, msg); }
      else if c.RouterWrite? { StageWrite(sys, st, c.k, s, msg); }
      else if c.RouterRead? { StageRead(sys, st, c.k, s, msg); }
      else { StageFail(sys, st, s, msg); }
    }
  }

  lemma {:induction false} StageRun(sys: System, st: State, cs: seq<Choice>, s: nat, msg: seq<Byte>)
    requires Inv(sys, st) && Runs(sys, st, cs) && Stage(st, s, msg) && forall i :: 0 <= i < |cs| ==> !cs[i].Start?
    ensures Stage(After(sys, st, cs), s, msg)
    decreases |cs|
  {
    if cs != [] {
      StepKeepsInv(sys, st, cs[0]);
      StageStep(sys, st, cs[0], s, msg);
      StageRun(sys, Next(sys, st, cs[0]), cs[1..], s, msg);
    }
  }

  lemma {:induction false} TolerantOn(calls: seq<Call>, s: nat)
    requires forall i, j :: 0 <= i < j < |calls| ==> calls[i].0 != calls[j].0
    ensures (forall i :: 0 <= i < |calls| ==> calls[i].0 != s) ==> On(Tolerant(calls), s) == []
    ensures forall i :: 0 <= i < |calls| && calls[i].0 == s ==> On(Tolerant(calls), s) == [Send(s, calls[i].1), Recv(s)]
  {
    if calls != [] {
      var program := Tolerant(calls);
      TolerantOn(calls[1..], s);
      OnTail(program, s);
      OnTail(program[1..], s);
      assert program[1..][1..] == Tolerant(calls[1..]);
    }
  }

  /** Shards that are not called are left alone. */
  ghost predicate Untouched(st: State, s: nat, v: View) {
    s < |st.views| && st.views[s] == v && On(st.program, s) == [] && s !in st.replies
  }

  lemma UntouchedStep(sys: System, st: State, c: Choice, s: nat, v: View)
    requires Inv(sys, st) && Enabled(sys, st, c) && !c.Start? && Untouched(st, s, v)
    ensures Untouched(Next(sys, st, c), s, v)
  {
    if st.program != [] {
      OnTail(st.program, s);
      OnDrop(st.program, s, st.program[0].shard);
    }
  }

  lemma {:induction false} UntouchedRun(sys: System, st: State, cs: seq<Choice>, s: nat, v: View)
    requires Inv(sys, st) && Runs(sys, st, cs) && Untouched(st, s, v) && forall i :: 0 <= i < |cs| ==> !cs[i].Start?
    ensures Untouched(After(sys, st, cs), s, v)
    decreases |cs|
  {
    if cs != [] {
      StepKeepsInv(sys, st, cs[0]);
      UntouchedStep(sys, st, cs[0], s, v);
      UntouchedRun(sys, Next(sys, st, cs[0]), cs[1..], s, v);
    }
  }

  /** One tolerant call, run to its end among any kills: every called shard has either been given
      up, or has answered this call's request with what the worker computes on it; no other shard
      is affected. */
  lemma TolerantCall(sys: System, st: State, calls: seq<Call>, cs: seq<Choice>, i: nat)
    requires Inv(sys, st) && st.program == [] && Callable(sys, calls, st.views) && i < |calls|
    requires Enabled(sys, st, Start(Tolerant(calls))) && Inv(sys, Next(sys, st, Start(Tolerant(calls))))
    requires Runs(sys, Next(sys, st, Start(Tolerant(calls))), cs) && forall j :: 0 <= j < |cs| ==> !cs[j].Start?
    requires After(sys, Next(sys, st, Start(Tolerant(calls))), cs).program == []
    ensures var end, (s, msg) := After(sys, Next(sys, st, Start(Tolerant(calls))), cs), calls[i];
            && s < |end.views|
            && (end.views[s].GivenUp? <==> s !in end.replies)
            && (s in end.replies ==> end.replies[s].0 == msg && sys.compute(s, msg) == Some(end.replies[s].1))
  {
    var (s, msg) := calls[i];
    var start := Next(sys, st, Start(Tolerant(calls)));
    TolerantOn(calls, s);
    assert Stage(start, s, msg);
    StageRun(sys, start, cs, s, msg);
    assert Stage(After(sys, start, cs), s, msg);
  }

  lemma NotCalled(sys: System, st: State, calls: seq<Call>, cs: seq<Choice>, s: nat)
    requires Inv(sys, st) && st.program == [] && Callable(sys, calls, st.views) && s < |st.views|
    requires forall i :: 0 <= i < |calls| ==> calls[i].0 != s
    requires Enabled(sys, st, Start(Tolerant(calls))) && Inv(sys, Next(sys, st, Start(Tolerant(calls))))
    requires Runs(sys, Next(sys, st, Start(Tolerant(calls))), cs) && forall j :: 0 <= j < |cs| ==> !cs[j].Start?
    ensures var end := After(sys, Next(sys, st, Start(Tolerant(calls))), cs);
            s < |end.views| && end.views[s] == st.views[s] && s !in end.replies
  {
    TolerantOn(calls, s);
    UntouchedRun(sys, Next(sys, st, Start(Tolerant(calls))), cs, s, st.views[s]);
  }

  // ---------------------------------------------------------------------------------------
  // A worker dies only if it is killed
  // ---------------------------------------------------------------------------------------

  ghost predicate Alive(st: State, s: nat) { s < |st.links| && !st.links[s].worker.Dead? }

  ghost predicate NotKilled(cs: seq<Choice>, s: nat) { forall i :: 0 <= i < |cs| ==> cs[i] != Kill(s) }

  /** A worker that computes has read exactly the request the router waits on. */
  lemma ComputesTheRequest(sys: System, s: nat, l: Link, v: View)
    requires LinkInv(sys, s, l, v) && l.worker.Reading? && Whole(l.worker.buf)
    ensures v.Awaiting? && l.worker.buf[8..] == v.msg
  {
    var buf := l.worker.buf;
    if v.Sending? {
      assert buf <= Frame(v.msg)[..v.sent] <= Frame(v.msg);
      FrameNeed(v.msg, buf);
      assert false;
    } else {
      assert buf <= Frame(v.msg);
      FrameNeed(v.msg, buf);
    }
  }

  lemma AliveStep(sys: System, st: State, c: Choice, s: nat)
    requires Inv(sys, st) && Enabled(sys, st, c) && Alive(st, s) && c != Kill(s)
    requires st.views[s].Awaiting? ==> sys.compute(s, st.views[s].msg).Some?
    ensures Alive(Next(sys, st, c), s)
  {
    if c == WorkerComputes(s) {
      assert LinkInv(sys, s, st.links[s], st.views[s]);
      ComputesTheRequest(sys, s, st.links[s], st.views[s]);
    }
  }

  /** The worker of a shard that is asked something it can answer. */
  lemma {:induction false} CalledStaysAlive(sys: System, st: State, cs: seq<Choice>, s: nat, msg: seq<Byte>)
    requires Inv(sys, st) && Runs(sys, st, cs) && (forall i :: 0 <= i < |cs| ==> !cs[i].Start?)
    requires Stage(st, s, msg) && sys.compute(s, msg).Some? && Alive(st, s) && NotKilled(cs, s)
    ensures Alive(After(sys, st, cs), s)
    decreases |cs|
  {
    if cs != [] {
      StepKeepsInv(sys, st, cs[0]);
      AliveStep(sys, st, cs[0], s);
      StageStep(sys, st, cs[0], s, msg);
      CalledStaysAlive(sys, Next(sys, st, cs[0]), cs[1..], s, msg);
    }
  }

  /** The worker of a shard that is asked nothing. */
  lemma {:induction false} UncalledStaysAlive(sys: System, st: State, cs: seq<Choice>, s: nat, v: View)
    requires Inv(sys, st) && Runs(sys, st, cs) && (forall i :: 0 <= i < |cs| ==> !cs[i].Start?)
    requires Untouched(st, s, v) && !v.Awaiting? && Alive(st, s) && NotKilled(cs, s)
    ensures Alive(After(sys, st, cs), s)
    decreases |cs|
  {
    if cs != [] {
      StepKeepsInv(sys, st, cs[0]);
      AliveStep(sys, st, cs[0], s);
      UntouchedStep(sys, st, cs[0], s, v);
      UncalledStaysAlive(sys, Next(sys, st, cs[0]), cs[1..], s, v);
    }
  }

  /** One tolerant call: a worker that is not killed lives, if it can answer what it is asked. */
  lemma TolerantCallSpares(sys: System, st: State, calls: seq<Call>, cs: seq<Choice>, s: nat)
    requires Inv(sys, st) && st.program == [] && Callable(sys, calls, st.views)
    requires Enabled(sys, st, Start(Tolerant(calls))) && Inv(sys, Next(sys, st, Start(Tolerant(calls))))
    requires Runs(sys, Next(sys, st, Start(Tolerant(calls))), cs) && forall j :: 0 <= j < |cs| ==> !cs[j].Start?
    requires Alive(st, s) && NotKilled(cs, s)
    requires forall i :: 0 <= i < |calls| && calls[i].0 == s ==> sys.compute(s, calls[i].1).Some?
    ensures Alive(After(sys, Next(sys, st, Start(Tolerant(calls))), cs), s)
  {
    var start := Next(sys, st, Start(Tolerant(calls)));
    TolerantOn(calls, s);
    if i :| 0 <= i < |calls| && calls[i].0 == s {
      assert Stage(start, s, calls[i].1);
      CalledStaysAlive(sys, start, cs, s, calls[i].1);
    } else {
      var v := st.views[s];
      assert v.Idle? || v.GivenUp?;
      UncalledStaysAlive(sys, start, cs, s, v);
    }
  }
}
