/** The router and its workers as communicating processes: src/orchestration/router.hpp,
    src/orchestration/worker_shard.hpp and src/orchestration/unix_socket_transport.hpp.

    Each shard has two bounded byte channels. The router works through a program of sends and
    receives; a worker reads a request, computes, and writes the reply. Every read and write moves
    some bytes only, as many as the scheduler likes, and a worker can be killed between any two
    steps. */
module ShardProtocol {
  import opened Wrappers
  import opened Bytes
  import opened Framing

  /** A worker reads a request, then writes the rest of a reply, until it dies. */
  datatype WorkerState = Reading(buf: seq<Byte>) | Writing(rest: seq<Byte>) | Dead

  datatype Link = Link(toWorker: seq<Byte>, toRouter: seq<Byte>, worker: WorkerState)

  /** Where the router stands with a shard: nothing under way; `sent` bytes of a request written;
      the request out and `got` read of its reply; given up. */
  datatype View = Idle | Sending(msg: seq<Byte>, sent: nat) | Awaiting(msg: seq<Byte>, got: seq<Byte>) | GivenUp

  datatype Op = Send(shard: nat, msg: seq<Byte>) | Recv(shard: nat)

  /** `replies` holds the request and the reply of each exchange completed in the current call. */
  datatype State = State(
    links: seq<Link>, views: seq<View>, program: seq<Op>, replies: map<nat, (seq<Byte>, seq<Byte>)>)

  /** What the worker of a shard answers to a message; `None` if it crashes on it. */
  type Compute = (nat, seq<Byte>) -> Option<seq<Byte>>

  datatype System = System(cap: nat, compute: Compute)

  datatype Choice =
    | RouterWrite(k: nat) | RouterRead(k: nat) | RouterFails
    | WorkerRead(s: nat, k: nat) | WorkerComputes(s: nat) | WorkerWrites(s: nat, k: nat) | Kill(s: nat)
    | Start(calls: seq<Op>)

  // ---------------------------------------------------------------------------------------
  // Steps
  // ---------------------------------------------------------------------------------------

  /** How many bytes a reader that has `buf` wants in all: the header, then the message too. */
  function Need(buf: seq<Byte>): nat {
    if |buf| < 8 then 8 else 8 + GetBE(buf[..8])
  }

  predicate Whole(buf: seq<Byte>) { |buf| >= 8 && |buf| == Need(buf) }

  function SentOf(v: View): nat { if v.Sending? then v.sent else 0 }

  /** The program without the operations on shard `s`. */
  function Drop(program: seq<Op>, s: nat): seq<Op> {
    if program == [] then []
    else (if program[0].shard == s then [] else [program[0]]) + Drop(program[1..], s)
  }

  /** A whole program on shards with nothing under way: every request is followed by the receive of
      its reply before the next request to that shard, and is of a size that can be framed. */
  ghost predicate Plan(sys: System, program: seq<Op>, views: seq<View>)
    decreases |program|
  {
    if program == [] then forall s :: 0 <= s < |views| ==> views[s].Idle? || views[s].GivenUp?
    else
      var s := program[0].shard;
      s < |views| &&
      match program[0]
      case Send(_, msg) => views[s].Idle? && Fits(sys, s, msg) && Plan(sys, program[1..], views[s := Awaiting(msg, [])])
      case Recv(_) => views[s].Awaiting? && views[s].got == [] && Plan(sys, program[1..], views[s := Idle])
  }

  /** The request and its reply have lengths that fit the frame header. */
  ghost predicate Fits(sys: System, s: nat, msg: seq<Byte>) {
    Sendable(msg) && (sys.compute(s, msg).Some? ==> Sendable(sys.compute(s, msg).value))
  }

  ghost predicate RouterCan(sys: System, st: State, c: Choice)
    requires |st.links| == |st.views|
  {
    st.program != [] && st.program[0].shard < |st.links| &&
    var s := st.program[0].shard;
    var l, v := st.links[s], st.views[s];
    match c
    case RouterWrite(k) =>
      && st.program[0].Send? && !l.worker.Dead? && 0 < k && |l.toWorker| + k <= sys.cap
      && SentOf(v) + k <= |Frame(st.program[0].msg)|
    case RouterRead(k) =>
      st.program[0].Recv? && v.Awaiting? && 0 < k <= |l.toRouter| && |v.got| + k <= Need(v.got)
    case RouterFails => l.worker.Dead?
    case _ => false
  }

  ghost predicate WorkerCan(sys: System, l: Link, c: Choice) {
    match c
    case WorkerRead(_, k) => l.worker.Reading? && 0 < k <= |l.toWorker| && |l.worker.buf| + k <= Need(l.worker.buf)
    case WorkerComputes(_) => l.worker.Reading? && Whole(l.worker.buf)
    case WorkerWrites(_, k) => l.worker.Writing? && 0 < k <= |l.worker.rest| && |l.toRouter| + k <= sys.cap
    case Kill(_) => !l.worker.Dead?
    case _ => false
  }

  ghost predicate Enabled(sys: System, st: State, c: Choice)
    requires |st.links| == |st.views|
  {
    match c
    case RouterWrite(_) => RouterCan(sys, st, c)
    case RouterRead(_) => RouterCan(sys, st, c)
    case RouterFails => RouterCan(sys, st, c)
    case Start(calls) => st.program == [] && Plan(sys, calls, st.views)
    case _ => c.s < |st.links| && WorkerCan(sys, st.links[c.s], c)
  }

  ghost function WorkerStep(sys: System, s: nat, l: Link, c: Choice): Link
    requires WorkerCan(sys, l, c)
  {
    match c
    case WorkerRead(_, k) => l.(toWorker := l.toWorker[k..], worker := Reading(l.worker.buf + l.toWorker[..k]))
    case WorkerComputes(_) =>
      var reply := sys.compute(s, l.worker.buf[8..]);
      l.(worker := if reply.Some? then Writing(Frame(reply.value)) else Dead)
    case WorkerWrites(_, k) =>
      l.(toRouter := l.toRouter + l.worker.rest[..k],
         worker := if k == |l.worker.rest| then Reading([]) else Writing(l.worker.rest[k..]))
    case Kill(_) => l.(worker := Dead)
  }

  ghost function WriteLink(l: Link, msg: seq<Byte>, sent: nat, k: nat): Link
    requires sent + k <= |Frame(msg)|
  {
    l.(toWorker := l.toWorker + Frame(msg)[sent..sent + k])
  }

  ghost function WriteView(msg: seq<Byte>, sent: nat): View {
    if sent == |Frame(msg)| then Awaiting(msg, []) else Sending(msg, sent)
  }

  ghost function RouterStep(sys: System, st: State, c: Choice): State
    requires |st.links| == |st.views| && RouterCan(sys, st, c)
  {
    var op := st.program[0];
    var s := op.shard;
    var l, v := st.links[s], st.views[s];
    match c
    case RouterWrite(k) =>
      var v' := WriteView(op.msg, SentOf(v) + k);
      st.(links := st.links[s := WriteLink(l, op.msg, SentOf(v), k)], views := st.views[s := v'],
          program := if v'.Awaiting? then st.program[1..] else st.program)
    case RouterRead(k) =>
      var got := v.got + l.toRouter[..k];
      var l' := l.(toRouter := l.toRouter[k..]);
      if Whole(got) then
        State(st.links[s := l'], st.views[s := Idle], st.program[1..], st.replies[s := (v.msg, got[8..])])
      else
        st.(links := st.links[s := l'], views := st.views[s := Awaiting(v.msg, got)])
    case RouterFails =>
      st.(views := st.views[s := GivenUp], program := Drop(st.program, s))
  }

  ghost function Next(sys: System, st: State, c: Choice): State
    requires |st.links| == |st.views| && Enabled(sys, st, c)
  {
    match c
    case RouterWrite(_) => RouterStep(sys, st, c)
    case RouterRead(_) => RouterStep(sys, st, c)
    case RouterFails => RouterStep(sys, st, c)
    case Start(calls) => st.(program := calls, replies := map[])
    case _ => st.(links := st.links[c.s := WorkerStep(sys, c.s, st.links[c.s], c)])
  }

  // ---------------------------------------------------------------------------------------
  // The invariant: no byte is lost, duplicated or left over
  // ---------------------------------------------------------------------------------------

  /** The bytes of the current exchange are in the channels and buffers, in order, and no others. */
  ghost predicate LinkInv(sys: System, s: nat, l: Link, v: View) {
    match v
    case Idle => l.toWorker == [] && l.toRouter == [] && (l.worker.Dead? || l.worker == Reading([]))
    case Sending(msg, sent) =>
      && Fits(sys, s, msg) && 0 < sent < |Frame(msg)| && l.toRouter == []
      && (l.worker.Dead? || (l.worker.Reading? && l.worker.buf + l.toWorker == Frame(msg)[..sent]))
    case Awaiting(msg, got) =>
      Fits(sys, s, msg) && (Unanswered(l, msg, got) || Answered(sys.compute(s, msg), l, got))
    case GivenUp => l.worker.Dead?
  }

  /** The worker has not begun to answer. */
  ghost predicate Unanswered(l: Link, msg: seq<Byte>, got: seq<Byte>) {
    && got == [] && l.toRouter == []
    && (l.worker.Dead? || (l.worker.Reading? && l.worker.buf + l.toWorker == Frame(msg)))
  }

  /** The worker has read the request; the reply is partly written and partly read. */
  ghost predicate Answered(reply: Option<seq<Byte>>, l: Link, got: seq<Byte>) {
    && reply.Some? && l.toWorker == [] && |got| < |Frame(reply.value)|
    && match l.worker
       case Dead => got + l.toRouter <= Frame(reply.value)
       case Reading(buf) => buf == [] && got + l.toRouter == Frame(reply.value)
       case Writing(rest) => rest != [] && got + l.toRouter + rest == Frame(reply.value)
  }

  /** Reading part of a frame: the reader never asks for bytes beyond it and knows when it has it. */
  lemma FrameNeed(msg: seq<Byte>, buf: seq<Byte>)
    requires Sendable(msg) && buf <= Frame(msg)
    ensures |buf| <= Need(buf) <= |Frame(msg)|
    ensures Whole(buf) <==> buf == Frame(msg)
    ensures |buf| == Need(buf) ==> Whole(buf)
    ensures Whole(buf) ==> buf[8..] == msg
  {
    if |buf| >= 8 {
      assert buf[..8] == Frame(msg)[..8] == PutBE(|msg|, 8);
      HeaderReads(msg, buf);
    }
  }

  lemma Splice(a: seq<Byte>, b: seq<Byte>, k: nat)
    requires k <= |b|
    ensures (a + b[..k]) + b[k..] == a + b && a + b[..k] <= a + b
  {
    assert b == b[..k] + b[k..];
  }

  lemma WorkerKeepsLink(sys: System, s: nat, l: Link, v: View, c: Choice)
    requires LinkInv(sys, s, l, v) && WorkerCan(sys, l, c)
    ensures LinkInv(sys, s, WorkerStep(sys, s, l, c), v)
  {
    match c
    case WorkerRead(_, k) =>
      Splice(l.worker.buf, l.toWorker, k);
    case WorkerComputes(_) =>
      ComputeKeepsLink(sys, s, l, v);
    case WorkerWrites(_, k) =>
      WriteKeepsLink(sys, s, l, v, k);
    case Kill(_) =>
      if v.Awaiting? && l.worker.Writing? { assert v.got + l.toRouter <= v.got + l.toRouter + l.worker.rest; }
  }

  lemma ComputeKeepsLink(sys: System, s: nat, l: Link, v: View)
    requires LinkInv(sys, s, l, v) && l.worker.Reading? && Whole(l.worker.buf)
    ensures LinkInv(sys, s, WorkerStep(sys, s, l, WorkerComputes(s)), v)
  {
    var buf := l.worker.buf;
    if v.Sending? {
      assert buf <= Frame(v.msg)[..v.sent] <= Frame(v.msg);
      FrameNeed(v.msg, buf);
      assert false;
    } else if v.Awaiting? {
      assert buf <= Frame(v.msg);
      FrameNeed(v.msg, buf);
      assert l.toWorker == [];
    }
  }

  lemma WriteKeepsLink(sys: System, s: nat, l: Link, v: View, k: nat)
    requires LinkInv(sys, s, l, v) && WorkerCan(sys, l, WorkerWrites(s, k))
    ensures LinkInv(sys, s, WorkerStep(sys, s, l, WorkerWrites(s, k)), v)
  {
    var rest := l.worker.rest;
    Splice(v.got + l.toRouter, rest, k);
    assert v.got + (l.toRouter + rest[..k]) == (v.got + l.toRouter) + rest[..k];
  }

  lemma RouterWriteKeepsLink(sys: System, s: nat, l: Link, v: View, msg: seq<Byte>, k: nat)
    requires LinkInv(sys, s, l, v) && !l.worker.Dead? && Fits(sys, s, msg) && 0 < k
    requires v.Idle? || (v.Sending? && v.msg == msg)
    requires SentOf(v) + k <= |Frame(msg)|
    ensures LinkInv(sys, s, WriteLink(l, msg, SentOf(v), k), WriteView(msg, SentOf(v) + k))
  {
    var n := SentOf(v);
    assert Frame(msg)[..n] + Frame(msg)[n..n + k] == Frame(msg)[..n + k];
    assert l.worker.buf + (l.toWorker + Frame(msg)[n..n + k]) == Frame(msg)[..n + k];
  }

  /** Reading some of the reply: either it is not whole yet, or it is exactly what the worker
      computed and the channels are empty. */
  lemma RouterReadKeepsLink(sys: System, s: nat, l: Link, v: View, k: nat)
    requires LinkInv(sys, s, l, v) && v.Awaiting? && 0 < k <= |l.toRouter|
    ensures var got, l' := v.got + l.toRouter[..k], l.(toRouter := l.toRouter[k..]);
            if Whole(got) then LinkInv(sys, s, l', Idle) && sys.compute(s, v.msg) == Some(got[8..])
            else LinkInv(sys, s, l', Awaiting(v.msg, got))
  {
    var reply := sys.compute(s, v.msg).value;
    var got := v.got + l.toRouter[..k];
    Splice(v.got, l.toRouter, k);
    assert got <= v.got + l.toRouter <= Frame(reply);
    FrameNeed(reply, got);
  }
}
