/** The bounded multi-producer multi-consumer ring of src/core/spmc_ring_buffer.hpp as a step protocol.

    Every atomic load, compare-exchange, data access and sequence store of every thread is a
    step of its own, and a schedule interleaves the steps of any number of threads in any order.
    The interleaving is sequentially consistent; memory orders weaker than that and the
    wrap-around of 64-bit cursors are outside the model. A weak compare-exchange may fail
    spuriously. The capacity is any number of cells that is at least two; the source further
    restricts it to powers of two only so that `pos & kMask` is `pos % Capacity`.
 */
module RingBuffer {
  import opened Wrappers

  /** The cell of ticket `pos`: one lap after another over `c` cells. */
  function Slot(pos: nat, c: nat): (i: nat)
    requires c > 0
    ensures i < c
  {
    if pos < c then pos else Slot(pos - c, c)
  }

  datatype Cell<T> = Cell(sequence: nat, data: T)

  /** Where a thread stands: each constructor names the atomic access the thread makes next. */
  datatype Pc<T> =
    | Idle
    | PushLoadPos(item: T)
    | PushLoadSeq(item: T, pos: nat)
    | PushCas(item: T, pos: nat)
    | PushWrite(item: T, pos: nat)
    | PushPublish(item: T, pos: nat)
    | PushReturn(ok: bool)
    | PopLoadPos
    | PopLoadSeq(pos: nat)
    | PopCas(pos: nat)
    | PopRead(pos: nat)
    | PopRelease(pos: nat, out: T)
    | PopReturn(result: Option<T>)
    | SizeLoadEnq
    | SizeLoadDeq(enq: nat)
    | SizeReturn(size: nat)

  /** What the environment decides at a step: the call an idle thread makes, and whether a weak
      compare-exchange fails although the cursor has the expected value. */
  datatype Choice<T> = CallPush(item: T) | CallPop | CallSize | Continue | SpuriousFailure

  /** `items[p]`, `producers[p]` and `consumers[p]` record the value and the owners of ticket `p`;
      no step reads them. */
  datatype State<T> = State(
    cells: seq<Cell<T>>,
    enq: nat,
    deq: nat,
    threads: seq<Pc<T>>,
    items: seq<T>,
    producers: seq<nat>,
    consumers: seq<nat>)
  {
    function Capacity(): nat { |cells| }

    function At(pos: nat): Cell<T>
      requires |cells| > 0
    {
      cells[Slot(pos, |cells|)]
    }

    function Put(pos: nat, c: Cell<T>): State<T>
      requires |cells| > 0
    {
      this.(cells := cells[Slot(pos, |cells|) := c])
    }

    /** The last ticket given out for the cell of `pos`. */
    ghost function LastTicket(pos: nat): (p: nat)
      requires |cells| > 0 && pos < enq
      ensures pos <= p < enq <= p + |cells| && At(p) == At(pos)
      decreases enq - pos
    {
      if enq <= pos + |cells| then pos else LastTicket(pos + |cells|)
    }

    function Goto(t: nat, pc: Pc<T>): State<T>
      requires t < |threads|
    {
      this.(threads := threads[t := pc])
    }
  }

  ghost predicate Init<T>(s: State<T>) {
    && |s.cells| > 0
    && (forall i :: 0 <= i < |s.cells| ==> s.cells[i].sequence == i)
    && s.enq == 0 && s.deq == 0
    && (forall t :: 0 <= t < |s.threads| ==> s.threads[t].Idle?)
    && s.items == [] && s.producers == [] && s.consumers == []
  }

  /** One atomic step of thread `t`. */
  function Next<T>(s: State<T>, t: nat, c: Choice<T>): State<T>
    requires |s.cells| > 0 && t < |s.threads|
  {
    match s.threads[t]
    case Idle =>
      (match c
       case CallPush(item) => s.Goto(t, PushLoadPos(item))
       case CallPop => s.Goto(t, PopLoadPos)
       case CallSize => s.Goto(t, SizeLoadEnq)
       case _ => s)
    case PushLoadPos(item) => s.Goto(t, PushLoadSeq(item, s.enq))
    case PushLoadSeq(item, pos) =>
      var diff := s.At(pos).sequence - pos;
      if diff == 0 then s.Goto(t, PushCas(item, pos))
      else if diff < 0 then s.Goto(t, PushReturn(false))
      else s.Goto(t, PushLoadPos(item))
    case PushCas(item, pos) =>
      if s.enq == pos && !c.SpuriousFailure? then
        s.Goto(t, PushWrite(item, pos)).(
          enq := pos + 1, items := s.items + [item], producers := s.producers + [t])
      else s.Goto(t, PushLoadSeq(item, s.enq))
    case PushWrite(item, pos) =>
      s.Put(pos, s.At(pos).(data := item)).Goto(t, PushPublish(item, pos))
    case PushPublish(item, pos) =>
      s.Put(pos, s.At(pos).(sequence := pos + 1)).Goto(t, PushReturn(true))
    case PushReturn(_) => s.Goto(t, Idle)
    case PopLoadPos => s.Goto(t, PopLoadSeq(s.deq))
    case PopLoadSeq(pos) =>
      var diff := s.At(pos).sequence - (pos + 1);
      if diff == 0 then s.Goto(t, PopCas(pos))
      else if diff < 0 then s.Goto(t, PopReturn(None))
      else s.Goto(t, PopLoadPos)
    case PopCas(pos) =>
      if s.deq == pos && !c.SpuriousFailure? then
        s.Goto(t, PopRead(pos)).(deq := pos + 1, consumers := s.consumers + [t])
      else s.Goto(t, PopLoadSeq(s.deq))
    case PopRead(pos) => s.Goto(t, PopRelease(pos, s.At(pos).data))
    case PopRelease(pos, out) =>
      s.Put(pos, s.At(pos).(sequence := pos + s.Capacity())).Goto(t, PopReturn(Some(out)))
    case PopReturn(_) => s.Goto(t, Idle)
    case SizeLoadEnq => s.Goto(t, SizeLoadDeq(s.enq))
    case SizeLoadDeq(e) => s.Goto(t, SizeReturn(if e >= s.deq then e - s.deq else 0))
    case SizeReturn(_) => s.Goto(t, Idle)
  }

  /** A schedule says, step by step, which thread moves and what the environment decides. */
  type Schedule<T> = seq<(nat, Choice<T>)>

  ghost predicate ValidSchedule<T>(threads: nat, sched: Schedule<T>) {
    forall i :: 0 <= i < |sched| ==> sched[i].0 < threads
  }

  function Run<T>(s: State<T>, sched: Schedule<T>): (r: State<T>)
    requires |s.cells| > 0 && ValidSchedule(|s.threads|, sched)
    ensures |r.cells| == |s.cells| && |r.threads| == |s.threads|
  {
    if sched == [] then s
    else
      var last := sched[|sched| - 1];
      Next(Run(s, sched[..|sched| - 1]), last.0, last.1)
  }

  // ---------------------------------------------------------------------------------------
  // The ownership invariant
  // ---------------------------------------------------------------------------------------

  predicate ProducerHolds<T>(pc: Pc<T>, p: nat) {
    (pc.PushWrite? || pc.PushPublish?) && pc.pos == p
  }

  predicate ConsumerHolds<T>(pc: Pc<T>, p: nat) {
    (pc.PopRead? || pc.PopRelease?) && pc.pos == p
  }

  /** Cursors and tickets. */
  ghost predicate Cursors<T>(s: State<T>) {
    && |s.cells| >= 2
    && s.deq <= s.enq <= s.deq + |s.cells|
    && |s.items| == |s.producers| == s.enq
    && |s.consumers| == s.deq
  }

  /** What the program counter of one thread says about the shared state. */
  ghost predicate ThreadInv<T>(s: State<T>, t: nat)
    requires Cursors(s) && t < |s.threads|
  {
    match s.threads[t]
    case PushLoadSeq(_, pos) => pos <= s.enq
    case PushCas(_, pos) => pos <= s.enq && pos <= s.At(pos).sequence
    case PushWrite(item, p) =>
      s.deq <= p < s.enq && s.At(p).sequence == p && s.producers[p] == t && item == s.items[p]
    case PushPublish(item, p) =>
      && s.deq <= p < s.enq && s.At(p).sequence == p && s.producers[p] == t && item == s.items[p]
      && s.At(p).data == item
    case PopLoadSeq(pos) => pos <= s.deq
    case PopCas(pos) => pos <= s.deq && pos + 1 <= s.At(pos).sequence
    case PopRead(p) =>
      && p < s.deq && s.enq <= p + |s.cells| && s.At(p).sequence == p + 1 && s.consumers[p] == t
      && s.At(p).data == s.items[p]
    case PopRelease(p, out) =>
      && p < s.deq && s.enq <= p + |s.cells| && s.At(p).sequence == p + 1 && s.consumers[p] == t
      && out == s.items[p]
    case SizeLoadDeq(e) => e <= s.deq + |s.cells|
    case SizeReturn(n) => n <= |s.cells|
    case _ => true
  }

  /** The life of ticket `p`, the last ticket given out for its cell: claimed by its producer,
      published, claimed by its consumer, released. */
  ghost predicate TicketInv<T>(s: State<T>, p: nat)
    requires Cursors(s) && s.enq <= p + |s.cells| && p < s.enq
  {
    var q := s.At(p).sequence;
    || (q == p && s.deq <= p && s.producers[p] < |s.threads|
        && ProducerHolds(s.threads[s.producers[p]], p))
    || (q == p + 1 && s.deq <= p && s.At(p).data == s.items[p])
    || (q == p + 1 && p < s.deq && s.consumers[p] < |s.threads|
        && ConsumerHolds(s.threads[s.consumers[p]], p))
    || (q == p + |s.cells| && p < s.deq)
  }

  ghost predicate TicketsInv<T>(s: State<T>)
    requires Cursors(s)
  {
    && (forall p: nat :: s.enq <= p + |s.cells| && p < s.enq ==> TicketInv(s, p))
    && (forall i :: s.enq <= i < |s.cells| ==> s.cells[i].sequence == i)
  }

  ghost predicate Inv<T>(s: State<T>) {
    && Cursors(s)
    && (forall t :: 0 <= t < |s.threads| ==> ThreadInv(s, t))
    && TicketsInv(s)
  }

  // ---------------------------------------------------------------------------------------
  // Slots
  // ---------------------------------------------------------------------------------------

  /** `Slot` is the remainder: the same cell as `pos & kMask` when `c` is a power of two. */
  lemma {:induction false} SlotIsRemainder(pos: nat, c: nat)
    requires c > 0
    ensures Slot(pos, c) == pos % c
  {
    if pos >= c {
      SlotIsRemainder(pos - c, c);
      RemainderPlusLap(pos - c, c);
    }
  }

  lemma RemainderPlusLap(x: int, c: int)
    requires c > 0 && x >= 0
    ensures (x + c) % c == x % c
  {
    var k := x / c + 1 - (x + c) / c;
    assert (x + c) % c - x % c == c * k;
    assert k == 0 by {
      assert k >= 1 ==> c * k >= c;
      assert k <= -1 ==> c * k <= 0 - c;
    }
  }

  /** Two tickets less than one lap apart use different cells. */
  lemma {:induction false} SlotsDiffer(p: nat, q: nat, c: nat)
    requires c > 0 && p < q < p + c
    ensures Slot(p, c) != Slot(q, c)
  {
    if p >= c {
      SlotsDiffer(p - c, q - c, c);
    }
  }

  /** The sequence number of the cell the next producer will use. */
  lemma NextCell<T>(s: State<T>)
    requires Inv(s)
    ensures s.At(s.enq).sequence <= s.enq
    ensures s.At(s.enq).sequence == s.enq ==> s.enq < s.deq + |s.cells|
  {
    var c := |s.cells|;
    if s.enq < c {
    } else {
      var p := s.enq - c;
      assert TicketInv(s, p);
    }
  }

  // ---------------------------------------------------------------------------------------
  // Every step keeps the invariant
  // ---------------------------------------------------------------------------------------

  lemma InitInv<T>(s: State<T>)
    requires Init(s) && |s.cells| >= 2
    ensures Inv(s)
  {
  }

  /** A step that changes only the program counter of `t` and gives up no ticket. */
  lemma LocalStep<T>(s: State<T>, t: nat, pc: Pc<T>)
    requires Inv(s) && t < |s.threads|
    requires forall p: nat :: ProducerHolds(s.threads[t], p) ==> ProducerHolds(pc, p)
    requires forall p: nat :: ConsumerHolds(s.threads[t], p) ==> ConsumerHolds(pc, p)
    requires ThreadInv(s.Goto(t, pc), t)
    ensures Inv(s.Goto(t, pc))
  {
    var s' := s.Goto(t, pc);
    forall u | 0 <= u < |s'.threads| ensures ThreadInv(s', u) {
      assert ThreadInv(s, u);
    }
    forall p: nat | s'.enq <= p + |s'.cells| && p < s'.enq ensures TicketInv(s', p) {
      assert TicketInv(s, p);
    }
  }

  /** The winning compare-exchange of `try_push`: the cell was free for this very ticket. */
  lemma ClaimPush<T>(s: State<T>, t: nat, c: Choice<T>)
    requires Inv(s) && t < |s.threads| && s.threads[t].PushCas?
    requires s.enq == s.threads[t].pos && !c.SpuriousFailure?
    ensures Inv(Next(s, t, c))
    ensures s.enq < s.deq + |s.cells| && s.At(s.enq).sequence == s.enq
  {
    var s' := Next(s, t, c);
    assert ThreadInv(s, t);
    NextCell(s);
    forall u | 0 <= u < |s'.threads| ensures ThreadInv(s', u) {
      assert ThreadInv(s, u);
      if u != t && (s.threads[u].PopRead? || s.threads[u].PopRelease?) {
        var p := s.threads[u].pos;
        assert s.At(p) == s.At(p + |s.cells|);
      }
    }
    forall p: nat | s'.enq <= p + |s'.cells| && p < s'.enq ensures TicketInv(s', p) {
      if p < s.enq { assert TicketInv(s, p); }
    }
  }

  /** The winning compare-exchange of `try_pop`: the ticket is published. */
  lemma ClaimPop<T>(s: State<T>, t: nat, c: Choice<T>)
    requires Inv(s) && t < |s.threads| && s.threads[t].PopCas?
    requires s.deq == s.threads[t].pos && !c.SpuriousFailure?
    ensures Inv(Next(s, t, c))
    ensures s.deq < s.enq && s.At(s.deq).sequence == s.deq + 1 && s.At(s.deq).data == s.items[s.deq]
  {
    var s' := Next(s, t, c);
    assert ThreadInv(s, t);
    NextCell(s);
    assert TicketInv(s, s.deq);
    forall u | 0 <= u < |s'.threads| ensures ThreadInv(s', u) {
      assert ThreadInv(s, u);
      if u != t && (s.threads[u].PushWrite? || s.threads[u].PushPublish?) {
        assert s.threads[u].pos != s.deq;
      }
    }
    forall p: nat | s'.enq <= p + |s'.cells| && p < s'.enq ensures TicketInv(s', p) {
      assert TicketInv(s, p);
    }
  }

  /** Updating the cell of ticket `p` leaves the cells of the other tickets of the lap alone. */
  lemma OtherCells<T>(s: State<T>, p: nat, q: nat, c: Cell<T>)
    requires |s.cells| > 0 && p != q && p < q + |s.cells| && q < p + |s.cells|
    ensures s.Put(p, c).At(q) == s.At(q)
  {
    if p < q { SlotsDiffer(p, q, |s.cells|); } else { SlotsDiffer(q, p, |s.cells|); }
  }

  /** A step in which the holder `t` of ticket `p` updates the cell of `p`. */
  lemma OthersUnchanged<T>(s: State<T>, t: nat, p: nat, c: Cell<T>, pc: Pc<T>)
    requires Inv(s) && t < |s.threads|
    requires ProducerHolds(s.threads[t], p) || ConsumerHolds(s.threads[t], p)
    requires c.sequence >= s.At(p).sequence
    ensures forall u :: 0 <= u < |s.threads| && u != t ==> ThreadInv(s.Put(p, c).Goto(t, pc), u)
    ensures forall q: nat :: q != p && s.enq <= q + |s.cells| && q < s.enq
                             ==> TicketInv(s.Put(p, c).Goto(t, pc), q)
    ensures forall i :: s.enq <= i < |s.cells| ==> s.Put(p, c).cells[i] == s.cells[i]
  {
    var s' := s.Put(p, c).Goto(t, pc);
    assert ThreadInv(s, t);
    forall u | 0 <= u < |s.threads| && u != t ensures ThreadInv(s', u) {
      assert ThreadInv(s, u);
      match s.threads[u]
      case PushWrite(_, q) => OtherCells(s, p, q, c);
      case PushPublish(_, q) => OtherCells(s, p, q, c);
      case PopRead(q) => OtherCells(s, p, q, c);
      case PopRelease(q, _) => OtherCells(s, p, q, c);
      case _ =>
    }
    forall q: nat | q != p && s.enq <= q + |s.cells| && q < s.enq ensures TicketInv(s', q) {
      assert TicketInv(s, q);
      OtherCells(s, p, q, c);
    }
    forall i | s.enq <= i < |s.cells| ensures s'.cells[i] == s.cells[i] {
      OtherCells(s, p, i, c);
    }
  }

  lemma CellStep<T>(s: State<T>, t: nat, c: Choice<T>)
    requires Inv(s) && t < |s.threads|
    requires var pc := s.threads[t]; pc.PushWrite? || pc.PushPublish? || pc.PopRelease?
    ensures Inv(Next(s, t, c))
  {
    assert ThreadInv(s, t);
    var s' := Next(s, t, c);
    var p := s.threads[t].pos;
    var pc := s.threads[t];
    var cell := if pc.PushWrite? then s.At(p).(data := pc.item)
                else s.At(p).(sequence := if pc.PushPublish? then p + 1 else p + |s.cells|);
    assert s' == s.Put(p, cell).Goto(t, s'.threads[t]);
    OthersUnchanged(s, t, p, cell, s'.threads[t]);
    assert s'.At(p) == cell;
    assert ThreadInv(s', t);
    assert TicketInv(s', p);
  }

  /** The steps that neither claim a ticket nor touch a cell's contents. */
  predicate Quiet<T>(s: State<T>, t: nat, c: Choice<T>)
    requires t < |s.threads|
  {
    var pc := s.threads[t];
    && !pc.PushWrite? && !pc.PushPublish? && !pc.PopRelease?
    && (pc.PushCas? ==> s.enq != pc.pos || c.SpuriousFailure?)
    && (pc.PopCas? ==> s.deq != pc.pos || c.SpuriousFailure?)
  }

  lemma QuietStep<T>(s: State<T>, t: nat, c: Choice<T>)
    requires Inv(s) && t < |s.threads| && Quiet(s, t, c)
    ensures Inv(Next(s, t, c))
  {
    var pc' := Next(s, t, c).threads[t];
    QuietThread(s, t, c);
    LocalStep(s, t, pc');
  }

  lemma QuietThread<T>(s: State<T>, t: nat, c: Choice<T>)
    requires Inv(s) && t < |s.threads| && Quiet(s, t, c)
    ensures var pc' := Next(s, t, c).threads[t];
            && Next(s, t, c) == s.Goto(t, pc') && ThreadInv(s.Goto(t, pc'), t)
            && (forall p: nat :: ProducerHolds(s.threads[t], p) ==> ProducerHolds(pc', p))
            && (forall p: nat :: ConsumerHolds(s.threads[t], p) ==> ConsumerHolds(pc', p))
  {
    assert ThreadInv(s, t);
  }

  /** Every atomic step of every thread keeps the ownership invariant. */
  lemma NextInv<T>(s: State<T>, t: nat, c: Choice<T>)
    requires Inv(s) && t < |s.threads|
    ensures Inv(Next(s, t, c))
  {
    var pc := s.threads[t];
    if Quiet(s, t, c) {
      QuietStep(s, t, c);
    } else if pc.PushCas? {
      ClaimPush(s, t, c);
    } else if pc.PopCas? {
      ClaimPop(s, t, c);
    } else {
      CellStep(s, t, c);
    }
  }

  /** The invariant holds after every schedule. */
  lemma {:induction false} RunInv<T>(s: State<T>, sched: Schedule<T>)
    requires Init(s) && |s.cells| >= 2 && ValidSchedule(|s.threads|, sched)
    ensures Inv(Run(s, sched))
  {
    if sched == [] {
      InitInv(s);
    } else {
      var last := sched[|sched| - 1];
      RunInv(s, sched[..|sched| - 1]);
      NextInv(Run(s, sched[..|sched| - 1]), last.0, last.1);
    }
  }

  // ---------------------------------------------------------------------------------------
  // Ownership and outcomes
  // ---------------------------------------------------------------------------------------

  /** A thread that may write the data of cell `i`, or read it as the owner of its ticket. */
  predicate OwnsCell<T>(s: State<T>, t: nat, i: nat)
    requires |s.cells| > 0 && t < |s.threads|
  {
    var pc := s.threads[t];
    (pc.PushWrite? || pc.PushPublish? || pc.PopRead? || pc.PopRelease?) && Slot(pc.pos, |s.cells|) == i
  }

  /** No two threads own the data of one cell at once. */
  lemma ExclusiveOwnership<T>(s: State<T>, t: nat, u: nat, i: nat)
    requires Inv(s) && t < |s.threads| && u < |s.threads|
    requires OwnsCell(s, t, i) && OwnsCell(s, u, i)
    ensures t == u
  {
    assert ThreadInv(s, t) && ThreadInv(s, u);
    var p, q := s.threads[t].pos, s.threads[u].pos;
    if p < q {
      SlotsDiffer(p, q, |s.cells|);
    } else if q < p {
      SlotsDiffer(q, p, |s.cells|);
    }
  }

  /** The data a consumer is about to read is the item of its ticket. */
  lemma ConsumerReadsItsTicket<T>(s: State<T>, t: nat, c: Choice<T>)
    requires Inv(s) && t < |s.threads| && s.threads[t].PopRead?
    ensures s.threads[t].pos < |s.items|
    ensures Next(s, t, c).threads[t] == PopRelease(s.threads[t].pos, s.items[s.threads[t].pos])
  {
    assert ThreadInv(s, t);
  }

  /** Ticket `p` has been taken by a consumer that has not yet released the cell. */
  predicate BeingPopped<T>(s: State<T>, p: nat) {
    p < |s.consumers| && s.consumers[p] < |s.threads| && ConsumerHolds(s.threads[s.consumers[p]], p)
  }

  /** Ticket `p` has been taken by a producer that has not yet published it. */
  predicate BeingPushed<T>(s: State<T>, p: nat) {
    p < |s.producers| && s.producers[p] < |s.threads| && ProducerHolds(s.threads[s.producers[p]], p)
  }

  /** The sequence load that makes `try_push` return false: the position is the current cursor,
      and the ticket one lap back is either still queued or still held by its consumer. */
  lemma PushFailure<T>(s: State<T>, t: nat, c: Choice<T>)
    requires Inv(s) && t < |s.threads| && s.threads[t].PushLoadSeq?
    ensures var pos := s.threads[t].pos;
            Next(s, t, c).threads[t] == PushReturn(false) <==>
            && pos == s.enq && |s.cells| <= pos
            && (s.enq == s.deq + |s.cells| || BeingPopped(s, pos - |s.cells|))
  {
    assert ThreadInv(s, t);
    var pos, n := s.threads[t].pos, |s.cells|;
    if pos < s.enq {
      var last := s.LastTicket(pos);
      assert TicketInv(s, last);
    } else if n <= pos {
      assert s.At(pos) == s.At(pos - n);
      assert TicketInv(s, pos - n);
      assert BeingPopped(s, pos - n) ==> ThreadInv(s, s.consumers[pos - n]);
    }
  }

  /** The sequence load that makes `try_pop` return false: the position is the current cursor,
      and its ticket is either not given out or still held by its producer. */
  lemma PopFailure<T>(s: State<T>, t: nat, c: Choice<T>)
    requires Inv(s) && t < |s.threads| && s.threads[t].PopLoadSeq?
    ensures var pos := s.threads[t].pos;
            Next(s, t, c).threads[t] == PopReturn(None) <==>
            && pos == s.deq && (s.deq == s.enq || BeingPushed(s, pos))
  {
    assert ThreadInv(s, t);
    var pos := s.threads[t].pos;
    if pos < s.enq {
      var last := s.LastTicket(pos);
      assert TicketInv(s, last);
      assert BeingPushed(s, pos) ==> ThreadInv(s, s.producers[pos]);
    } else {
      NextCell(s);
    }
  }
}
