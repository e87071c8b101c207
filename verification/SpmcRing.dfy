/** The ring object of src/core/spmc_ring_buffer.hpp as one thread uses it while no other does.

    The protocol under interference is in `RingBuffer`; here every compare-exchange succeeds at its
    first try, so the retry loops run once. */
module SpmcRing {
  import opened Wrappers
  import opened RingBuffer

  class LockFreeRingBuffer<T(==)> {
    const cells: array<Cell<T>>
    var enqueuePos: nat
    var dequeuePos: nat
    /** The items held, oldest first. */
    ghost var contents: seq<T>

    ghost predicate Valid()
      reads this, cells
    {
      && cells.Length >= 2 && dequeuePos <= enqueuePos <= dequeuePos + cells.Length
      && |contents| == enqueuePos - dequeuePos
      && (forall p: nat :: dequeuePos <= p < enqueuePos ==> Published(p))
      && (forall p: nat :: enqueuePos <= p < dequeuePos + cells.Length ==> cells[Slot(p, cells.Length)].sequence == p)
    }

    ghost predicate Published(p: nat)
      requires cells.Length > 0 && |contents| == enqueuePos - dequeuePos && dequeuePos <= p < enqueuePos
      reads this, cells
    {
      cells[Slot(p, cells.Length)] == Cell(p + 1, contents[p - dequeuePos])
    }

    constructor (capacity: nat, unset: T)
      requires capacity >= 2
      ensures Valid() && contents == [] && cells.Length == capacity && fresh(cells)
    {
      cells := new Cell<T>[capacity](i requires i >= 0 => Cell(i, unset));
      enqueuePos, dequeuePos, contents := 0, 0, [];
    }

    /** Fails exactly when `Capacity` items are held, and then changes nothing. */
    method TryPush(item: T) returns (ok: bool)
      requires Valid()
      modifies this, cells
      ensures Valid() && ok == (|old(contents)| < cells.Length)
      ensures contents == if ok then old(contents) + [item] else old(contents)
      ensures !ok ==> cells[..] == old(cells[..]) && enqueuePos == old(enqueuePos) && dequeuePos == old(dequeuePos)
    {
      var pos := enqueuePos;
      var i := Slot(pos, cells.Length);
      var diff := cells[i].sequence - pos;
      assert dequeuePos < pos ==> Published(dequeuePos);
      if diff != 0 { return false; }
      enqueuePos := pos + 1;
      cells[i] := Cell(pos + 1, item);
      contents := contents + [item];
      OtherTickets(pos, old(dequeuePos), old(dequeuePos) + cells.Length);
      forall p: nat | dequeuePos <= p < enqueuePos ensures Published(p) {
        if p < pos {
          assert old(Published(p));
          assert contents[p - dequeuePos] == old(contents)[p - dequeuePos];
        }
      }
      return true;
    }

    /** Fails exactly when the ring is empty; otherwise removes and returns the oldest item. */
    method TryPop() returns (out: Option<T>)
      requires Valid()
      modifies this, cells
      ensures Valid() && (out == None <==> old(contents) == [])
      ensures out == None ==> contents == old(contents) && cells[..] == old(cells[..])
      ensures out.Some? ==> old(contents) == [out.value] + contents
    {
      var pos := dequeuePos;
      var i := Slot(pos, cells.Length);
      var diff := cells[i].sequence - (pos + 1);
      assert pos < enqueuePos ==> Published(pos);
      if diff != 0 { return None; }
      dequeuePos := pos + 1;
      out := Some(cells[i].data);
      cells[i] := cells[i].(sequence := pos + cells.Length);
      contents := contents[1..];
      OtherTickets(pos, pos, pos + cells.Length);
      forall p: nat | dequeuePos <= p < enqueuePos ensures Published(p) {
        assert old(Published(p));
        assert contents[p - dequeuePos] == old(contents)[p - pos];
      }
      return out;
    }

    /** Exact when no other thread is active, and never more than the capacity. */
    method SizeApprox() returns (n: nat)
      requires Valid()
      ensures n == |contents| <= cells.Length
    {
      var enq := enqueuePos;
      var deq := dequeuePos;
      n := if enq >= deq then enq - deq else 0;
    }

    /** The other tickets of the lap use other cells. */
    lemma OtherTickets(pos: nat, low: nat, high: nat)
      requires cells.Length > 0 && low <= pos < high <= low + cells.Length
      ensures forall p: nat :: low <= p < high && p != pos ==> Slot(p, cells.Length) != Slot(pos, cells.Length)
    {
      forall p: nat | low <= p < high && p != pos ensures Slot(p, cells.Length) != Slot(pos, cells.Length) {
        if p < pos { SlotsDiffer(p, pos, cells.Length); } else { SlotsDiffer(pos, p, cells.Length); }
      }
    }
  }
}
