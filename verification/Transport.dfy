/** The socket transport object of src/orchestration/unix_socket_transport.hpp.

    The kernel is an oracle: a finite schedule says how many bytes each of the next system calls
    moves at most, which are interrupted by a signal and which fail; calls after the schedule move
    all they are asked to. Every terminating execution follows some schedule. */
module Transport {
  import opened Bytes
  import opened Framing

  datatype IoEvent = Limit(bytes: nat) | Interrupted | Fault

  predicate FaultFree(schedule: seq<IoEvent>) {
    forall i :: 0 <= i < |schedule| ==> schedule[i] != Fault
  }

  function Min(a: nat, b: nat): nat { if a <= b then a else b }

  datatype CallResult = Moved(n: nat) | Eof | WouldBlock | Eintr | Errno

  class UnixSocketTransport {
    /** Bytes the peer wrote that were not yet read. */
    var incoming: seq<Byte>
    /** Bytes written to the peer. */
    var outgoing: seq<Byte>
    /** The peer is gone: reads end after `incoming`, writes fail. */
    var peerClosed: bool
    var schedule: seq<IoEvent>

    /** `read(fd, p, max)`: some bytes, end of stream, or an error. */
    method SysRead(max: nat) returns (r: CallResult, data: seq<Byte>)
      requires max > 0
      modifies this`incoming, this`schedule
      ensures schedule == if old(schedule) == [] then [] else old(schedule)[1..]
      ensures r.Moved? ==>
                && 0 < r.n <= max && r.n <= |old(incoming)|
                && data == old(incoming)[..r.n] && incoming == old(incoming)[r.n..]
      ensures !r.Moved? ==> incoming == old(incoming)
      ensures old(schedule) == [] ==>
                r == if old(incoming) != [] then Moved(Min(max, |old(incoming)|))
                     else if peerClosed then Eof else WouldBlock
      ensures r.Eof? ==> old(incoming) == [] && peerClosed
      ensures r.WouldBlock? ==> old(incoming) == [] && !peerClosed
      ensures r.Eintr? ==> old(schedule) != []
      ensures r.Errno? ==> old(schedule) != [] && old(schedule)[0] == Fault
    {
      data := [];
      var limit := max;
      if schedule != [] {
        var e := schedule[0];
        schedule := schedule[1..];
        if e.Interrupted? { return Eintr, []; }
        if e.Fault? { return Errno, []; }
        limit := if e.bytes == 0 then 1 else Min(max, e.bytes);
      }
      if incoming == [] { return if peerClosed then Eof else WouldBlock, []; }
      var n := Min(limit, |incoming|);
      data := incoming[..n];
      incoming := incoming[n..];
      return Moved(n), data;
    }

    /** `write(fd, p, |data|)`: a non-empty part of the data, or an error. */
    method SysWrite(data: seq<Byte>) returns (r: CallResult)
      requires data != []
      modifies this`outgoing, this`schedule
      ensures schedule == if old(schedule) == [] then [] else old(schedule)[1..]
      ensures r.Moved? ==> 0 < r.n <= |data| && outgoing == old(outgoing) + data[..r.n] && !peerClosed
      ensures !r.Moved? ==> outgoing == old(outgoing)
      ensures r.Moved? || r.Eintr? || r.Errno?
      ensures r.Eintr? ==> old(schedule) != []
      ensures r.Errno? ==> peerClosed || (old(schedule) != [] && old(schedule)[0] == Fault)
    {
      var limit := |data|;
      if schedule != [] {
        var e := schedule[0];
        schedule := schedule[1..];
        if e.Interrupted? { return Eintr; }
        if e.Fault? { return Errno; }
        limit := if e.bytes == 0 then 1 else Min(|data|, e.bytes);
      }
      if peerClosed { return Errno; }
      outgoing := outgoing + data[..limit];
      return Moved(limit);
    }

    method EncodeLength(len: nat) returns (out: array<Byte>)
      ensures fresh(out) && out.Length == 8 && out[..] == PutBE(len, 8)
    {
      out := new Byte[8](_ => 0);
      var v := len;
      var i := 8;
      while i > 0
        invariant 0 <= i <= 8
        invariant PutBE(v, i) + out[i..] == PutBE(len, 8)
      {
        i := i - 1;
        ghost var before := out[i + 1..];
        out[i] := v % 256;
        assert out[i..] == [v % 256] + before;
        v := v / 256;
      }
    }

    method DecodeLength(header: seq<Byte>) returns (v: nat)
      requires |header| == 8
      ensures v == GetBE(header)
    {
      v := 0;
      var i := 0;
      while i < 8
        invariant 0 <= i <= 8 && v == GetBE(header[..i])
      {
        assert header[..i + 1][..i] == header[..i];
        var low: nat := header[i];
        v := 256 * v + low;
        i := i + 1;
      }
      assert header[..8] == header;
    }

    /** Writes exactly `data`, however the kernel splits it; fails only if the peer is gone or a
        call faults. */
    method WriteAll(data: seq<Byte>) returns (thrown: bool)
      modifies this`outgoing, this`schedule
      ensures !thrown ==> outgoing == old(outgoing) + data
      ensures FaultFree(old(schedule)) ==> FaultFree(schedule) && (thrown ==> peerClosed)
      ensures old(outgoing) <= outgoing <= old(outgoing) + data
      ensures peerClosed ==> outgoing == old(outgoing) && (data != [] ==> thrown)
    {
      var written: nat := 0;
      while written < |data|
        invariant peerClosed ==> written == 0
        invariant written <= |data| && outgoing == old(outgoing) + data[..written]
        invariant FaultFree(old(schedule)) ==> FaultFree(schedule)
        decreases |schedule| + |data| - written
      {
        var r := SysWrite(data[written..]);
        if r.Moved? {
          assert data[..written] + data[written..][..r.n] == data[..written + r.n];
          written := written + r.n;
        } else if !r.Eintr? {
          assert old(outgoing) + data == old(outgoing) + data[..written] + data[written..];
          return true;
        }
      }
      assert data[..written] == data;
      return false;
    }

    /** Reads exactly `len` bytes, however the kernel splits them. */
    method ReadAll(len: nat, allowEofAtStart: bool) returns (r: ReadOutcome)
      modifies this`incoming, this`schedule
      ensures FaultFree(old(schedule)) ==>
                && FaultFree(schedule)
                && r == ReadExactly(old(incoming), peerClosed, len, allowEofAtStart)
                && incoming == if r.Got? then old(incoming)[len..] else []
      ensures r.Got? ==> len <= |old(incoming)| && r.data == old(incoming)[..len] && incoming == old(incoming)[len..]
    {
      var got := [];
      while |got| < len
        invariant |got| <= len && got + incoming == old(incoming)
        invariant FaultFree(old(schedule)) ==> FaultFree(schedule)
        decreases |schedule| + len - |got|
      {
        var c, data := SysRead(len - |got|);
        match c
        case Moved(n) =>
          got := got + data;
        case Eof =>
          return if allowEofAtStart && got == [] then PeerClosed else MidMessage;
        case Eintr =>
        case WouldBlock =>
          return Blocked;
        case Errno =>
          return IoError;
      }
      assert old(incoming)[..len] == got && old(incoming)[len..] == incoming;
      return Got(got);
    }

    /** Sends one framed message. */
    method Send(message: seq<Byte>) returns (thrown: bool)
      modifies this`outgoing, this`schedule
      ensures !thrown ==> outgoing == old(outgoing) + Frame(message)
      ensures FaultFree(old(schedule)) ==> FaultFree(schedule) && (thrown ==> peerClosed)
      ensures old(outgoing) <= outgoing <= old(outgoing) + Frame(message)
      ensures peerClosed ==> thrown && outgoing == old(outgoing)
    {
      var header := EncodeLength(|message|);
      thrown := WriteAll(header[..]);
      if !thrown && message != [] {
        thrown := WriteAll(message);
      }
    }

    /** Receives one framed message. */
    method Receive() returns (r: ReadOutcome)
      modifies this`incoming, this`schedule
      ensures FaultFree(old(schedule)) ==>
                && FaultFree(schedule)
                && (r, incoming) == ReceiveFrom(old(incoming), peerClosed)
      ensures r.Got? ==> (r, incoming) == ReceiveFrom(old(incoming), peerClosed)
      ensures r.Got? ==> |incoming| < |old(incoming)|
    {
      var h := ReadAll(8, true);
      if !h.Got? { return h; }
      var len := DecodeLength(h.data);
      if len == 0 { return Got([]); }
      r := ReadAll(len, false);
    }
  }
}
