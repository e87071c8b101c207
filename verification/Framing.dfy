/** Length-prefixed framing of src/orchestration/unix_socket_transport.hpp on byte sequences. */
module Framing {
  import opened Bytes

  /** The `n` low bytes of `v`, most significant first. */
  function PutBE(v: nat, n: nat): (r: seq<Byte>)
    ensures |r| == n
  {
    if n == 0 then [] else PutBE(v / 256, n - 1) + [v % 256]
  }

  /** The number written in `s`, most significant byte first. */
  function GetBE(s: seq<Byte>): (r: nat)
    ensures r < Pow256(|s|)
  {
    if s == [] then 0 else var low: nat := s[|s| - 1]; 256 * GetBE(s[..|s| - 1]) + low
  }

  /** The last byte is the lowest: network byte order. */
  lemma {:induction false} PutBEAt(v: nat, n: nat, k: nat)
    requires k < n
    ensures PutBE(v, n)[n - 1 - k] == v / Pow256(k) % 256
  {
    if k > 0 {
      PutBEAt(v / 256, n - 1, k - 1);
      DivideTwice(v, Pow256(k - 1));
    }
  }

  lemma {:induction false} BERoundTrip(v: nat, n: nat)
    requires v < Pow256(n)
    ensures GetBE(PutBE(v, n)) == v
  {
    if n > 0 {
      BERoundTrip(v / 256, n - 1);
      assert PutBE(v, n)[..n - 1] == PutBE(v / 256, n - 1);
    }
  }

  /** A message as it travels: an eight-byte length and the bytes. */
  function Frame(msg: seq<Byte>): seq<Byte> { PutBE(|msg|, 8) + msg }

  /** Byte `k` of the header is the one of weight 256^(7 - k), and the message follows. */
  lemma FrameLayout(msg: seq<Byte>, k: nat)
    requires k < 8
    ensures |Frame(msg)| == 8 + |msg| && Frame(msg)[8..] == msg
    ensures Frame(msg)[k] == |msg| / Pow256(7 - k) % 256
  {
    PutBEAt(|msg|, 8, 7 - k);
  }

  function Frames(msgs: seq<seq<Byte>>): seq<Byte> {
    if msgs == [] then [] else Frame(msgs[0]) + Frames(msgs[1..])
  }

  /** What a read of exactly `len` bytes comes to. */
  datatype ReadOutcome = Got(data: seq<Byte>) | PeerClosed | MidMessage | Blocked | IoError

  /** The outcome when `incoming` is everything the peer has written and will be read in order:
      it does not depend on how the bytes are split into reads. */
  function ReadExactly(incoming: seq<Byte>, closed: bool, len: nat, allowEofAtStart: bool): ReadOutcome {
    if len <= |incoming| then Got(incoming[..len])
    else if !closed then Blocked
    else if allowEofAtStart && incoming == [] then PeerClosed
    else MidMessage
  }

  /** Receiving one message from a stream that starts with `incoming`, and the bytes left after it. */
  function ReceiveFrom(incoming: seq<Byte>, closed: bool): (ReadOutcome, seq<Byte>) {
    match ReadExactly(incoming, closed, 8, true)
    case Got(header) =>
      var len := GetBE(header);
      (match ReadExactly(incoming[8..], closed, len, false)
       case Got(msg) => (Got(msg), incoming[8 + len..])
       case other => (other, []))
    case other => (other, [])
  }

  // ---------------------------------------------------------------------------------------
  // The receiver recovers exactly the messages that were sent
  // ---------------------------------------------------------------------------------------

  predicate Sendable(msg: seq<Byte>) { |msg| < 0x1_0000_0000_0000_0000 }

  lemma HeaderReads(msg: seq<Byte>, s: seq<Byte>)
    requires Sendable(msg) && |s| >= 8 && s[..8] == PutBE(|msg|, 8)
    ensures GetBE(s[..8]) == |msg|
  {
    Pow256Values();
    BERoundTrip(|msg|, 8);
  }

  /** One frame: the message, and the bytes behind the frame. */
  lemma ReceiveOne(msg: seq<Byte>, rest: seq<Byte>, closed: bool)
    requires Sendable(msg)
    ensures ReceiveFrom(Frame(msg) + rest, closed) == (Got(msg), rest)
  {
    var s := Frame(msg) + rest;
    assert s[..8] == PutBE(|msg|, 8);
    HeaderReads(msg, s);
    assert s[8..][..|msg|] == msg && s[8 + |msg|..] == rest;
  }

  /** Receiving `n` messages, or stopping at the first outcome that is not a message. */
  function ReceiveMany(incoming: seq<Byte>, closed: bool, n: nat): (seq<seq<Byte>>, ReadOutcome)
    decreases n
  {
    var (first, rest) := ReceiveFrom(incoming, closed);
    if n == 0 || !first.Got? then ([], first)
    else
      var (more, last) := ReceiveMany(rest, closed, n - 1);
      ([first.data] + more, last)
  }

  /** What the stream's end means: on a frame boundary a clean close, inside a frame an error; an
      open stream just has no message yet. */
  lemma AtTheEnd(tail: seq<Byte>, msg: seq<Byte>, closed: bool)
    requires Sendable(msg) && tail < Frame(msg)
    ensures ReceiveFrom(tail, closed).0 == if !closed then Blocked else if tail == [] then PeerClosed else MidMessage
  {
    if |tail| >= 8 {
      assert tail[..8] == Frame(msg)[..8] == PutBE(|msg|, 8);
      HeaderReads(msg, tail);
    }
  }

  /** For any messages, followed by any strict prefix of a further frame: the receiver gets exactly
      the messages, in order, and then the outcome that tells a clean close from a broken one. */
  lemma {:induction false} ReceiverRecoversMessages(
    msgs: seq<seq<Byte>>, tail: seq<Byte>, next: seq<Byte>, closed: bool)
    requires (forall i :: 0 <= i < |msgs| ==> Sendable(msgs[i])) && Sendable(next) && tail < Frame(next)
    ensures ReceiveMany(Frames(msgs) + tail, closed, |msgs|)
         == (msgs, if !closed then Blocked else if tail == [] then PeerClosed else MidMessage)
  {
    if msgs == [] {
      assert Frames(msgs) + tail == tail;
      AtTheEnd(tail, next, closed);
    } else {
      var rest := Frames(msgs[1..]) + tail;
      assert Frames(msgs) + tail == Frame(msgs[0]) + rest;
      ReceiveOne(msgs[0], rest, closed);
      ReceiverRecoversMessages(msgs[1..], tail, next, closed);
      assert msgs == [msgs[0]] + msgs[1..];
    }
  }
}
