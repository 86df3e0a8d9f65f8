/** The writer goroutine of internal/stream/demux/subscription.go. */
module PacketWriter {
  import opened Packets
  import Crc

  type byte = Crc.byte

  const BATCH_BYTES: nat := 64 * PACKET_SIZE

  function Concat(ps: seq<Packet>): seq<byte>
    decreases |ps|
  {
    if ps == [] then [] else Concat(ps[..|ps| - 1]) + ps[|ps| - 1]
  }

  lemma {:induction false} ConcatAppend(a: seq<Packet>, b: seq<Packet>)
    ensures Concat(a + b) == Concat(a) + Concat(b)
    decreases |b|
  {
    if b == [] {
      assert a + b == a && Concat(a) + [] == Concat(a);
    } else {
      var rest, last := b[..|b| - 1], b[|b| - 1];
      ConcatAppend(a, rest);
      assert (a + b)[..|a + b| - 1] == a + rest;
      assert (Concat(a) + Concat(rest)) + last == Concat(a) + (Concat(rest) + last);
    }
  }

  /**
   writePackets on everything that comes through a queue before it is closed.  How many
   packets are there at a time, and when a write fails, is up to others.  The bytes
   written are those of the packets, in order, however they were batched.
   */
  method WritePackets(queue: seq<Packet>) returns (writes: seq<seq<byte>>, taken: nat, failed: bool)
    ensures taken <= |queue| && (!failed ==> taken == |queue|)
    ensures forall w | w in writes :: 0 < |w| <= BATCH_BYTES && |w| % PACKET_SIZE == 0
    ensures Flat(writes) == Concat(queue[..taken]) || failed
    ensures Flat(writes) <= Concat(queue)
  {
    hide Concat;
    writes, taken, failed := [], 0, false;
    ConcatAppend(queue, []);
    NoBytes();
    while taken < |queue|
      invariant taken <= |queue| && Flat(writes) == Concat(queue[..taken])
      invariant forall w | w in writes :: 0 < |w| <= BATCH_BYTES && |w| % PACKET_SIZE == 0
      decreases |queue| - taken
    {
      var buf, next := FillBatch(queue, taken);
      var ok: bool := *;
      if !ok {
        taken, failed := next, true;
        PrefixOfAll(queue, taken);
        return;
      }
      writes := writes + [buf];
      taken := next;
    }
    assert queue[..taken] == queue;
  }

  /** One batch: the packet that was waited for, and as many more as are there and fit. */
  method FillBatch(queue: seq<Packet>, taken: nat) returns (buf: seq<byte>, next: nat)
    requires taken < |queue|
    ensures taken < next <= |queue| && 0 < |buf| <= BATCH_BYTES && |buf| % PACKET_SIZE == 0
    ensures Concat(queue[..taken]) + buf == Concat(queue[..next])
  {
    hide Concat;
    buf, next := queue[taken], taken + 1;
    OneMore(queue, taken);
    while |buf| + PACKET_SIZE <= BATCH_BYTES && next < |queue|
      invariant taken < next <= |queue| && 0 < |buf| <= BATCH_BYTES && |buf| % PACKET_SIZE == 0
      invariant Concat(queue[..taken]) + buf == Concat(queue[..next])
      decreases |queue| - next
    {
      var there: bool := *;
      if !there {
        break;
      }
      OneMore(queue, next);
      assert (Concat(queue[..taken]) + buf) + queue[next] == Concat(queue[..taken]) + (buf + queue[next]);
      buf := buf + queue[next];
      next := next + 1;
    }
  }

  lemma OneMore(queue: seq<Packet>, n: nat)
    requires n < |queue|
    ensures Concat(queue[..n + 1]) == Concat(queue[..n]) + queue[n]
  {
    assert queue[..n + 1][..n] == queue[..n];
  }

  function Flat(writes: seq<seq<byte>>): seq<byte>
    decreases |writes|
  {
    if writes == [] then [] else Flat(writes[..|writes| - 1]) + writes[|writes| - 1]
  }

  lemma NoBytes()
    ensures Flat([]) == [] && Concat([]) == []
  {
  }

  lemma PrefixOfAll(queue: seq<Packet>, n: nat)
    requires n <= |queue|
    ensures Concat(queue[..n]) <= Concat(queue)
  {
    hide Concat;
    ConcatAppend(queue[..n], queue[n..]);
    assert queue[..n] + queue[n..] == queue;
  }
}
