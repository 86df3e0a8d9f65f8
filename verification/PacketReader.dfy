/**
 The resynchronising reader of ts/packet.go, over input that arrives in non-empty pieces
 of any size and then ends: it always ends too, hands out windows of the input in order,
 and takes a clean stream apart exactly.
 */
module PacketReader {
  import opened Crc
  import opened Packets

  const WITH_TIMESTAMP: nat := 192
  const WITH_PARITY: nat := 204
  const MIN_DETECT: nat := 4 * WITH_PARITY

  function Flat(pieces: seq<seq<byte>>): seq<byte>
    decreases |pieces|
  {
    if pieces == [] then [] else pieces[0] + Flat(pieces[1..])
  }

  // ----- where a packet may start -----

  function SyncOffset(stride: nat): nat {
    if stride == WITH_TIMESTAMP then 4 else 0
  }

  /** The next sync bytes that are there, up to left of them, are right. */
  predicate Synced(buf: seq<byte>, next: nat, stride: nat, left: nat)
    decreases left
  {
    left == 0 || next >= |buf| || (buf[next] == SYNC_BYTE && Synced(buf, next + stride, stride, left - 1))
  }

  /** packetReadyAt, when no more bytes need to be read for it */
  predicate ReadyAt(buf: seq<byte>, eof: bool, pos: nat, stride: nat) {
    var sync := pos + SyncOffset(stride);
    && sync < |buf| && buf[sync] == SYNC_BYTE && pos + stride <= |buf|
    && Synced(buf, sync + stride, stride, 3) && (sync + stride < |buf| || eof)
  }

  predicate IsStride(stride: nat) {
    stride == PACKET_SIZE || stride == WITH_TIMESTAMP || stride == WITH_PARITY
  }

  // ----- clean streams -----

  /** Whole packets, each with its sync byte, and nothing else. */
  predicate Clean(bytes: seq<byte>)
    decreases |bytes|
  {
    bytes == [] || (|bytes| >= PACKET_SIZE && bytes[0] == SYNC_BYTE && Clean(bytes[PACKET_SIZE..]))
  }

  function Chunks(bytes: seq<byte>): seq<Packet>
    requires Clean(bytes)
    decreases |bytes|
  {
    if bytes == [] then [] else [bytes[..PACKET_SIZE]] + Chunks(bytes[PACKET_SIZE..])
  }

  /** What has been read of a clean stream has all its sync bytes in place. */
  lemma {:induction false} CleanIsSynced(bytes: seq<byte>, n: nat, next: nat, left: nat)
    requires Clean(bytes) && n <= |bytes| && next % PACKET_SIZE == 0
    ensures Synced(bytes[..n], next, PACKET_SIZE, left)
    decreases left
  {
    if left > 0 && next < n {
      CleanAt(bytes, next);
      CleanIsSynced(bytes, n, next + PACKET_SIZE, left - 1);
    }
  }

  lemma {:induction false} CleanAt(bytes: seq<byte>, next: nat)
    requires Clean(bytes) && next < |bytes| && next % PACKET_SIZE == 0
    ensures bytes[next] == SYNC_BYTE && |bytes| - next >= PACKET_SIZE
    decreases next
  {
    if next > 0 {
      assert bytes[next] == bytes[PACKET_SIZE..][next - PACKET_SIZE];
      CleanAt(bytes[PACKET_SIZE..], next - PACKET_SIZE);
    }
  }

  lemma CleanIsReady(bytes: seq<byte>, buf: seq<byte>, eof: bool)
    requires Clean(bytes) && buf != [] && buf <= bytes
    requires |buf| >= MIN_DETECT || (eof && buf == bytes)
    ensures ReadyAt(buf, eof, 0, PACKET_SIZE)
  {
    CleanAt(bytes, 0);
    CleanIsSynced(bytes, |buf|, PACKET_SIZE, 3);
    assert bytes[..|buf|] == buf;
  }

  // ----- the reader -----

  datatype Result = Packet(packet: Packet) | EndOfInput

  class Reader {
    /** Whether the underlying reader reports the end of input together with its last piece. */
    const endsWithPiece: bool
    var pieces: seq<seq<byte>>
    var buf: seq<byte>
    var stride: nat
    var eof: bool
    ghost const input: seq<byte>
    ghost var offset: nat

    ghost predicate Valid()
      reads this
    {
      && offset <= |input| && input[offset..] == buf + Flat(pieces)
      && (forall r | r in pieces :: r != [])
      && (eof ==> pieces == [])
      && (stride == 0 || IsStride(stride))
    }

    constructor (pieces: seq<seq<byte>>, endsWithPiece: bool)
      requires forall r | r in pieces :: r != []
      ensures Valid() && input == Flat(pieces) && offset == 0 && stride == 0
    {
      this.pieces, this.endsWithPiece := pieces, endsWithPiece;
      buf, stride, eof := [], 0, false;
      input := Flat(pieces);
      offset := 0;
      new;
      assert input[0..] == input && [] + Flat(pieces) == Flat(pieces);
    }

    /** How much the underlying reader still has to do. */
    ghost function Ahead(): nat
      reads this
    {
      |pieces| + if eof then 0 else 1
    }

    ghost predicate Rest(bytes: seq<byte>)
      requires Valid()
      reads this
    {
      input[offset..] == bytes
    }

    /** fill: reads until there are enough bytes or none are left. */
    method Fill(min: nat)
      requires Valid()
      modifies this`pieces, this`buf, this`eof
      ensures Valid() && old(buf) <= buf && (old(eof) ==> eof && buf == old(buf))
      ensures eof || |buf| >= min
      ensures buf != old(buf) ==> Ahead() < old(Ahead())
      ensures Ahead() <= old(Ahead()) && (!old(eof) && old(|buf|) < min ==> Ahead() < old(Ahead()))
      ensures !old(eof) && old(|buf|) >= min ==> buf == old(buf) && eof == old(eof)
    {
      while !eof && |buf| < min
        invariant Valid() && old(buf) <= buf && (old(eof) ==> eof && buf == old(buf))
        invariant Ahead() <= old(Ahead()) && (buf != old(buf) ==> Ahead() < old(Ahead()))
        invariant !old(eof) && old(|buf|) < min ==> Ahead() < old(Ahead()) || (buf == old(buf) && !eof)
        invariant !old(eof) && old(|buf|) >= min ==> buf == old(buf) && eof == old(eof)
        decreases Ahead()
      {
        if pieces == [] {
          eof := true;
        } else {
          assert buf + Flat(pieces) == (buf + pieces[0]) + Flat(pieces[1..]);
          assert forall r | r in pieces[1..] :: r in pieces;
          buf := buf + pieces[0];
          pieces := pieces[1..];
          eof := pieces == [] && endsWithPiece;
        }
      }
    }

    /** packetReadyAt */
    method PacketReadyAt(pos: nat, s: nat) returns (ready: bool)
      requires Valid() && IsStride(s)
      modifies this`pieces, this`buf, this`eof
      ensures Valid() && old(buf) <= buf && Ahead() <= old(Ahead()) && (buf != old(buf) ==> Ahead() < old(Ahead()))
      ensures ready <==> ReadyAt(buf, eof, pos, s)
      ensures ReadyAt(old(buf), old(eof), pos, s) ==> buf == old(buf) && eof == old(eof)
    {
      var sync := pos + SyncOffset(s);
      if sync >= |buf| || buf[sync] != SYNC_BYTE {
        return false;
      }
      if |buf| < pos + s {
        if !eof {
          Fill(pos + s);
        }
        if |buf| < pos + s {
          return false;
        }
      }
      ready := CheckSync(sync + s, s);
    }

    /** The loop of packetReadyAt over at most three following sync bytes. */
    method CheckSync(first: nat, s: nat) returns (ready: bool)
      requires s > 0
      ensures ready <==> Synced(buf, first, s, 3) && (first < |buf| || eof)
    {
      var checks := 0;
      var next: nat := first;
      while next < |buf| && checks < 3
        invariant checks <= 3 && Synced(buf, first, s, 3) == Synced(buf, next, s, 3 - checks)
        invariant next >= first && (checks > 0 <==> next > first)
        invariant next > first ==> first < |buf|
        decreases 3 - checks
      {
        if buf[next] != SYNC_BYTE {
          return false;
        }
        checks := checks + 1;
        next := next + s;
      }
      ready := checks > 0 || eof;
    }

    /** detectPacket: the first position, and there the first packet size, that fits. */
    method DetectPacket() returns (pos: nat, s: nat, ok: bool)
      requires Valid()
      modifies this`pieces, this`buf, this`eof
      ensures Valid() && old(buf) <= buf && Ahead() <= old(Ahead()) && (buf != old(buf) ==> Ahead() < old(Ahead()))
      ensures ok ==> IsStride(s) && ReadyAt(buf, eof, pos, s)
      ensures buf != [] && ReadyAt(old(buf), old(eof), 0, PACKET_SIZE) ==> ok && pos == 0 && s == PACKET_SIZE
    {
      hide Valid, ReadyAt, Ahead;
      pos := 0;
      while pos < |buf|
        invariant Valid() && old(buf) <= buf && Ahead() <= old(Ahead()) && (buf != old(buf) ==> Ahead() < old(Ahead()))
        invariant pos > 0 ==> !ReadyAt(old(buf), old(eof), 0, PACKET_SIZE)
        invariant pos == 0 ==> buf == old(buf) && eof == old(eof)
        decreases Ahead(), |buf| - pos
      {
        ok := PacketReadyAt(pos, PACKET_SIZE);
        if ok {
          return pos, PACKET_SIZE, true;
        }
        ok := PacketReadyAt(pos, WITH_TIMESTAMP);
        if ok {
          return pos, WITH_TIMESTAMP, true;
        }
        ok := PacketReadyAt(pos, WITH_PARITY);
        if ok {
          return pos, WITH_PARITY, true;
        }
        pos := pos + 1;
      }
      return 0, 0, false;
    }
  
    /** consumePacketInto: the packet's bytes, without timestamp or parity. */
    method ConsumePacket(pos: nat, s: nat) returns (r: Result, ghost start: nat)
      requires Valid() && IsStride(s) && ReadyAt(buf, eof, pos, s)
      modifies this`buf, this`offset
      ensures Valid() && r.Packet? && offset == old(offset) + pos + s && eof == old(eof)
      ensures IsWindow(input, r, start, old(offset), offset)
      ensures buf == old(buf)[pos + s..]
    {
      ReadyBytes(buf, eof, pos, s);
      var begin := pos;
      var end := pos + s;
      if s == WITH_TIMESTAMP {
        begin := pos + 4;
      } else if s == WITH_PARITY {
        end := pos + PACKET_SIZE;
      }
      hide ReadyAt, Flat;
      SliceOf(input, offset, buf, Flat(pieces), begin);
      DropOf(input, offset, buf, Flat(pieces), pos + s);
      assert end == begin + PACKET_SIZE;
      r, start := Packet(buf[begin..end]), offset + begin;
      buf := buf[pos + s..];
      offset := offset + (pos + s);
    }

    /** A packet right where the last one ended, or else the first one that can be detected. */
    method Attempt(ghost clean: bool) returns (found: bool, r: Result, ghost start: nat)
      requires Valid() && buf != [] && (eof || |buf| >= MIN_DETECT)
      requires clean ==> CleanAhead(input[offset..], stride)
      modifies this
      ensures Valid() && offset >= old(offset) && Ahead() <= old(Ahead())
      ensures found ==> IsWindow(input, r, start, old(offset), offset) && offset >= old(offset) + PACKET_SIZE
      ensures clean ==> found && CleanAhead(input[offset..], stride) && offset == old(offset) + PACKET_SIZE
                        && r.packet == old(input[offset..])[..PACKET_SIZE]
      ensures !found ==> offset == old(offset)
    {
      hide ReadyAt, CleanAhead, Flat, IsStride;
      r, start := EndOfInput, offset;
      if clean { ReadyWhenClean(); }
      StrideOk();
      if stride != 0 {
        var ready := PacketReadyAt(0, stride);
        if ready {
          r, start := ConsumeClean(0, stride, clean);
          return true, r, start;
        }
        stride := 0;
      }
      var pos, s, ok := DetectPacket();
      if !ok {
        return false, r, start;
      }
      stride := s;
      r, start := ConsumeClean(pos, s, clean);
      found := true;
    }

    /** NextInto */
    method Next() returns (r: Result, ghost start: nat)
      requires Valid()
      modifies this
      ensures Valid() && offset >= old(offset)
      ensures r.Packet? ==> IsWindow(input, r, start, old(offset), offset) && offset >= old(offset) + PACKET_SIZE
      ensures CleanAhead(old(input[offset..]), old(stride)) ==>
                && CleanAhead(input[offset..], stride)
                && (if old(input[offset..]) == [] then r.EndOfInput?
                    else r.Packet? && offset == old(offset) + PACKET_SIZE && r.packet == old(input[offset..])[..PACKET_SIZE])
    {
      hide ReadyAt, CleanAhead, Flat, IsStride;
      ghost var clean := CleanAhead(input[offset..], stride);
      while true
        invariant Valid() && offset >= old(offset)
        invariant clean ==> offset == old(offset) && stride == old(stride) && CleanAhead(input[offset..], stride)
        decreases Ahead()
      {
        Fill(MIN_DETECT);
        if |buf| == 0 {
          EmptyAtEnd();
          return EndOfInput, offset;
        }
        var found;
        found, r, start := Attempt(clean);
        if found {
          return;
        }
        if eof {
          return EndOfInput, offset;
        }
        SkipGarbage();
        Fill(|buf| + MIN_DETECT);
      }
    }

    lemma EmptyAtEnd()
      requires Valid() && buf == [] && (eof || |buf| >= MIN_DETECT)
      ensures input[offset..] == []
    {
      assert Flat(pieces) == [];
    }

    lemma StrideOk()
      requires Valid()
      ensures stride == 0 || IsStride(stride)
      ensures CleanAhead(input[offset..], stride) ==> CleanAhead(input[offset..], PACKET_SIZE) && (stride == 0 || stride == PACKET_SIZE)
    {
    }

    lemma ReadyWhenClean()
      requires Valid() && CleanAhead(input[offset..], stride) && buf != [] && (eof || |buf| >= MIN_DETECT)
      ensures ReadyAt(buf, eof, 0, PACKET_SIZE)
    {
      var rest := input[offset..];
      assert rest == buf + Flat(pieces);
      if eof { assert Flat(pieces) == [] && rest == buf; }
      CleanIsReady(rest, buf, eof);
    }

    method ConsumeClean(pos: nat, s: nat, ghost clean: bool) returns (r: Result, ghost start: nat)
      requires Valid() && IsStride(s) && ReadyAt(buf, eof, pos, s) && stride == s
      requires clean ==> CleanAhead(input[offset..], PACKET_SIZE) && pos == 0 && s == PACKET_SIZE
      modifies this`buf, this`offset
      ensures Valid() && IsWindow(input, r, start, old(offset), offset) && offset >= old(offset) + PACKET_SIZE && eof == old(eof)
      ensures clean ==> CleanAhead(input[offset..], stride) && offset == old(offset) + PACKET_SIZE && r.packet == old(input[offset..])[..PACKET_SIZE]
    {
      ghost var rest := input[offset..];
      r, start := ConsumePacket(pos, s);
      if clean { RestOf(input, offset - PACKET_SIZE, PACKET_SIZE); }
    }

    /** Drops what lies before the last sync byte. */
    method SkipGarbage()
      requires Valid()
      modifies this`buf, this`offset
      ensures Valid() && offset >= old(offset) && Ahead() == old(Ahead()) && eof == old(eof)
    {
      var i: int := |buf| - 1;
      while i >= 0 && buf[i] != SYNC_BYTE
        invariant -1 <= i < |buf|
      {
        i := i - 1;
      }
      if i > 0 {
        DropOf(input, offset, buf, Flat(pieces), i);
        buf := buf[i..];
        offset := offset + i;
      }
    }
  }

  lemma ReadyBytes(buf: seq<byte>, eof: bool, pos: nat, s: nat)
    requires ReadyAt(buf, eof, pos, s) && IsStride(s)
    ensures pos + s <= |buf| && buf[pos + SyncOffset(s)] == SYNC_BYTE
  {
  }

  lemma SliceOf(input: seq<byte>, offset: nat, buf: seq<byte>, tail: seq<byte>, start: nat)
    requires offset <= |input| && input[offset..] == buf + tail && start + PACKET_SIZE <= |buf|
    ensures offset + start + PACKET_SIZE <= |input|
    ensures input[offset + start..offset + start + PACKET_SIZE] == buf[start..start + PACKET_SIZE]
  {
    DropOf(input, offset, buf, tail, start);
    var at := offset + start;
    assert |input[at..]| == |buf[start..]| + |tail|;
    assert input[at..at + PACKET_SIZE] == input[at..][..PACKET_SIZE] == buf[start..][..PACKET_SIZE];
  }

  lemma RestOf(input: seq<byte>, offset: nat, n: nat)
    requires offset + n <= |input|
    ensures input[offset..][..n] == input[offset..offset + n] && input[offset..][n..] == input[offset + n..]
  {
  }

  lemma DropOf(input: seq<byte>, offset: nat, buf: seq<byte>, tail: seq<byte>, n: nat)
    requires offset <= |input| && input[offset..] == buf + tail && n <= |buf|
    ensures offset + n <= |input| && input[offset + n..] == buf[n..] + tail
  {
    assert |input[offset..]| == |buf| + |tail|;
    assert input[offset + n..] == input[offset..][n..];
  }

  /** A packet is a piece of the input between two places, and starts with the sync byte. */
  ghost predicate IsWindow(input: seq<byte>, r: Result, start: nat, from: nat, to: nat) {
    r.Packet? && from <= start && start + PACKET_SIZE <= to <= |input| && r.packet == input[start..start + PACKET_SIZE]
    && r.packet[0] == SYNC_BYTE
  }

  predicate CleanAhead(rest: seq<byte>, stride: nat) {
    Clean(rest) && (stride == 0 || stride == PACKET_SIZE)
  }

  // ----- whole inputs -----

  /** The windows are in order and do not overlap. */
  ghost predicate InOrder(starts: seq<nat>) {
    forall a, b | 0 <= a < b < |starts| :: starts[a] + PACKET_SIZE <= starts[b]
  }

  /** The packets are windows of the input at these places. */
  ghost predicate Windows(input: seq<byte>, packets: seq<Packet>, starts: seq<nat>, end: nat) {
    && |packets| == |starts| && end <= |input|
    && forall i | 0 <= i < |starts| ::
         && starts[i] + PACKET_SIZE <= end && packets[i] == input[starts[i]..starts[i] + PACKET_SIZE]
         && packets[i][0] == SYNC_BYTE
  }

  lemma WindowsMore(input: seq<byte>, packets: seq<Packet>, starts: seq<nat>, end: nat, r: Result, start: nat, to: nat)
    requires Windows(input, packets, starts, end) && InOrder(starts) && IsWindow(input, r, start, end, to)
    ensures Windows(input, packets + [r.packet], starts + [start], to) && InOrder(starts + [start])
  {
  }

  /**
   Reads until the end of input, however the input is cut and its end reported: the packets are windows of
   it, in order and apart; a clean stream comes out packet for packet.
   */
  method ReadAll(pieces: seq<seq<byte>>, endsWithPiece: bool) returns (packets: seq<Packet>, ghost starts: seq<nat>)
    requires forall piece | piece in pieces :: piece != []
    ensures Windows(Flat(pieces), packets, starts, |Flat(pieces)|) && InOrder(starts)
    ensures Clean(Flat(pieces)) ==> packets == Chunks(Flat(pieces))
  {
    hide Flat, Chunks, Clean, Windows, InOrder, IsWindow;
    var reader := new Reader(pieces, endsWithPiece);
    ghost var input := Flat(pieces);
    packets, starts := [], [];
    NothingRead(input);
    while true
      invariant reader.Valid() && reader.input == input && fresh(reader)
      invariant Windows(input, packets, starts, reader.offset) && InOrder(starts)
      invariant Clean(input) ==> CleanAhead(input[reader.offset..], reader.stride) && packets + Chunks(input[reader.offset..]) == Chunks(input)
      decreases |input| - reader.offset
    {
      ghost var rest, from := input[reader.offset..], reader.offset;
      var r, start := reader.Next();
      if r.EndOfInput? {
        WindowsEnd(input, packets, starts, from);
        if Clean(input) { ChunksEnd(packets); }
        return;
      }
      WindowEnd(input, r, start, from, reader.offset);
      WindowsMore(input, packets, starts, from, r, start, reader.offset);
      if Clean(input) {
        ChunksMore(packets, rest);
        assert input[reader.offset..] == rest[PACKET_SIZE..];
      }
      packets := packets + [r.packet];
      starts := starts + [start];
    }
  }

  lemma NothingRead(input: seq<byte>)
    ensures Windows(input, [], [], 0) && InOrder([])
    ensures Clean(input) ==> Clean(input[0..]) && [] + Chunks(input[0..]) == Chunks(input)
  {
    assert input[0..] == input;
  }

  lemma WindowEnd(input: seq<byte>, r: Result, start: nat, from: nat, to: nat)
    requires IsWindow(input, r, start, from, to)
    ensures to <= |input|
  {
  }

  lemma WindowsEnd(input: seq<byte>, packets: seq<Packet>, starts: seq<nat>, end: nat)
    requires Windows(input, packets, starts, end)
    ensures Windows(input, packets, starts, |input|)
  {
  }

  lemma ChunksEnd(packets: seq<Packet>)
    ensures Clean([]) && packets + Chunks([]) == packets
  {
  }

  lemma ChunksUnfold(rest: seq<byte>)
    requires Clean(rest) && rest != []
    ensures |rest| >= PACKET_SIZE && Clean(rest[PACKET_SIZE..])
    ensures Chunks(rest) == [rest[..PACKET_SIZE]] + Chunks(rest[PACKET_SIZE..])
  {
  }

  lemma Associates<T>(a: seq<T>, b: seq<T>, c: seq<T>)
    ensures (a + b) + c == a + (b + c)
  {
  }

  lemma ChunksMore(packets: seq<Packet>, rest: seq<byte>)
    requires Clean(rest) && rest != []
    ensures |rest| >= PACKET_SIZE && Clean(rest[PACKET_SIZE..])
    ensures (packets + [rest[..PACKET_SIZE]]) + Chunks(rest[PACKET_SIZE..]) == packets + Chunks(rest)
  {
    hide Chunks, Clean;
    ChunksUnfold(rest);
    Associates(packets, [rest[..PACKET_SIZE]], Chunks(rest[PACKET_SIZE..]));
  }
}
