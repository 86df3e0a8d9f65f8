/**
 Sections on the wire: the packetizer of ts/demux.go and the SectionAssembler of
 ts/section.go, section 2.4.4 of ISO/IEC 13818-1.  Cutting sections into packets
 and assembling them again is the identity, whatever came before and whatever
 packets of other streams lie between.
 */
module Sections {
  import opened Crc
  import opened Packets

  type Section = seq<byte>

  function LengthField(b1: byte, b2: byte): nat {
    (((b1 & 0x0f) as bv16 << 8) | b2 as bv16) as nat
  }

  /** TotalLength */
  function Total(s: seq<byte>): (n: nat)
    requires |s| >= 3
    ensures n >= 3
  {
    3 + LengthField(s[1], s[2])
  }

  /** ValidateCRC */
  predicate ValidCrc(s: Section) {
    |s| >= 4 && Total(s) <= |s| && TableCrc(INITIAL, s[..Total(s)]) == 0
  }

  // ----- the assembler -----

  datatype Assembler = Assembler(pid: uint16, buffer: seq<byte>, lastCounter: byte, expecting: bool)

  datatype Fed = Fed(next: Assembler, sections: seq<Section>)

  function Accepted(s: Section): seq<Section> {
    if ValidCrc(s) then [s] else []
  }

  /** consumePayload */
  function Consume(a: Assembler, payload: seq<byte>): Fed
    decreases |payload|
  {
    if |payload| < 3 || payload[0] == 0xff then Fed(a, [])
    else if |payload| < Total(payload) then Fed(a.(buffer := payload, expecting := true), [])
    else
      var rest := Consume(a, payload[Total(payload)..]);
      rest.(sections := Accepted(payload[..Total(payload)]) + rest.sections)
  }

  /** completeSections(false) */
  function Complete(a: Assembler): Fed
    decreases |a.buffer|
  {
    if |a.buffer| < 3 then Fed(if a.buffer == [] then a.(expecting := false) else a, [])
    else if |a.buffer| < Total(a.buffer) then Fed(a.(expecting := true), [])
    else
      var rest := Complete(a.(buffer := a.buffer[Total(a.buffer)..]));
      rest.(sections := Accepted(a.buffer[..Total(a.buffer)]) + rest.sections)
  }

  /** The packets that FeedAll looks at; it leaves the state alone on all others. */
  predicate Relevant(pid: uint16, p: Packet) {
    Pid(p) == pid && !TransportError(p) && HasPayload(p) && Payload(p) != []
  }

  /** A counter that does not follow drops what was collected so far. */
  function Resync(a: Assembler, counter: byte): Assembler {
    if a.expecting && counter != NextCounter(a.lastCounter)
    then a.(buffer := [], expecting := false, lastCounter := counter)
    else a.(lastCounter := counter)
  }

  function Reset(a: Assembler): Assembler {
    a.(buffer := [], expecting := false)
  }

  /** The sections that the bytes before the next section complete. */
  function Ending(a: Assembler, rest: seq<byte>): seq<Section> {
    if |a.buffer| > 0 && |rest| > 0 then Complete(a.(buffer := a.buffer + rest)).sections else []
  }

  /** A payload whose first byte points at the first section that starts in it. */
  function StartUnit(a: Assembler, unit: seq<byte>): Fed
    requires unit != []
  {
    var pointer := unit[0] as nat;
    var payload := unit[1..];
    if pointer > |payload| then Fed(Reset(a), [])
    else
      var rest := Consume(Reset(a), payload[pointer..]);
      rest.(sections := Ending(a, payload[..pointer]) + rest.sections)
  }

  /** FeedAll */
  function Feed(a: Assembler, p: Packet): Fed {
    if !Relevant(a.pid, p) then Fed(a, [])
    else
      var a1 := Resync(a, Counter(p));
      var payload := Payload(p);
      if UnitStart(p) then StartUnit(a1, payload)
      else if !a1.expecting then Fed(a1, [])
      else Complete(a1.(buffer := a1.buffer + payload))
  }

  function FeedMany(a: Assembler, ps: seq<Packet>): Fed
    decreases |ps|
  {
    if ps == [] then Fed(a, [])
    else
      var first := Feed(a, ps[0]);
      var rest := FeedMany(first.next, ps[1..]);
      rest.(sections := first.sections + rest.sections)
  }

  // ----- the packetizer -----

  function Padding(n: nat): seq<byte> {
    seq(n, _ => 0xff)
  }

  function UnitFlag(first: bool): byte {
    if first then 0x40 else 0
  }

  function Header(pid: uint16, first: bool, counter: byte): seq<byte> {
    [SYNC_BYTE, High(pid) | UnitFlag(first), Low(pid), 0x10 | (counter & 0x0f)]
  }

  /** How many section bytes one packet carries; the first one spends a byte on the pointer. */
  function Room(first: bool): nat {
    if first then 183 else 184
  }

  function PacketOf(pid: uint16, first: bool, counter: byte, chunk: seq<byte>): Packet
    requires |chunk| <= Room(first)
  {
    Header(pid, first, counter) + (if first then [0] else []) + chunk + Padding(Room(first) - |chunk|)
  }

  function Take(xs: seq<byte>, n: nat): (r: seq<byte>)
    ensures |r| <= n && r <= xs
  {
    if |xs| <= n then xs else xs[..n]
  }

  datatype Packetized = Packetized(packets: seq<Packet>, counter: byte)

  /** packetizeSection, from the first packet on or from a later one. */
  function Packetize(pid: uint16, remaining: seq<byte>, counter: byte, first: bool): Packetized
    decreases first, |remaining|
  {
    if !first && remaining == [] then Packetized([], counter)
    else
      var chunk := Take(remaining, Room(first));
      var rest := Packetize(pid, remaining[|chunk|..], NextCounter(counter), false);
      Packetized([PacketOf(pid, first, counter, chunk)] + rest.packets, rest.counter)
  }

  function PacketizeAll(pid: uint16, sections: seq<Section>, counter: byte): Packetized
    decreases |sections|
  {
    if sections == [] then Packetized([], counter)
    else
      var first := Packetize(pid, sections[0], counter, true);
      var rest := PacketizeAll(pid, sections[1..], first.counter);
      Packetized(first.packets + rest.packets, rest.counter)
  }

  // ----- the header survives -----

  lemma FlagBits(b: byte, flag: byte)
    requires b as int < 0x20 && (flag == 0x40 || flag == 0)
    ensures (b | flag) & 0x1f == b && (b | flag) & 0x80 == 0 && ((b | flag) & 0x40 != 0 <==> flag == 0x40)
  {
  }

  lemma PidReadsBack(pid: uint16, first: bool)
    requires pid <= MAX_PID
    ensures PidWord(High(pid) | UnitFlag(first), Low(pid)) == pid
    ensures (High(pid) | UnitFlag(first)) & 0x80 == 0
    ensures (High(pid) | UnitFlag(first)) & 0x40 != 0 <==> first
  {
    hide Low;
    ByteOf(pid / 0x100);
    FlagBits(High(pid), UnitFlag(first));
    WordOfBytes(pid);
  }

  lemma CounterBits(counter: byte)
    ensures ((0x10 | (counter & 0x0f)) >> 4) & 0x03 == 1
    ensures (0x10 | (counter & 0x0f)) & 0x0f == counter & 0x0f
  {
  }

  lemma CounterSteps(counter: byte)
    ensures NextCounter(counter) & 0x0f == NextCounter(counter & 0x0f)
  {
  }

  /** What FeedAll reads back from a packet that packetizeSection wrote. */
  lemma PacketReadsBack(pid: uint16, first: bool, counter: byte, chunk: seq<byte>)
    requires pid <= MAX_PID && |chunk| <= Room(first)
    ensures var p := PacketOf(pid, first, counter, chunk);
            && Relevant(pid, p) && Counter(p) == counter & 0x0f
            && (UnitStart(p) <==> first)
            && Payload(p) == (if first then [0] else []) + chunk + Padding(Room(first) - |chunk|)
  {
    var p := PacketOf(pid, first, counter, chunk);
    var body := (if first then [0] else []) + chunk + Padding(Room(first) - |chunk|);
    hide High, Low, UnitFlag, PidWord;
    PidReadsBack(pid, first);
    CounterBits(counter);
    assert p == Header(pid, first, counter) + body;
    assert p[1] == High(pid) | UnitFlag(first) && p[2] == Low(pid) && p[3] == 0x10 | (counter & 0x0f);
    assert p[4..] == body;
  }

  // ----- one section -----

  lemma PaddingLength()
    ensures LengthField(0xff, 0xff) == 4095
  {
    var b: byte := 0xff;
    assert ((b & 0x0f) as bv16 << 8) | b as bv16 == 4095;
  }

  /** The total length only depends on the first three bytes. */
  lemma TotalPrefix(s: seq<byte>, t: seq<byte>)
    requires |s| >= 3 && |t| >= 3 && s[1] == t[1] && s[2] == t[2]
    ensures Total(s) == Total(t)
  {
  }

  lemma ConsumePadding(a: Assembler, k: nat)
    ensures Consume(a, Padding(k)) == Fed(a, [])
  {
  }

  /** A whole section with padding behind it is taken out, and nothing else. */
  lemma ConsumeWhole(a: Assembler, s: Section, k: nat)
    requires |s| >= 3 && |s| == Total(s) && s[0] != 0xff
    ensures Consume(a, s + Padding(k)) == Fed(a, Accepted(s))
  {
    hide LengthField, ValidCrc;
    var payload := s + Padding(k);
    TotalPrefix(s, payload);
    assert payload[0] == s[0] && |payload| >= Total(payload);
    assert payload[..Total(payload)] == s;
    assert payload[Total(payload)..] == Padding(k);
    ConsumePadding(a, k);
    assert Accepted(s) + [] == Accepted(s);
  }

  lemma CompleteWhole(a: Assembler, s: Section, k: nat)
    requires |s| >= 3 && |s| == Total(s) && k < 4098 && a.buffer == s + Padding(k)
    ensures Complete(a).sections == Accepted(s) && Complete(a).next.pid == a.pid
  {
    hide LengthField, ValidCrc;
    TotalPrefix(s, a.buffer);
    assert a.buffer[..Total(a.buffer)] == s;
    assert a.buffer[Total(a.buffer)..] == Padding(k);
    CompletePadding(a.(buffer := Padding(k)), k);
    assert Accepted(s) + [] == Accepted(s);
  }

  lemma CompletePart(a: Assembler)
    requires 3 <= |a.buffer| < Total(a.buffer)
    ensures Complete(a) == Fed(a.(expecting := true), [])
  {
  }

  lemma CompletePadding(a: Assembler, k: nat)
    requires a.buffer == Padding(k) && k < 4098
    ensures Complete(a).sections == [] && Complete(a).next.pid == a.pid
  {
    PaddingLength();
    assert k >= 3 ==> a.buffer[1] == 0xff && a.buffer[2] == 0xff;
  }

  /** A later packet whose counter follows adds its payload to the buffer. */
  lemma LaterPacket(a: Assembler, counter: byte, chunk: seq<byte>)
    requires a.pid <= MAX_PID && a.expecting && NextCounter(a.lastCounter) == counter & 0x0f && 0 < |chunk| <= 184
    ensures Feed(a, PacketOf(a.pid, false, counter, chunk))
         == Complete(a.(lastCounter := counter & 0x0f, buffer := a.buffer + (chunk + Padding(184 - |chunk|))))
  {
    hide NextCounter, Relevant, UnitStart, Counter, Payload, PacketOf, Complete;
    PacketReadsBack(a.pid, false, counter, chunk);
    assert [] + chunk + Padding(184 - |chunk|) == chunk + Padding(184 - |chunk|);
  }

  lemma PacketizeLater(pid: uint16, s: Section, n: nat, counter: byte)
    requires n < |s|
    ensures var chunk := Take(s[n..], 184);
            && 0 < |chunk| <= 184 && n + |chunk| <= |s| && s[..n] + chunk == s[..n + |chunk|]
            && (n + |chunk| < |s| ==> |chunk| == 184)
            && Packetize(pid, s[n..], counter, false).packets
               == [PacketOf(pid, false, counter, chunk)] + Packetize(pid, s[n + |chunk|..], NextCounter(counter), false).packets
  {
    hide PacketOf, NextCounter;
    var chunk := Take(s[n..], 184);
    assert s[n..][|chunk|..] == s[n + |chunk|..];
  }

  /** Later packets of a section that has begun complete it. */
  lemma {:induction false} LaterPackets(a: Assembler, s: Section, n: nat, counter: byte)
    requires |s| >= 3 && |s| == Total(s) && 3 <= n < |s| && a.pid <= MAX_PID
    requires a.buffer == s[..n] && a.expecting && NextCounter(a.lastCounter) == counter & 0x0f
    ensures var fed := FeedMany(a, Packetize(a.pid, s[n..], counter, false).packets);
            fed.sections == Accepted(s) && fed.next.pid == a.pid
    decreases |s| - n
  {
    hide LengthField, ValidCrc, NextCounter, PacketOf, Feed, FeedMany, Take, Packetize, Complete;
    PacketizeLater(a.pid, s, n, counter);
    var chunk := Take(s[n..], 184);
    var k := 184 - |chunk|;
    var m := n + |chunk|;
    LaterPacket(a, counter, chunk);
    var a1 := a.(lastCounter := counter & 0x0f, buffer := a.buffer + (chunk + Padding(k)));
    OnePacket(a, PacketOf(a.pid, false, counter, chunk), Packetize(a.pid, s[m..], NextCounter(counter), false).packets);
    if m == |s| {
      assert a1.buffer == s + Padding(k) && s[m..] == [];
      CompleteWhole(a1, s, k);
      NoMorePackets(Complete(a1).next, NextCounter(counter));
    } else {
      assert a1.buffer == s[..m];
      TotalPrefix(s, a1.buffer);
      CompletePart(a1);
      CounterSteps(counter);
      LaterPackets(a1, s, m, NextCounter(counter));
    }
  }

  lemma OnePacket(a: Assembler, p: Packet, rest: seq<Packet>)
    ensures var first := Feed(a, p);
            var later := FeedMany(first.next, rest);
            FeedMany(a, [p] + rest) == later.(sections := first.sections + later.sections)
  {
    assert ([p] + rest)[1..] == rest;
  }

  /** Without a section that has begun, later packets do nothing. */
  lemma {:induction false} StrayPackets(a: Assembler, remaining: seq<byte>, counter: byte)
    requires a.pid <= MAX_PID && !a.expecting
    ensures var fed := FeedMany(a, Packetize(a.pid, remaining, counter, false).packets);
            fed.sections == [] && fed.next.pid == a.pid
    decreases |remaining|
  {
    hide NextCounter, Relevant, UnitStart, Counter, Payload, PacketOf;
    if remaining != [] {
      var chunk := Take(remaining, 184);
      var p := PacketOf(a.pid, false, counter, chunk);
      PacketReadsBack(a.pid, false, counter, chunk);
      var rest := Packetize(a.pid, remaining[|chunk|..], NextCounter(counter), false);
      OnePacket(a, p, rest.packets);
      StrayPackets(a.(lastCounter := Counter(p)), remaining[|chunk|..], NextCounter(counter));
    }
  }

  /** The first packet starts over, whatever the assembler held. */
  lemma FirstPacket(a: Assembler, counter: byte, chunk: seq<byte>)
    requires a.pid <= MAX_PID && |chunk| <= 183
    ensures Feed(a, PacketOf(a.pid, true, counter, chunk))
         == Consume(Assembler(a.pid, [], counter & 0x0f, false), chunk + Padding(183 - |chunk|))
  {
    hide NextCounter, Relevant, UnitStart, Counter, Payload, PacketOf, Consume, Complete;
    var p := PacketOf(a.pid, true, counter, chunk);
    PacketReadsBack(a.pid, true, counter, chunk);
    assert Payload(p)[0] == 0 && Payload(p)[1..] == chunk + Padding(183 - |chunk|);
    var a1 := Resync(a, Counter(p));
    assert Reset(a1) == Assembler(a.pid, [], counter & 0x0f, false);
    var fed := Consume(Reset(a1), Payload(p)[1..]);
    assert Payload(p)[1..][0..] == Payload(p)[1..] && Ending(a1, Payload(p)[1..][..0]) == [];
    assert [] + fed.sections == fed.sections;
  }

  /** What arrives: a section with table_id 0xff is stuffing, and a bad CRC is dropped. */
  function Delivered(s: Section): seq<Section> {
    if |s| > 0 && s[0] == 0xff then [] else Accepted(s)
  }

  /** Packetizing a section and assembling it again gives the section back, from any state of the assembler. */
  lemma SectionRoundTrip(a: Assembler, s: Section, counter: byte)
    requires a.pid <= MAX_PID && |s| >= 3 && |s| == Total(s)
    ensures var fed := FeedMany(a, Packetize(a.pid, s, counter, true).packets);
            fed.sections == Delivered(s) && fed.next.pid == a.pid
  {
    hide LengthField, ValidCrc, NextCounter, PacketOf, Consume, Feed, FeedMany;
    var chunk := Take(s, 183);
    var p := PacketOf(a.pid, true, counter, chunk);
    FirstPacket(a, counter, chunk);
    var rest := Packetize(a.pid, s[|chunk|..], NextCounter(counter), false);
    assert Packetize(a.pid, s, counter, true).packets == [p] + rest.packets;
    OnePacket(a, p, rest.packets);
    var a0 := Assembler(a.pid, [], counter & 0x0f, false);
    if s[0] == 0xff {
      ConsumeStuffing(a0, chunk + Padding(183 - |chunk|));
      StrayPackets(a0, s[|chunk|..], NextCounter(counter));
    } else if |s| <= 183 {
      ConsumeWhole(a0, s, 183 - |s|);
      NoMorePackets(a0, NextCounter(counter));
      assert s[|chunk|..] == [];
    } else {
      assert chunk + Padding(0) == chunk;
      TotalPrefix(s, chunk);
      ConsumePart(a0, chunk);
      CounterSteps(counter);
      LaterPackets(a0.(buffer := chunk, expecting := true), s, 183, NextCounter(counter));
    }
  }

  lemma ConsumeStuffing(a: Assembler, payload: seq<byte>)
    requires |payload| > 0 && payload[0] == 0xff
    ensures Consume(a, payload) == Fed(a, [])
  {
  }

  lemma ConsumePart(a: Assembler, payload: seq<byte>)
    requires 3 <= |payload| < Total(payload) && payload[0] != 0xff
    ensures Consume(a, payload) == Fed(a.(buffer := payload, expecting := true), [])
  {
  }

  lemma NoMorePackets(a: Assembler, counter: byte)
    ensures FeedMany(a, Packetize(a.pid, [], counter, false).packets) == Fed(a, [])
  {
  }

  // ----- streams of sections -----

  lemma {:induction false} FeedManyAppend(a: Assembler, ps: seq<Packet>, qs: seq<Packet>)
    ensures var first := FeedMany(a, ps);
            var later := FeedMany(first.next, qs);
            FeedMany(a, ps + qs) == later.(sections := first.sections + later.sections)
    decreases |ps|
  {
    hide Feed;
    if ps == [] {
      assert ps + qs == qs;
      var later := FeedMany(a, qs);
      assert [] + later.sections == later.sections;
    } else {
      var one := Feed(a, ps[0]);
      assert (ps + qs)[1..] == ps[1..] + qs;
      FeedManyAppend(one.next, ps[1..], qs);
      var first := FeedMany(one.next, ps[1..]);
      var later := FeedMany(first.next, qs);
      assert one.sections + (first.sections + later.sections) == (one.sections + first.sections) + later.sections;
    }
  }

  predicate WellFormed(s: Section) {
    |s| >= 3 && |s| == Total(s)
  }

  function DeliveredAll(sections: seq<Section>): seq<Section>
    decreases |sections|
  {
    if sections == [] then [] else Delivered(sections[0]) + DeliveredAll(sections[1..])
  }

  lemma {:induction false} StreamRoundTrip(a: Assembler, sections: seq<Section>, counter: byte)
    requires a.pid <= MAX_PID && forall s | s in sections :: WellFormed(s)
    ensures FeedMany(a, PacketizeAll(a.pid, sections, counter).packets).sections == DeliveredAll(sections)
    decreases |sections|
  {
    hide Feed, FeedMany, Packetize, Delivered;
    if sections == [] {
      NothingFed(a);
    } else {
      var s := sections[0];
      assert WellFormed(s);
      SectionRoundTrip(a, s, counter);
      var first := Packetize(a.pid, s, counter, true);
      var rest := PacketizeAll(a.pid, sections[1..], first.counter);
      FeedManyAppend(a, first.packets, rest.packets);
      StreamRoundTrip(FeedMany(a, first.packets).next, sections[1..], first.counter);
    }
  }

  lemma NothingFed(a: Assembler)
    ensures FeedMany(a, []) == Fed(a, [])
  {
  }

  /** The packets of a multiplex that the assembler of one PID looks at, in order. */
  function Selected(pid: uint16, ps: seq<Packet>): seq<Packet>
    decreases |ps|
  {
    if ps == [] then [] else (if Relevant(pid, ps[0]) then [ps[0]] else []) + Selected(pid, ps[1..])
  }

  lemma FeedKeepsPid(a: Assembler, p: Packet)
    ensures Feed(a, p).next.pid == a.pid
  {
    if Relevant(a.pid, p) {
      var a1 := Resync(a, Counter(p));
      var payload := Payload(p);
      CompleteKeepsPid(a1.(buffer := a1.buffer + payload));
      if UnitStart(p) && payload[0] as nat <= |payload| - 1 { ConsumeKeepsPid(Reset(a1), payload[1..][payload[0] as nat..]); }
    }
  }

  lemma CompleteKeepsPid(a: Assembler)
    ensures Complete(a).next.pid == a.pid
    decreases |a.buffer|
  {
    if |a.buffer| >= 3 && |a.buffer| >= Total(a.buffer) { CompleteKeepsPid(a.(buffer := a.buffer[Total(a.buffer)..])); }
  }

  lemma ConsumeKeepsPid(a: Assembler, payload: seq<byte>)
    ensures Consume(a, payload).next.pid == a.pid
    decreases |payload|
  {
    if |payload| >= 3 && |payload| >= Total(payload) { ConsumeKeepsPid(a, payload[Total(payload)..]); }
  }

  predicate AllValid(sections: seq<Section>) {
    forall s | s in sections :: ValidCrc(s)
  }

  lemma {:induction false} ConsumeValid(a: Assembler, payload: seq<byte>)
    ensures AllValid(Consume(a, payload).sections)
    decreases |payload|
  {
    hide ValidCrc, LengthField;
    if |payload| >= 3 && |payload| >= Total(payload) { ConsumeValid(a, payload[Total(payload)..]); }
  }

  lemma {:induction false} CompleteValid(a: Assembler)
    ensures AllValid(Complete(a).sections)
    decreases |a.buffer|
  {
    hide ValidCrc, LengthField;
    if |a.buffer| >= 3 && |a.buffer| >= Total(a.buffer) { CompleteValid(a.(buffer := a.buffer[Total(a.buffer)..])); }
  }

  /** Whatever packets arrive, a section is handed on only if its CRC is right. */
  lemma FeedDeliversValid(a: Assembler, p: Packet)
    ensures AllValid(Feed(a, p).sections)
  {
    hide ValidCrc, Consume, Complete;
    if Relevant(a.pid, p) {
      var a1 := Resync(a, Counter(p));
      var payload := Payload(p);
      CompleteValid(a1.(buffer := a1.buffer + payload));
      if UnitStart(p) && payload[0] as nat <= |payload| - 1 {
        CompleteValid(a1.(buffer := a1.buffer + payload[1..][..payload[0] as nat]));
        ConsumeValid(Reset(a1), payload[1..][payload[0] as nat..]);
      }
    }
  }

  /** Packets of other PIDs, damaged packets and packets without payload change nothing. */
  lemma {:induction false} OthersChangeNothing(a: Assembler, ps: seq<Packet>)
    ensures FeedMany(a, ps) == FeedMany(a, Selected(a.pid, ps))
    decreases |ps|
  {
    hide Relevant;
    if ps != [] {
      FeedKeepsPid(a, ps[0]);
      OthersChangeNothing(Feed(a, ps[0]).next, ps[1..]);
      if Relevant(a.pid, ps[0]) {
        assert Selected(a.pid, ps) == [ps[0]] + Selected(a.pid, ps[1..]);
        OnePacket(a, ps[0], Selected(a.pid, ps[1..]));
      } else {
        SkipPacket(a, ps);
        assert Selected(a.pid, ps) == Selected(a.pid, ps[1..]);
      }
    }
  }

  lemma SkipPacket(a: Assembler, ps: seq<Packet>)
    requires ps != [] && !Relevant(a.pid, ps[0])
    ensures Feed(a, ps[0]) == Fed(a, []) && FeedMany(a, ps) == FeedMany(a, ps[1..])
  {
    var rest := FeedMany(a, ps[1..]);
    assert [] + rest.sections == rest.sections;
  }

  /**
   End to end: if the packets of one PID in a multiplex are the packetized
   sections, then exactly those sections arrive, in order, from any prior state.
   */
  lemma MultiplexRoundTrip(a: Assembler, stream: seq<Packet>, sections: seq<Section>, counter: byte)
    requires a.pid <= MAX_PID && forall s | s in sections :: WellFormed(s)
    requires Selected(a.pid, stream) == PacketizeAll(a.pid, sections, counter).packets
    ensures FeedMany(a, stream).sections == DeliveredAll(sections)
  {
    OthersChangeNothing(a, stream);
    StreamRoundTrip(a, sections, counter);
  }
}
