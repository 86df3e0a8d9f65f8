/**
 The loops of ts/section.go and ts/demux.go: SectionAssembler on its own fields and
 packetizeSection on freshly filled arrays, each against its function in Sections.
 */
module SectionAssembly {
  import opened Crc
  import opened Packets
  import opened Sections

  /** ValidateCRC on a section whose bytes are all there. */
  method ValidateCrc(table: array<bv32>, s: Section) returns (ok: bool)
    requires IsTable(table[..])
    ensures ok <==> ValidCrc(s)
  {
    hide IsTable, Register, TableCrc, LengthField;
    if |s| < 4 || Total(s) > |s| {
      return false;
    }
    var crc := Crc32(table, s[..Total(s)]);
    TableCrcIsRegister(INITIAL, s[..Total(s)]);
    ok := crc == 0;
  }

  method Accept(table: array<bv32>, sections: seq<Section>, s: Section) returns (more: seq<Section>)
    requires IsTable(table[..])
    ensures more == sections + Accepted(s)
  {
    hide IsTable, ValidCrc;
    var ok := ValidateCrc(table, s);
    more := if ok then sections + [s] else sections;
  }

  function Prepend(sections: seq<Section>, fed: Fed): Fed {
    fed.(sections := sections + fed.sections)
  }

  lemma CompleteStep(a: Assembler, sections: seq<Section>)
    ensures Prepend(sections, Complete(a)) ==
            if |a.buffer| < 3 then Fed(if a.buffer == [] then a.(expecting := false) else a, sections)
            else if |a.buffer| < Total(a.buffer) then Fed(a.(expecting := true), sections)
            else Prepend(sections + Accepted(a.buffer[..Total(a.buffer)]), Complete(a.(buffer := a.buffer[Total(a.buffer)..])))
  {
    hide LengthField, ValidCrc;
    if |a.buffer| >= 3 && |a.buffer| >= Total(a.buffer) {
      var rest := Complete(a.(buffer := a.buffer[Total(a.buffer)..]));
      var one := Accepted(a.buffer[..Total(a.buffer)]);
      assert Complete(a).sections == one + rest.sections;
      assert sections + (one + rest.sections) == (sections + one) + rest.sections;
    }
  }

  class SectionAssembler {
    const pid: uint16
    const table: array<bv32>
    var buffer: seq<byte>
    var lastCounter: byte
    var expecting: bool

    ghost predicate Valid()
      reads table
    {
      IsTable(table[..])
    }

    ghost function State(): Assembler
      reads this
    {
      Assembler(pid, buffer, lastCounter, expecting)
    }

    constructor (pid: uint16, table: array<bv32>)
      requires IsTable(table[..])
      ensures Valid() && this.table == table
      ensures State() == Assembler(pid, [], 0, false)
    {
      this.pid := pid;
      this.table := table;
      buffer, lastCounter, expecting := [], 0, false;
    }

    method ConsumePayload(payload: seq<byte>) returns (sections: seq<Section>)
      requires Valid()
      modifies this
      ensures Fed(State(), sections) == Consume(old(State()), payload)
    {
      hide LengthField, ValidCrc, IsTable;
      ghost var start := State();
      sections := [];
      var rest := payload;
      while |rest| >= 3 && rest[0] != 0xff
        invariant State() == start
        invariant Fed(Consume(start, rest).next, sections + Consume(start, rest).sections) == Consume(start, payload)
        decreases |rest|
      {
        var total := Total(rest);
        if |rest| < total {
          buffer := rest;
          expecting := true;
          return;
        }
        ghost var later := Consume(start, rest[total..]).sections;
        ghost var before := sections;
        assert Consume(start, rest).sections == Accepted(rest[..total]) + later;
        sections := Accept(table, sections, rest[..total]);
        assert sections + later == before + (Accepted(rest[..total]) + later);
        rest := rest[total..];
      }
    }

    method CompleteSections() returns (sections: seq<Section>)
      requires Valid()
      modifies this
      ensures Fed(State(), sections) == Complete(old(State()))
    {
      hide Complete, Total, IsTable;
      ghost var start := State();
      sections := [];
      while |buffer| >= 3
        invariant Prepend(sections, Complete(State())) == Complete(start)
        decreases |buffer|
      {
        CompleteStep(State(), sections);
        var total := Total(buffer);
        if |buffer| < total {
          expecting := true;
          return;
        }
        sections := Accept(table, sections, buffer[..total]);
        buffer := buffer[total..];
        if |buffer| == 0 {
          break;
        }
      }
      CompleteStep(State(), sections);
      if |buffer| == 0 {
        expecting := false;
      }
    }

    method FeedAll(p: Packet) returns (sections: seq<Section>)
      requires Valid()
      modifies this
      ensures Fed(State(), sections) == Sections.Feed(old(State()), p)
    {
      hide Pid, TransportError, HasPayload, Payload, UnitStart, Counter, NextCounter, Consume, Complete, IsTable;
      if Pid(p) != pid || TransportError(p) || !HasPayload(p) {
        return [];
      }
      var payload := Payload(p);
      if |payload| == 0 {
        return [];
      }
      var counter := Counter(p);
      if expecting && counter != NextCounter(lastCounter) {
        buffer, expecting := [], false;
      }
      lastCounter := counter;
      if UnitStart(p) {
        sections := StartUnit(payload);
        return;
      }
      if !expecting {
        return [];
      }
      buffer := buffer + payload;
      sections := CompleteSections();
    }

    /** What a packet that starts a section brings of the section before it. */
    method FinishPrevious(rest: seq<byte>) returns (sections: seq<Section>)
      requires Valid()
      modifies this
      ensures State().lastCounter == old(lastCounter)
      ensures sections == Sections.Ending(old(State()), rest)
    {
      hide Complete, IsTable;
      CompleteKeeps(State().(buffer := buffer + rest));
      sections := [];
      if |buffer| > 0 && |rest| > 0 {
        buffer := buffer + rest;
        sections := CompleteSections();
      }
    }

    /** The part of FeedAll for a packet in which a section starts. */
    method StartUnit(unit: seq<byte>) returns (sections: seq<Section>)
      requires Valid() && unit != []
      modifies this
      ensures Fed(State(), sections) == Sections.StartUnit(old(State()), unit)
    {
      hide Consume, Ending, IsTable;
      ghost var a := State();
      var pointer := unit[0] as nat;
      var payload := unit[1..];
      if pointer > |payload| {
        buffer, expecting := [], false;
        return [];
      }
      sections := FinishPrevious(payload[..pointer]);
      buffer, expecting := [], false;
      assert State() == Reset(a);
      var more := ConsumePayload(payload[pointer..]);
      sections := sections + more;
    }
  }

  lemma CompleteKeeps(a: Assembler)
    ensures Complete(a).next.pid == a.pid && Complete(a).next.lastCounter == a.lastCounter
    decreases |a.buffer|
  {
    hide LengthField;
    if |a.buffer| >= 3 && |a.buffer| >= Total(a.buffer) { CompleteKeeps(a.(buffer := a.buffer[Total(a.buffer)..])); }
  }

  // ----- the packetizer -----

  method Blank() returns (packet: array<byte>)
    ensures fresh(packet) && packet[..] == Padding(PACKET_SIZE)
  {
    packet := new byte[PACKET_SIZE];
    for i := 0 to packet.Length
      invariant forall j | 0 <= j < i :: packet[j] == 0xff
    {
      packet[i] := 0xff;
    }
  }

  /** The built-in copy: as much as fits. */
  method Copy(packet: array<byte>, offset: nat, source: seq<byte>) returns (n: nat)
    requires offset <= packet.Length
    modifies packet
    ensures n == (if packet.Length - offset < |source| then packet.Length - offset else |source|)
    ensures packet[..] == old(packet[..offset]) + source[..n] + old(packet[offset + n..])
  {
    n := if packet.Length - offset < |source| then packet.Length - offset else |source|;
    for i := 0 to n
      invariant packet[..offset] == old(packet[..offset]) && packet[offset + n..] == old(packet[offset + n..])
      invariant packet[offset..offset + i] == source[..i]
    {
      packet[offset + i] := source[i];
    }
    assert packet[..] == packet[..offset] + packet[offset..offset + n] + packet[offset + n..];
  }

  /** One turn of packetizeSection: a packet, and how much of the section went into it. */
  method FillPacket(pid: uint16, first: bool, counter: byte, remaining: seq<byte>) returns (packet: array<byte>, n: nat)
    requires pid <= MAX_PID
    ensures fresh(packet)
    ensures n <= |remaining| && remaining[..n] == Take(remaining, Room(first))
    ensures packet[..] == PacketOf(pid, first, counter, Take(remaining, Room(first)))
  {
    hide Header;
    packet := Blank();
    ghost var blank := packet[..];
    WriteHeader(packet, pid, first, counter);
    HeaderLength(pid, first, counter);
    assert packet[..] == Header(pid, first, counter) + blank[4..];
    var offset := 4;
    if first {
      packet[offset] := 0;
      offset := offset + 1;
    }
    assert packet[..offset] == Header(pid, first, counter) + (if first then [0] else []);
    assert packet[offset..] == blank[offset..];
    ghost var tail := packet[offset..];
    n := Copy(packet, offset, remaining);
    assert tail[n..] == Padding(Room(first) - n);
    assert Take(remaining, Room(first)) == remaining[..n];
  }

  lemma HeaderLength(pid: uint16, first: bool, counter: byte)
    ensures |Header(pid, first, counter)| == 4
  {
  }

  method WriteHeader(packet: array<byte>, pid: uint16, first: bool, counter: byte)
    requires packet.Length == PACKET_SIZE && pid <= MAX_PID
    modifies packet
    ensures packet[..] == Header(pid, first, counter) + old(packet[4..])
  {
    packet[0] := SYNC_BYTE;
    hide High, Low;
    packet[1] := High(pid);
    if first {
      packet[1] := packet[1] | 0x40;
    }
    NoFlag(High(pid));
    packet[2] := Low(pid);
    packet[3] := 0x10 | (counter & 0x0f);
  }

  lemma NoFlag(b: byte)
    ensures b | 0 == b
  {
  }

  function Behind(packets: seq<Packet>, later: Packetized): Packetized {
    later.(packets := packets + later.packets)
  }

  lemma PacketizeStep(packets: seq<Packet>, pid: uint16, remaining: seq<byte>, counter: byte, first: bool)
    ensures Behind(packets, Packetize(pid, remaining, counter, first)) ==
            if !first && remaining == [] then Packetized(packets, counter)
            else
              var chunk := Take(remaining, Room(first));
              Behind(packets + [PacketOf(pid, first, counter, chunk)],
                     Packetize(pid, remaining[|chunk|..], NextCounter(counter), false))
  {
    hide PacketOf, NextCounter;
    if first || remaining != [] {
      var chunk := Take(remaining, Room(first));
      var later := Packetize(pid, remaining[|chunk|..], NextCounter(counter), false);
      assert packets + ([PacketOf(pid, first, counter, chunk)] + later.packets)
          == (packets + [PacketOf(pid, first, counter, chunk)]) + later.packets;
    }
  }

  /** packetizeSection: the loop over what remains of the section. */
  method PacketizeSection(pid: uint16, section: Section, counter: byte) returns (packets: seq<Packet>, next: byte)
    requires pid <= MAX_PID
    ensures Packetized(packets, next) == Packetize(pid, section, counter, true)
  {
    hide PacketOf, NextCounter, Take, Packetize;
    packets, next := [], counter;
    var remaining := section;
    var first := true;
    assert [] + Packetize(pid, section, counter, true).packets == Packetize(pid, section, counter, true).packets;
    while first || |remaining| > 0
      invariant Behind(packets, Packetize(pid, remaining, next, first)) == Packetize(pid, section, counter, true)
      decreases first, |remaining|
    {
      PacketizeStep(packets, pid, remaining, next, first);
      var packet, n := FillPacket(pid, first, next, remaining);
      TakenLength(remaining, Room(first), n);
      packets := packets + [packet[..]];
      next := NextCounter(next);
      remaining := remaining[n..];
      first := false;
    }
    PacketizeStep(packets, pid, remaining, next, first);
  }

  lemma TakenLength(xs: seq<byte>, room: nat, n: nat)
    requires n <= |xs| && xs[..n] == Take(xs, room)
    ensures n == |Take(xs, room)| && (xs != [] && room > 0 ==> n > 0)
  {
    assert |xs[..n]| == n;
  }
}
