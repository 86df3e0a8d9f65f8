/**
 Sections as a broadcaster may pack them: a packet can end one section, hold any number of
 whole ones and begin another.  Every such packing is assembled back, and losing a packet
 of a packetized stream costs its section and no other.
 */
module SectionStreams {
  import opened Crc
  import opened Packets
  import opened Sections

  // ----- packing -----

  /** What the receiver has of a section whose end is still to come. */
  datatype Hold = Nothing | Part(section: Section, held: nat)

  /** What one packet carries of what is to come. */
  datatype Piece =
    | More(len: nat)
    | Ends(padding: nat)
    | Starts(whole: seq<Section>, next: Hold, padding: nat)

  predicate HoldOk(h: Hold) {
    h.Part? ==> WellFormed(h.section) && 3 <= h.held < |h.section|
  }

  /** A section that is not taken for stuffing. */
  predicate Packable(s: Section) {
    WellFormed(s) && s[0] != 0xff
  }

  /** A section begins with at least its first three bytes in one packet, and its end is in reach of the pointer. */
  predicate PieceOk(h: Hold, piece: Piece)
    requires HoldOk(h)
  {
    match piece
    case More(len) => h.Part? && 0 < len && h.held + len < |h.section|
    case Ends(padding) => h.Part? && padding < 4098
    case Starts(whole, next, padding) =>
      && (forall s | s in whole :: Packable(s))
      && HoldOk(next) && (next.Part? ==> Packable(next.section) && padding == 0)
      && |Tail(h)| < 256
  }

  function Tail(h: Hold): seq<byte>
    requires HoldOk(h)
  {
    if h.Part? then h.section[h.held..] else []
  }

  function Head(h: Hold): seq<byte>
    requires HoldOk(h)
  {
    if h.Part? then h.section[..h.held] else []
  }

  function Flat(sections: seq<Section>): seq<byte>
    decreases |sections|
  {
    if sections == [] then [] else sections[0] + Flat(sections[1..])
  }

  function PieceBytes(h: Hold, piece: Piece): seq<byte>
    requires HoldOk(h) && PieceOk(h, piece)
  {
    match piece
    case More(len) => h.section[h.held..h.held + len]
    case Ends(padding) => Tail(h) + Padding(padding)
    case Starts(whole, next, padding) => [|Tail(h)| as byte] + Tail(h) + (Flat(whole) + Head(next) + Padding(padding))
  }

  function After(h: Hold, piece: Piece): (next: Hold)
    requires HoldOk(h) && PieceOk(h, piece)
    ensures HoldOk(next)
  {
    match piece
    case More(len) => Part(h.section, h.held + len)
    case Ends(_) => Nothing
    case Starts(_, next, _) => next
  }

  /** The sections that the packet completes. */
  function Done(h: Hold, piece: Piece): seq<Section>
    requires HoldOk(h) && PieceOk(h, piece)
  {
    match piece
    case More(_) => []
    case Ends(_) => [h.section]
    case Starts(whole, _, _) => (if h.Part? then [h.section] else []) + whole
  }

  /** The sections with a right CRC, in order. */
  function Valid(sections: seq<Section>): seq<Section>
    decreases |sections|
  {
    if sections == [] then [] else (if ValidCrc(sections[0]) then [sections[0]] else []) + Valid(sections[1..])
  }

  lemma ValidFirst(s: Section, rest: seq<Section>)
    ensures Valid([s] + rest) == Accepted(s) + Valid(rest)
  {
    hide ValidCrc;
    assert ([s] + rest)[1..] == rest;
  }

  lemma {:induction false} ValidAppend(a: seq<Section>, b: seq<Section>)
    ensures Valid(a + b) == Valid(a) + Valid(b)
    decreases |a|
  {
    if a == [] {
      assert a + b == b;
    } else {
      ValidAppend(a[1..], b);
      ValidFirst(a[0], a[1..] + b);
      ValidFirst(a[0], a[1..]);
      hide Valid, Accepted;
      var one, rest, more := Accepted(a[0]), Valid(a[1..]), Valid(b);
      assert [a[0]] + (a[1..] + b) == a + b;
      assert [a[0]] + a[1..] == a;
      assert one + (rest + more) == (one + rest) + more;
    }
  }

  lemma ValidOne(s: Section)
    ensures Valid([s]) == Accepted(s)
  {
    hide ValidCrc;
    assert [s][1..] == [];
  }

  predicate Carries(pid: uint16, last: byte, h: Hold, piece: Piece, p: Packet)
    requires HoldOk(h) && PieceOk(h, piece)
  {
    Relevant(pid, p) && Counter(p) == NextCounter(last) && (UnitStart(p) <==> piece.Starts?) && Payload(p) == PieceBytes(h, piece)
  }

  predicate Has(a: Assembler, h: Hold)
    requires HoldOk(h)
  {
    h.Part? ==> a.expecting && a.buffer == h.section[..h.held]
  }

  // ----- one packet -----

  lemma ConsumeNext(a: Assembler, s: Section, later: seq<byte>)
    requires Packable(s)
    ensures Consume(a, s + later) == var fed := Consume(a, later); fed.(sections := Accepted(s) + fed.sections)
  {
    hide LengthField, ValidCrc;
    var payload := s + later;
    TotalPrefix(s, payload);
    assert payload[..Total(payload)] == s && payload[Total(payload)..] == later;
  }

  /** Whole sections in a row are taken out one by one. */
  lemma {:induction false} ConsumeFlat(a: Assembler, sections: seq<Section>, rest: seq<byte>)
    requires forall s | s in sections :: Packable(s)
    ensures Consume(a, Flat(sections) + rest)
         == var fed := Consume(a, rest); fed.(sections := Valid(sections) + fed.sections)
    decreases |sections|
  {
    hide Packable, Consume, Accepted;
    var fed := Consume(a, rest);
    if sections == [] {
      assert Flat(sections) + rest == rest && Valid(sections) + fed.sections == fed.sections;
    } else {
      var s, later := sections[0], sections[1..];
      ConsumeFlat(a, later, rest);
      ConsumeNext(a, s, Flat(later) + rest);
      ValidFirst(s, later);
      hide Valid;
      assert [s] + later == sections;
      assert Flat(sections) + rest == s + (Flat(later) + rest);
      assert Accepted(s) + (Valid(later) + fed.sections) == Valid(sections) + fed.sections;
    }
  }

  /** What follows the last whole section: the head of another one, or padding. */
  lemma ConsumeHead(a: Assembler, h: Hold, padding: nat)
    requires HoldOk(h) && (h.Part? ==> Packable(h.section) && padding == 0)
    ensures var fed := Consume(a, Head(h) + Padding(padding));
            fed.sections == [] && fed.next.lastCounter == a.lastCounter && fed.next.pid == a.pid && Has(fed.next, h)
  {
    hide LengthField, ValidCrc;
    if h.Part? {
      assert Head(h) + Padding(0) == Head(h);
      TotalPrefix(h.section, Head(h));
      ConsumePart(a, Head(h));
    } else {
      assert [] + Padding(padding) == Padding(padding);
      ConsumePadding(a, padding);
    }
  }

  lemma EndingIs(a: Assembler, h: Hold)
    requires HoldOk(h) && Has(a, h)
    ensures Ending(a, Tail(h)) == if h.Part? then Accepted(h.section) else []
  {
    hide LengthField, ValidCrc, Complete;
    if h.Part? {
      var b := a.(buffer := a.buffer + Tail(h));
      assert b.buffer == h.section + Padding(0);
      CompleteWhole(b, h.section, 0);
    }
  }

  lemma StartsFed(a: Assembler, h: Hold, piece: Piece)
    requires HoldOk(h) && PieceOk(h, piece) && piece.Starts? && Has(a, h)
    ensures var fed := StartUnit(a, PieceBytes(h, piece));
            && fed.sections == Valid(Done(h, piece))
            && fed.next.lastCounter == a.lastCounter && fed.next.pid == a.pid && Has(fed.next, piece.next)
  {
    hide LengthField, ValidCrc, Consume, Ending, WellFormed, Padding, Head, Flat;
    var tail, end := Tail(h), Head(piece.next) + Padding(piece.padding);
    var unit := PieceBytes(h, piece);
    ByteOf(|tail|);
    assert Flat(piece.whole) + Head(piece.next) + Padding(piece.padding) == Flat(piece.whole) + end;
    assert unit[1..] == tail + (Flat(piece.whole) + end);
    assert unit[1..][..|tail|] == tail && unit[1..][|tail|..] == Flat(piece.whole) + end;
    EndingIs(a, h);
    ConsumeFlat(Reset(a), piece.whole, end);
    ConsumeHead(Reset(a), piece.next, piece.padding);
    var first: seq<Section> := if h.Part? then [h.section] else [];
    ValidAppend(first, piece.whole);
    if h.Part? { ValidOne(h.section); }
    var fed := Consume(Reset(a), end);
    assert Ending(a, tail) + (Valid(piece.whole) + fed.sections) == Valid(first) + Valid(piece.whole);
  }

  lemma ContinuesFed(a: Assembler, h: Hold, piece: Piece)
    requires HoldOk(h) && PieceOk(h, piece) && !piece.Starts? && Has(a, h)
    ensures var fed := Complete(a.(buffer := a.buffer + PieceBytes(h, piece)));
            && fed.sections == Valid(Done(h, piece))
            && fed.next.pid == a.pid && Has(fed.next, After(h, piece))
  {
    hide LengthField, ValidCrc, Complete;
    var b := a.(buffer := a.buffer + PieceBytes(h, piece));
    if piece.More? {
      assert b.buffer == h.section[..h.held + piece.len];
      TotalPrefix(h.section, b.buffer);
      CompletePart(b);
    } else {
      assert b.buffer == h.section + Padding(piece.padding);
      CompleteWhole(b, h.section, piece.padding);
      ValidOne(h.section);
    }
  }

  lemma {:induction false} CompleteKeepsCounter(a: Assembler)
    ensures Complete(a).next.lastCounter == a.lastCounter
    decreases |a.buffer|
  {
    hide ValidCrc, LengthField;
    if |a.buffer| >= 3 && |a.buffer| >= Total(a.buffer) { CompleteKeepsCounter(a.(buffer := a.buffer[Total(a.buffer)..])); }
  }

  lemma {:induction false} ConsumeKeepsCounter(a: Assembler, payload: seq<byte>)
    ensures Consume(a, payload).next.lastCounter == a.lastCounter
    decreases |payload|
  {
    hide ValidCrc, LengthField;
    if |payload| >= 3 && |payload| >= Total(payload) { ConsumeKeepsCounter(a, payload[Total(payload)..]); }
  }

  /** After a packet of its PID, the assembler's counter is that packet's. */
  lemma FeedTakesCounter(a: Assembler, p: Packet)
    requires Relevant(a.pid, p)
    ensures Sections.Feed(a, p).next.lastCounter == Counter(p)
  {
    hide Consume, Complete, Relevant, Counter, NextCounter;
    var a1 := Resync(a, Counter(p));
    var payload := Payload(p);
    RelevantHasPayload(a.pid, p);
    CompleteKeepsCounter(a1.(buffer := a1.buffer + payload));
    if UnitStart(p) && payload[0] as nat <= |payload| - 1 { ConsumeKeepsCounter(Reset(a1), payload[1..][payload[0] as nat..]); }
  }

  lemma RelevantHasPayload(pid: uint16, p: Packet)
    requires Relevant(pid, p)
    ensures Payload(p) != []
  {
  }

  /** One packet of a packing gives the sections that it completes, and leaves what it begins. */
  lemma PieceFed(a: Assembler, h: Hold, piece: Piece, p: Packet)
    requires HoldOk(h) && PieceOk(h, piece) && Has(a, h) && Carries(a.pid, a.lastCounter, h, piece, p)
    ensures var fed := Sections.Feed(a, p);
            && fed.sections == Valid(Done(h, piece)) && Has(fed.next, After(h, piece))
            && fed.next.pid == a.pid && fed.next.lastCounter == Counter(p)
  {
    hide Consume, Complete, Relevant, Counter, NextCounter, StartUnit, PieceBytes, Valid;
    FeedTakesCounter(a, p);
    FeedKeepsPid(a, p);
    RelevantHasPayload(a.pid, p);
    var a1 := Resync(a, Counter(p));
    assert Has(a1, h);
    if piece.Starts? { StartsFed(a1, h, piece); } else { ContinuesFed(a1, h, piece); }
  }

  // ----- a whole stream -----

  /** The packets carry these pieces one after the other, with counters that follow. */
  predicate IsPacking(pid: uint16, last: byte, h: Hold, pieces: seq<Piece>, ps: seq<Packet>)
    requires HoldOk(h)
    decreases |pieces|
  {
    if pieces == [] then ps == []
    else
      && ps != [] && PieceOk(h, pieces[0]) && Carries(pid, last, h, pieces[0], ps[0])
      && IsPacking(pid, NextCounter(last), After(h, pieces[0]), pieces[1..], ps[1..])
  }

  function DoneAll(pid: uint16, last: byte, h: Hold, pieces: seq<Piece>, ps: seq<Packet>): seq<Section>
    requires HoldOk(h) && IsPacking(pid, last, h, pieces, ps)
    decreases |pieces|
  {
    if pieces == [] then []
    else Done(h, pieces[0]) + DoneAll(pid, NextCounter(last), After(h, pieces[0]), pieces[1..], ps[1..])
  }

  lemma {:induction false} PackingFed(a: Assembler, h: Hold, pieces: seq<Piece>, ps: seq<Packet>)
    requires HoldOk(h) && Has(a, h) && IsPacking(a.pid, a.lastCounter, h, pieces, ps)
    ensures FeedMany(a, ps).sections == Valid(DoneAll(a.pid, a.lastCounter, h, pieces, ps))
    decreases |pieces|
  {
    hide Sections.Feed, Has, After, Done, PieceOk, HoldOk;
    if pieces != [] {
      hide Relevant, Counter, PieceBytes, NextCounter;
      PieceFed(a, h, pieces[0], ps[0]);
      var next := Sections.Feed(a, ps[0]).next;
      PackingFed(next, After(h, pieces[0]), pieces[1..], ps[1..]);
      ValidAppend(Done(h, pieces[0]), DoneAll(a.pid, NextCounter(a.lastCounter), After(h, pieces[0]), pieces[1..], ps[1..]));
    }
  }

  /**
   However sections are packed, as long as none is cut within its first three bytes: in
   any multiplex the assembler delivers every section that the packets of its PID
   complete, in order, unless its CRC is wrong.
   */
  lemma PackedRoundTrip(a: Assembler, stream: seq<Packet>, pieces: seq<Piece>)
    requires IsPacking(a.pid, a.lastCounter, Nothing, pieces, Selected(a.pid, stream))
    ensures FeedMany(a, stream).sections == Valid(DoneAll(a.pid, a.lastCounter, Nothing, pieces, Selected(a.pid, stream)))
  {
    hide FeedMany, IsPacking, DoneAll, Valid;
    OthersChangeNothing(a, stream);
    PackingFed(a, Nothing, pieces, Selected(a.pid, stream));
  }

  // ----- a section cut within its first three bytes -----

  lemma {:induction false} NothingExpected(a: Assembler, ps: seq<Packet>)
    requires !a.expecting && forall p | p in ps :: !UnitStart(p)
    ensures FeedMany(a, ps).sections == []
    decreases |ps|
  {
    hide Relevant, UnitStart, Counter, Payload, NextCounter;
    if ps != [] { NothingExpected(Sections.Feed(a, ps[0]).next, ps[1..]); }
  }

  /**
   A section of which only the first one or two bytes fit into the packet that points at
   it is lost: the assembler drops them, and ignores all packets up to the next that
   points at a section.
   */
  lemma CutHeaderIsLost(a: Assembler, p: Packet, head: seq<byte>, later: seq<Packet>)
    requires Relevant(a.pid, p) && UnitStart(p) && Payload(p) == [0] + head && |head| < 3
    requires forall q | q in later :: !UnitStart(q)
    ensures FeedMany(a, [p] + later).sections == []
  {
    hide Relevant, UnitStart, Counter, NextCounter, FeedMany, Complete;
    var a1 := Resync(a, Counter(p));
    assert Payload(p)[0] == 0 && Payload(p)[1..] == head && head[0..] == head;
    assert Sections.Feed(a, p).sections == [] && !Sections.Feed(a, p).next.expecting;
    OnePacket(a, p, later);
    NothingExpected(Sections.Feed(a, p).next, later);
  }

  // ----- a lost packet -----

  /** The packet does not follow what the assembler has. */
  predicate Breaks(a: Assembler, counter: byte) {
    a.expecting ==> counter & 0x0f != NextCounter(a.lastCounter)
  }

  /** Later packets of a section without those before do nothing. */
  lemma LaterAlone(a: Assembler, remaining: seq<byte>, counter: byte)
    requires a.pid <= MAX_PID && Breaks(a, counter)
    ensures var fed := FeedMany(a, Packetize(a.pid, remaining, counter, false).packets);
            fed.sections == [] && fed.next.pid == a.pid
  {
    hide NextCounter, Relevant, UnitStart, Counter, Payload, PacketOf;
    if remaining != [] {
      var chunk := Take(remaining, 184);
      var p := PacketOf(a.pid, false, counter, chunk);
      PacketReadsBack(a.pid, false, counter, chunk);
      var rest := Packetize(a.pid, remaining[|chunk|..], NextCounter(counter), false);
      OnePacket(a, p, rest.packets);
      StrayPackets(Resync(a, Counter(p)), remaining[|chunk|..], NextCounter(counter));
    }
  }

  function Without(ps: seq<Packet>, k: nat): seq<Packet>
    requires k < |ps|
  {
    ps[..k] + ps[k + 1..]
  }

  lemma SkipsOne(counter: byte)
    ensures NextCounter(NextCounter(counter)) & 0x0f != NextCounter(counter & 0x0f)
    ensures NextCounter(counter) & 0x0f == NextCounter(counter) && NextCounter(counter) & 0x0f != counter & 0x0f
  {
  }

  /** One of the later packets of a section that has begun is lost. */
  lemma {:induction false} LaterLost(a: Assembler, s: Section, n: nat, counter: byte, k: nat)
    requires WellFormed(s) && 3 <= n < |s| && a.pid <= MAX_PID
    requires a.buffer == s[..n] && a.expecting && NextCounter(a.lastCounter) == counter & 0x0f
    requires k < |Packetize(a.pid, s[n..], counter, false).packets|
    ensures var fed := FeedMany(a, Without(Packetize(a.pid, s[n..], counter, false).packets, k));
            fed.sections == [] && fed.next.pid == a.pid
    decreases |s| - n
  {
    hide LengthField, ValidCrc, NextCounter, PacketOf, Sections.Feed, FeedMany, Take, Packetize, Complete;
    PacketizeLater(a.pid, s, n, counter);
    var chunk := Take(s[n..], 184);
    var m := n + |chunk|;
    var p, rest := PacketOf(a.pid, false, counter, chunk), Packetize(a.pid, s[m..], NextCounter(counter), false).packets;
    var ps := Packetize(a.pid, s[n..], counter, false).packets;
    if k == 0 {
      assert Without(ps, 0) == rest;
      SkipsOne(counter);
      LaterAlone(a, s[m..], NextCounter(counter));
    } else {
      assert Without(ps, k) == [p] + Without(rest, k - 1);
      SomethingLeft(a.pid, s[m..], NextCounter(counter));
      LaterPacket(a, counter, chunk);
      var a1 := a.(lastCounter := counter & 0x0f, buffer := a.buffer + (chunk + Padding(184 - |chunk|)));
      OnePacket(a, p, Without(rest, k - 1));
      assert s[m..] != [];
      assert a1.buffer == s[..m];
      TotalPrefix(s, a1.buffer);
      CompletePart(a1);
      CounterSteps(counter);
      LaterLost(a1, s, m, NextCounter(counter), k - 1);
    }
  }

  lemma SomethingLeft(pid: uint16, remaining: seq<byte>, counter: byte)
    requires Packetize(pid, remaining, counter, false).packets != []
    ensures remaining != []
  {
  }

  /** The packets of one section, one of them missing, deliver nothing. */
  lemma SectionLost(a: Assembler, s: Section, counter: byte, k: nat)
    requires a.pid <= MAX_PID && WellFormed(s) && (k == 0 ==> Breaks(a, NextCounter(counter)))
    requires k < |Packetize(a.pid, s, counter, true).packets|
    ensures var fed := FeedMany(a, Without(Packetize(a.pid, s, counter, true).packets, k));
            fed.sections == [] && fed.next.pid == a.pid
  {
    hide LengthField, ValidCrc, NextCounter, PacketOf, Consume, Sections.Feed, FeedMany;
    var chunk := Take(s, 183);
    var p := PacketOf(a.pid, true, counter, chunk);
    var rest := Packetize(a.pid, s[|chunk|..], NextCounter(counter), false).packets;
    var ps := Packetize(a.pid, s, counter, true).packets;
    assert ps == [p] + rest;
    if k == 0 {
      assert Without(ps, 0) == rest;
      LaterAlone(a, s[|chunk|..], NextCounter(counter));
    } else {
      assert Without(ps, k) == [p] + Without(rest, k - 1);
      FirstPacket(a, counter, chunk);
      OnePacket(a, p, Without(rest, k - 1));
      SomethingLeft(a.pid, s[|chunk|..], NextCounter(counter));
      var a0 := Assembler(a.pid, [], counter & 0x0f, false);
      assert s[|chunk|..] != [];
      if s[0] == 0xff {
        ConsumeStuffing(a0, chunk + Padding(183 - |chunk|));
        StrayLost(a0, s[|chunk|..], NextCounter(counter), k - 1);
      } else {
        assert chunk + Padding(0) == chunk;
        TotalPrefix(s, chunk);
        ConsumePart(a0, chunk);
        CounterSteps(counter);
        LaterLost(a0.(buffer := chunk, expecting := true), s, 183, NextCounter(counter), k - 1);
      }
    }
  }

  lemma {:induction false} StrayLost(a: Assembler, remaining: seq<byte>, counter: byte, k: nat)
    requires a.pid <= MAX_PID && !a.expecting && k < |Packetize(a.pid, remaining, counter, false).packets|
    ensures var fed := FeedMany(a, Without(Packetize(a.pid, remaining, counter, false).packets, k));
            fed.sections == [] && fed.next.pid == a.pid
    decreases |remaining|
  {
    hide NextCounter, Relevant, UnitStart, Counter, Payload, PacketOf, FeedMany;
    var chunk := Take(remaining, 184);
    var p := PacketOf(a.pid, false, counter, chunk);
    PacketReadsBack(a.pid, false, counter, chunk);
    var rest := Packetize(a.pid, remaining[|chunk|..], NextCounter(counter), false).packets;
    var ps := Packetize(a.pid, remaining, counter, false).packets;
    assert ps == [p] + rest;
    if k == 0 {
      assert Without(ps, 0) == rest;
      StrayPackets(a, remaining[|chunk|..], NextCounter(counter));
    } else {
      assert Without(ps, k) == [p] + Without(rest, k - 1);
      OnePacket(a, p, Without(rest, k - 1));
      StrayLost(a.(lastCounter := Counter(p)), remaining[|chunk|..], NextCounter(counter), k - 1);
    }
  }

  /** After its packets, the assembler's counter is the one before the next packet's. */
  lemma {:induction false} PacketsCount(a: Assembler, s: seq<byte>, counter: byte, first: bool)
    requires a.pid <= MAX_PID && (first || s != [])
    ensures var packed := Packetize(a.pid, s, counter, first);
            var next := FeedMany(a, packed.packets).next;
            next.pid == a.pid && NextCounter(next.lastCounter) == packed.counter & 0x0f
    decreases first, |s|
  {
    hide NextCounter, Relevant, UnitStart, Counter, Payload, PacketOf, Sections.Feed, FeedMany;
    var chunk := Take(s, Room(first));
    var p := PacketOf(a.pid, first, counter, chunk);
    PacketReadsBack(a.pid, first, counter, chunk);
    var rest := Packetize(a.pid, s[|chunk|..], NextCounter(counter), false);
    OnePacket(a, p, rest.packets);
    FeedTakesCounter(a, p);
    FeedKeepsPid(a, p);
    var next := Sections.Feed(a, p).next;
    if s[|chunk|..] == [] {
      NoMorePackets(next, NextCounter(counter));
      CounterSteps(counter);
      SkipsOne(counter);
    } else {
      PacketsCount(next, s[|chunk|..], NextCounter(counter), false);
    }
  }

  /** What arrives of a section whole, and of one that lost a packet. */
  lemma {:induction false} StreamBefore(a: Assembler, sections: seq<Section>, counter: byte)
    requires a.pid <= MAX_PID && forall s | s in sections :: WellFormed(s)
    ensures var packed := PacketizeAll(a.pid, sections, counter);
            var next := FeedMany(a, packed.packets).next;
            && next.pid == a.pid
            && if sections == [] then next == a else NextCounter(next.lastCounter) == packed.counter & 0x0f
    decreases |sections|
  {
    hide Sections.Feed, FeedMany, Packetize, NextCounter;
    if sections == [] {
      NothingFed(a);
    } else {
      assert WellFormed(sections[0]);
      PacketsCount(a, sections[0], counter, true);
      var first := Packetize(a.pid, sections[0], counter, true);
      var rest := PacketizeAll(a.pid, sections[1..], first.counter);
      FeedManyAppend(a, first.packets, rest.packets);
      StreamBefore(FeedMany(a, first.packets).next, sections[1..], first.counter);
    }
  }

  /** The packets of many sections, one packet of s missing. */
  function WithLoss(pid: uint16, before: seq<Section>, s: Section, later: seq<Section>, counter: byte, k: nat): seq<Packet>
    requires k < |Packetize(pid, s, PacketizeAll(pid, before, counter).counter, true).packets|
  {
    var first := PacketizeAll(pid, before, counter);
    var own := Packetize(pid, s, first.counter, true);
    first.packets + (Without(own.packets, k) + PacketizeAll(pid, later, own.counter).packets)
  }

  lemma LostIsBroken(a: Assembler, counter: byte)
    requires NextCounter(a.lastCounter) == counter & 0x0f
    ensures Breaks(a, NextCounter(counter))
  {
    SkipsOne(counter);
  }

  /**
   End to end, for an assembler that expects nothing: if any one packet of a stream of
   sections is lost, every section arrives but the one that the packet belonged to.
   */
  lemma LossCostsItsSection(a: Assembler, stream: seq<Packet>, before: seq<Section>, s: Section, later: seq<Section>, counter: byte, k: nat)
    requires a.pid <= MAX_PID && !a.expecting && WellFormed(s)
    requires (forall t | t in before :: WellFormed(t)) && (forall t | t in later :: WellFormed(t))
    requires k < |Packetize(a.pid, s, PacketizeAll(a.pid, before, counter).counter, true).packets|
    requires Selected(a.pid, stream) == WithLoss(a.pid, before, s, later, counter, k)
    ensures FeedMany(a, stream).sections == DeliveredAll(before) + DeliveredAll(later)
  {
    hide Sections.Feed, FeedMany, Packetize, PacketizeAll, NextCounter, WellFormed, Selected, Breaks;
    OthersChangeNothing(a, stream);
    var first := PacketizeAll(a.pid, before, counter);
    var own := Packetize(a.pid, s, first.counter, true);
    var rest := PacketizeAll(a.pid, later, own.counter).packets;
    StreamRoundTrip(a, before, counter);
    StreamBefore(a, before, counter);
    var a1 := FeedMany(a, first.packets).next;
    if before == [] { assert Breaks(a1, NextCounter(first.counter)) by { BreaksNothing(a1, NextCounter(first.counter)); } }
    else { LostIsBroken(a1, first.counter); }
    SectionLost(a1, s, first.counter, k);
    var a2 := FeedMany(a1, Without(own.packets, k)).next;
    StreamRoundTrip(a2, later, own.counter);
    FeedManyAppend(a1, Without(own.packets, k), rest);
    FeedManyAppend(a, first.packets, Without(own.packets, k) + rest);
    assert [] + DeliveredAll(later) == DeliveredAll(later);
  }

  lemma BreaksNothing(a: Assembler, counter: byte)
    requires !a.expecting
    ensures Breaks(a, counter)
  {
  }
}
