/**
 What one service view of ts/demux.go emits over every run of the demultiplexer:
 PAT packets count on without a gap, each assembles and parses to the one program
 of the service, and everything else is the input packet unchanged.
 */
module ServiceView {
  import opened Crc
  import opened Packets
  import opened Sections
  import opened Pat
  import opened Demux

  // ----- when samePAT is right -----

  /** Programs came and went, and all that went had PMT PID 0. */
  predicate ZeroSwap(a: Pat, b: Pat) {
    && a.streamId == b.streamId && a.version == b.version && a.networkPid == b.networkPid
    && |a.programs| == |b.programs|
    && (forall service | service in a.programs :: if service in b.programs then b.programs[service] == a.programs[service] else a.programs[service] == 0)
    && !(a.programs.Keys <= b.programs.Keys)
  }

  lemma SubsetOfSameSize<T>(a: set<T>, b: set<T>)
    requires a <= b && |a| == |b|
    ensures a == b
  {
    assert b == a + (b - a) && |b - a| == 0;
  }

  /** samePAT compares correctly, except for exactly this case. */
  lemma SamePatExactly(a: Pat, b: Pat)
    ensures SamePat(Some(a), b) <==> a == b || ZeroSwap(a, b)
    ensures !(a == b && ZeroSwap(a, b))
  {
    if SamePat(Some(a), b) && a.programs.Keys <= b.programs.Keys {
      assert |a.programs.Keys| == |a.programs| && |b.programs.Keys| == |b.programs|;
      SubsetOfSameSize(a.programs.Keys, b.programs.Keys);
      assert a.programs == b.programs;
    }
  }

  // ----- the invariant of the demultiplexer -----

  predicate SectionOk(t: TableSet, n: nat)
    requires n in t.sections
  {
    var s := t.sections[n];
    && n <= t.last && Countable(s) && Number(s) == n && Last(s) == t.last
    && Extension(s) == t.extension && Version(s[5]) == t.version
  }

  /** All collected sections belong to one version of one table, each under its own number. */
  predicate TableOk(t: TableSet) {
    forall n | n in t.sections :: SectionOk(t, n)
  }

  lemma AddKeepsTable(t: TableSet, s: Section)
    requires TableOk(t)
    ensures TableOk(Add(t, s).next)
  {
    hide Extension, Version, LengthField, CurrentNext;
    if Countable(s) {
      var next := WithSection(t, s);
      forall n | n in next.sections
        ensures SectionOk(next, n)
      {
        if n != Number(s) {
          assert n in t.sections && SameTable(t, s) && SectionOk(t, n);
        }
      }
    }
  }

  /** The numbers 0, 1, ..., last. */
  function UpTo(last: nat): (r: set<nat>)
    ensures |r| == last + 1
    ensures forall n: nat :: n in r <==> n <= last
  {
    if last == 0 then {0} else UpTo(last - 1) + {last}
  }

  /** add reports a table as ready exactly when every number up to the last has its section. */
  lemma ReadyExactly(t: TableSet)
    requires TableOk(t)
    ensures IsComplete(t) <==> forall n | 0 <= n <= t.last :: n in t.sections
  {
    var upTo := UpTo(t.last);
    forall n | n in t.sections
      ensures n in upTo
    {
      assert SectionOk(t, n);
    }
    if forall n | 0 <= n <= t.last :: n in t.sections {
      assert t.sections.Keys == upTo;
      assert |t.sections| == |t.sections.Keys|;
    }
  }

  predicate ProgramsMatch(d: Demuxer) {
    d.pat.Some? ==>
      && d.programs.Keys == d.pat.value.programs.Keys
      && forall service | service in d.programs :: d.programs[service].pmtPid == d.pat.value.programs[service]
  }

  /** What holds of the demultiplexer after every run. */
  predicate DemuxOk(d: Demuxer) {
    && Buildable(d)
    && ProgramsMatch(d)
    && TableOk(d.patSections)
    && (d.pat.Some? ==> d.generation > 0)
    && 0 !in d.programs
  }

  lemma {:induction false} CombineFits(start: Pat, sections: seq<Section>)
    requires PidsFit(start)
    ensures Combine(start, sections).Ok? ==> PidsFit(Combine(start, sections).value)
    decreases |sections|
  {
    hide PidsFit, Parse;
    if sections != [] {
      ParsedPidsFit(sections[0]);
      if Parse(sections[0]).Ok? {
        MergeFits(start, Parse(sections[0]).value);
        CombineFits(Merge(start, Parse(sections[0]).value), sections[1..]);
      }
    }
  }

  lemma MergeFits(a: Pat, b: Pat)
    requires PidsFit(a) && PidsFit(b)
    ensures PidsFit(Merge(a, b))
  {
  }

  lemma CompletedFits(d: Demuxer, section: Section)
    ensures Completed(d, section).Ok? ==> PidsFit(Completed(d, section).value)
  {
    hide Countable, WithSection, Combine;
    if Add(d.patSections, section).ready { CombineFits(EMPTY_PAT, Ordered(Add(d.patSections, section).next)); }
  }

  lemma PatKeepsDemux(d: Demuxer, section: Section, byPid: map<uint16, uint16>)
    requires DemuxOk(d)
    ensures DemuxOk(ObservePat(d, section, byPid))
  {
    hide Add, TableOk, Completed;
    AddKeepsTable(d.patSections, section);
    CompletedFits(d, section);
    if Completed(d, section).Ok? {
      TakenMatches(Collect(d, section), Completed(d, section).value, byPid);
    }
  }

  lemma TakenMatches(d: Demuxer, combined: Pat, byPid: map<uint16, uint16>)
    requires PidsFit(combined) && (d.pat.Some? ==> d.generation > 0)
    ensures var e := TakePat(d, combined, byPid);
            ProgramsMatch(e) && Buildable(e) && e.generation > 0 && 0 !in e.programs
  {
  }

  lemma ObserveKeepsDemux(d: Demuxer, e: Event)
    requires DemuxOk(d)
    ensures DemuxOk(Observe(d, e))
  {
    hide TableOk, ObservePat, Buildable;
    if e.SawPat? { PatKeepsDemux(d, e.section, e.byPid); }
    BuildableKept(d, Observe(d, e));
  }

  lemma BuildableKept(d: Demuxer, e: Demuxer)
    ensures d.pat == e.pat && Buildable(d) ==> Buildable(e)
  {
  }

  // ----- the PAT packets of a view -----

  /** One PAT section always fits into one packet. */
  lemma OnePatPacket(streamId: uint16, service: uint16, pid: uint16, version: byte)
    requires pid <= MAX_PID
    ensures var s := Build(streamId, service, pid, version).value;
            PatPackets(streamId, service, pid, version) == [PacketOf(0, true, 0, s)]
  {
    hide PacketOf, Build, Parse, Delivered, LengthField, ValidCrc;
    BuiltShape(streamId, service, pid, version);
    BuildThenParse(streamId, service, pid, version);
    var s := Build(streamId, service, pid, version).value;
    assert Take(s, 183) == s && s[16..] == [];
    assert Packetize(0, [], NextCounter(0), false).packets == [];
  }

  lemma StampBits(b: byte, counter: byte)
    ensures (((0x10 | (b & 0x0f)) & 0xf0) | (counter & 0x0f)) == 0x10 | (counter & 0x0f)
  {
  }

  /** Stamping a counter into a packet gives the packet that the packetizer would have made with it. */
  lemma StampedIs(pid: uint16, first: bool, c: byte, chunk: seq<byte>, counter: byte)
    requires |chunk| <= Room(first)
    ensures Stamped(PacketOf(pid, first, c, chunk), counter) == PacketOf(pid, first, counter, chunk)
  {
    hide High, Low, UnitFlag, Padding;
    StampBits(c, counter);
    var p, q := PacketOf(pid, first, c, chunk), PacketOf(pid, first, counter, chunk);
    var tail := (if first then [0] else []) + chunk + Padding(Room(first) - |chunk|);
    assert p == Header(pid, first, c) + tail && q == Header(pid, first, counter) + tail;
    assert p[3] == 0x10 | (c & 0x0f);
    assert Stamped(p, counter)[..4] == Header(pid, first, counter) && Stamped(p, counter)[4..] == tail;
    assert Stamped(p, counter) == Stamped(p, counter)[..4] + Stamped(p, counter)[4..];
  }

  /** Undamaged, with a payload and without an adaptation field. */
  predicate Unadorned(q: Packet) {
    q[0] == SYNC_BYTE && !TransportError(q) && HasPayload(q) && !HasAdaptation(q)
  }

  lemma UnadornedBits(pid: uint16, first: bool, counter: byte)
    requires pid <= MAX_PID
    ensures (High(pid) | UnitFlag(first)) & 0x80 == 0
    ensures ((0x10 | (counter & 0x0f)) >> 4) & 0x03 == 1
  {
    PidReadsBack(pid, first);
    CounterBits(counter);
  }

  lemma PacketIsUnadorned(pid: uint16, first: bool, counter: byte, chunk: seq<byte>)
    requires pid <= MAX_PID && |chunk| <= Room(first)
    ensures Unadorned(PacketOf(pid, first, counter, chunk))
  {
    hide High, Low, UnitFlag;
    UnadornedBits(pid, first, counter);
    var p := PacketOf(pid, first, counter, chunk);
    assert p[1] == High(pid) | UnitFlag(first) && p[3] == 0x10 | (counter & 0x0f);
  }

  /** A packet that tells any receiver, in any state, that service is at pid, and nothing else. */
  ghost predicate Announces(q: Packet, service: uint16, pid: uint16) {
    && Pid(q) == 0 && Unadorned(q)
    && exists s: Section, pat: Pat ::
      && Parse(s) == Ok(pat) && pat.programs == map[service := pid]
      && DeliversOne(q, s)
  }

  ghost predicate DeliversOne(q: Packet, s: Section) {
    forall a: Assembler | a.pid == 0 :: Sections.Feed(a, q).sections == [s] && Sections.Feed(a, q).next.pid == 0
  }

  lemma BuiltAnnounces(streamId: uint16, service: uint16, pid: uint16, version: byte, counter: byte)
    requires pid <= MAX_PID && service != 0
    ensures Build(streamId, service, pid, version).Ok? && |Build(streamId, service, pid, version).value| <= 183
    ensures var q := PacketOf(0, true, counter, Build(streamId, service, pid, version).value);
            Announces(q, service, pid) && Counter(q) == counter & 0x0f
  {
    hide PacketOf, Build, Parse, Sections.Feed, FeedMany, Packetize, Delivered, Payload, Counter, Relevant, Unadorned;
    BuiltShape(streamId, service, pid, version);
    BuildThenParse(streamId, service, pid, version);
    var s := Build(streamId, service, pid, version).value;
    var q := PacketOf(0, true, counter, s);
    PacketReadsBack(0, true, counter, s);
    PacketIsUnadorned(0, true, counter, s);
    RelevantPid(q);
    forall a: Assembler | a.pid == 0
      ensures Sections.Feed(a, q).sections == [s] && Sections.Feed(a, q).next.pid == 0
    {
      OneFed(a, s, counter);
    }
    assert DeliversOne(q, s);
  }

  lemma RelevantPid(q: Packet)
    requires Relevant(0, q)
    ensures Pid(q) == 0
  {
  }

  lemma OneFed(a: Assembler, s: Section, counter: byte)
    requires a.pid == 0 && |s| == 16 && WellFormed(s) && Delivered(s) == [s]
    ensures var fed := Sections.Feed(a, PacketOf(0, true, counter, s));
            fed.sections == [s] && fed.next.pid == 0
  {
    hide PacketOf, Sections.Feed, Delivered, LengthField, ValidCrc, Consume;
    FirstPacket(a, counter, s);
    var a0 := Assembler(0, [], counter & 0x0f, false);
    if s[0] == 0xff { StuffingIsLost(s); }
    ConsumeWhole(a0, s, 167);
    AcceptedIsDelivered(s);
  }

  lemma StuffingIsLost(s: Section)
    requires |s| > 0 && s[0] == 0xff
    ensures Delivered(s) == []
  {
  }

  lemma AcceptedIsDelivered(s: Section)
    requires |s| > 0 && s[0] != 0xff
    ensures Delivered(s) == Accepted(s)
  {
  }

  // ----- the view over a run -----

  datatype View = View(demux: Demuxer, output: Output)

  /** The demultiplexer sees something, or the view is asked to show a packet. */
  datatype Step = Sees(event: Event) | Shows(packet: Packet)

  /** The view's PAT packet is one that packetizing a one-program PAT gives. */
  ghost predicate Holds(packets: seq<Packet>, service: uint16, pid: uint16) {
    pid <= MAX_PID && exists streamId: uint16, version: byte :: packets == PatPackets(streamId, service, pid, version)
  }

  ghost predicate OutputOk(service: uint16, o: Output) {
    && o.index == 0
    && o.counter & 0x0f == o.counter
    && (o.packets == [] ==> o.generation == 0)
    && (o.packets != [] ==> service != 0 && exists pid: uint16 :: Holds(o.packets, service, pid))
  }

  ghost predicate ViewOk(service: uint16, v: View) {
    && DemuxOk(v.demux)
    && v.output.generation <= v.demux.generation
    && OutputOk(service, v.output)
  }

  /** A view of the current generation holds the current PAT. */
  ghost predicate UpToDate(service: uint16, v: View) {
    (v.demux.pat.Some? && service in v.demux.programs && v.output.generation == v.demux.generation) ==>
      Holds(v.output.packets, service, v.demux.programs[service].pmtPid)
  }

  ghost predicate Allows(v: View, step: Step) {
    step.Sees? ==> Possible(v.demux, step.event)
  }

  function Move(service: uint16, v: View, step: Step): View
    requires Buildable(v.demux)
  {
    match step
    case Sees(event) => v.(demux := Observe(v.demux, event))
    case Shows(packet) => v.(output := Emit(v.demux, service, v.output, packet).next)
  }

  lemma RebuildHolds(d: Demuxer, service: uint16, o: Output)
    requires DemuxOk(d) && d.pat.Some? && service in d.programs
    ensures Rebuild(d, service, o).generation == d.generation && Rebuild(d, service, o).index == 0
    ensures Rebuild(d, service, o).counter == o.counter && |Rebuild(d, service, o).packets| == 1
    ensures service != 0 && Holds(Rebuild(d, service, o).packets, service, d.programs[service].pmtPid)
  {
    hide TableOk, PacketOf, Build, PatPackets;
    var pat := d.pat.value;
    OnePatPacket(pat.streamId, service, pat.programs[service], pat.version);
  }

  lemma CurrentOk(service: uint16, v: View)
    requires ViewOk(service, v) && service in v.demux.programs
    ensures var now := Current(v.demux, service, v.output);
            && OutputOk(service, now) && now.generation <= v.demux.generation && now.counter == v.output.counter
            && (UpToDate(service, v) && v.demux.pat.Some? ==> Holds(now.packets, service, v.demux.programs[service].pmtPid))
  {
    hide TableOk, Holds, Rebuild;
    if v.output.generation != v.demux.generation {
      if v.demux.pat.Some? { RebuildHolds(v.demux, service, v.output); } else { NothingToRebuild(v.demux, service, v.output); }
    }
  }

  lemma CurrentIndex(service: uint16, v: View)
    requires ViewOk(service, v)
    ensures v.output.index == 0 && Buildable(v.demux) && Rebuild(v.demux, service, v.output).index == 0
  {
  }

  lemma NothingToRebuild(d: Demuxer, service: uint16, o: Output)
    requires d.pat.None?
    ensures Rebuild(d, service, o) == o
  {
  }

  lemma MaskedCounter(c: byte)
    ensures NextCounter(c) & 0x0f == NextCounter(c)
  {
  }

  /** Showing the one PAT packet puts the view's counter into it and leaves the packet in place. */
  lemma EmitPatShows(service: uint16, o: Output, pid: uint16)
    requires OutputOk(service, o) && service != 0 && Holds(o.packets, service, pid)
    ensures var e := EmitPat(o);
            && e.packet.Some? && Announces(e.packet.value, service, pid) && Counter(e.packet.value) == o.counter
            && e.next == o.(counter := NextCounter(o.counter))
  {
    hide PatPackets, PacketOf, Announces, Build, NextCounter, Counter, Stamped;
    var streamId: uint16, version: byte :| o.packets == PatPackets(streamId, service, pid, version);
    OnePatPacket(streamId, service, pid, version);
    BuiltAnnounces(streamId, service, pid, version, o.counter);
    StampedIs(0, true, 0, Build(streamId, service, pid, version).value, o.counter);
  }

  lemma ShowsKeepsView(service: uint16, v: View, p: Packet)
    requires ViewOk(service, v)
    ensures ViewOk(service, Move(service, v, Shows(p)))
  {
    hide DemuxOk, Holds, Current, Usable, Allowed, NextCounter, Stamped;
    if Usable(p) && service in v.demux.programs {
      CurrentOk(service, v);
      MaskedCounter(v.output.counter);
      BuildableOf(v.demux);
      if Pid(p) == 0 && Current(v.demux, service, v.output).packets != [] {
        var pid: uint16 :| Holds(Current(v.demux, service, v.output).packets, service, pid);
        EmitPatShows(service, Current(v.demux, service, v.output), pid);
      }
    }
  }

  lemma BuildableOf(d: Demuxer)
    requires DemuxOk(d)
    ensures Buildable(d)
  {
  }

  /** The one thing that can mislead the views: samePAT takes a different PAT for the current one. */
  predicate Confuses(d: Demuxer, e: Event) {
    && e.SawPat?
    && Completed(d, e.section).Ok?
    && !Add(d.patSections, e.section).reset
    && d.pat.Some?
    && ZeroSwap(d.pat.value, Completed(d, e.section).value)
  }

  lemma SeesKeepsView(service: uint16, v: View, e: Event)
    requires ViewOk(service, v)
    ensures ViewOk(service, Move(service, v, Sees(e)))
  {
    ObserveKeepsDemux(v.demux, e);
    hide DemuxOk, OutputOk, Completed, SamePat;
  }

  lemma NothingIsNew(d: Demuxer, e: Event)
    ensures e.SawPat? && Completed(d, e.section).Ok? && Collect(d, e.section).pat.None? ==>
              Observe(d, e).generation == d.generation + 1
  {
  }

  // ----- what a view's packets announce -----

  lemma AnnouncesOne(q: Packet, service: uint16, a: uint16, b: uint16)
    requires Announces(q, service, a) && Announces(q, service, b)
    ensures a == b
  {
    hide Parse, Sections.Feed;
    var s: Section, pat: Pat :| Parse(s) == Ok(pat) && pat.programs == map[service := a] && DeliversOne(q, s);
    var t: Section, tap: Pat :| Parse(t) == Ok(tap) && tap.programs == map[service := b] && DeliversOne(q, t);
    var sections := Sections.Feed(Assembler(0, [], 0, false), q).sections;
    assert sections == [s] && sections == [t];
    assert map[service := a][service] == map[service := b][service];
  }

  lemma HoldsOne(packets: seq<Packet>, service: uint16, a: uint16, b: uint16)
    requires service != 0 && Holds(packets, service, a) && Holds(packets, service, b)
    ensures a == b
  {
    hide Holds, EmitPat, Announces;
    HoldsSome(packets, service, a);
    var o := Output(1, 0, 0, packets);
    ZeroCounter();
    assert OutputOk(service, o);
    EmitPatShows(service, o, a);
    EmitPatShows(service, o, b);
    AnnouncesOne(EmitPat(o).packet.value, service, a, b);
  }

  lemma ZeroCounter()
    ensures (0 as byte) & 0x0f == 0
  {
  }

  lemma HoldsSome(packets: seq<Packet>, service: uint16, pid: uint16)
    requires Holds(packets, service, pid)
    ensures |packets| == 1
  {
    hide PatPackets, PacketOf, Build;
    var streamId: uint16, version: byte :| packets == PatPackets(streamId, service, pid, version);
    OnePatPacket(streamId, service, pid, version);
  }

  // ----- runs -----

  function After(service: uint16, v: View, steps: seq<Step>): View
    requires DemuxOk(v.demux)
    decreases |steps|
  {
    if steps == [] then v
    else
      ObserveAlways(v.demux);
      After(service, Move(service, v, steps[0]), steps[1..])
  }

  lemma ObserveAlways(d: Demuxer)
    requires DemuxOk(d)
    ensures forall e :: DemuxOk(Observe(d, e))
  {
    forall e
      ensures DemuxOk(Observe(d, e))
    {
      ObserveKeepsDemux(d, e);
    }
  }

  /** The steps can happen in this order. */
  ghost predicate IsRun(service: uint16, v: View, steps: seq<Step>)
    requires DemuxOk(v.demux)
    decreases |steps|
  {
    steps != [] ==> Allows(v, steps[0]) && (ObserveAlways(v.demux); IsRun(service, Move(service, v, steps[0]), steps[1..]))
  }

  const START := View(NEW_DEMUXER, NEW_OUTPUT)

  lemma StartOk(service: uint16)
    ensures ViewOk(service, START) && UpToDate(service, START)
  {
    ZeroCounter();
  }

  lemma MoveKeeps(service: uint16, v: View, step: Step)
    requires ViewOk(service, v)
    ensures ViewOk(service, Move(service, v, step))
  {
    hide ViewOk, Move;
    match step {
      case Sees(e) => SeesKeepsView(service, v, e);
      case Shows(p) => ShowsKeepsView(service, v, p);
    }
  }

  lemma DemuxOf(service: uint16, v: View)
    requires ViewOk(service, v)
    ensures DemuxOk(v.demux)
  {
  }

  lemma {:induction false} RunsKeepView(service: uint16, v: View, steps: seq<Step>)
    requires DemuxOk(v.demux) && ViewOk(service, v)
    ensures ViewOk(service, After(service, v, steps))
    decreases |steps|
  {
    hide ViewOk, DemuxOk, Move;
    if steps != [] {
      BuildableOf(v.demux);
      MoveKeeps(service, v, steps[0]);
      DemuxOf(service, Move(service, v, steps[0]));
      RunsKeepView(service, Move(service, v, steps[0]), steps[1..]);
    }
  }

  lemma {:induction false} OneMove(service: uint16, v: View, steps: seq<Step>, step: Step)
    requires DemuxOk(v.demux) && ViewOk(service, v)
    ensures Buildable(After(service, v, steps).demux)
    ensures After(service, v, steps + [step]) == Move(service, After(service, v, steps), step)
    decreases |steps|
  {
    hide ViewOk, DemuxOk, Move;
    BuildableOf(v.demux);
    if steps == [] {
      assert ([] + [step])[1..] == [];
      MoveKeeps(service, v, step);
      DemuxOf(service, Move(service, v, step));
      assert After(service, Move(service, v, step), []) == Move(service, v, step);
    } else {
      assert (steps + [step])[1..] == steps[1..] + [step];
      MoveKeeps(service, v, steps[0]);
      DemuxOf(service, Move(service, v, steps[0]));
      OneMove(service, Move(service, v, steps[0]), steps[1..], step);
    }
  }

  // ----- exactly when a view is up to date -----

  /** A PAT that samePAT takes for the current one drops the service; its PMT PID was 0. */
  predicate Leaves(service: uint16, v: View, step: Step) {
    && step.Sees? && Confuses(v.demux, step.event)
    && service in v.demux.programs && v.demux.programs[service].pmtPid == 0
    && service !in Completed(v.demux, step.event.section).value.programs
  }

  /** The view after the first i steps of the run. */
  function Then(service: uint16, steps: seq<Step>, i: nat): View
    requires i <= |steps|
  {
    After(service, START, steps[..i])
  }

  /** The service has left since the view was last rebuilt, which was at the generation that is still current. */
  ghost predicate LeftBehind(service: uint16, steps: seq<Step>) {
    exists i | 0 <= i < |steps| ::
      && Then(service, steps, i).output.generation == Then(service, steps, |steps|).demux.generation
      && Leaves(service, Then(service, steps, i), steps[i])
  }

  /** What a view of the current generation holds, by whether its service has left. */
  ghost predicate Tracked(service: uint16, v: View, left: bool) {
    && (left ==> v.output.generation == v.demux.generation)
    && (v.demux.pat.Some? && v.output.generation == v.demux.generation ==>
          if left then Holds(v.output.packets, service, 0)
          else service in v.demux.programs && Holds(v.output.packets, service, v.demux.programs[service].pmtPid))
  }

  /** Whether the service has left behind the view after one step more. */
  predicate LeftNow(service: uint16, v: View, step: Step, left: bool)
    requires Buildable(v.demux)
  {
    && Move(service, v, step).demux.generation == v.demux.generation
    && (left || (v.output.generation == v.demux.generation && Leaves(service, v, step)))
  }

  /** A complete PAT that does not raise the generation is the current one, or is taken for it. */
  lemma SameGeneration(d: Demuxer, e: Event)
    requires e.SawPat? && Completed(d, e.section).Ok? && Observe(d, e).generation == d.generation
    ensures d.pat.Some?
    ensures Completed(d, e.section).value == d.pat.value || Confuses(d, e)
    ensures Observe(d, e).pat == Some(Completed(d, e.section).value)
  {
    hide Completed, Add, SamePat, ZeroSwap;
    NothingIsNew(d, e);
    SamePatExactly(d.pat.value, Completed(d, e.section).value);
  }

  /** Without a complete PAT the programs stay where they are. */
  lemma OtherEvents(d: Demuxer, e: Event, service: uint16)
    requires !(e.SawPat? && Completed(d, e.section).Ok?)
    ensures Observe(d, e).generation == d.generation && (Observe(d, e).pat.Some? ==> d.pat.Some?)
    ensures service in Observe(d, e).programs <==> service in d.programs
    ensures service in d.programs ==> Observe(d, e).programs[service].pmtPid == d.programs[service].pmtPid
  {
    hide Completed, Add;
  }

  /** One PAT taken for another: who leaves had PMT PID 0, and who stays has the same. */
  lemma SwapTracks(service: uint16, o: Output, d: Demuxer, e: Demuxer, left: bool)
    requires d.pat.Some? && e.pat.Some? && ProgramsMatch(d) && ProgramsMatch(e) && d.generation == e.generation
    requires e.pat.value == d.pat.value || ZeroSwap(d.pat.value, e.pat.value)
    requires Tracked(service, View(d, o), left)
    ensures Tracked(service, View(e, o), left || (o.generation == d.generation && service in d.programs && service !in e.programs))
  {
    hide Holds;
  }

  lemma LeavesExactly(service: uint16, v: View, e: Event)
    requires ProgramsMatch(v.demux) && ProgramsMatch(Observe(v.demux, e))
    requires e.SawPat? && Completed(v.demux, e.section).Ok? && Observe(v.demux, e).generation == v.demux.generation
    ensures Leaves(service, v, Sees(e)) <==> service in v.demux.programs && service !in Observe(v.demux, e).programs
  {
    hide Completed, Observe, Add;
    SameGeneration(v.demux, e);
  }

  lemma PatTracks(service: uint16, v: View, e: Event, left: bool)
    requires DemuxOk(v.demux) && Tracked(service, v, left)
    requires e.SawPat? && Completed(v.demux, e.section).Ok? && Observe(v.demux, e).generation == v.demux.generation
    ensures Tracked(service, Move(service, v, Sees(e)), LeftNow(service, v, Sees(e), left))
  {
    hide Completed, Tracked, Leaves, Observe, ZeroSwap, TableOk;
    ObserveKeepsDemux(v.demux, e);
    SameGeneration(v.demux, e);
    LeavesExactly(service, v, e);
    if Confuses(v.demux, e) { SwapsOf(v.demux, e); }
    SwapTracks(service, v.output, v.demux, Observe(v.demux, e), left);
  }

  lemma SwapsOf(d: Demuxer, e: Event)
    requires Confuses(d, e)
    ensures ZeroSwap(d.pat.value, Completed(d, e.section).value)
  {
  }

  lemma SeesTracks(service: uint16, v: View, e: Event, left: bool)
    requires ViewOk(service, v) && Tracked(service, v, left)
    ensures Tracked(service, Move(service, v, Sees(e)), LeftNow(service, v, Sees(e), left))
    ensures Move(service, v, Sees(e)).demux.generation >= v.demux.generation
  {
    if e.SawPat? && Completed(v.demux, e.section).Ok? {
      if Observe(v.demux, e).generation == v.demux.generation { DemuxOf(service, v); PatTracks(service, v, e, left); }
      hide Completed, SamePat, Holds, Tracked, Add;
      NewerOrSame(v.demux, e);
      if Observe(v.demux, e).generation != v.demux.generation { NewerTracks(service, Move(service, v, Sees(e))); }
    } else {
      OtherEvents(v.demux, e, service);
      hide Observe, Completed, Holds, OutputOk, DemuxOk;
    }
  }

  lemma NewerOrSame(d: Demuxer, e: Event)
    ensures Observe(d, e).generation >= d.generation
  {
    hide Completed, SamePat, Add;
  }

  lemma NewerTracks(service: uint16, w: View)
    requires w.output.generation < w.demux.generation
    ensures Tracked(service, w, false)
  {
  }

  lemma ShowsTracks(service: uint16, v: View, p: Packet, left: bool)
    requires ViewOk(service, v) && Tracked(service, v, left)
    ensures Tracked(service, Move(service, v, Shows(p)), LeftNow(service, v, Shows(p), left))
  {
    hide DemuxOk, Holds, Usable, Allowed, NextCounter, Stamped, Rebuild;
    if Usable(p) && service in v.demux.programs && v.output.generation != v.demux.generation {
      if v.demux.pat.Some? { RebuildHolds(v.demux, service, v.output); } else { NothingToRebuild(v.demux, service, v.output); }
    }
  }

  lemma MoveTracks(service: uint16, v: View, step: Step, left: bool)
    requires ViewOk(service, v) && Tracked(service, v, left)
    ensures Tracked(service, Move(service, v, step), LeftNow(service, v, step, left))
    ensures Move(service, v, step).demux.generation >= v.demux.generation
  {
    DemuxOf(service, v);
    hide ViewOk, Tracked, LeftNow, Move, Observe, DemuxOk;
    BuildableOf(v.demux);
    match step {
      case Sees(e) => SeesTracks(service, v, e, left);
      case Shows(p) =>
        ShowsTracks(service, v, p, left);
        ShowsKeepsDemux(service, v, p);
    }
  }

  lemma ShowsKeepsDemux(service: uint16, v: View, p: Packet)
    requires Buildable(v.demux)
    ensures Move(service, v, Shows(p)).demux == v.demux
  {
  }

  lemma StartTracks(service: uint16)
    ensures Tracked(service, START, false)
  {
  }

  lemma {:induction false} GenerationGrows(service: uint16, steps: seq<Step>, i: nat, n: nat)
    requires i <= n <= |steps|
    ensures Then(service, steps, i).demux.generation <= Then(service, steps, n).demux.generation
    ensures Then(service, steps, i).output.generation <= Then(service, steps, i).demux.generation
    decreases n
  {
    hide After, Tracked, Move;
    ThenOk(service, steps, i);
    if i < n {
      GenerationGrows(service, steps, i, n - 1);
      ThenOk(service, steps, n - 1);
      ThenMove(service, steps, n - 1);
      var v := Then(service, steps, n - 1);
      DemuxOf(service, v);
      BuildableOf(v.demux);
      if steps[n - 1].Sees? { SeenGrows(service, v, steps[n - 1].event); } else { ShowsKeepsDemux(service, v, steps[n - 1].packet); }
    } else {
      DemuxOf(service, Then(service, steps, i));
    }
  }

  lemma SeenGrows(service: uint16, v: View, e: Event)
    requires Buildable(v.demux)
    ensures Move(service, v, Sees(e)).demux.generation >= v.demux.generation
  {
    hide Observe;
    NewerOrSame(v.demux, e);
  }

  lemma ThenOk(service: uint16, steps: seq<Step>, i: nat)
    requires i <= |steps|
    ensures ViewOk(service, Then(service, steps, i)) && Buildable(Then(service, steps, i).demux)
    ensures Then(service, steps, i).output.generation <= Then(service, steps, i).demux.generation
  {
    hide After, DemuxOk, OutputOk;
    StartOk(service);
    DemuxOf(service, START);
    RunsKeepView(service, START, steps[..i]);
    DemuxOf(service, Then(service, steps, i));
    BuildableOf(Then(service, steps, i).demux);
  }

  lemma ThenMove(service: uint16, steps: seq<Step>, i: nat)
    requires i < |steps|
    ensures Buildable(Then(service, steps, i).demux)
    ensures Then(service, steps, i + 1) == Move(service, Then(service, steps, i), steps[i])
  {
    hide After, Move, ViewOk;
    StartOk(service);
    DemuxOf(service, START);
    OneMove(service, START, steps[..i], steps[i]);
    assert steps[..i + 1] == steps[..i] + [steps[i]];
  }

  /** The service has left behind the view of the first n steps. */
  ghost predicate LeftAt(service: uint16, steps: seq<Step>, n: nat)
    requires n <= |steps|
  {
    exists i | 0 <= i < n ::
      && Then(service, steps, i).output.generation == Then(service, steps, n).demux.generation
      && Leaves(service, Then(service, steps, i), steps[i])
  }

  lemma LeftMore(service: uint16, steps: seq<Step>, n: nat)
    requires n < |steps|
    ensures Buildable(Then(service, steps, n).demux)
    ensures LeftAt(service, steps, n + 1) <==> LeftNow(service, Then(service, steps, n), steps[n], LeftAt(service, steps, n))
  {
    hide Then, Leaves, Move, ViewOk;
    ThenOk(service, steps, n);
    ThenMove(service, steps, n);
    forall i | 0 <= i < n
      ensures Then(service, steps, i).output.generation <= Then(service, steps, n).demux.generation
    {
      GenerationGrows(service, steps, i, n);
    }
    GenerationGrows(service, steps, n, n + 1);
    if LeftAt(service, steps, n + 1) {
      var i :| 0 <= i < n + 1 && Then(service, steps, i).output.generation == Then(service, steps, n + 1).demux.generation
               && Leaves(service, Then(service, steps, i), steps[i]);
    }
  }

  lemma {:induction false} RunTracks(service: uint16, steps: seq<Step>, n: nat)
    requires n <= |steps|
    ensures Tracked(service, Then(service, steps, n), LeftAt(service, steps, n))
    decreases n
  {
    hide Then, Tracked, LeftAt, LeftNow, Move, ViewOk;
    if n == 0 {
      NotLeftYet(service, steps);
      StartTracks(service);
    } else {
      RunTracks(service, steps, n - 1);
      ThenOk(service, steps, n - 1);
      ThenMove(service, steps, n - 1);
      LeftMore(service, steps, n - 1);
      MoveTracks(service, Then(service, steps, n - 1), steps[n - 1], LeftAt(service, steps, n - 1));
    }
  }

  lemma NotLeftYet(service: uint16, steps: seq<Step>)
    ensures Then(service, steps, 0) == START && !LeftAt(service, steps, 0)
  {
    assert steps[..0] == [];
  }

  /** The current PAT lists the service, elsewhere than where it was when it left. */
  predicate Returned(service: uint16, v: View) {
    v.demux.pat.Some? && service in v.demux.programs && v.demux.programs[service].pmtPid != 0
  }

  /**
   After every run, a view is stale exactly if its service has left at PMT PID 0, under a
   PAT that was taken for the current one, since the view was last rebuilt, and has come
   back at another PID.
   */
  lemma StaleExactly(service: uint16, steps: seq<Step>)
    ensures !UpToDate(service, Then(service, steps, |steps|)) <==>
              Returned(service, Then(service, steps, |steps|)) && LeftBehind(service, steps)
  {
    hide Then, DemuxOk, Holds, Leaves;
    var v := Then(service, steps, |steps|);
    RunTracks(service, steps, |steps|);
    ThenOk(service, steps, |steps|);
    assert LeftAt(service, steps, |steps|) <==> LeftBehind(service, steps);
    DemuxOf(service, v);
    if Returned(service, v) && LeftBehind(service, steps) && Holds(v.output.packets, service, v.demux.programs[service].pmtPid) {
      ServiceIsNotZero(v.demux, service);
      HoldsOne(v.output.packets, service, 0, v.demux.programs[service].pmtPid);
    }
  }

  /** The PAT packets that the view shows along a run. */
  function PatsShown(service: uint16, v: View, steps: seq<Step>): seq<Packet>
    requires DemuxOk(v.demux)
    decreases |steps|
  {
    if steps == [] then []
    else
      ObserveAlways(v.demux);
      PatShown(service, v, steps[0]) + PatsShown(service, Move(service, v, steps[0]), steps[1..])
  }

  function PatShown(service: uint16, v: View, step: Step): seq<Packet>
    requires Buildable(v.demux)
  {
    if step.Shows? && Pid(step.packet) == 0 && Emit(v.demux, service, v.output, step.packet).packet.Some?
    then [Emit(v.demux, service, v.output, step.packet).packet.value]
    else []
  }

  predicate CountFrom(counter: byte, packets: seq<Packet>)
    decreases |packets|
  {
    packets != [] ==> Counter(packets[0]) == counter && CountFrom(NextCounter(counter), packets[1..])
  }

  ghost predicate AnnouncesService(q: Packet, service: uint16) {
    exists pid: uint16 :: Announces(q, service, pid)
  }

  ghost predicate AllAnnounce(packets: seq<Packet>, service: uint16) {
    forall i | 0 <= i < |packets| :: AnnouncesService(packets[i], service)
  }

  /** What one step shows, and where it leaves the view's counter. */
  lemma ShownOnce(service: uint16, v: View, step: Step)
    requires ViewOk(service, v) && Buildable(v.demux)
    ensures var counter := Move(service, v, step).output.counter;
            var shown := PatShown(service, v, step);
            if shown == [] then counter == v.output.counter
            else |shown| == 1 && Counter(shown[0]) == v.output.counter && counter == NextCounter(v.output.counter)
    ensures AllAnnounce(PatShown(service, v, step), service)
  {
    hide DemuxOk, Holds, Current, Usable, Allowed, Announces, NextCounter, Stamped, Counter, Observe;
    if step.Shows? && Usable(step.packet) && service in v.demux.programs {
      CurrentOk(service, v);
      var now := Current(v.demux, service, v.output);
      if Pid(step.packet) == 0 && now.packets != [] {
        var pid: uint16 :| Holds(now.packets, service, pid);
        EmitPatShows(service, now, pid);
      }
    }
  }

  /**
   Over every run, the PAT packets of a view carry consecutive continuity counters,
   across all PAT changes, and each of them announces this service and no other.
   */
  lemma {:induction false} PatsCountOn(service: uint16, v: View, steps: seq<Step>)
    requires DemuxOk(v.demux) && ViewOk(service, v)
    ensures CountFrom(v.output.counter, PatsShown(service, v, steps))
    ensures AllAnnounce(PatsShown(service, v, steps), service)
    decreases |steps|
  {
    hide ViewOk, DemuxOk, Move, PatShown, AnnouncesService, Counter, NextCounter;
    if steps != [] {
      BuildableOf(v.demux);
      var w := Move(service, v, steps[0]);
      MoveKeeps(service, v, steps[0]);
      DemuxOf(service, w);
      ShownOnce(service, v, steps[0]);
      PatsCountOn(service, w, steps[1..]);
      var shown, later := PatShown(service, v, steps[0]), PatsShown(service, w, steps[1..]);
      if shown == [] {
        assert shown + later == later;
      } else {
        assert (shown + later)[1..] == later;
      }
    }
  }

  lemma {:induction false} NoGap(counter: byte, packets: seq<Packet>, i: nat)
    requires CountFrom(counter, packets) && i + 1 < |packets|
    ensures Counter(packets[i + 1]) == NextCounter(Counter(packets[i]))
    decreases i
  {
    hide Counter, NextCounter;
    if i == 0 {
      assert CountFrom(NextCounter(counter), packets[1..]) && packets[1..][0] == packets[1];
    } else {
      NoGap(NextCounter(counter), packets[1..], i - 1);
    }
  }

  /** A section of a one-program PAT. */
  predicate Lists(s: Section, service: uint16) {
    Parse(s).Ok? && Parse(s).value.programs.Keys == {service}
  }

  lemma FedOne(a: Assembler, q: Packet, service: uint16)
    requires a.pid == 0 && AnnouncesService(q, service)
    ensures var fed := Sections.Feed(a, q);
            fed.next.pid == 0 && |fed.sections| == 1 && Lists(fed.sections[0], service)
  {
    hide Sections.Feed, Parse;
    var pid: uint16 :| Announces(q, service, pid);
    var s: Section, pat: Pat :| Parse(s) == Ok(pat) && pat.programs == map[service := pid] && DeliversOne(q, s);
    assert Sections.Feed(a, q).sections == [s];
  }

  /** A receiver of the view's PAT packets in any state assembles exactly one section from each. */
  lemma {:induction false} ReceiverGetsEachPat(a: Assembler, packets: seq<Packet>, service: uint16)
    requires a.pid == 0 && AllAnnounce(packets, service)
    ensures |FeedMany(a, packets).sections| == |packets|
    ensures forall i | 0 <= i < |FeedMany(a, packets).sections| :: Lists(FeedMany(a, packets).sections[i], service)
    decreases |packets|
  {
    hide Sections.Feed, Lists, AnnouncesService;
    if packets != [] {
      FedOne(a, packets[0], service);
      ReceiverGetsEachPat(Sections.Feed(a, packets[0]).next, packets[1..], service);
    }
  }

  /**
   While the PAT is ready, the view of a service that it lists shows a PAT packet for
   every PAT packet.  It announces the service at its program's PMT PID exactly unless the
   service has left behind the view and come back elsewhere; then it announces PID 0.
   */
  lemma ReadyViewAnnounces(service: uint16, steps: seq<Step>, p: Packet)
    requires Then(service, steps, |steps|).demux.pat.Some? && service in Then(service, steps, |steps|).demux.programs
    requires Usable(p) && Pid(p) == 0
    ensures var v := Then(service, steps, |steps|);
            && Buildable(v.demux)
            && var e := Emit(v.demux, service, v.output, p);
            && e.packet.Some?
            && Announces(e.packet.value, service, if LeftBehind(service, steps) then 0 else v.demux.programs[service].pmtPid)
            && (Announces(e.packet.value, service, v.demux.programs[service].pmtPid) <==>
                  !(Returned(service, v) && LeftBehind(service, steps)))
  {
    hide DemuxOk, Holds, Then, Usable, Announces, NextCounter, Stamped, Counter, Current, UpToDate, LeftBehind, Leaves;
    var v := Then(service, steps, |steps|);
    var left := LeftBehind(service, steps);
    var pid := if left then 0 else v.demux.programs[service].pmtPid;
    ThenOk(service, steps, |steps|);
    DemuxOf(service, v);
    ServiceIsNotZero(v.demux, service);
    CurrentOk(service, v);
    CurrentHolds(service, steps);
    EmitPatShows(service, Current(v.demux, service, v.output), pid);
    var shown := Emit(v.demux, service, v.output, p).packet.value;
    if left && Announces(shown, service, v.demux.programs[service].pmtPid) {
      AnnouncesOne(shown, service, 0, v.demux.programs[service].pmtPid);
    }
  }

  lemma CurrentHolds(service: uint16, steps: seq<Step>)
    requires Then(service, steps, |steps|).demux.pat.Some? && service in Then(service, steps, |steps|).demux.programs
    ensures var v := Then(service, steps, |steps|);
            && Buildable(v.demux)
            && Holds(Current(v.demux, service, v.output).packets, service,
                     if LeftBehind(service, steps) then 0 else v.demux.programs[service].pmtPid)
  {
    hide Then, DemuxOk, Holds, Leaves, Rebuild;
    var v := Then(service, steps, |steps|);
    RunTracks(service, steps, |steps|);
    ThenOk(service, steps, |steps|);
    DemuxOf(service, v);
    assert LeftAt(service, steps, |steps|) <==> LeftBehind(service, steps);
    if v.output.generation != v.demux.generation { RebuildHolds(v.demux, service, v.output); }
  }

  lemma ServiceIsNotZero(d: Demuxer, service: uint16)
    requires DemuxOk(d) && service in d.programs
    ensures service != 0
  {
  }

  lemma OtherPasses(service: uint16, v: View, p: Packet)
    requires ViewOk(service, v) && Buildable(v.demux) && Pid(p) != 0
    ensures var e := Emit(v.demux, service, v.output, p);
            && (e.packet.Some? <==> Usable(p) && service in v.demux.programs && Allowed(v.demux, service, Pid(p)))
            && (e.packet.Some? ==> e.packet.value == p)
  {
    hide DemuxOk, Holds, Current, Usable, Allowed;
    if service in v.demux.programs { CurrentOk(service, v); }
  }

  /**
   Whatever a view shows after a run is a PAT packet of its service, or else the packet it
   was given, unchanged, on a PID that is allowed for the service.
   */
  lemma ShowsNothingElse(service: uint16, steps: seq<Step>, p: Packet)
    ensures Buildable(Then(service, steps, |steps|).demux)
    ensures var v := Then(service, steps, |steps|);
            var e := Emit(v.demux, service, v.output, p);
            && (e.packet.Some? ==> service in v.demux.programs)
            && (e.packet.Some? && Pid(p) == 0 ==> AnnouncesService(e.packet.value, service))
            && (e.packet.Some? && Pid(p) != 0 ==> e.packet.value == p && Allowed(v.demux, service, Pid(p)))
  {
    hide Then, DemuxOk, Holds, Usable, Allowed, AnnouncesService, Current, EmitPat;
    var v := Then(service, steps, |steps|);
    ThenOk(service, steps, |steps|);
    if Pid(p) != 0 {
      OtherPasses(service, v, p);
    } else {
      ShownOnce(service, v, Shows(p));
    }
  }

  // ----- a run that leaves a view stale -----

  function PatOf(service: uint16, pid: uint16): Section
    requires pid <= MAX_PID
  {
    Build(1, service, pid, 0).value
  }

  lemma PatOfFields(service: uint16, pid: uint16)
    requires pid <= MAX_PID && service != 0
    ensures var s := PatOf(service, pid);
            && Countable(s) && Number(s) == 0 && Last(s) == 0 && Extension(s) == 1 && Version(s[5]) == 0
            && Parse(s) == Ok(Pat(1, 0, 0, map[service := pid]))
  {
    hide LengthField, ValidCrc, Word, Version, CurrentNext, Parse, High, Low, BigEndian, TableCrc, Delivered, WellFormed;
    var s := PatOf(service, pid);
    BuiltShape(1, service, pid, 0);
    BuiltFields(s, 1, service, pid, 0);
    BuildThenParse(1, service, pid, 0);
    ZeroCounter();
    assert s[..12][6] == 0 && s[..12][7] == 0;
  }

  lemma CombineOne(s: Section, pat: Pat)
    requires Parse(s) == Ok(pat)
    ensures Combine(EMPTY_PAT, [s]) == Ok(pat)
  {
    hide Parse;
    assert EMPTY_PAT.programs + pat.programs == pat.programs;
    assert Combine(Merge(EMPTY_PAT, pat), []) == Ok(pat);
  }

  /** A PAT of a single section is complete at once. */
  lemma SingleSectionCompletes(d: Demuxer, service: uint16, pid: uint16)
    requires DemuxOk(d) && pid <= MAX_PID && service != 0
    ensures Completed(d, PatOf(service, pid)) == Ok(Pat(1, 0, 0, map[service := pid]))
    ensures Add(d.patSections, PatOf(service, pid)).reset <==> !Collecting(d)
    ensures Collecting(ObservePat(d, PatOf(service, pid), map[pid := service]))
  {
    hide PatOf, Parse, Combine, Countable, Extension, Version, ProgramsMatch, Buildable, SamePat;
    var s := PatOf(service, pid);
    PatOfFields(service, pid);
    OnlyNumberZero(d.patSections, s);
    CombineOne(s, Pat(1, 0, 0, map[service := pid]));
    CountableIsLong(s);
    var t := WithSection(d.patSections, s);
    assert Ordered(t) == [s];
  }

  lemma CountableIsLong(s: Section)
    requires Countable(s)
    ensures |s| >= 8
  {
  }

  /** Collecting the one table that PatOf's sections belong to. */
  predicate Collecting(d: Demuxer) {
    var t := d.patSections;
    t.initialized && t.extension == 1 && t.version == 0 && t.last == 0
  }

  lemma OnlyNumberZero(t: TableSet, s: Section)
    requires TableOk(t) && Countable(s) && Number(s) == 0 && Last(s) == 0
    ensures WithSection(t, s).sections == map[0 := s]
  {
    hide LengthField, Version, CurrentNext, Extension;
    forall n | n in t.sections && t.last == 0
      ensures n == 0
    {
      assert SectionOk(t, n);
    }
  }

  lemma Taken(d: Demuxer, combined: Pat, byPid: map<uint16, uint16>)
    ensures var e := TakePat(d, combined, byPid);
            && e.pat == Some(combined) && e.patSections == d.patSections
            && e.generation == (if SamePat(d.pat, combined) then d.generation else d.generation + 1)
            && (forall service | service in combined.programs :: service in e.programs && e.programs[service].pmtPid == combined.programs[service])
  {
  }

  lemma NothingSame(a: Option<Pat>, b: Pat)
    requires a.None?
    ensures !SamePat(a, b)
  {
  }

  lemma OnePid(service: uint16, pid: uint16)
    ensures ByPid(map[pid := service], map[service := pid])
  {
  }

  lemma TakesSingle(service: uint16, d: Demuxer, pid: uint16)
    requires DemuxOk(d) && pid <= MAX_PID && service != 0
    ensures var e := Listing(d, service, pid);
            && DemuxOk(e) && e.pat == Some(Pat(1, 0, 0, map[service := pid])) && Collecting(e)
            && ListsAt(e, service, pid)
            && e.generation == (if Collecting(d) && SamePat(d.pat, Pat(1, 0, 0, map[service := pid])) then d.generation else d.generation + 1)
    ensures CanList(d, service, pid)
  {
    hide PatOf, DemuxOk, Add, Completed, TakePat, SamePat, Collecting;
    SingleSectionCompletes(d, service, pid);
    PatKeepsDemux(d, PatOf(service, pid), map[pid := service]);
    Taken(Collect(d, PatOf(service, pid)), Pat(1, 0, 0, map[service := pid]), map[pid := service]);
    if !Collecting(d) { NothingSame(Collect(d, PatOf(service, pid)).pat, Pat(1, 0, 0, map[service := pid])); }
    OnePid(service, pid);
  }

  /** After a PAT of a single section that lists one service. */
  function Listing(d: Demuxer, service: uint16, pid: uint16): Demuxer
    requires pid <= MAX_PID
  {
    ObservePat(d, PatOf(service, pid), map[pid := service])
  }

  predicate CanList(d: Demuxer, service: uint16, pid: uint16)
    requires pid <= MAX_PID
  {
    Possible(d, SawPat(PatOf(service, pid), map[pid := service]))
  }

  lemma FirstStep(service: uint16, v: View, step: Step, rest: seq<Step>)
    requires DemuxOk(v.demux) && Buildable(v.demux) && DemuxOk(Move(service, v, step).demux)
    ensures After(service, v, [step] + rest) == After(service, Move(service, v, step), rest)
    ensures IsRun(service, v, [step] + rest) <==> Allows(v, step) && IsRun(service, Move(service, v, step), rest)
  {
    hide Move, DemuxOk, Allows;
    assert ([step] + rest)[1..] == rest;
  }

  lemma NoSteps(service: uint16, v: View)
    requires DemuxOk(v.demux)
    ensures After(service, v, []) == v && IsRun(service, v, [])
  {
  }

  /** The view shows a PAT packet that does not announce its service where the ready PAT has it. */
  ghost predicate ShowsStale(service: uint16, v: View, p: Packet) {
    && DemuxOk(v.demux) && v.demux.pat.Some? && service in v.demux.programs
    && Emit(v.demux, service, v.output, p).packet.Some?
    && !Announces(Emit(v.demux, service, v.output, p).packet.value, service, v.demux.programs[service].pmtPid)
  }

  /** The program of a service moves away from PMT PID 0, and comes back elsewhere. */
  function StaleRun(p: Packet, service: uint16, other: uint16, pid: uint16): seq<Step>
    requires pid <= MAX_PID
  {
    [Sees(SawPat(PatOf(service, 0), map[0 := service])), Shows(p),
     Sees(SawPat(PatOf(other, 0), map[0 := other])), Sees(SawPat(PatOf(service, pid), map[pid := service]))]
  }

  /** samePAT sees no difference. */
  lemma NotTheSame(service: uint16, other: uint16, pid: uint16)
    requires service != other
    ensures SamePat(Some(Pat(1, 0, 0, map[service := 0])), Pat(1, 0, 0, map[other := pid]))
  {
  }

  predicate ListsAt(d: Demuxer, service: uint16, pid: uint16) {
    d.pat.Some? && service in d.programs && d.programs[service].pmtPid == pid
  }

  /** Three PATs that samePAT takes for one. */
  lemma ConfusedThrice(service: uint16, other: uint16, pid: uint16) returns (d1: Demuxer, d2: Demuxer, d3: Demuxer)
    requires service != other && service != 0 && other != 0 && 0 < pid <= MAX_PID
    ensures DemuxOk(NEW_DEMUXER) && d1 == Listing(NEW_DEMUXER, service, 0) && d2 == Listing(d1, other, 0) && d3 == Listing(d2, service, pid)
    ensures DemuxOk(d1) && DemuxOk(d2) && DemuxOk(d3) && d1.generation == d3.generation == 1
    ensures ListsAt(d1, service, 0) && ListsAt(d3, service, pid)
    ensures CanList(NEW_DEMUXER, service, 0) && CanList(d1, other, 0) && CanList(d2, service, pid)
  {
    hide DemuxOk, PatOf, Listing, CanList, SamePat;
    StartOk(service);
    DemuxOf(service, START);
    d1 := Listing(NEW_DEMUXER, service, 0);
    d2 := Listing(d1, other, 0);
    d3 := Listing(d2, service, pid);
    TakesSingle(service, NEW_DEMUXER, 0);
    TakesSingle(other, d1, 0);
    NotTheSame(service, other, 0);
    TakesSingle(service, d2, pid);
    NotTheSame(other, service, pid);
    NothingSame(NEW_DEMUXER.pat, Pat(1, 0, 0, map[service := 0]));
  }

  /** Showing a PAT packet builds it for PMT PID 0; shown again at the same generation it is the same. */
  lemma ShownStale(d1: Demuxer, d3: Demuxer, service: uint16, p: Packet)
    requires Usable(p) && Pid(p) == 0
    requires DemuxOk(d1) && DemuxOk(d3) && d1.generation == d3.generation > 0
    requires d1.pat.Some? && service in d1.programs && d1.programs[service].pmtPid == 0
    requires d3.pat.Some? && service in d3.programs && d3.programs[service].pmtPid != 0
    ensures Buildable(d1) && ShowsStale(service, View(d3, Emit(d1, service, NEW_OUTPUT, p).next), p)
  {
    hide DemuxOk, Holds, Usable, Announces, Buildable, Rebuild, NextCounter, EmitPat;
    BuildableOf(d1);
    BuildableOf(d3);
    RebuildHolds(d1, service, NEW_OUTPUT);
    HoldsSome(Rebuild(d1, service, NEW_OUTPUT).packets, service, 0);
    ZeroCounter();
    MaskedCounter(0);
    var o1 := Rebuild(d1, service, NEW_OUTPUT);
    EmitPatShows(service, o1, 0);
    var o2 := EmitPat(o1).next;
    EmitPatShows(service, o2, 0);
    var pid := d3.programs[service].pmtPid;
    if Announces(EmitPat(o2).packet.value, service, pid) { AnnouncesOne(EmitPat(o2).packet.value, service, 0, pid); }
  }

  /**
   A view can go stale, for any two services and any PMT PID but 0: after this run
   the ready PAT has the service at pid, and the view announces it at PID 0.
   */
  lemma ViewCanGoStale(p: Packet, service: uint16, other: uint16, pid: uint16)
    requires Usable(p) && Pid(p) == 0
    requires service != other && service != 0 && other != 0 && 0 < pid <= MAX_PID
    ensures DemuxOk(START.demux) && IsRun(service, START, StaleRun(p, service, other, pid))
    ensures ShowsStale(service, After(service, START, StaleRun(p, service, other, pid)), p)
  {
    hide DemuxOk, PatOf, Usable, Possible, Buildable, After, IsRun, ShowsStale, Emit, ObservePat;
    var d1, d2, d3 := ConfusedThrice(service, other, pid);
    ShownStale(d1, d3, service, p);
    BuildableOf(NEW_DEMUXER);
    BuildableOf(d2);
    var o2 := Emit(d1, service, NEW_OUTPUT, p).next;
    var run := StaleRun(p, service, other, pid);
    NoSteps(service, View(d3, o2));
    FirstStep(service, View(d2, o2), run[3], []);
    FirstStep(service, View(d1, o2), run[2], [run[3]]);
    FirstStep(service, View(d1, NEW_OUTPUT), run[1], [run[2], run[3]]);
    FirstStep(service, START, run[0], [run[1], run[2], run[3]]);
    assert run == [run[0]] + [run[1], run[2], run[3]];
    assert [run[1], run[2], run[3]] == [run[1]] + [run[2], run[3]];
    assert [run[2], run[3]] == [run[2]] + [run[3]];
    assert [run[3]] == [run[3]] + [];
  }
}
