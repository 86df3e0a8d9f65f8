/**
 The shared demultiplexer state of ts/demux.go and the per-service view of it, as
 values: table sections are collected, a complete PAT replaces the programs, and
 every view rewrites the PAT for its one service.
 */
module Demux {
  import opened Crc
  import opened Packets
  import opened Sections
  import opened Pat

  datatype Option<T> = None | Some(value: T)

  // ----- tableSectionSet -----

  datatype TableSet = TableSet(initialized: bool, extension: uint16, version: byte, last: nat, sections: map<nat, Section>)

  datatype Added = Added(next: TableSet, reset: bool, ready: bool)

  const EMPTY_TABLE := TableSet(false, 0, 0, 0, map[])

  function Extension(s: Section): uint16
    requires |s| >= 8
  {
    Word(s[3], s[4])
  }

  function Number(s: Section): nat
    requires |s| >= 8
  {
    s[6] as nat
  }

  function Last(s: Section): nat
    requires |s| >= 8
  {
    s[7] as nat
  }

  /** Sections that are announced for later or whose number is past the last are ignored. */
  predicate Countable(s: Section) {
    |s| >= 8 && Total(s) <= |s| && CurrentNext(s[5]) && Number(s) <= Last(s)
  }

  predicate SameTable(t: TableSet, s: Section)
    requires |s| >= 8
  {
    t.initialized && t.extension == Extension(s) && t.version == Version(s[5]) && t.last == Last(s)
  }

  function WithSection(t: TableSet, s: Section): TableSet
    requires |s| >= 8
  {
    var base := if SameTable(t, s) then t else TableSet(true, Extension(s), Version(s[5]), Last(s), map[]);
    base.(sections := base.sections[Number(s) := s])
  }

  predicate IsComplete(t: TableSet) {
    |t.sections| == t.last + 1 && forall n | 0 <= n <= t.last :: n in t.sections
  }

  /** add */
  function Add(t: TableSet, s: Section): Added {
    if !Countable(s) then Added(t, false, false)
    else Added(WithSection(t, s), !SameTable(t, s), IsComplete(WithSection(t, s)))
  }

  /** ordered, once the table is complete */
  function Ordered(t: TableSet): seq<Section>
    requires IsComplete(t)
  {
    seq(t.last + 1, n requires 0 <= n <= t.last => t.sections[n])
  }

  // ----- the demultiplexer -----

  datatype Program = Program(pmtPid: uint16, pids: set<uint16>, sectionPids: set<uint16>)

  datatype Demuxer = Demuxer(
    assemblers: map<uint16, Assembler>,
    emm: set<uint16>,
    catSections: TableSet,
    pat: Option<Pat>,
    generation: nat,
    patSections: TableSet,
    pmtByPid: map<uint16, uint16>,
    sectionPids: set<uint16>,
    programs: map<uint16, Program>)

  const NEW_DEMUXER := Demuxer(map[], {}, EMPTY_TABLE, None, 0, EMPTY_TABLE, map[], {}, map[])

  /** A later section's header fields win, and so do its entries. */
  function Merge(a: Pat, b: Pat): Pat {
    Pat(b.streamId, b.version, b.networkPid, a.programs + b.programs)
  }

  function Combine(start: Pat, sections: seq<Section>): Result<Pat>
    decreases |sections|
  {
    if sections == [] then Ok(start)
    else match Parse(sections[0])
      case Err => Err
      case Ok(pat) => Combine(Merge(start, pat), sections[1..])
  }

  const EMPTY_PAT := Pat(0, 0, 0, map[])

  function At(programs: map<uint16, uint16>, service: uint16): uint16 {
    if service in programs then programs[service] else 0
  }

  /** samePAT: reading a program that is missing gives PID 0. */
  predicate SamePat(a: Option<Pat>, b: Pat) {
    && a.Some?
    && a.value.streamId == b.streamId && a.value.version == b.version && a.value.networkPid == b.networkPid
    && |a.value.programs| == |b.programs|
    && forall service | service in a.value.programs :: At(b.programs, service) == a.value.programs[service]
  }

  function Programs(known: map<uint16, Program>, pat: Pat): map<uint16, Program> {
    map service | service in pat.programs ::
      if service in known && known[service].pmtPid == pat.programs[service] then known[service]
      else Program(pat.programs[service], {}, {})
  }

  /** The PMT PIDs with, for each, one of the services that use it; which one is up to the map's order. */
  predicate ByPid(byPid: map<uint16, uint16>, programs: map<uint16, uint16>) {
    && (forall pid | pid in byPid :: byPid[pid] in programs && programs[byPid[pid]] == pid)
    && (forall service | service in programs :: programs[service] in byPid)
  }

  function TakePat(d: Demuxer, combined: Pat, byPid: map<uint16, uint16>): Demuxer {
    d.(pat := Some(combined),
       generation := if SamePat(d.pat, combined) then d.generation else d.generation + 1,
       programs := Programs(d.programs, combined),
       pmtByPid := byPid,
       assemblers := d.assemblers - (d.pmtByPid.Keys - byPid.Keys))
  }

  function Collect(d: Demuxer, section: Section): Demuxer {
    var added := Add(d.patSections, section);
    d.(patSections := added.next, pat := if added.reset then None else d.pat)
  }

  /** The PAT that a section completes, if it does. */
  function Completed(d: Demuxer, section: Section): Result<Pat> {
    if Add(d.patSections, section).ready then Combine(EMPTY_PAT, Ordered(Add(d.patSections, section).next)) else Err
  }

  /** observePAT */
  function ObservePat(d: Demuxer, section: Section, byPid: map<uint16, uint16>): Demuxer {
    match Completed(d, section)
    case Err => Collect(d, section)
    case Ok(combined) => TakePat(Collect(d, section), combined, byPid)
  }

  /** observeCAT behind its guard; emm are the CA PIDs that the complete table names. */
  function ObserveCat(d: Demuxer, section: Section, emm: set<uint16>): Demuxer {
    var added := Add(d.catSections, section);
    d.(catSections := added.next, emm := if added.ready then emm else d.emm)
  }

  function AllSectionPids(programs: map<uint16, Program>): set<uint16> {
    set service, pid | service in programs && pid in programs[service].sectionPids :: pid
  }

  /** observePMT behind its guard, with the PIDs that the PMT names. */
  function ObservePmt(d: Demuxer, service: uint16, pids: set<uint16>, sectionPids: set<uint16>): Demuxer {
    if service !in d.programs then d
    else
      var programs := d.programs[service := d.programs[service].(pids := pids, sectionPids := sectionPids)];
      d.(programs := programs,
         sectionPids := AllSectionPids(programs),
         assemblers := d.assemblers - (d.sectionPids - AllSectionPids(programs)))
  }

  function AssemblerOf(d: Demuxer, pid: uint16): Assembler {
    if pid in d.assemblers then d.assemblers[pid] else Assembler(pid, [], 0, false)
  }

  function Assemble(d: Demuxer, p: Packet): Demuxer {
    d.(assemblers := d.assemblers[Pid(p) := Sections.Feed(AssemblerOf(d, Pid(p)), p).next])
  }

  /** What the demultiplexer can do with one packet or one section. */
  datatype Event =
    | Assembled(packet: Packet)
    | SawPat(section: Section, byPid: map<uint16, uint16>)
    | SawCat(section: Section, emm: set<uint16>)
    | SawPmt(service: uint16, pids: set<uint16>, sectionPids: set<uint16>)

  predicate Possible(d: Demuxer, e: Event) {
    e.SawPat? && Completed(d, e.section).Ok? ==> ByPid(e.byPid, Completed(d, e.section).value.programs)
  }

  function Observe(d: Demuxer, e: Event): Demuxer {
    match e
    case Assembled(p) => Assemble(d, p)
    case SawPat(section, byPid) => ObservePat(d, section, byPid)
    case SawCat(section, emm) => ObserveCat(d, section, emm)
    case SawPmt(service, pids, sectionPids) => ObservePmt(d, service, pids, sectionPids)
  }

  // ----- the view of one service -----

  datatype Output = Output(generation: nat, counter: byte, index: nat, packets: seq<Packet>)

  const NEW_OUTPUT := Output(0, 0, 0, [])

  function PatPackets(streamId: uint16, service: uint16, pid: uint16, version: byte): seq<Packet>
    requires pid <= MAX_PID
  {
    Packetize(0, Build(streamId, service, pid, version).value, 0, true).packets
  }

  /** No PAT in use names a PID that BuildPATSection refuses. */
  predicate Buildable(d: Demuxer) {
    d.pat.Some? ==> PidsFit(d.pat.value)
  }

  /** rebuildPATOutput */
  function Rebuild(d: Demuxer, service: uint16, o: Output): Output
    requires Buildable(d)
  {
    if d.pat.None? || service !in d.pat.value.programs then o
    else
      var pat := d.pat.value;
      o.(packets := PatPackets(pat.streamId, service, pat.programs[service], pat.version), index := 0, generation := d.generation)
  }

  predicate Usable(p: Packet) {
    !TransportError(p) && !IsNull(p) && ValidPayloadOffset(p)
  }

  predicate CommonPid(pid: uint16) {
    pid in {0x0001, 0x0010, 0x0011, 0x0012, 0x0013, 0x0014, 0x001e, 0x001f, 0x0023, 0x0024, 0x0029}
  }

  predicate Allowed(d: Demuxer, service: uint16, pid: uint16)
    requires service in d.programs
  {
    CommonPid(pid) || pid == d.programs[service].pmtPid || pid in d.programs[service].pids || pid in d.emm
  }

  function Stamped(p: Packet, counter: byte): Packet {
    p[3 := (p[3] & 0xf0) | (counter & 0x0f)]
  }

  datatype Emitted = Emitted(next: Output, packet: Option<Packet>)

  function EmitPat(o: Output): Emitted {
    if o.packets == [] || o.index >= |o.packets| then Emitted(o, None)
    else Emitted(o.(index := (o.index + 1) % |o.packets|, counter := NextCounter(o.counter)),
                 Some(Stamped(o.packets[o.index], o.counter)))
  }

  function Current(d: Demuxer, service: uint16, o: Output): Output
    requires Buildable(d)
  {
    if o.generation != d.generation then Rebuild(d, service, o) else o
  }

  /** servicePacket */
  function Emit(d: Demuxer, service: uint16, o: Output, p: Packet): Emitted
    requires Buildable(d)
  {
    if !Usable(p) || service !in d.programs then Emitted(o, None)
    else
      var now := Current(d, service, o);
      if Pid(p) == 0 then EmitPat(now)
      else Emitted(now, if Allowed(d, service, Pid(p)) then Some(p) else None)
  }
}
