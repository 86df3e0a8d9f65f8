/**
 From packets to programs: a PAT and a PMT that come in packets take effect in the
 demultiplexer, and what they name is shown.
 */
module TablesArrive {
  import opened Crc
  import opened Packets
  import opened Sections
  import opened SectionStreams
  import opened Pat
  import opened Demux
  import opened DemuxObjects
  import ServiceView

  type Demuxer = Demux.Demuxer
  type Option<T> = Demux.Option<T>

  /** FeedWithPID on one packet. */
  ghost predicate Feeds(d: Demuxer, p: Packet, pmtOf: Section -> Option<Pmt>, caOf: Section -> set<uint16>, e: Demuxer) {
    HandledAll(DemuxObjects.Assembled(d, p), Pid(p), FedSections(d, p), pmtOf, caOf, e)
  }

  /** FeedWithPID on packets one after the other. */
  ghost predicate FeedsAll(d: Demuxer, ps: seq<Packet>, pmtOf: Section -> Option<Pmt>, caOf: Section -> set<uint16>, e: Demuxer)
    decreases |ps|
  {
    if ps == [] then d == e
    else exists m: Demuxer :: Feeds(d, ps[0], pmtOf, caOf, m) && FeedsAll(m, ps[1..], pmtOf, caOf, e)
  }

  /** The two differ in their assemblers at most. */
  predicate SameTables(d: Demuxer, e: Demuxer) {
    e.(assemblers := d.assemblers) == d
  }

  predicate AssemblersOk(d: Demuxer) {
    forall pid | pid in d.assemblers :: d.assemblers[pid].pid == pid
  }

  // ----- packets that complete nothing -----

  lemma QuietOne(d: Demuxer, p: Packet, pmtOf: Section -> Option<Pmt>, caOf: Section -> set<uint16>, e: Demuxer)
    requires Usable(p) && Looked(d, Pid(p)) && AssemblersOk(d)
    requires FedSections(d, p) == [] && Feeds(d, p, pmtOf, caOf, e)
    ensures e == Assemble(d, p) && SameTables(d, e) && AssemblersOk(e) && Looked(e, Pid(p))
    ensures AssemblerOf(e, Pid(p)) == Sections.Feed(AssemblerOf(d, Pid(p)), p).next
  {
    hide Usable, Sections.Feed, Shared;
    FeedKeepsPid(AssemblerOf(d, Pid(p)), p);
  }

  lemma {:induction false} Quiet(d: Demuxer, pid: uint16, ps: seq<Packet>, pmtOf: Section -> Option<Pmt>, caOf: Section -> set<uint16>, e: Demuxer)
    requires Looked(d, pid) && AssemblersOk(d) && forall p | p in ps :: Usable(p) && Pid(p) == pid
    requires FeedMany(AssemblerOf(d, pid), ps).sections == [] && FeedsAll(d, ps, pmtOf, caOf, e)
    ensures SameTables(d, e) && AssemblersOk(e) && Looked(e, pid)
    ensures AssemblerOf(e, pid) == FeedMany(AssemblerOf(d, pid), ps).next
    decreases |ps|
  {
    hide Usable, Sections.Feed, Feeds, Looked, Assemble, AssemblerOf, AssemblersOk;
    if ps != [] {
      var m: Demuxer :| Feeds(d, ps[0], pmtOf, caOf, m) && FeedsAll(m, ps[1..], pmtOf, caOf, e);
      QuietOne(d, ps[0], pmtOf, caOf, m);
      Quiet(m, pid, ps[1..], pmtOf, caOf, e);
    }
  }

  lemma {:induction false} LastPacket(d: Demuxer, ps: seq<Packet>, p: Packet, pmtOf: Section -> Option<Pmt>, caOf: Section -> set<uint16>, e: Demuxer)
    returns (m: Demuxer)
    requires FeedsAll(d, ps + [p], pmtOf, caOf, e)
    ensures FeedsAll(d, ps, pmtOf, caOf, m) && Feeds(m, p, pmtOf, caOf, e)
    decreases |ps|
  {
    hide Feeds;
    var n: Demuxer :| Feeds(d, (ps + [p])[0], pmtOf, caOf, n) && FeedsAll(n, (ps + [p])[1..], pmtOf, caOf, e);
    if ps == [] {
      assert (ps + [p])[1..] == [];
      m := d;
    } else {
      assert (ps + [p])[1..] == ps[1..] + [p];
      m := LastPacket(n, ps[1..], p, pmtOf, caOf, e);
    }
  }

  lemma {:induction false} FeedsTwice(d: Demuxer, ps: seq<Packet>, qs: seq<Packet>,
                                      pmtOf: Section -> Option<Pmt>, caOf: Section -> set<uint16>, e: Demuxer)
    returns (m: Demuxer)
    requires FeedsAll(d, ps + qs, pmtOf, caOf, e)
    ensures FeedsAll(d, ps, pmtOf, caOf, m) && FeedsAll(m, qs, pmtOf, caOf, e)
    decreases |ps|
  {
    hide Feeds;
    if ps == [] {
      assert ps + qs == qs;
      m := d;
    } else {
      assert (ps + qs)[1..] == ps[1..] + qs;
      var n: Demuxer :| Feeds(d, ps[0], pmtOf, caOf, n) && FeedsAll(n, ps[1..] + qs, pmtOf, caOf, e);
      m := FeedsTwice(n, ps[1..], qs, pmtOf, caOf, e);
    }
  }

  // ----- a section arrives -----

  lemma PacketIsUsable(pid: uint16, first: bool, counter: byte, chunk: seq<byte>)
    requires pid < MAX_PID && |chunk| <= Room(first)
    ensures Usable(PacketOf(pid, first, counter, chunk)) && Pid(PacketOf(pid, first, counter, chunk)) == pid
  {
    hide PacketOf, HasPayload, Payload, UnitStart, Counter;
    PacketReadsBack(pid, first, counter, chunk);
    ServiceView.PacketIsUnadorned(pid, first, counter, chunk);
  }

  lemma {:induction false} PacketsAreUsable(pid: uint16, s: seq<byte>, counter: byte, first: bool)
    requires pid < MAX_PID
    ensures forall p | p in Packetize(pid, s, counter, first).packets :: Usable(p) && Pid(p) == pid
    decreases first, |s|
  {
    hide PacketOf, Usable, NextCounter;
    if first || s != [] {
      var chunk := Take(s, Room(first));
      PacketIsUsable(pid, first, counter, chunk);
      PacketsAreUsable(pid, s[|chunk|..], NextCounter(counter), false);
    }
  }

  /** A section that comes in packets on a PID that is looked at is handled when the last of them is there. */
  lemma SectionArrives(d: Demuxer, pid: uint16, s: Section, counter: byte, pmtOf: Section -> Option<Pmt>, caOf: Section -> set<uint16>, e: Demuxer)
    returns (m: Demuxer)
    requires AssemblersOk(d) && Looked(d, pid) && pid < MAX_PID && Packable(s) && ValidCrc(s)
    requires FeedsAll(d, Packetize(pid, s, counter, true).packets, pmtOf, caOf, e)
    ensures SameTables(d, m) && AssemblersOk(m) && Handled(m, pid, s, pmtOf, caOf, e)
  {
    hide Sections.Feed, FeedMany, Packetize, Usable, Looked, LengthField, ValidCrc, Handled, AssemblersOk, Shared, NextCounter;
    var a := AssemblerOf(d, pid);
    AssemblerPid(d, pid);
    var ps := Packetize(pid, s, counter, true).packets;
    AtLeastOne(pid, s, counter);
    var before, last := ps[..|ps| - 1], ps[|ps| - 1];
    assert before + [last] == ps;
    PacketsAreUsable(pid, s, counter, true);
    SectionRoundTrip(a, s, counter);
    AllButLast(a, s, counter);
    FeedManyAppend(a, before, [last]);
    m := LastPacket(d, before, last, pmtOf, caOf, e);
    assert forall p | p in before :: p in ps;
    Quiet(d, pid, before, pmtOf, caOf, m);
    var a1 := FeedMany(a, before).next;
    JustOne(a1, last);
    assert Sections.Feed(a1, last).sections == [s];
    FeedKeepsPid(a1, last);
    m := Handles(m, pid, s, last, pmtOf, caOf, e);
  }

  lemma Handles(d: Demuxer, pid: uint16, s: Section, p: Packet, pmtOf: Section -> Option<Pmt>, caOf: Section -> set<uint16>, e: Demuxer)
    returns (m: Demuxer)
    requires AssemblersOk(d) && Looked(d, pid) && Usable(p) && Pid(p) == pid && Feeds(d, p, pmtOf, caOf, e)
    requires Sections.Feed(AssemblerOf(d, pid), p).sections == [s]
    ensures SameTables(d, m) && AssemblersOk(m) && Handled(m, pid, s, pmtOf, caOf, e)
  {
    hide Sections.Feed, Usable, Looked, Handled, Pid;
    FeedKeepsPid(AssemblerOf(d, pid), p);
    m := Assemble(d, p);
    assert FedSections(d, p) == [s];
    var x: Demuxer :| Handled(m, pid, [s][0], pmtOf, caOf, x) && HandledAll(x, pid, [s][1..], pmtOf, caOf, e);
  }

  lemma AssemblerPid(d: Demuxer, pid: uint16)
    requires AssemblersOk(d)
    ensures AssemblerOf(d, pid).pid == pid
  {
  }

  lemma AtLeastOne(pid: uint16, s: Section, counter: byte)
    ensures |Packetize(pid, s, counter, true).packets| > 0
  {
    hide PacketOf, NextCounter;
  }

  lemma JustOne(a: Assembler, p: Packet)
    ensures FeedMany(a, [p]).sections == Sections.Feed(a, p).sections
  {
    hide Sections.Feed;
    assert [p][1..] == [];
    assert Sections.Feed(a, p).sections + [] == Sections.Feed(a, p).sections;
  }

  lemma AllButLast(a: Assembler, s: Section, counter: byte)
    requires a.pid <= MAX_PID && WellFormed(s)
    ensures var ps := Packetize(a.pid, s, counter, true).packets;
            |ps| > 0 && FeedMany(a, ps[..|ps| - 1]).sections == []
  {
    hide Packetize, Sections.Feed, WellFormed, NextCounter, Breaks;
    AtLeastOne(a.pid, s, counter);
    var ps := Packetize(a.pid, s, counter, true).packets;
    var n := |ps| - 1;
    if n == 0 {
      assert ps[..0] == [];
    } else {
      assert Without(ps, n) == ps[..n];
      SectionLost(a, s, counter, n);
    }
  }

  // ----- a PAT takes effect -----

  lemma SingleCompletes(d: Demuxer, s: Section, pat: Pat)
    requires ServiceView.DemuxOk(d) && Countable(s) && Number(s) == 0 && Last(s) == 0 && Parse(s) == Ok(pat)
    ensures Completed(d, s) == Ok(pat)
  {
    hide Parse, Combine, Countable, Extension, Version, ServiceView.ProgramsMatch, Buildable;
    ServiceView.CountableIsLong(s);
    ServiceView.OnlyNumberZero(d.patSections, s);
    ServiceView.CombineOne(s, pat);
    assert Ordered(WithSection(d.patSections, s)) == [s];
  }

  /** The demultiplexer lists what the PAT lists, and looks at the PMT PIDs. */
  ghost predicate Follows(e: Demuxer, pat: Pat) {
    && e.pat == Some(pat) && e.programs.Keys == pat.programs.Keys
    && (forall service | service in pat.programs :: e.programs[service].pmtPid == pat.programs[service])
    && (forall service | service in pat.programs :: pat.programs[service] in e.pmtByPid)
    && (forall pid | pid in e.pmtByPid :: e.pmtByPid[pid] in pat.programs && pat.programs[e.pmtByPid[pid]] == pid)
  }

  lemma TakenFollows(d: Demuxer, pat: Pat, byPid: map<uint16, uint16>)
    requires ByPid(byPid, pat.programs)
    ensures Follows(TakePat(d, pat, byPid), pat)
  {
    hide SamePat;
  }

  lemma IsOk(d: Demuxer, m: Demuxer)
    requires ServiceView.DemuxOk(d) && SameTables(d, m)
    ensures ServiceView.DemuxOk(m)
  {
  }

  /** A PAT of one section that comes in packets is followed, whatever was before. */
  lemma PatArrives(d: Demuxer, s: Section, pat: Pat, counter: byte, pmtOf: Section -> Option<Pmt>, caOf: Section -> set<uint16>, e: Demuxer)
    requires ServiceView.DemuxOk(d) && AssemblersOk(d)
    requires Packable(s) && Countable(s) && Number(s) == 0 && Last(s) == 0 && Parse(s) == Ok(pat)
    requires FeedsAll(d, Packetize(0, s, counter, true).packets, pmtOf, caOf, e)
    ensures Follows(e, pat) && ServiceView.DemuxOk(e) && AssemblersOk(e)
  {
    hide ServiceView.DemuxOk, FeedsAll, Packetize, Packable, Countable, Completed, Parse, AssemblersOk, ValidCrc, Follows, ObservePat, Number, Last;
    IsPat(s);
    var m := SectionArrives(d, 0, s, counter, pmtOf, caOf, e);
    IsOk(d, m);
    var byPid :| Possible(m, SawPat(s, byPid)) && e == ObservePat(m, s, byPid);
    PatTaken(m, s, pat, byPid);
  }

  lemma PatTaken(d: Demuxer, s: Section, pat: Pat, byPid: map<uint16, uint16>)
    requires ServiceView.DemuxOk(d) && AssemblersOk(d) && Possible(d, SawPat(s, byPid))
    requires Countable(s) && Number(s) == 0 && Last(s) == 0 && Parse(s) == Ok(pat)
    ensures var e := ObservePat(d, s, byPid);
            Follows(e, pat) && ServiceView.DemuxOk(e) && AssemblersOk(e)
  {
    hide ServiceView.DemuxOk, Countable, Completed, Parse, AssemblersOk, Follows, TakePat, Collect, Number, Last;
    SingleCompletes(d, s, pat);
    TakenFollows(Collect(d, s), pat, byPid);
    ServiceView.ObserveKeepsDemux(d, SawPat(s, byPid));
    CollectingKeepsAssemblers(d, s);
    TakingKeepsAssemblers(Collect(d, s), pat, byPid);
  }

  lemma IsPat(s: Section)
    requires Parse(s).Ok?
    ensures |s| > 0 && s[0] == TABLE_ID && ValidCrc(s)
  {
  }

  lemma TakingKeepsAssemblers(d: Demuxer, pat: Pat, byPid: map<uint16, uint16>)
    requires AssemblersOk(d)
    ensures AssemblersOk(TakePat(d, pat, byPid))
  {
    hide SamePat;
  }

  lemma CollectingKeepsAssemblers(d: Demuxer, s: Section)
    requires AssemblersOk(d)
    ensures AssemblersOk(Collect(d, s))
  {
    hide Add;
  }

  // ----- a PMT takes effect -----

  /** A PMT of the service at a PID that comes in packets there replaces what the program names, and nothing else of the programs. */
  lemma PmtArrives(d: Demuxer, pid: uint16, s: Section, pmt: Pmt, counter: byte,
                   pmtOf: Section -> Option<Pmt>, caOf: Section -> set<uint16>, e: Demuxer)
    requires AssemblersOk(d) && pid < MAX_PID && pid in d.pmtByPid && d.pmtByPid[pid] in d.programs
    requires Packable(s) && ValidCrc(s) && s[0] == 0x02 && pmtOf(s) == Some(pmt) && pmt.program == d.pmtByPid[pid]
    requires FeedsAll(d, Packetize(pid, s, counter, true).packets, pmtOf, caOf, e)
    ensures var service := d.pmtByPid[pid];
            && e.programs == d.programs[service := Program(d.programs[service].pmtPid, pmt.pids, pmt.sectionPids)]
            && e.pat == d.pat && e.generation == d.generation && e.pmtByPid == d.pmtByPid && e.emm == d.emm
            && (forall x | x in pmt.sectionPids :: Looked(e, x))
  {
    hide FeedsAll, Packetize, LengthField, ValidCrc, AssemblersOk, Shared;
    var m := SectionArrives(d, pid, s, counter, pmtOf, caOf, e);
    assert e == ObservePmt(m, pmt.program, pmt.pids, pmt.sectionPids);
    NamedSections(e.programs, pmt.program);
  }

  lemma NamedSections(programs: map<uint16, Program>, service: uint16)
    requires service in programs
    ensures programs[service].sectionPids <= AllSectionPids(programs)
  {
  }

  /**
   From the wire to the viewer: once a PAT that lists a service alone at its PMT PID and
   then a PMT of the service have come in packets, every view of the service shows each
   undamaged packet on the PIDs that the PMT names, unchanged.
   */
  lemma AnnouncedIsShown(d: Demuxer, s: Section, pat: Pat, service: uint16, pmtSection: Section, pmt: Pmt, a: byte, b: byte,
                         pmtOf: Section -> Option<Pmt>, caOf: Section -> set<uint16>, e: Demuxer, o: Output, p: Packet)
    requires ServiceView.DemuxOk(d) && AssemblersOk(d)
    requires Packable(s) && Countable(s) && Number(s) == 0 && Last(s) == 0 && Parse(s) == Ok(pat)
    requires service in pat.programs && pat.programs[service] < MAX_PID
    requires forall other | other in pat.programs && pat.programs[other] == pat.programs[service] :: other == service
    requires Packable(pmtSection) && ValidCrc(pmtSection) && pmtSection[0] == 0x02
    requires pmtOf(pmtSection) == Some(pmt) && pmt.program == service
    requires FeedsAll(d, Packetize(0, s, a, true).packets + Packetize(pat.programs[service], pmtSection, b, true).packets, pmtOf, caOf, e)
    requires Usable(p) && Pid(p) != 0 && Pid(p) in pmt.pids
    ensures Buildable(e) && Emit(e, service, o, p).packet == Some(p)
  {
    hide FeedsAll, Packetize, LengthField, ValidCrc, AssemblersOk, Shared, Usable, Pid, Current, Packable, Countable, Parse, ServiceView.DemuxOk;
    var m := FeedsTwice(d, Packetize(0, s, a, true).packets, Packetize(pat.programs[service], pmtSection, b, true).packets, pmtOf, caOf, e);
    PatArrives(d, s, pat, a, pmtOf, caOf, m);
    ServiceView.BuildableOf(m);
    PmtArrives(m, pat.programs[service], pmtSection, pmt, b, pmtOf, caOf, e);
  }

  // ----- a CAT takes effect -----

  /** A CAT that comes in packets on PID 1 joins its table, and once the table is complete the PIDs that it names are shown. */
  lemma CatArrives(d: Demuxer, s: Section, counter: byte, pmtOf: Section -> Option<Pmt>, caOf: Section -> set<uint16>, e: Demuxer)
    requires AssemblersOk(d) && Packable(s) && ValidCrc(s) && |s| >= 12 && s[0] == 0x01
    requires FeedsAll(d, Packetize(1, s, counter, true).packets, pmtOf, caOf, e)
    ensures e.catSections == Add(d.catSections, s).next
    ensures if Add(d.catSections, s).ready then
              IsComplete(e.catSections) && e.emm == Named(caOf, Ordered(e.catSections))
            else e.emm == d.emm
    ensures e.programs == d.programs && e.pat == d.pat && e.pmtByPid == d.pmtByPid
  {
    hide FeedsAll, Packetize, LengthField, ValidCrc, AssemblersOk, IsComplete;
    var m := SectionArrives(d, 1, s, counter, pmtOf, caOf, e);
    ReadyIsComplete(d.catSections, s);
  }

  lemma {:induction false} NamedExactly(caOf: Section -> set<uint16>, sections: seq<Section>, pid: uint16)
    ensures pid in Named(caOf, sections) <==> exists k | 0 <= k < |sections| :: pid in caOf(sections[k])
    decreases |sections|
  {
    if sections != [] {
      var before := sections[..|sections| - 1];
      NamedExactly(caOf, before, pid);
      assert forall k | 0 <= k < |before| :: before[k] == sections[k];
      if k :| 0 <= k < |before| && pid in caOf(before[k]) { assert pid in caOf(sections[k]); }
    }
  }

  // ----- which PIDs are looked at -----

  /** A PMT PID is looked at exactly while some program is at it. */
  predicate PmtPidsOk(d: Demuxer) {
    && (forall service | service in d.programs :: d.programs[service].pmtPid in d.pmtByPid)
    && (forall pid | pid in d.pmtByPid :: d.pmtByPid[pid] in d.programs && d.programs[d.pmtByPid[pid]].pmtPid == pid)
  }

  lemma StartPmtPids()
    ensures PmtPidsOk(NEW_DEMUXER) && AssemblersOk(NEW_DEMUXER)
  {
  }

  lemma ObserveKeepsPmtPids(d: Demuxer, e: Event)
    requires PmtPidsOk(d) && Possible(d, e)
    ensures PmtPidsOk(Observe(d, e))
  {
    hide Completed, SamePat, AllSectionPids, Add, Sections.Feed;
  }

  /** FeedWithPID looks at the nine PIDs of shared tables, at the PMT PIDs of all programs, and at the section PIDs that PMTs named. */
  lemma LooksExactly(d: Demuxer, pid: uint16)
    requires PmtPidsOk(d)
    ensures Looked(d, pid) <==>
              || pid == 0 || pid == 1 || pid == 0x10 || pid == 0x11 || pid == 0x12 || pid == 0x14
              || pid == 0x23 || pid == 0x24 || pid == 0x29
              || (exists service :: service in d.programs && d.programs[service].pmtPid == pid)
              || pid in d.sectionPids
  {
    if pid in d.pmtByPid { assert d.programs[d.pmtByPid[pid]].pmtPid == pid; }
  }

  /** A PID that no table names any more is forgotten with what had come of its section; nothing else is. */
  lemma ForgetsExactly(d: Demuxer, e: Event, pid: uint16)
    requires PmtPidsOk(d) && Possible(d, e) && !e.Assembled?
    ensures var after := Observe(d, e);
            && (pid in after.assemblers <==>
                  && pid in d.assemblers
                  && (pid in d.pmtByPid ==> pid in after.pmtByPid)
                  && (pid in d.sectionPids ==> pid in after.sectionPids))
            && (pid in after.assemblers ==> after.assemblers[pid] == d.assemblers[pid])
  {
    hide Completed, SamePat, AllSectionPids, Add;
  }
}
