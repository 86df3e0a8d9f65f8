/**
 The Demuxer and ServiceDemux objects of ts/demux.go with their loops over maps,
 each method against the function of the same step in Demux.
 */
module DemuxObjects {
  import opened Crc
  import opened Packets
  import opened Sections
  import opened SectionAssembly
  import opened Pat
  import Demux
  import ServiceView

  type Option<T> = Demux.Option<T>

  /** What ParsePMT gives observePMT: the program and the PIDs that the table names. */
  datatype Pmt = Pmt(program: uint16, pids: set<uint16>, sectionPids: set<uint16>)

  const TABLE_ID_CAT: byte := 1
  const TABLE_ID_PMT: byte := 2

  predicate Shared(pid: uint16) {
    pid in {0x0000, 0x0001, 0x0010, 0x0011, 0x0012, 0x0014, 0x0023, 0x0024, 0x0029}
  }

  // ----- loops over maps, in whatever order they come -----

  method SamePatLoop(a: Option<Pat>, b: Pat) returns (same: bool)
    ensures same <==> Demux.SamePat(a, b)
  {
    if a.None? || a.value.streamId != b.streamId || a.value.version != b.version || a.value.networkPid != b.networkPid
       || |a.value.programs| != |b.programs| {
      return false;
    }
    var programs := a.value.programs;
    var todo := programs.Keys;
    while todo != {}
      invariant todo <= programs.Keys
      invariant forall service | service in programs && service !in todo :: Demux.At(b.programs, service) == programs[service]
      decreases |todo|
    {
      var service :| service in todo;
      if Demux.At(b.programs, service) != programs[service] {
        return false;
      }
      todo := todo - {service};
    }
    same := true;
  }

  method MergePrograms(into: map<uint16, uint16>, from: map<uint16, uint16>) returns (merged: map<uint16, uint16>)
    ensures merged == into + from
  {
    merged := into;
    var todo := from.Keys;
    while todo != {}
      invariant todo <= from.Keys
      invariant merged.Keys == into.Keys + (from.Keys - todo)
      invariant forall k | k in merged :: merged[k] == if k in from && k !in todo then from[k] else into[k]
      decreases |todo|
    {
      var service :| service in todo;
      merged := merged[service := from[service]];
      todo := todo - {service};
    }
  }

  /** The first loop of observePAT: every section must parse. */
  method CombineSections(table: array<bv32>, sections: seq<Section>) returns (r: Result<Pat>)
    requires IsTable(table[..])
    ensures r == Demux.Combine(Demux.EMPTY_PAT, sections)
  {
    hide IsTable, Parse;
    var combined := Demux.EMPTY_PAT;
    assert sections[0..] == sections;
    for i := 0 to |sections|
      invariant Demux.Combine(combined, sections[i..]) == Demux.Combine(Demux.EMPTY_PAT, sections)
    {
      assert sections[i..][1..] == sections[i + 1..];
      var pat := ParsePat(table, sections[i]);
      if pat.Err? {
        return Err;
      }
      var programs := MergePrograms(combined.programs, pat.value.programs);
      combined := Pat(pat.value.streamId, pat.value.version, pat.value.networkPid, programs);
    }
    r := Ok(combined);
  }

  /** tableSectionSet.add */
  method AddSection(t: Demux.TableSet, section: Section) returns (added: Demux.Added)
    ensures added == Demux.Add(t, section)
  {
    hide LengthField, Version, CurrentNext;
    if !Demux.Countable(section) {
      return Demux.Added(t, false, false);
    }
    var next := t;
    var reset := false;
    if !Demux.SameTable(t, section) {
      next := Demux.TableSet(true, Demux.Extension(section), Version(section[5]), Demux.Last(section), map[]);
      reset := true;
    }
    next := next.(sections := next.sections[Demux.Number(section) := section]);
    if |next.sections| != next.last + 1 {
      return Demux.Added(next, reset, false);
    }
    for number := 0 to next.last + 1
      invariant forall n | 0 <= n < number :: n in next.sections
    {
      if number !in next.sections {
        return Demux.Added(next, reset, false);
      }
    }
    added := Demux.Added(next, reset, true);
  }

  /** tableSectionSet.ordered */
  method OrderedSections(t: Demux.TableSet) returns (sections: seq<Section>)
    requires Demux.IsComplete(t)
    ensures sections == Demux.Ordered(t)
  {
    sections := [];
    for number := 0 to t.last + 1
      invariant sections == Demux.Ordered(t)[..number]
    {
      sections := sections + [t.sections[number]];
    }
  }

  /** What a run of events makes of the demultiplexer, and that each of them could happen. */
  ghost predicate Leads(d: Demux.Demuxer, events: seq<Demux.Event>, e: Demux.Demuxer)
    decreases |events|
  {
    if events == [] then d == e
    else Demux.Possible(d, events[0]) && Leads(Demux.Observe(d, events[0]), events[1..], e)
  }

  /** The CA PIDs that the sections of a CAT name. */
  function Named(caOf: Section -> set<uint16>, sections: seq<Section>): set<uint16>
    decreases |sections|
  {
    if sections == [] then {} else Named(caOf, sections[..|sections| - 1]) + caOf(sections[|sections| - 1])
  }

  function NamedBy(d: Demux.Demuxer, caOf: Section -> set<uint16>, section: Section): set<uint16> {
    var added := Demux.Add(d.catSections, section);
    if added.ready then ReadyIsComplete(d.catSections, section); Named(caOf, Demux.Ordered(added.next)) else {}
  }

  /** What the switch of FeedWithPID makes of one section: the table must come on a PID of its own kind. */
  ghost predicate Handled(d: Demux.Demuxer, pid: uint16, section: Section,
                          pmtOf: Section -> Option<Pmt>, caOf: Section -> set<uint16>, e: Demux.Demuxer)
  {
    if |section| == 0 then d == e
    else if section[0] == TABLE_ID then
      if pid == 0 then exists byPid :: Demux.Possible(d, Demux.SawPat(section, byPid)) && e == Demux.ObservePat(d, section, byPid)
      else d == e
    else if section[0] == TABLE_ID_CAT then
      if pid == 1 && |section| >= 12 && ValidCrc(section) then e == Demux.ObserveCat(d, section, NamedBy(d, caOf, section)) else d == e
    else if section[0] == TABLE_ID_PMT && pid in d.pmtByPid then
      var pmt := pmtOf(section);
      if pmt.Some? && pmt.value.program == d.pmtByPid[pid] && pmt.value.program in d.programs
      then e == Demux.ObservePmt(d, pmt.value.program, pmt.value.pids, pmt.value.sectionPids)
      else d == e
    else d == e
  }

  /** The PIDs whose packets FeedWithPID assembles. */
  predicate Looked(d: Demux.Demuxer, pid: uint16) {
    Shared(pid) || pid in d.pmtByPid || pid in d.sectionPids
  }

  /** The sections of a packet one after the other. */
  ghost predicate HandledAll(d: Demux.Demuxer, pid: uint16, sections: seq<Section>,
                             pmtOf: Section -> Option<Pmt>, caOf: Section -> set<uint16>, e: Demux.Demuxer)
    decreases |sections|
  {
    if sections == [] then d == e
    else exists m: Demux.Demuxer ::
      Handled(d, pid, sections[0], pmtOf, caOf, m) && HandledAll(m, pid, sections[1..], pmtOf, caOf, e)
  }

  class Demuxer {
    const table: array<bv32>
    const pmtOf: Section -> Option<Pmt>
    const caOf: Section -> set<uint16>
    var assemblers: map<uint16, Assembler>
    var emm: set<uint16>
    var catSections: Demux.TableSet
    var pat: Option<Pat>
    var generation: nat
    var patSections: Demux.TableSet
    var pmtByPid: map<uint16, uint16>
    var sectionPids: set<uint16>
    var programs: map<uint16, Demux.Program>

    ghost function State(): Demux.Demuxer
      reads this
    {
      Demux.Demuxer(assemblers, emm, catSections, pat, generation, patSections, pmtByPid, sectionPids, programs)
    }

    ghost predicate Valid()
      reads this, table
    {
      IsTable(table[..]) && ServiceView.DemuxOk(State())
    }

    constructor (table: array<bv32>, pmtOf: Section -> Option<Pmt>, caOf: Section -> set<uint16>)
      requires IsTable(table[..])
      ensures Valid() && State() == Demux.NEW_DEMUXER
    {
      this.table, this.pmtOf, this.caOf := table, pmtOf, caOf;
      assemblers, emm, catSections, pat, generation := map[], {}, Demux.EMPTY_TABLE, Demux.None, 0;
      patSections, pmtByPid, sectionPids, programs := Demux.EMPTY_TABLE, map[], {}, map[];
      new;
      ServiceView.StartOk(0);
    }

    /** The loop of observePAT that adds the programs of a complete table. */
    method AddPrograms(combined: Pat) returns (byPid: map<uint16, uint16>)
      modifies this`programs
      ensures programs == old(programs) + Demux.Programs(old(programs), combined)
      ensures Demux.ByPid(byPid, combined.programs)
    {
      hide Indexed, Taken;
      byPid := map[];
      NothingIndexed(combined.programs);
      NothingTaken(programs, combined);
      var todo := combined.programs.Keys;
      while todo != {}
        invariant todo <= combined.programs.Keys
        invariant programs == Taken(old(programs), combined, todo)
        invariant Indexed(byPid, combined.programs, todo)
        decreases |todo|
      {
        var service :| service in todo;
        var pid := combined.programs[service];
        IndexOne(byPid, combined.programs, todo, service);
        byPid := byPid[pid := service];
        AddTaken(old(programs), combined, todo, service);
        if service !in programs || programs[service].pmtPid != pid {
          programs := programs[service := Demux.Program(pid, {}, {})];
        }
        todo := todo - {service};
      }
      IndexedAll(byPid, combined.programs);
      AllTaken(old(programs), combined);
    }

    method UpdatePrograms(combined: Pat) returns (byPid: map<uint16, uint16>)
      modifies this`programs
      ensures programs == Demux.Programs(old(programs), combined)
      ensures Demux.ByPid(byPid, combined.programs)
    {
      hide Demux.ByPid;
      byPid := AddPrograms(combined);
      DropPrograms(combined);
    }

    method DropPrograms(combined: Pat)
      modifies this`programs
      ensures programs == map s | s in old(programs) && s in combined.programs :: old(programs)[s]
    {
      var todo := programs.Keys;
      while todo != {}
        invariant todo <= programs.Keys <= old(programs.Keys)
        invariant forall s | s in programs :: programs[s] == old(programs)[s]
        invariant forall s | s in old(programs) :: s in programs <==> s in todo || s in combined.programs
        decreases |todo|
      {
        var service :| service in todo;
        if service !in combined.programs {
          programs := programs - {service};
        }
        todo := todo - {service};
      }
    }

    /** Forgets the assemblers of the PIDs in gone that are not kept. */
    method DropAssemblers(gone: set<uint16>, kept: set<uint16>)
      modifies this`assemblers
      ensures assemblers == old(assemblers) - (gone - kept)
    {
      var todo := gone;
      while todo != {}
        invariant todo <= gone
        invariant assemblers == old(assemblers) - ((gone - todo) - kept)
        decreases |todo|
      {
        var pid :| pid in todo;
        if pid !in kept {
          assemblers := assemblers - {pid};
        }
        todo := todo - {pid};
      }
    }

    method ObservePat(section: Section) returns (ghost event: Demux.Event)
      requires IsTable(table[..])
      modifies this
      ensures event == Demux.SawPat(section, pmtByPid) && Demux.Possible(old(State()), event)
      ensures State() == Demux.Observe(old(State()), event)
    {
      hide IsTable, Demux.Add, Demux.Combine, Demux.SamePat, Demux.ByPid, Demux.Programs;
      var added := AddSection(patSections, section);
      patSections := added.next;
      if added.reset {
        pat := Demux.None;
      }
      if !added.ready {
        return Demux.SawPat(section, pmtByPid);
      }
      ReadyIsComplete(old(patSections), section);
      var sections := OrderedSections(patSections);
      var combined := CombineSections(table, sections);
      if combined.Err? {
        return Demux.SawPat(section, pmtByPid);
      }
      TakePat(combined.value);
      event := Demux.SawPat(section, pmtByPid);
    }

    method TakePat(combined: Pat)
      modifies this
      ensures State() == Demux.TakePat(old(State()), combined, pmtByPid) && Demux.ByPid(pmtByPid, combined.programs)
    {
      hide Demux.SamePat, Demux.ByPid, Demux.Programs;
      var same := SamePatLoop(pat, combined);
      pat := Demux.Some(combined);
      if !same {
        generation := generation + 1;
      }
      var byPid := UpdatePrograms(combined);
      DropAssemblers(pmtByPid.Keys, byPid.Keys);
      pmtByPid := byPid;
    }

    method ObserveCat(section: Section) returns (ghost event: Demux.Event)
      modifies this
      ensures event == Demux.SawCat(section, NamedBy(old(State()), caOf, section))
      ensures Demux.Possible(old(State()), event) && State() == Demux.Observe(old(State()), event)
    {
      hide Demux.Add;
      var added := AddSection(catSections, section);
      catSections := added.next;
      if !added.ready {
        return Demux.SawCat(section, {});
      }
      ReadyIsComplete(old(catSections), section);
      var sections := OrderedSections(catSections);
      var named: set<uint16> := {};
      for i := 0 to |sections|
        invariant named == Named(caOf, sections[..i]) && State() == old(State()).(catSections := added.next)
      {
        assert sections[..i + 1][..i] == sections[..i];
        named := named + caOf(sections[i]);
      }
      assert sections[..|sections|] == sections;
      emm := named;
      event := Demux.SawCat(section, named);
    }

    method ObservePmt(service: uint16, section: Section) returns (ghost events: seq<Demux.Event>)
      modifies this
      ensures Leads(old(State()), events, State())
      ensures var pmt := pmtOf(section);
              State() == if pmt.Some? && pmt.value.program == service && service in old(programs)
                         then Demux.ObservePmt(old(State()), service, pmt.value.pids, pmt.value.sectionPids)
                         else old(State())
    {
      var pmt := pmtOf(section);
      if pmt.None? || pmt.value.program != service || service !in programs {
        return [];
      }
      events := [Demux.SawPmt(service, pmt.value.pids, pmt.value.sectionPids)];
      programs := programs[service := programs[service].(pids := pmt.value.pids, sectionPids := pmt.value.sectionPids)];
      RebuildSectionPids();
      assert Leads(State(), [], State()) && events[1..] == [];
    }

    method RebuildSectionPids()
      modifies this`sectionPids, this`assemblers
      ensures sectionPids == Demux.AllSectionPids(programs)
      ensures assemblers == old(assemblers) - (old(sectionPids) - Demux.AllSectionPids(programs))
    {
      var named: set<uint16> := {};
      var todo := programs.Keys;
      while todo != {}
        invariant todo <= programs.Keys
        invariant named == set s, pid | s in programs && s !in todo && pid in programs[s].sectionPids :: pid
        decreases |todo|
      {
        var service :| service in todo;
        ghost var before := todo;
        named := named + programs[service].sectionPids;
        todo := todo - {service};
        assert forall s | s in programs :: s !in todo <==> s == service || s !in before;
      }
      DropAssemblers(sectionPids, named);
      sectionPids := named;
    }

    predicate ShouldAssemble(pid: uint16)
      reads this
      ensures ShouldAssemble(pid) <==> Looked(State(), pid)
    {
      Shared(pid) || pid in pmtByPid || pid in sectionPids
    }

    method Dispatch(pid: uint16, section: Section) returns (ghost events: seq<Demux.Event>)
      requires IsTable(table[..]) && |section| > 0
      modifies this
      ensures Leads(old(State()), events, State())
      ensures Handled(old(State()), pid, section, pmtOf, caOf, State())
    {
      hide IsTable, Demux.ObservePat, Demux.ObserveCat, Demux.ObservePmt, Demux.Possible, ValidCrc, LengthField, NamedBy;
      ghost var event;
      events := [];
      if section[0] == TABLE_ID {
        if pid == 0 {
          event := ObservePat(section);
          events := [event];
        }
      } else if section[0] == TABLE_ID_CAT {
        if pid == 1 {
          var intact := ValidateCrc(table, section);
          if |section| >= 12 && intact {
            event := ObserveCat(section);
            events := [event];
          }
        }
      } else if section[0] == TABLE_ID_PMT && pid in pmtByPid {
        events := ObservePmt(pmtByPid[pid], section);
        return;
      }
      assert Leads(State(), [], State());
    }

    /** The loop of FeedWithPID over the sections that the packet completes. */
    method HandleSections(pid: uint16, sections: seq<Section>) returns (result: seq<(uint16, Section)>, ghost events: seq<Demux.Event>)
      requires IsTable(table[..]) && AllValid(sections)
      modifies this
      ensures Leads(old(State()), events, State())
      ensures HandledAll(old(State()), pid, sections, pmtOf, caOf, State())
      ensures result == seq(|sections|, k requires 0 <= k < |sections| => (pid, sections[k]))
    {
      hide IsTable, ValidCrc, Demux.Observe, Demux.Possible, Handled, HandledAll;
      NothingHandled(pmtOf, caOf);
      result, events := [], [];
      ghost var start := State();
      assert Leads(start, [], start) && sections[..0] == [];
      for i := 0 to |sections|
        invariant Leads(start, events, State()) && HandledAll(start, pid, sections[..i], pmtOf, caOf, State())
        invariant result == seq(i, k requires 0 <= k < i => (pid, sections[k]))
      {
        ghost var now := State();
        result := result + [(pid, sections[i])];
        assert sections[i] in sections;
        ValidIsLong(sections[i]);
        ghost var more := Dispatch(pid, sections[i]);
        OneMoreHandled(start, pid, sections[..i], sections[i], pmtOf, caOf, now, State());
        assert sections[..i + 1] == sections[..i] + [sections[i]];
        LeadsTwice(start, events, now, more, State());
        events := events + more;
      }
      assert sections[..|sections|] == sections;
    }

    /** FeedWithPID; the second result is what the demultiplexer saw in the packet. */
    method FeedWithPid(packet: Packet) returns (result: seq<(uint16, Section)>, ghost events: seq<Demux.Event>)
      requires Valid()
      modifies this
      ensures Valid() && Leads(old(State()), events, State())
      ensures HandledAll(Assembled(old(State()), packet), Pid(packet), FedSections(old(State()), packet), pmtOf, caOf, State())
      ensures result == Tagged(old(State()), packet)
    {
      hide IsTable, AllValid, Demux.Observe, Demux.Possible, ServiceView.DemuxOk, Demux.Usable, Sections.Feed, Handled, HandledAll;
      NothingHandled(pmtOf, caOf);
      result, events := [], [];
      ghost var start := State();
      assert Leads(start, [], start);
      if !Demux.Usable(packet) {
        return;
      }
      var pid := Pid(packet);
      if !ShouldAssemble(pid) {
        return;
      }
      if pid !in assemblers {
        assemblers := assemblers[pid := Assembler(pid, [], 0, false)];
      }
      var fed := Sections.Feed(assemblers[pid], packet);
      assemblers := assemblers[pid := fed.next];
      FirstEvent(start, packet);
      AssembledIs(start, packet);
      FeedDeliversValid(Demux.AssemblerOf(start, pid), packet);
      ghost var now := State();
      ghost var more;
      result, more := HandleSections(pid, fed.sections);
      events := [Demux.Assembled(packet)] + more;
      LeadsTwice(start, [Demux.Assembled(packet)], now, more, State());
      LeadsKeeps(start, events, State());
    }
  }

  lemma NothingHandled(pmtOf: Section -> Option<Pmt>, caOf: Section -> set<uint16>)
    ensures forall d: Demux.Demuxer, pid: uint16 :: HandledAll(d, pid, [], pmtOf, caOf, d)
  {
  }

  lemma {:induction false} OneMoreHandled(d: Demux.Demuxer, pid: uint16, sections: seq<Section>, section: Section,
                       pmtOf: Section -> Option<Pmt>, caOf: Section -> set<uint16>, m: Demux.Demuxer, e: Demux.Demuxer)
    requires HandledAll(d, pid, sections, pmtOf, caOf, m) && Handled(m, pid, section, pmtOf, caOf, e)
    ensures HandledAll(d, pid, sections + [section], pmtOf, caOf, e)
    decreases |sections|
  {
    hide Handled;
    if sections == [] {
      assert [section][1..] == [] && HandledAll(e, pid, [], pmtOf, caOf, e);
      assert Handled(d, pid, ([] + [section])[0], pmtOf, caOf, e);
    } else {
      var n: Demux.Demuxer :| Handled(d, pid, sections[0], pmtOf, caOf, n) && HandledAll(n, pid, sections[1..], pmtOf, caOf, m);
      OneMoreHandled(n, pid, sections[1..], section, pmtOf, caOf, m, e);
      assert (sections + [section])[1..] == sections[1..] + [section] && (sections + [section])[0] == sections[0];
    }
  }

  /** The sections that a packet completes, if it is looked at. */
  function FedSections(d: Demux.Demuxer, packet: Packet): seq<Section> {
    if !Demux.Usable(packet) || !Looked(d, Pid(packet)) then []
    else Sections.Feed(Demux.AssemblerOf(d, Pid(packet)), packet).sections
  }

  function Assembled(d: Demux.Demuxer, packet: Packet): Demux.Demuxer {
    if !Demux.Usable(packet) || !Looked(d, Pid(packet)) then d else Demux.Assemble(d, packet)
  }

  /** The sections that a packet completes, each with the packet's PID. */
  function Tagged(d: Demux.Demuxer, packet: Packet): seq<(uint16, Section)> {
    var sections := FedSections(d, packet);
    seq(|sections|, k requires 0 <= k < |sections| => (Pid(packet), sections[k]))
  }

  /** The PMT PIDs of all programs but those that are still to do. */
  predicate Indexed(byPid: map<uint16, uint16>, programs: map<uint16, uint16>, todo: set<uint16>) {
    && (forall pid | pid in byPid :: byPid[pid] in programs && programs[byPid[pid]] == pid)
    && (forall service | service in programs && service !in todo :: programs[service] in byPid)
  }

  lemma NothingIndexed(programs: map<uint16, uint16>)
    ensures Indexed(map[], programs, programs.Keys)
  {
  }

  lemma IndexOne(byPid: map<uint16, uint16>, programs: map<uint16, uint16>, todo: set<uint16>, service: uint16)
    requires Indexed(byPid, programs, todo) && service in programs
    ensures Indexed(byPid[programs[service] := service], programs, todo - {service})
  {
  }

  lemma IndexedAll(byPid: map<uint16, uint16>, programs: map<uint16, uint16>)
    requires Indexed(byPid, programs, {})
    ensures Demux.ByPid(byPid, programs)
  {
  }

  /** The programs before, with those that are done as the PAT has them. */
  function Taken(known: map<uint16, Demux.Program>, pat: Pat, todo: set<uint16>): map<uint16, Demux.Program> {
    known + (Demux.Programs(known, pat) - todo)
  }

  lemma NothingTaken(known: map<uint16, Demux.Program>, pat: Pat)
    ensures Taken(known, pat, pat.programs.Keys) == known
  {
  }

  lemma AllTaken(known: map<uint16, Demux.Program>, pat: Pat)
    ensures Taken(known, pat, {}) == known + Demux.Programs(known, pat)
  {
    assert Demux.Programs(known, pat) - {} == Demux.Programs(known, pat);
  }

  lemma AddTaken(known: map<uint16, Demux.Program>, pat: Pat, todo: set<uint16>, service: uint16)
    requires service in pat.programs && service in todo
    ensures var now, pid := Taken(known, pat, todo), pat.programs[service];
            Taken(known, pat, todo - {service}) ==
            if service !in now || now[service].pmtPid != pid then now[service := Demux.Program(pid, {}, {})] else now
  {
    var now, next := Taken(known, pat, todo), Taken(known, pat, todo - {service});
    assert next == now[service := Demux.Programs(known, pat)[service]];
    assert service in now ==> now[service] == known[service];
  }

  lemma ReadyIsComplete(t: Demux.TableSet, section: Section)
    ensures Demux.Add(t, section).ready ==> Demux.IsComplete(Demux.Add(t, section).next)
  {
  }

  lemma ValidIsLong(s: Section)
    requires ValidCrc(s)
    ensures |s| >= 4
  {
  }

  lemma AssembledIs(d: Demux.Demuxer, packet: Packet)
    ensures Demux.Observe(d, Demux.Assembled(packet)) == Demux.Assemble(d, packet)
  {
  }

  lemma FirstEvent(d: Demux.Demuxer, packet: Packet)
    ensures Leads(d, [Demux.Assembled(packet)], Demux.Observe(d, Demux.Assembled(packet)))
  {
    hide Demux.Observe;
    assert [Demux.Assembled(packet)][1..] == [];
  }

  lemma {:induction false} LeadsTwice(d: Demux.Demuxer, first: seq<Demux.Event>, e: Demux.Demuxer, second: seq<Demux.Event>, f: Demux.Demuxer)
    requires Leads(d, first, e) && Leads(e, second, f)
    ensures Leads(d, first + second, f)
    decreases |first|
  {
    hide Demux.Possible, Demux.Observe;
    if first == [] {
      assert first + second == second;
    } else {
      LeadsTwice(Demux.Observe(d, first[0]), first[1..], e, second, f);
      assert (first + second)[1..] == first[1..] + second;
    }
  }

  lemma {:induction false} LeadsKeeps(d: Demux.Demuxer, events: seq<Demux.Event>, e: Demux.Demuxer)
    requires ServiceView.DemuxOk(d) && Leads(d, events, e)
    ensures ServiceView.DemuxOk(e)
    decreases |events|
  {
    hide Demux.Possible, Demux.Observe, ServiceView.DemuxOk;
    if events != [] {
      ServiceView.ObserveKeepsDemux(d, events[0]);
      LeadsKeeps(Demux.Observe(d, events[0]), events[1..], e);
    }
  }

  /** ServiceDemux: one view, with its own PAT packets and continuity counter. */
  class ServiceDemux {
    const demux: Demuxer
    const service: uint16
    var generation: nat
    var patCounter: byte
    var patIndex: nat
    var patPackets: seq<Packet>

    ghost function Output(): Demux.Output
      reads this
    {
      Demux.Output(generation, patCounter, patIndex, patPackets)
    }

    ghost predicate Valid()
      reads this, demux, demux.table
    {
      demux.Valid() && ServiceView.ViewOk(service, ServiceView.View(demux.State(), Output()))
    }

    constructor (demux: Demuxer, service: uint16)
      requires demux.Valid()
      ensures Valid() && this.demux == demux && this.service == service && Output() == Demux.NEW_OUTPUT
    {
      this.demux, this.service := demux, service;
      generation, patCounter, patIndex, patPackets := 0, 0, 0, [];
      new;
      ServiceView.ZeroCounter();
    }

    /** rebuildPATOutput; its panic is the assertion of false, which cannot be reached. */
    method RebuildPatOutput()
      requires IsTable(demux.table[..]) && Demux.Buildable(demux.State())
      modifies this
      ensures Output() == Demux.Rebuild(demux.State(), service, old(Output()))
    {
      hide IsTable, Build, Packetize;
      if demux.pat.None? || service !in demux.pat.value.programs {
        return;
      }
      var pat := demux.pat.value;
      var pmtPid := pat.programs[service];
      BuildThenParse(pat.streamId, service, pmtPid, pat.version);
      var section := BuildPatSection(demux.table, pat.streamId, service, pmtPid, pat.version);
      if section.Err? {
        assert false;
      }
      var packets, _ := PacketizeSection(0, section.value, 0);
      patPackets := packets;
      patIndex := 0;
      generation := demux.generation;
    }

    /** servicePacket */
    method Packet(packet: Packet) returns (shown: Option<Packet>)
      requires Valid()
      modifies this
      ensures Valid()
      ensures Demux.Emitted(Output(), shown) == Demux.Emit(demux.State(), service, old(Output()), packet)
    {
      hide ServiceView.DemuxOk, IsTable, Demux.Usable, Demux.CommonPid, Demux.Rebuild, ServiceView.OutputOk, Demux.Stamped;
      ServiceView.BuildableOf(demux.State());
      ServiceView.CurrentIndex(service, ServiceView.View(demux.State(), Output()));
      ServiceView.ShowsKeepsView(service, ServiceView.View(demux.State(), Output()), packet);
      if !Demux.Usable(packet) || service !in demux.programs {
        return Demux.None;
      }
      if generation != demux.generation {
        RebuildPatOutput();
      }
      if Pid(packet) == 0 {
        if |patPackets| == 0 {
          return Demux.None;
        }
        var result := Stamp(patPackets[patIndex], patCounter);
        patIndex := (patIndex + 1) % |patPackets|;
        patCounter := NextCounter(patCounter);
        return Demux.Some(result);
      }
      var pid := Pid(packet);
      var program := demux.programs[service];
      if Demux.CommonPid(pid) || pid == program.pmtPid || pid in program.pids || pid in demux.emm {
        return Demux.Some(packet);
      }
      shown := Demux.None;
    }
  }

  /** The copy of a PAT packet with the view's counter written into its fourth byte. */
  method Stamp(p: Packet, counter: byte) returns (stamped: Packet)
    ensures stamped == Demux.Stamped(p, counter)
  {
    var copy := new byte[PACKET_SIZE](i requires 0 <= i < PACKET_SIZE => p[i]);
    copy[3] := (copy[3] & 0xf0) | (counter & 0x0f);
    stamped := copy[..];
  }
}
