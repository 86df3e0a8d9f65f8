/**
 When an EIT schedule is complete, internal/epg/snapshot.go: eight tables of 256 sections
 each, the sections that have been seen and those that need not come.  After any run the
 state is determined by which sections arrived since the last reset, not by their order.
 */
module Readiness {
  type byte = b: int | 0 <= b < 0x100

  datatype Section = Section(tableId: byte, lastTableId: byte, version: byte, number: byte, last: byte, segmentLast: byte)

  /** A section, and the three-hour segment of the day in Japan in which it arrived. */
  datatype Seen = Seen(section: Section, now: nat)

  datatype Table = Table(observed: bool, version: byte, flag: set<nat>, ignore: set<nat>)

  datatype Group = Group(lastFlags: int, tables: seq<Table>)

  function UpTo(n: nat): (r: set<nat>)
    ensures forall k: nat :: k in r <==> k < n
  {
    if n == 0 then {} else UpTo(n - 1) + {n - 1}
  }

  /** The numbers of all sections that a table can have. */
  function All(): (r: set<nat>)
    ensures forall k: nat :: k in r <==> k < 256
  {
    UpTo(256)
  }

  function FlagsId(s: Section): nat {
    s.tableId % 8
  }

  function LastFlagsId(s: Section): nat {
    s.lastTableId % 8
  }

  /** isCurrentScheduleBase of the section's table group */
  predicate IsCurrent(s: Section) {
    s.tableId - s.tableId % 8 in {0x50, 0x58, 0x60, 0x68}
  }

  /** currentJSTSegment: milliseconds since 1970, in Japan nine hours ahead, in segments of three hours. */
  function Segment(now: nat): (r: nat)
    ensures r < 8
  {
    ((now + 32400000) / 10800000) % 8
  }

  function NewGroup(): Group {
    Group(-1, seq(8, _ => Table(false, 0, {}, All())))
  }

  function ResetTables(lastFlags: nat): seq<Table> {
    seq(8, i => Table(false, 0, {}, if i <= lastFlags then {} else All()))
  }

  // ----- observeReady -----

  predicate Resets(g: Group, s: Section)
    requires |g.tables| == 8
  {
    var t := g.tables[FlagsId(s)];
    g.lastFlags != LastFlagsId(s) || (t.observed && t.version != s.version)
  }

  /** What a section lets go: the past of today, the segments after the last, and the rest of its own segment. */
  predicate LetsGo(x: Seen, n: nat) {
    var s := x.section;
    && n < 256
    && (|| (FlagsId(s) == 0 && IsCurrent(s) && n / 8 < Segment(x.now))
        || n / 8 > s.last / 8
        || (n / 8 == s.number / 8 && n % 8 > s.segmentLast % 8))
  }

  function LetGo(x: Seen): set<nat> {
    set n: nat | 0 <= n < 256 && LetsGo(x, n)
  }

  function Base(g: Group, s: Section): Group
    requires |g.tables| == 8
  {
    if Resets(g, s) then Group(LastFlagsId(s), ResetTables(LastFlagsId(s))) else g
  }

  function Observe(g: Group, x: Seen): Group
    requires |g.tables| == 8
  {
    var s := x.section;
    var h := Base(g, s);
    var t := h.tables[FlagsId(s)];
    h.(tables := h.tables[FlagsId(s) := Table(true, s.version, t.flag + {s.number}, t.ignore + LetGo(x))])
  }

  /** What observeReady returns. */
  predicate Changes(g: Group, x: Seen)
    requires |g.tables| == 8
  {
    var s := x.section;
    var t := Base(g, s).tables[FlagsId(s)];
    Resets(g, s) || !t.observed || t.version != s.version || s.number !in t.flag || !(LetGo(x) <= t.ignore)
  }

  // ----- ready -----

  predicate TableComplete(t: Table) {
    forall n | n in All() :: n in t.flag || n in t.ignore
  }

  predicate Ready(g: Group) {
    forall i | 0 <= i < |g.tables| :: TableComplete(g.tables[i])
  }

  /** readyMissingSections, from section n on */
  function MissingFrom(t: Table, n: nat): (r: seq<nat>)
    requires n <= 256
    decreases 256 - n
  {
    if n == 256 then []
    else (if n in t.flag || n in t.ignore then [] else [n]) + MissingFrom(t, n + 1)
  }

  function Missing(t: Table): seq<nat> {
    MissingFrom(t, 0)
  }

  lemma {:induction false} MissingExactly(t: Table, n: nat)
    requires n <= 256
    ensures forall k: nat :: k in MissingFrom(t, n) <==> n <= k < 256 && k !in t.flag && k !in t.ignore
    ensures forall a, b | 0 <= a < b < |MissingFrom(t, n)| :: MissingFrom(t, n)[a] < MissingFrom(t, n)[b]
    decreases 256 - n
  {
    if n < 256 {
      MissingExactly(t, n + 1);
      var rest := MissingFrom(t, n + 1);
      assert forall a | 0 <= a < |rest| :: rest[a] in rest;
    }
  }

  /** A group is ready exactly if every table is complete, and exactly if no table misses a section. */
  lemma ReadyExactly(g: Group)
    ensures Ready(g) <==> forall i | 0 <= i < |g.tables| :: Missing(g.tables[i]) == []
  {
    forall i | 0 <= i < |g.tables|
      ensures TableComplete(g.tables[i]) <==> Missing(g.tables[i]) == []
    {
      CompleteExactly(g.tables[i]);
    }
  }

  lemma CompleteExactly(t: Table)
    ensures TableComplete(t) <==> Missing(t) == []
  {
    MissingExactly(t, 0);
    if Missing(t) != [] {
      var k := Missing(t)[0];
      assert k in Missing(t) && k in All();
    }
  }

  // ----- runs -----

  function Run(xs: seq<Seen>): (g: Group)
    ensures |g.tables| == 8
    decreases |xs|
  {
    if xs == [] then NewGroup() else Observe(Run(xs[..|xs| - 1]), xs[|xs| - 1])
  }

  /** The sections since the last reset, with the one that caused it. */
  function SinceReset(xs: seq<Seen>): seq<Seen>
    decreases |xs|
  {
    if xs == [] then []
    else
      var before, x := xs[..|xs| - 1], xs[|xs| - 1];
      if Resets(Run(before), x.section) then [x] else SinceReset(before) + [x]
  }

  predicate Of(x: Seen, i: nat) {
    FlagsId(x.section) == i
  }

  /** The table has exactly what the sections in xs say. */
  ghost predicate TableDescribes(t: Table, lastFlags: int, xs: seq<Seen>, i: nat) {
    && (t.observed <==> exists x | x in xs :: Of(x, i))
    && (forall x | x in xs && Of(x, i) :: t.version == x.section.version)
    && (!t.observed ==> t.version == 0)
    && (forall n: nat :: n in t.flag <==> exists x | x in xs :: Of(x, i) && x.section.number == n)
    && (forall n: nat :: n in t.ignore <==> n < 256 && (i > lastFlags || exists x | x in xs :: Of(x, i) && LetsGo(x, n)))
  }

  ghost predicate Describes(g: Group, xs: seq<Seen>) {
    |g.tables| == 8 && forall i | 0 <= i < 8 :: TableDescribes(g.tables[i], g.lastFlags, xs, i)
  }

  lemma ResetDescribes(lastFlags: nat)
    ensures Describes(Group(lastFlags, ResetTables(lastFlags)), [])
  {
    forall i | 0 <= i < 8
      ensures TableDescribes(ResetTables(lastFlags)[i], lastFlags, [], i)
    {
      assert ResetTables(lastFlags)[i] == Table(false, 0, {}, if i <= lastFlags then {} else All());
    }
  }

  lemma NewDescribes()
    ensures Describes(NewGroup(), [])
  {
  }

  lemma AddDescribes(g: Group, xs: seq<Seen>, x: Seen)
    requires Describes(g, xs) && !Resets(g, x.section)
    ensures Describes(Observe(g, x), xs + [x])
  {
    hide LetsGo;
    var h := Observe(g, x);
    forall i | 0 <= i < 8
      ensures TableDescribes(h.tables[i], h.lastFlags, xs + [x], i)
    {
      assert TableDescribes(g.tables[i], g.lastFlags, xs, i);
      if i == FlagsId(x.section) { AddTable(g.tables[i], g.lastFlags, xs, x, i); } else { OtherTable(g.tables[i], g.lastFlags, xs, x, i); }
    }
  }

  lemma AddTable(t: Table, lastFlags: int, xs: seq<Seen>, x: Seen, i: nat)
    requires TableDescribes(t, lastFlags, xs, i) && Of(x, i) && (t.observed ==> t.version == x.section.version)
    ensures TableDescribes(Table(true, x.section.version, t.flag + {x.section.number}, t.ignore + LetGo(x)), lastFlags, xs + [x], i)
  {
    LetGoIs(x);
    hide LetsGo, LetGo, Of;
    var more := xs + [x];
    assert x in more && forall y | y in xs :: y in more;
    forall n: nat
      ensures n in t.flag + {x.section.number} <==> exists y | y in more :: Of(y, i) && y.section.number == n
    {
      if n in t.flag {
        var y :| y in xs && Of(y, i) && y.section.number == n;
        assert y in more;
      }
    }
    forall n: nat
      ensures n in t.ignore + LetGo(x) <==> n < 256 && (i > lastFlags || exists y | y in more :: Of(y, i) && LetsGo(y, n))
    {
      LetsGoBound(x, n);
      if n in t.ignore && i <= lastFlags {
        var y :| y in xs && Of(y, i) && LetsGo(y, n);
        assert y in more;
      }
    }
  }

  lemma LetsGoBound(x: Seen, n: nat)
    ensures LetsGo(x, n) ==> n < 256
  {
  }

  lemma LetGoIs(x: Seen)
    ensures forall n: nat :: n in LetGo(x) <==> LetsGo(x, n)
  {
  }

  lemma OtherTable(t: Table, lastFlags: int, xs: seq<Seen>, x: Seen, i: nat)
    requires TableDescribes(t, lastFlags, xs, i) && !Of(x, i)
    ensures TableDescribes(t, lastFlags, xs + [x], i)
  {
    hide LetsGo, Of;
    assert forall y | y in xs :: y in xs + [x];
  }

  /**
   After every run, each bit is set exactly if its section came since the last reset, the
   versions agree, and exactly those sections are ignored that one of them let go.
   */
  lemma {:induction false} RunDescribes(xs: seq<Seen>)
    ensures Describes(Run(xs), SinceReset(xs))
    decreases |xs|
  {
    hide Describes, Observe, Resets;
    if xs == [] {
      NewDescribes();
    } else {
      var before, x := xs[..|xs| - 1], xs[|xs| - 1];
      RunDescribes(before);
      if Resets(Run(before), x.section) {
        var base := Group(LastFlagsId(x.section), ResetTables(LastFlagsId(x.section)));
        ResetDescribes(LastFlagsId(x.section));
        ObserveAfterReset(Run(before), x);
        AddDescribes(base, [], x);
        assert [] + [x] == [x];
      } else {
        AddDescribes(Run(before), SinceReset(before), x);
      }
    }
  }

  lemma ObserveAfterReset(g: Group, x: Seen)
    requires |g.tables| == 8 && Resets(g, x.section)
    ensures var base := Group(LastFlagsId(x.section), ResetTables(LastFlagsId(x.section)));
            !Resets(base, x.section) && Observe(g, x) == Observe(base, x)
  {
  }

  // ----- order does not matter -----

  /** The same section in the same segment of the day, at whatever times. */
  predicate Alike(x: Seen, y: Seen) {
    x.section == y.section && Segment(x.now) == Segment(y.now)
  }

  /** Every section of one list comes in the other too, in the same segment. */
  ghost predicate AllCome(xs: seq<Seen>, ys: seq<Seen>) {
    forall x | x in xs :: exists y :: y in ys && Alike(x, y)
  }

  ghost predicate SameSections(xs: seq<Seen>, ys: seq<Seen>) {
    AllCome(xs, ys) && AllCome(ys, xs)
  }

  lemma Counterpart(xs: seq<Seen>, ys: seq<Seen>, x: Seen) returns (y: Seen)
    requires AllCome(xs, ys) && x in xs
    ensures y in ys && Alike(x, y)
  {
    y :| y in ys && Alike(x, y);
  }

  lemma AlikeLetsGo(x: Seen, y: Seen, n: nat)
    requires Alike(x, y)
    ensures LetsGo(x, n) <==> LetsGo(y, n)
  {
  }

  lemma DescribesPart(t: Table, u: Table, lastFlags: int, xs: seq<Seen>, ys: seq<Seen>, i: nat)
    requires TableDescribes(t, lastFlags, xs, i) && TableDescribes(u, lastFlags, ys, i) && AllCome(xs, ys)
    ensures t.flag <= u.flag && t.ignore <= u.ignore && (t.observed ==> u.observed && t.version == u.version)
  {
    hide LetsGo, Segment, AllCome;
    forall n: nat | n in t.flag
      ensures n in u.flag
    {
      var x :| x in xs && Of(x, i) && x.section.number == n;
      var y := Counterpart(xs, ys, x);
      assert Of(y, i) && y.section.number == n;
    }
    forall n: nat | n in t.ignore && i <= lastFlags
      ensures n in u.ignore
    {
      var x :| x in xs && Of(x, i) && LetsGo(x, n);
      var y := Counterpart(xs, ys, x);
      AlikeLetsGo(x, y, n);
      assert Of(y, i) && LetsGo(y, n);
    }
    if t.observed {
      var x :| x in xs && Of(x, i);
      var y := Counterpart(xs, ys, x);
      assert Of(y, i);
    }
  }

  lemma DescribesOne(g: Group, h: Group, xs: seq<Seen>, ys: seq<Seen>)
    requires Describes(g, xs) && Describes(h, ys) && SameSections(xs, ys) && g.lastFlags == h.lastFlags
    ensures g == h
  {
    hide TableDescribes, AllCome;
    forall i | 0 <= i < 8
      ensures g.tables[i] == h.tables[i]
    {
      DescribesPart(g.tables[i], h.tables[i], g.lastFlags, xs, ys, i);
      DescribesPart(h.tables[i], g.tables[i], g.lastFlags, ys, xs, i);
      Unobserved(g.tables[i], g.lastFlags, xs, i);
      Unobserved(h.tables[i], h.lastFlags, ys, i);
    }
  }

  lemma Unobserved(t: Table, lastFlags: int, xs: seq<Seen>, i: nat)
    requires TableDescribes(t, lastFlags, xs, i)
    ensures !t.observed ==> t.version == 0
  {
  }

  /** The sections of one state of the schedule: one last table, and one version for each table. */
  predicate Compatible(xs: seq<Seen>) {
    forall x, y | x in xs && y in xs ::
      && LastFlagsId(x.section) == LastFlagsId(y.section)
      && (FlagsId(x.section) == FlagsId(y.section) ==> x.section.version == y.section.version)
  }

  /** Compatible sections cause no reset but the first. */
  lemma {:induction false} NoResets(xs: seq<Seen>)
    requires Compatible(xs) && xs != []
    ensures SinceReset(xs) == xs && Run(xs).lastFlags == LastFlagsId(xs[0].section)
    decreases |xs|
  {
    hide LetsGo, Describes, Observe, LetGo, UpTo, All, ResetTables;
    var before, x := xs[..|xs| - 1], xs[|xs| - 1];
    KeepsLastFlags(Run(before), x);
    if before == [] {
      assert [x] == xs;
    } else {
      NoResets(before);
      RunDescribes(before);
      VersionAgrees(Run(before), before, x);
    }
  }

  lemma KeepsLastFlags(g: Group, x: Seen)
    requires |g.tables| == 8
    ensures Observe(g, x).lastFlags == LastFlagsId(x.section)
  {
  }

  lemma VersionAgrees(g: Group, xs: seq<Seen>, x: Seen)
    requires Describes(g, xs) && Compatible(xs + [x]) && xs != [] && g.lastFlags == LastFlagsId(xs[0].section)
    ensures !Resets(g, x.section)
  {
    hide LetsGo;
    var i := FlagsId(x.section);
    assert x in xs + [x] && xs[0] in xs + [x];
    assert TableDescribes(g.tables[i], g.lastFlags, xs, i);
    if g.tables[i].observed {
      var y :| y in xs && Of(y, i);
      assert y in xs + [x];
    }
  }

  /**
   Sections of one state of the schedule lead to the same group in any order, however
   often and whenever they come, as long as each comes in the same segment of the day.
   */
  lemma OrderDoesNotMatter(xs: seq<Seen>, ys: seq<Seen>)
    requires Compatible(xs) && xs != [] && SameSections(xs, ys)
    ensures Run(xs) == Run(ys)
  {
    AlikeStart(xs, ys);
    AlikeCompatible(xs, ys);
    hide Describes, Compatible, SameSections, Segment;
    NoResets(xs);
    NoResets(ys);
    RunDescribes(xs);
    RunDescribes(ys);
    DescribesOne(Run(xs), Run(ys), xs, ys);
  }

  lemma AlikeStart(xs: seq<Seen>, ys: seq<Seen>)
    requires Compatible(xs) && xs != [] && SameSections(xs, ys)
    ensures ys != [] && LastFlagsId(xs[0].section) == LastFlagsId(ys[0].section)
  {
    hide Segment, AllCome;
    var y := Counterpart(xs, ys, xs[0]);
    var x := Counterpart(ys, xs, ys[0]);
  }

  lemma AlikeCompatible(xs: seq<Seen>, ys: seq<Seen>)
    requires Compatible(xs) && AllCome(ys, xs)
    ensures Compatible(ys)
  {
    hide Segment, AllCome;
    forall a, b | a in ys && b in ys
      ensures LastFlagsId(a.section) == LastFlagsId(b.section)
      ensures FlagsId(a.section) == FlagsId(b.section) ==> a.section.version == b.section.version
    {
      var x := Counterpart(ys, xs, a);
      var y := Counterpart(ys, xs, b);
    }
  }

  // ----- one step -----

  /** Between resets nothing is taken back. */
  lemma OnlyGrows(g: Group, x: Seen)
    requires |g.tables| == 8 && !Resets(g, x.section)
    ensures forall i | 0 <= i < 8 ::
              g.tables[i].flag <= Observe(g, x).tables[i].flag && g.tables[i].ignore <= Observe(g, x).tables[i].ignore
    ensures Ready(g) ==> Ready(Observe(g, x))
  {
    hide LetGo;
    var h := Observe(g, x);
    forall i | 0 <= i < 8 && TableComplete(g.tables[i])
      ensures TableComplete(h.tables[i])
    {
    }
  }

  /** observeReady reports no change exactly if there was no reset and nothing is different. */
  lemma ChangesExactly(g: Group, x: Seen)
    requires |g.tables| == 8
    ensures !Changes(g, x) <==> !Resets(g, x.section) && Observe(g, x) == g
  {
    hide LetGo;
    var s := x.section;
    var i := FlagsId(s);
    if !Resets(g, s) {
      var t := g.tables[i];
      assert Observe(g, x).tables[i] == Table(true, s.version, t.flag + {s.number}, t.ignore + LetGo(x));
      if !Changes(g, x) {
        assert t.flag + {s.number} == t.flag && t.ignore + LetGo(x) == t.ignore;
        assert Observe(g, x).tables == g.tables;
      }
    }
  }
}
