/**
 What readiness means: while the sections of one schedule arrive, the group is ready
 exactly if every table has come with all sections that the schedule has for it, except
 those that were over when a section of the first table arrived.
 */
module ReadinessSchedule {
  import opened Readiness

  /** A table of a schedule: its version, and for each segment how many sections it has beyond the first. */
  datatype Plan = Plan(version: byte, segments: seq<nat>)

  /** The tables of one service, the first at 0. */
  predicate PlanOk(plans: seq<Plan>) {
    && 0 < |plans| <= 8
    && forall i | 0 <= i < |plans| :: 0 < |plans[i].segments| <= 32 && forall j | 0 <= j < |plans[i].segments| :: plans[i].segments[j] < 8
  }

  /** The plan has a section of this number. */
  predicate Planned(plan: Plan, n: nat) {
    n / 8 < |plan.segments| && n % 8 <= plan.segments[n / 8]
  }

  /** The section is one of the plan's, with the table's version, last segment and last section of its segment. */
  predicate Conforms(s: Section, plans: seq<Plan>)
    requires PlanOk(plans)
  {
    var i := s.tableId % 8;
    && s.lastTableId % 8 == |plans| - 1 && i < |plans|
    && s.version == plans[i].version && Planned(plans[i], s.number)
    && s.last / 8 == |plans[i].segments| - 1
    && s.segmentLast % 8 == plans[i].segments[s.number / 8]
  }

  predicate AllConform(xs: seq<Seen>, plans: seq<Plan>)
    requires PlanOk(plans)
  {
    forall x | x in xs :: Conforms(x.section, plans)
  }

  /** The hour of the day in Japan, in threes, at so many milliseconds since 1970. */
  function ThirdOfDay(now: nat): nat {
    ((now / 3600000 + 9) % 24) / 3
  }

  /** The first table is one of those that describe the schedule from today on. */
  predicate FromToday(tableId: byte) {
    tableId == 0x50 || tableId == 0x58 || tableId == 0x60 || tableId == 0x68
  }

  /** A section of today's table came when the segment was over. */
  ghost predicate Over(xs: seq<Seen>, i: nat, n: nat) {
    i == 0 && exists x | x in xs :: FromToday(x.section.tableId) && n / 8 < ThirdOfDay(x.now)
  }

  ghost predicate Came(xs: seq<Seen>, i: nat, n: nat) {
    exists x | x in xs :: x.section.tableId % 8 == i && x.section.number == n
  }

  ghost predicate SomeCame(xs: seq<Seen>, i: nat) {
    exists x | x in xs :: x.section.tableId % 8 == i
  }

  /** Every section that the schedule has for the table came, or was over. */
  ghost predicate AllCame(xs: seq<Seen>, plan: Plan, i: nat) {
    SomeCame(xs, i) && forall n | 0 <= n < 256 && Planned(plan, n) :: Came(xs, i, n) || Over(xs, i, n)
  }

  // ----- the numbers -----

  lemma Hours(now: nat)
    ensures Segment(now) == ThirdOfDay(now)
  {
    var h, r := now / 3600000, now % 3600000;
    assert now + 32400000 == (h + 9) * 3600000 + r;
    var k := h + 9;
    var d, e := k / 24, k % 24;
    assert k == d * 24 + e;
    var t, u := e / 3, e % 3;
    assert e == t * 3 + u && t < 8;
    assert now + 32400000 == (d * 8 + t) * 10800000 + (u * 3600000 + r);
    assert (now + 32400000) / 10800000 == d * 8 + t;
  }

  lemma CurrentExactly(s: Section)
    ensures FlagsId(s) == 0 && IsCurrent(s) <==> FromToday(s.tableId)
  {
  }

  /** What a section of the plan lets go. */
  lemma LetsGoExactly(x: Seen, plans: seq<Plan>, n: nat)
    requires PlanOk(plans) && Conforms(x.section, plans) && n < 256
    ensures var plan := plans[x.section.tableId % 8];
            LetsGo(x, n) <==>
              || (FromToday(x.section.tableId) && n / 8 < ThirdOfDay(x.now))
              || n / 8 >= |plan.segments|
              || (n / 8 == x.section.number / 8 && !Planned(plan, n))
  {
    Hours(x.now);
    CurrentExactly(x.section);
  }

  lemma ConformingAreCompatible(xs: seq<Seen>, plans: seq<Plan>)
    requires PlanOk(plans) && AllConform(xs, plans)
    ensures Compatible(xs)
  {
    hide Planned;
  }

  /** A table whose sections all conform is complete exactly if what it has planned came. */
  lemma TableExactly(t: Table, xs: seq<Seen>, plans: seq<Plan>, i: nat)
    requires PlanOk(plans) && AllConform(xs, plans) && i < |plans| && TableDescribes(t, |plans| - 1, xs, i)
    ensures TableComplete(t) <==> AllCame(xs, plans[i], i)
  {
    hide LetsGo, PlanOk, Conforms, Planned;
    if TableComplete(t) {
      forall n | 0 <= n < 256 && Planned(plans[i], n)
        ensures Came(xs, i, n) || Over(xs, i, n)
      {
        assert n in All();
        PlannedIsNeeded(t, xs, plans, i, n);
      }
      assert 0 in All();
      SomethingCame(t, xs, plans, i);
    }
    if AllCame(xs, plans[i], i) {
      forall n | n in All()
        ensures n in t.flag || n in t.ignore
      {
        CameIsEnough(t, xs, plans, i, n);
      }
    }
  }

  lemma PlannedIsNeeded(t: Table, xs: seq<Seen>, plans: seq<Plan>, i: nat, n: nat)
    requires PlanOk(plans) && AllConform(xs, plans) && i < |plans| && TableDescribes(t, |plans| - 1, xs, i)
    requires n < 256 && Planned(plans[i], n) && (n in t.flag || n in t.ignore)
    ensures Came(xs, i, n) || Over(xs, i, n)
  {
    hide LetsGo, PlanOk, Conforms, ThirdOfDay;
    if n in t.flag {
      var x :| x in xs && Of(x, i) && x.section.number == n;
    } else {
      var x :| x in xs && Of(x, i) && LetsGo(x, n);
      LetsGoExactly(x, plans, n);
    }
  }

  lemma SomethingCame(t: Table, xs: seq<Seen>, plans: seq<Plan>, i: nat)
    requires PlanOk(plans) && i < |plans| && TableDescribes(t, |plans| - 1, xs, i) && (0 in t.flag || 0 in t.ignore)
    ensures SomeCame(xs, i)
  {
    hide LetsGo, PlanOk;
    if 0 in t.flag {
      var x :| x in xs && Of(x, i) && x.section.number == 0;
    } else {
      var x :| x in xs && Of(x, i) && LetsGo(x, 0);
    }
  }

  /** A number is there, was let go as past the end or past its segment's, or was over. */
  lemma CameIsEnough(t: Table, xs: seq<Seen>, plans: seq<Plan>, i: nat, n: nat)
    requires PlanOk(plans) && AllConform(xs, plans) && i < |plans| && TableDescribes(t, |plans| - 1, xs, i)
    requires AllCame(xs, plans[i], i) && n < 256
    ensures n in t.flag || n in t.ignore
  {
    hide LetsGo, PlanOk, Conforms, ThirdOfDay, Planned;
    if Planned(plans[i], n) {
      CameOrOver(t, xs, plans, i, n);
    } else {
      var first := n - n % 8;
      if n / 8 < PlanLength(plans, i) {
        FirstIsPlanned(plans, i, n);
        if Came(xs, i, first) {
          var x :| x in xs && x.section.tableId % 8 == i && x.section.number == first;
          assert Of(x, i);
          SameSegment(n);
          LetsGoExactly(x, plans, n);
        } else {
          var x :| x in xs && FromToday(x.section.tableId) && first / 8 < ThirdOfDay(x.now);
          SameSegment(n);
          TodayIsFirst(x.section);
          LetsGoExactly(x, plans, n);
        }
      } else {
        var x :| x in xs && x.section.tableId % 8 == i;
        assert Of(x, i);
        LetsGoExactly(x, plans, n);
      }
    }
  }

  lemma SameSegment(n: nat)
    ensures (n - n % 8) / 8 == n / 8
  {
  }

  lemma TodayIsFirst(s: Section)
    requires FromToday(s.tableId)
    ensures s.tableId % 8 == 0
  {
  }

  function PlanLength(plans: seq<Plan>, i: nat): nat
    requires i < |plans|
  {
    |plans[i].segments|
  }

  lemma FirstIsPlanned(plans: seq<Plan>, i: nat, n: nat)
    requires PlanOk(plans) && i < |plans| && n / 8 < PlanLength(plans, i)
    ensures Planned(plans[i], n - n % 8)
  {
    SameSegment(n);
  }

  lemma CameOrOver(t: Table, xs: seq<Seen>, plans: seq<Plan>, i: nat, n: nat)
    requires PlanOk(plans) && AllConform(xs, plans) && i < |plans| && TableDescribes(t, |plans| - 1, xs, i)
    requires n < 256 && Planned(plans[i], n) && (Came(xs, i, n) || Over(xs, i, n))
    ensures n in t.flag || n in t.ignore
  {
    hide LetsGo, PlanOk, Conforms, ThirdOfDay, Planned;
    if Came(xs, i, n) {
      var x :| x in xs && x.section.tableId % 8 == i && x.section.number == n;
      assert Of(x, i);
    } else {
      var x :| x in xs && FromToday(x.section.tableId) && n / 8 < ThirdOfDay(x.now);
      TodayIsFirst(x.section);
      assert Of(x, i);
      LetsGoExactly(x, plans, n);
    }
  }

  /** Tables past the last need nothing. */
  lemma PastIsComplete(t: Table, lastFlags: int, xs: seq<Seen>, i: nat)
    requires TableDescribes(t, lastFlags, xs, i) && i > lastFlags
    ensures TableComplete(t)
  {
    hide LetsGo;
  }

  /**
   While sections of one schedule arrive, in any order, repeated, and at any times, the
   group is ready exactly if of each of its tables some section came, and every one that
   the schedule has came too, unless its three hours of the day were over when a section
   of today's table came.
   */
  lemma ReadyMeansComplete(xs: seq<Seen>, plans: seq<Plan>)
    requires PlanOk(plans) && xs != [] && AllConform(xs, plans)
    ensures Ready(Run(xs)) <==> forall i | 0 <= i < |plans| :: AllCame(xs, plans[i], i)
  {
    hide Describes, AllCame, PlanOk, Compatible, Conforms, Ready, Run, SinceReset, LastFlagsId;
    ConformingAreCompatible(xs, plans);
    NoResets(xs);
    RunDescribes(xs);
    assert xs[0] in xs;
    ConformsLast(xs[0].section, plans);
    TablesExactly(Run(xs), xs, plans);
  }

  lemma TablesExactly(g: Group, xs: seq<Seen>, plans: seq<Plan>)
    requires PlanOk(plans) && AllConform(xs, plans) && Describes(g, xs) && g.lastFlags == |plans| - 1
    ensures Ready(g) <==> forall i | 0 <= i < |plans| :: AllCame(xs, plans[i], i)
  {
    hide TableDescribes, TableComplete, AllCame, PlanOk, Conforms;
    forall i | 0 <= i < 8
      ensures TableComplete(g.tables[i]) <==> (i < |plans| ==> AllCame(xs, plans[i], i))
    {
      if i < |plans| { TableExactly(g.tables[i], xs, plans, i); } else { PastIsComplete(g.tables[i], g.lastFlags, xs, i); }
    }
    AtMostEight(plans);
  }

  lemma ConformsLast(s: Section, plans: seq<Plan>)
    requires PlanOk(plans) && Conforms(s, plans)
    ensures LastFlagsId(s) == |plans| - 1
  {
    hide Planned;
  }

  lemma AtMostEight(plans: seq<Plan>)
    requires PlanOk(plans)
    ensures |plans| <= 8
  {
  }
}
