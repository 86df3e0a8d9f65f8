/**
 What becomes of the modules that one DII names: which are accepted can be told before
 the call, and so can whether all of them are still there after it.
 */
module CarouselAcceptance {
  import opened MapSums
  import opened Carousel
  import opened CarouselTheorems

  // ----- whom eviction spares -----

  /** The modules of at least this generation. */
  function NotOlder(ms: Modules, generation: nat): Modules {
    map k | k in ms && ms[k].generation >= generation :: ms[k]
  }

  lemma NotOlderIsPart(ms: Modules, generation: nat)
    ensures InFlight(NotOlder(ms, generation)) <= InFlight(ms)
  {
    var older := set k | k in ms && ms[k].generation < generation;
    Sweeping(ms, older);
    assert ms - older == NotOlder(ms, generation);
  }

  lemma NotOlderIsAll(ms: Modules, generation: nat)
    requires forall k | k in ms && !ms[k].completed :: ms[k].generation >= generation
    ensures InFlight(NotOlder(ms, generation)) == InFlight(ms)
  {
    assert InFlightSizes(NotOlder(ms, generation)) == InFlightSizes(ms);
  }

  lemma NotOlderLess(ms: Modules, k: uint16, generation: nat)
    ensures NotOlder(ms - {k}, generation) == NotOlder(ms, generation) - {k}
    ensures k in ms && ms[k].generation < generation ==> NotOlder(ms - {k}, generation) == NotOlder(ms, generation)
  {
  }

  /** Making room spares a module exactly if it leaves enough together with all that is not older. */
  lemma {:induction false} SparesExactly(ms: Modules, size: nat, limit: nat, k: uint16)
    requires UniqueGenerations(ms) && k in ms && !ms[k].completed
    ensures k in MakeRoom(ms, size, limit) <==> InFlight(NotOlder(ms, ms[k].generation)) + size <= limit
    decreases |ms|
  {
    hide InFlight, NotOlder;
    if InFlight(ms) + size <= limit {
      NotOlderIsPart(ms, ms[k].generation);
    } else {
      assert k in InFlightIds(ms);
      var oldest := Oldest(ms, InFlightIds(ms));
      RoomIsMade(ms - {oldest}, size, limit);
      if oldest == k {
        assert forall j | j in ms && !ms[j].completed :: j in InFlightIds(ms);
        NotOlderIsAll(ms, ms[k].generation);
      } else {
        SparesExactly(ms - {oldest}, size, limit, k);
        NotOlderLess(ms, oldest, ms[k].generation);
      }
    }
  }

  // ----- one turn of ObserveDII -----

  predicate DistinctIds(ms: seq<Info>) {
    forall i, j | 0 <= i < j < |ms| :: ms[i].id != ms[j].id
  }

  /** The module is accepted and has to be allocated. */
  predicate Adds(c: Carousel, d: Dii, m: Info) {
    Judge(c, d, m).Accept? && !Announced(c, d, m)
  }

  /**
   There is room for a module that has to be allocated beside everything in flight that
   is not older than one of these.
   */
  ghost predicate Spares(c: Carousel, d: Dii, m: Info, kept: set<uint16>) {
    Adds(c, d, m) ==>
      forall k | k in kept && k in c.modules && !c.modules[k].completed ::
        InFlight(NotOlder(c.modules - {m.id}, c.modules[k].generation)) + m.size <= c.limits.maxInFlight
  }

  lemma AnnounceKeys(c: Carousel, d: Dii, m: Info)
    ensures Announce(c, d, m).modules.Keys <= c.modules.Keys + {m.id}
    ensures m.id in Announce(c, d, m).modules <==> Judge(c, d, m).Accept?
    ensures !Adds(c, d, m) ==> Announce(c, d, m).modules == if Judge(c, d, m).Accept? then c.modules else c.modules - {m.id}
    ensures Adds(c, d, m) ==>
              var room := MakeRoom(c.modules - {m.id}, m.size, c.limits.maxInFlight);
              d.blockSize > 0 && Announce(c, d, m).modules == room[m.id := NewModule(d, m, c.generation + 1)]
    ensures Announce(c, d, m).limits == c.limits && Announce(c, d, m).generation >= c.generation
    ensures m.id in Announce(c, d, m).rejected <==> !Judge(c, d, m).Accept?
    ensures forall k | k != m.id :: k in Announce(c, d, m).rejected <==> k in c.rejected
  {
    hide NewModule, MakeRoom;
    RoomIsMade(c.modules - {m.id}, m.size, c.limits.maxInFlight);
  }

  lemma TurnSpares(c: Carousel, d: Dii, m: Info, kept: set<uint16>)
    requires CarouselOk(c) && kept <= c.modules.Keys && m.id !in kept
    ensures kept <= Announce(c, d, m).modules.Keys <==> Spares(c, d, m, kept)
  {
    hide Judge, InFlight, Held, NotOlder, MakeRoom, NewModule, ModulesOk, OneVerdict, Announce;
    AnnounceKeys(c, d, m);
    if Adds(c, d, m) {
      var rest := c.modules - {m.id};
      RoomIsMade(rest, m.size, c.limits.maxInFlight);
      forall k | k in kept
        ensures k in Announce(c, d, m).modules <==>
                  c.modules[k].completed || InFlight(NotOlder(rest, c.modules[k].generation)) + m.size <= c.limits.maxInFlight
      {
        if !c.modules[k].completed { SparesExactly(rest, m.size, c.limits.maxInFlight, k); }
      }
    }
  }

  // ----- the turns one after the other -----

  /** The carousel before the turn of module i. */
  ghost function Before(c: Carousel, d: Dii, i: nat): Carousel
    requires i <= |d.modules|
  {
    AnnounceAll(c, d, d.modules[..i])
  }

  lemma {:induction false} AnnounceLast(c: Carousel, d: Dii, ms: seq<Info>, m: Info)
    ensures AnnounceAll(c, d, ms + [m]) == Announce(AnnounceAll(c, d, ms), d, m)
    ensures Accepted(c, d, ms + [m]) == Accepted(c, d, ms) + if Judge(AnnounceAll(c, d, ms), d, m).Accept? then [m] else []
    decreases |ms|
  {
    hide Announce, Judge;
    if ms == [] {
      assert ([] + [m])[1..] == [];
      assert AnnounceAll(Announce(c, d, m), d, []) == Announce(c, d, m);
      assert Accepted(Announce(c, d, m), d, []) == [];
    } else {
      assert (ms + [m])[1..] == ms[1..] + [m];
      AnnounceLast(Announce(c, d, ms[0]), d, ms[1..], m);
    }
  }

  lemma NextTurn(c: Carousel, d: Dii, i: nat)
    requires i < |d.modules|
    ensures Before(c, d, i + 1) == Announce(Before(c, d, i), d, d.modules[i])
    ensures Accepted(c, d, d.modules[..i + 1])
         == Accepted(c, d, d.modules[..i]) + if Judge(Before(c, d, i), d, d.modules[i]).Accept? then [d.modules[i]] else []
  {
    assert d.modules[..i + 1] == d.modules[..i] + [d.modules[i]];
    AnnounceLast(c, d, d.modules[..i], d.modules[i]);
  }

  lemma BeforeOk(c: Carousel, d: Dii, i: nat)
    requires CarouselOk(c) && i <= |d.modules|
    ensures CarouselOk(Before(c, d, i)) && Before(c, d, i).limits == c.limits
  {
    AnnounceAllKeeps(c, d, d.modules[..i]);
  }

  /** The ids of the modules that were accepted before the turn of module i. */
  ghost function AcceptedBefore(c: Carousel, d: Dii, i: nat): set<uint16>
    requires i <= |d.modules|
  {
    Ids(Accepted(c, d, d.modules[..i]))
  }

  lemma IdsMore(ms: seq<Info>, more: seq<Info>)
    ensures Ids(ms + more) == Ids(ms) + Ids(more)
  {
    forall i | 0 <= i < |ms| + |more|
      ensures (ms + more)[i].id in Ids(ms) + Ids(more)
    {
    }
    forall i | 0 <= i < |ms|
      ensures ms[i].id in Ids(ms + more)
    {
      assert (ms + more)[i] == ms[i];
    }
    forall i | 0 <= i < |more|
      ensures more[i].id in Ids(ms + more)
    {
      assert (ms + more)[|ms| + i] == more[i];
    }
  }

  lemma OneId(m: Info)
    ensures Ids([m]) == {m.id}
  {
    assert [m][0].id in Ids([m]);
  }

  lemma {:induction false} AcceptedAreEarlier(c: Carousel, d: Dii, i: nat)
    requires i <= |d.modules|
    ensures AcceptedBefore(c, d, i) <= Ids(d.modules[..i])
    decreases i
  {
    hide Judge, Ids, Accepted;
    if i == 0 {
      NoneAccepted(c, d);
    } else {
      var m := d.modules[i - 1];
      AcceptedAreEarlier(c, d, i - 1);
      NextTurn(c, d, i - 1);
      IdsMore(d.modules[..i - 1], [m]);
      assert d.modules[..i] == d.modules[..i - 1] + [m];
      IdsMore(Accepted(c, d, d.modules[..i - 1]), [m]);
      assert Accepted(c, d, d.modules[..i - 1]) + [] == Accepted(c, d, d.modules[..i - 1]);
    }
  }

  lemma NoneAccepted(c: Carousel, d: Dii)
    ensures Accepted(c, d, d.modules[..0]) == [] && AcceptedBefore(c, d, 0) == {} && Before(c, d, 0) == c
  {
    assert d.modules[..0] == [];
  }

  lemma LaterId(d: Dii, i: nat)
    requires DistinctIds(d.modules) && i < |d.modules|
    ensures d.modules[i].id !in Ids(d.modules[..i])
  {
  }

  ghost predicate AllSpare(c: Carousel, d: Dii, n: nat)
    requires n <= |d.modules|
  {
    forall i | 0 <= i < n :: Spares(Before(c, d, i), d, d.modules[i], AcceptedBefore(c, d, i))
  }

  lemma {:induction false} AcceptedAreThere(c: Carousel, d: Dii, n: nat)
    requires CarouselOk(c) && DistinctIds(d.modules) && n <= |d.modules|
    ensures AcceptedBefore(c, d, n) <= Before(c, d, n).modules.Keys <==> AllSpare(c, d, n)
    decreases n
  {
    hide CarouselOk, Before, Spares, Accepted, Ids, Judge;
    if n == 0 {
      NoneAccepted(c, d);
    } else {
      var i, m := n - 1, d.modules[n - 1];
      var b := Before(c, d, i);
      AcceptedAreThere(c, d, i);
      AcceptedAreEarlier(c, d, i);
      LaterId(d, i);
      NextTurn(c, d, i);
      BeforeOk(c, d, i);
      AnnounceKeys(b, d, m);
      AcceptedMore(c, d, i);
      if AcceptedBefore(c, d, i) <= b.modules.Keys { TurnSpares(b, d, m, AcceptedBefore(c, d, i)); }
      assert AllSpare(c, d, n) <==> AllSpare(c, d, i) && Spares(b, d, m, AcceptedBefore(c, d, i));
    }
  }

  lemma AcceptedMore(c: Carousel, d: Dii, i: nat)
    requires i < |d.modules|
    ensures AcceptedBefore(c, d, i + 1)
         == AcceptedBefore(c, d, i) + if Judge(Before(c, d, i), d, d.modules[i]).Accept? then {d.modules[i].id} else {}
  {
    hide Judge, Before, Accepted;
    NextTurn(c, d, i);
    IdsMore(Accepted(c, d, d.modules[..i]), [d.modules[i]]);
    OneId(d.modules[i]);
    assert Accepted(c, d, d.modules[..i]) + [] == Accepted(c, d, d.modules[..i]);
  }

  /** Everything that ObserveDII returns as accepted is in the carousel. */
  ghost predicate AcceptedRemain(c: Carousel, d: Dii) {
    forall m | m in Accepted(c, d, d.modules) :: m.id in ObserveDii(c, d).modules
  }

  /**
   What is returned as accepted is in the carousel exactly if, at the turn of every module
   that has to be allocated, it fits beside all that is in flight from the oldest accepted
   module onwards.
   */
  lemma AcceptedRemainExactly(c: Carousel, d: Dii)
    requires CarouselOk(c) && DistinctIds(d.modules)
    ensures AcceptedRemain(c, d) <==>
              forall i | 0 <= i < |d.modules| :: Spares(Before(c, d, i), d, d.modules[i], AcceptedBefore(c, d, i))
  {
    hide CarouselOk, Spares, Accepted, AnnounceAll;
    var n := |d.modules|;
    assert d.modules[..n] == d.modules;
    AcceptedAreThere(c, d, n);
    AcceptedAreEarlier(c, d, n);
    var accepted := Accepted(c, d, d.modules);
    forall m | m in accepted
      ensures m.id in AcceptedBefore(c, d, n)
    {
    }
    assert forall k | k in AcceptedBefore(c, d, n) :: k in Before(c, d, n).modules <==> k in ObserveDii(c, d).modules;
  }

  // ----- what can be told before the call -----

  /** Where a module comes from: it was there before the DII, or has been allocated since. */
  predicate Origin(c: Carousel, b: Carousel, seen: set<uint16>, k: uint16)
    requires k in b.modules
  {
    if k in c.modules && b.modules[k] == c.modules[k] then b.modules[k].generation <= c.generation
    else k in seen && b.modules[k].generation > c.generation && !b.modules[k].completed
  }

  /** Complete modules are only lost to what replaces them, and all others are old or new. */
  ghost predicate Stems(c: Carousel, d: Dii, i: nat)
    requires i <= |d.modules|
  {
    && (forall k | k in Before(c, d, i).modules :: Origin(c, Before(c, d, i), Ids(d.modules[..i]), k))
    && (forall k | k in c.modules && c.modules[k].completed && k !in Ids(d.modules[..i]) :: k in Before(c, d, i).modules)
  }

  lemma SeenMore(d: Dii, i: nat)
    requires i < |d.modules|
    ensures Ids(d.modules[..i + 1]) == Ids(d.modules[..i]) + {d.modules[i].id}
  {
    hide Ids;
    assert d.modules[..i + 1] == d.modules[..i] + [d.modules[i]];
    IdsMore(d.modules[..i], [d.modules[i]]);
    OneId(d.modules[i]);
  }

  lemma NewGeneration(d: Dii, m: Info, generation: nat)
    requires d.blockSize > 0
    ensures NewModule(d, m, generation).generation == generation && !NewModule(d, m, generation).completed
  {
  }

  lemma GenerationOf(c: Carousel, k: uint16)
    requires CarouselOk(c) && k in c.modules
    ensures 0 < c.modules[k].generation <= c.generation && c.modules[k].info.id == k && c.modules[k].info.size > 0
    ensures c.modules[k].info.size <= c.limits.maxModuleSize && c.modules[k].blockSize > 0
  {
    assert ModuleOk(c, k);
  }

  lemma StemsTurn(c: Carousel, b: Carousel, d: Dii, m: Info, seen: set<uint16>)
    requires CarouselOk(c) && m.id !in seen && b.generation >= c.generation
    requires forall k | k in b.modules :: Origin(c, b, seen, k)
    requires forall k | k in c.modules && c.modules[k].completed && k !in seen :: k in b.modules
    ensures var e := Announce(b, d, m);
            && (forall k | k in e.modules :: Origin(c, e, seen + {m.id}, k))
            && (forall k | k in c.modules && c.modules[k].completed && k !in seen + {m.id} :: k in e.modules)
  {
    hide InFlight, Held, MakeRoom, NewModule, Judge, Announce, CarouselOk;
    AnnounceKeys(b, d, m);
    RoomIsMade(b.modules - {m.id}, m.size, b.limits.maxInFlight);
    var e := Announce(b, d, m);
    if Adds(b, d, m) { NewGeneration(d, m, b.generation + 1); }
    forall k | k in e.modules
      ensures Origin(c, e, seen + {m.id}, k)
    {
      if k in c.modules { GenerationOf(c, k); }
    }
  }

  lemma {:induction false} AllStem(c: Carousel, d: Dii, i: nat)
    requires CarouselOk(c) && DistinctIds(d.modules) && i <= |d.modules|
    ensures Stems(c, d, i) && Before(c, d, i).generation >= c.generation
    decreases i
  {
    hide CarouselOk, Before, Ids, Announce;
    if i == 0 {
      NoneAccepted(c, d);
      forall k | k in c.modules
        ensures c.modules[k].generation <= c.generation
      {
        GenerationOf(c, k);
      }
    } else {
      AllStem(c, d, i - 1);
      NextTurn(c, d, i - 1);
      LaterId(d, i - 1);
      SeenMore(d, i - 1);
      AnnounceKeys(Before(c, d, i - 1), d, d.modules[i - 1]);
      StemsTurn(c, Before(c, d, i - 1), d, d.modules[i - 1], Ids(d.modules[..i - 1]));
    }
  }

  lemma AnnouncedSize(c: Carousel, d: Dii, m: Info)
    requires CarouselOk(c) && Announced(c, d, m)
    ensures 0 < m.size <= c.limits.maxModuleSize && d.blockSize > 0
    ensures !c.modules[m.id].completed ==> m.size <= c.limits.maxInFlight
  {
    hide ModulesOk, UniqueGenerations, OneVerdict, Held;
    GenerationOf(c, m.id);
    Removal(c.modules, m.id);
  }

  /** The verdict on a module is the same at its turn as before the call. */
  lemma VerdictIsKnown(c: Carousel, d: Dii, i: nat)
    requires CarouselOk(c) && DistinctIds(d.modules) && i < |d.modules|
    ensures Judge(Before(c, d, i), d, d.modules[i]).Accept? <==> Judge(c, d, d.modules[i]).Accept?
  {
    hide CarouselOk, Before, Ids;
    var b, m := Before(c, d, i), d.modules[i];
    BeforeOk(c, d, i);
    AllStem(c, d, i);
    LaterId(d, i);
    if Announced(b, d, m) { AnnouncedSize(b, d, m); }
    if Announced(c, d, m) { AnnouncedSize(c, d, m); }
  }

  lemma {:induction false} AcceptedAreJudged(c: Carousel, d: Dii, n: nat)
    requires CarouselOk(c) && DistinctIds(d.modules) && n <= |d.modules|
    ensures forall m :: m in Accepted(c, d, d.modules[..n]) <==> m in d.modules[..n] && Judge(c, d, m).Accept?
    decreases n
  {
    hide CarouselOk, Before, Judge, Accepted;
    if n == 0 {
      NoneAccepted(c, d);
    } else {
      AcceptedAreJudged(c, d, n - 1);
      NextTurn(c, d, n - 1);
      VerdictIsKnown(c, d, n - 1);
      assert d.modules[..n] == d.modules[..n - 1] + [d.modules[n - 1]];
    }
  }

  lemma {:induction false} VerdictStands(c: Carousel, d: Dii, n: nat, j: nat)
    requires CarouselOk(c) && DistinctIds(d.modules) && j < n <= |d.modules|
    ensures var m := d.modules[j];
            && (m.id in Before(c, d, n).rejected <==> !Judge(c, d, m).Accept?)
            && (m.id in Before(c, d, n).modules ==> Judge(c, d, m).Accept? && Announced(Before(c, d, n), d, m))
    decreases n
  {
    hide CarouselOk, Before, Judge, Announce;
    var b, last, m := Before(c, d, n - 1), d.modules[n - 1], d.modules[j];
    NextTurn(c, d, n - 1);
    AnnounceKeys(b, d, last);
    VerdictIsKnown(c, d, n - 1);
    BeforeOk(c, d, n - 1);
    RoomIsMade(b.modules - {last.id}, last.size, b.limits.maxInFlight);
    if j < n - 1 {
      VerdictStands(c, d, n - 1, j);
      assert m.id != last.id;
    } else if Judge(b, d, m).Accept? {
      IsAnnounced(b, d, m);
    }
  }

  lemma IsAnnounced(b: Carousel, d: Dii, m: Info)
    requires Judge(b, d, m).Accept?
    ensures Announced(Announce(b, d, m), d, m)
  {
    hide MakeRoom;
  }

  /** The carousel's module is the one that the DII names: download, version, size and block size are the same. */
  predicate IsNamed(k: Module, d: Dii, m: Info) {
    k.downloadId == d.downloadId && k.info.version == m.version && k.info.size == m.size && k.blockSize == d.blockSize
  }

  /** The module can be held: its sizes are within the limits, or it has been let in already. */
  predicate IsAcceptable(c: Carousel, d: Dii, m: Info) {
    && 0 < m.size <= c.limits.maxModuleSize && d.blockSize > 0
    && (m.size <= c.limits.maxInFlight || (m.id in c.modules && IsNamed(c.modules[m.id], d, m)))
  }

  lemma JudgedExactly(c: Carousel, d: Dii, m: Info)
    ensures Judge(c, d, m).Accept? <==> IsAcceptable(c, d, m)
    ensures Announced(c, d, m) <==> m.id in c.modules && IsNamed(c.modules[m.id], d, m)
    ensures Judge(c, d, m).Refuse? ==>
              Judge(c, d, m).reason ==
                if m.size == 0 then SizeZero
                else if d.blockSize == 0 then BlockSizeZero
                else if m.size > c.limits.maxModuleSize then SizeLimitExceeded
                else InFlightBudgetExceeded
  {
  }

  lemma {:induction false} ReasonStands(c: Carousel, d: Dii, n: nat, j: nat)
    requires CarouselOk(c) && DistinctIds(d.modules) && j < n <= |d.modules| && Judge(c, d, d.modules[j]).Refuse?
    ensures var m := d.modules[j];
            && m.id in Before(c, d, n).rejected && Judge(Before(c, d, j), d, m).Refuse?
            && Before(c, d, n).rejected[m.id] == Rejection(m, Judge(Before(c, d, j), d, m).reason)
    decreases n
  {
    hide CarouselOk, Before, Judge, MakeRoom, NewModule;
    NextTurn(c, d, n - 1);
    VerdictStands(c, d, n, j);
    VerdictIsKnown(c, d, j);
    if j < n - 1 {
      ReasonStands(c, d, n - 1, j);
      assert d.modules[j].id != d.modules[n - 1].id;
    }
  }

  /**
   A DII settles every module it names and no other.  What ObserveDII returns and what it
   rejects, and why, can be told before the call; what is there is the very module that is
   named, so what is missing without having been rejected was evicted.
   */
  lemma DiiDecidesExactly(c: Carousel, d: Dii, m: Info)
    requires CarouselOk(c) && DistinctIds(d.modules) && m in d.modules
    ensures ObserveDii(c, d).modules.Keys <= Ids(d.modules) && ObserveDii(c, d).rejected.Keys <= Ids(d.modules)
    ensures m in Accepted(c, d, d.modules) <==> IsAcceptable(c, d, m)
    ensures m.id in ObserveDii(c, d).rejected <==> !IsAcceptable(c, d, m)
    ensures !IsAcceptable(c, d, m) ==>
              ObserveDii(c, d).rejected[m.id] == Rejection(m,
                if m.size == 0 then SizeZero
                else if d.blockSize == 0 then BlockSizeZero
                else if m.size > c.limits.maxModuleSize then SizeLimitExceeded
                else InFlightBudgetExceeded)
    ensures m.id in ObserveDii(c, d).modules ==> IsAcceptable(c, d, m) && IsNamed(ObserveDii(c, d).modules[m.id], d, m)
  {
    hide CarouselOk, Judge, AnnounceAll, Accepted, IsAcceptable, IsNamed;
    var n := |d.modules|;
    assert d.modules[..n] == d.modules;
    AcceptedAreJudged(c, d, n);
    var j :| 0 <= j < n && d.modules[j] == m;
    VerdictStands(c, d, n, j);
    JudgedExactly(c, d, m);
    JudgedExactly(ObserveDii(c, d), d, m);
    SameNamed(Before(c, d, n), ObserveDii(c, d), d, m);
    if Judge(c, d, m).Refuse? {
      ReasonStands(c, d, n, j);
      VerdictIsKnown(c, d, j);
      BeforeOk(c, d, j);
      JudgedExactly(Before(c, d, j), d, m);
    }
  }

  lemma SameNamed(b: Carousel, e: Carousel, d: Dii, m: Info)
    requires m.id in e.modules ==> m.id in b.modules && e.modules[m.id] == b.modules[m.id]
    ensures m.id in e.modules && Announced(b, d, m) ==> Announced(e, d, m)
  {
  }

  lemma {:induction false} ModuleStands(c: Carousel, d: Dii, n: nat, j: nat)
    requires CarouselOk(c) && DistinctIds(d.modules) && j < n <= |d.modules| && d.modules[j].id in Before(c, d, n).modules
    ensures var k := d.modules[j].id;
            k in Before(c, d, j + 1).modules && Before(c, d, n).modules[k] == Before(c, d, j + 1).modules[k]
    decreases n
  {
    hide CarouselOk, Before, Judge, Announce, NewModule;
    if j + 1 < n {
      var b, last := Before(c, d, n - 1), d.modules[n - 1];
      NextTurn(c, d, n - 1);
      AnnounceKeys(b, d, last);
      RoomIsMade(b.modules - {last.id}, last.size, b.limits.maxInFlight);
      assert d.modules[j].id != last.id;
      ModuleStands(c, d, n - 1, j);
    }
  }

  /** A module with no block yet. */
  predicate IsEmpty(k: Module, d: Dii, m: Info) {
    && IsNamed(k, d, m) && k.info == m && !k.completed && k.count == 0
    && |k.data| == m.size && forall i | 0 <= i < |k.received| :: !k.received[i]
  }

  lemma NewIsEmpty(d: Dii, m: Info, generation: nat)
    requires d.blockSize > 0
    ensures IsEmpty(NewModule(d, m, generation), d, m) && NewModule(d, m, generation).generation == generation
  {
  }

  lemma IsBefore(c: Carousel, d: Dii)
    ensures Before(c, d, |d.modules|) == AnnounceAll(c, d, d.modules)
  {
    assert d.modules[..|d.modules|] == d.modules;
  }

  // ----- when nothing is lost -----

  /** Every accepted module is there, and those that were announced already have kept all their blocks. */
  ghost predicate NothingLost(c: Carousel, d: Dii) {
    var e := ObserveDii(c, d);
    forall m | m in d.modules && Judge(c, d, m).Accept? ::
      m.id in e.modules && (Announced(c, d, m) ==> e.modules[m.id] == c.modules[m.id])
  }

  /** The module is announced again while it is incomplete. */
  predicate Continues(c: Carousel, d: Dii, m: Info) {
    Announced(c, d, m) && !c.modules[m.id].completed
  }

  /** The generation of the oldest incomplete module that is announced again; without one, that of the next new module. */
  function OldestKept(c: Carousel, d: Dii, ms: seq<Info>): (g: nat)
    ensures g <= c.generation + 1
    ensures forall m | m in ms && Continues(c, d, m) :: g <= c.modules[m.id].generation
    ensures g == c.generation + 1 || exists m :: m in ms && Continues(c, d, m) && c.modules[m.id].generation == g
    decreases |ms|
  {
    if ms == [] then c.generation + 1
    else
      var rest, m := OldestKept(c, d, ms[1..]), ms[0];
      if Continues(c, d, m) && c.modules[m.id].generation < rest then c.modules[m.id].generation else rest
  }

  /** What is replaced or rejected: modules that are not announced as they are. */
  function Replaced(c: Carousel, d: Dii, ms: seq<Info>): set<uint16>
    decreases |ms|
  {
    if ms == [] then {}
    else Replaced(c, d, ms[..|ms| - 1]) + if Announced(c, d, ms[|ms| - 1]) then {} else {ms[|ms| - 1].id}
  }

  function AddedSizes(c: Carousel, d: Dii, ms: seq<Info>): nat
    decreases |ms|
  {
    if ms == [] then 0
    else AddedSizes(c, d, ms[..|ms| - 1]) + if Adds(c, d, ms[|ms| - 1]) then ms[|ms| - 1].size else 0
  }

  /**
   The bytes in flight after the first i modules of the DII if nothing had to be evicted,
   without the modules that are older than g.
   */
  ghost function Load(c: Carousel, d: Dii, i: nat, g: nat): nat
    requires i <= |d.modules|
  {
    InFlight(NotOlder(c.modules - Replaced(c, d, d.modules[..i]), g)) + AddedSizes(c, d, d.modules[..i])
  }

  ghost predicate Roomy(c: Carousel, d: Dii, n: nat)
    requires n <= |d.modules|
  {
    forall i | 0 <= i < n && Adds(c, d, d.modules[i]) ::
      Load(c, d, i + 1, OldestKept(c, d, d.modules)) <= c.limits.maxInFlight
  }

  lemma ReplacedMore(c: Carousel, d: Dii, i: nat)
    requires i < |d.modules|
    ensures Replaced(c, d, d.modules[..i + 1])
         == Replaced(c, d, d.modules[..i]) + if Announced(c, d, d.modules[i]) then {} else {d.modules[i].id}
    ensures AddedSizes(c, d, d.modules[..i + 1])
         == AddedSizes(c, d, d.modules[..i]) + if Adds(c, d, d.modules[i]) then d.modules[i].size else 0
  {
    hide Adds, Announced;
    assert d.modules[..i + 1][..i] == d.modules[..i];
  }

  lemma {:induction false} ReplacedAreSeen(c: Carousel, d: Dii, i: nat)
    requires i <= |d.modules|
    ensures Replaced(c, d, d.modules[..i]) <= Ids(d.modules[..i])
    decreases i
  {
    hide Ids, Announced;
    if i > 0 {
      ReplacedAreSeen(c, d, i - 1);
      ReplacedMore(c, d, i - 1);
      SeenMore(d, i - 1);
    }
  }

  /** The old modules that count and are not replaced are as they were. */
  ghost predicate KeepsOld(c: Carousel, d: Dii, i: nat)
    requires i <= |d.modules|
  {
    var b, g := Before(c, d, i), OldestKept(c, d, d.modules);
    forall k | k in c.modules && k !in Replaced(c, d, d.modules[..i]) && (c.modules[k].completed || c.modules[k].generation >= g) ::
      k in b.modules && b.modules[k] == c.modules[k]
  }

  ghost predicate KeepsNew(c: Carousel, d: Dii, i: nat)
    requires i <= |d.modules|
  {
    forall j | 0 <= j < i && Adds(c, d, d.modules[j]) :: d.modules[j].id in Before(c, d, i).modules
  }

  /** As long as there is room: nothing that counts is gone, and the bytes are known. */
  ghost predicate Whole(c: Carousel, d: Dii, i: nat)
    requires i <= |d.modules|
  {
    && KeepsOld(c, d, i) && KeepsNew(c, d, i)
    && InFlight(NotOlder(Before(c, d, i).modules, OldestKept(c, d, d.modules))) == Load(c, d, i, OldestKept(c, d, d.modules))
  }

  /** At its turn a module is as it was before the call, if it is there. */
  lemma NotYetTouched(c: Carousel, d: Dii, i: nat)
    requires CarouselOk(c) && DistinctIds(d.modules) && i < |d.modules|
    ensures var k := d.modules[i].id;
            k in Before(c, d, i).modules ==> k in c.modules && Before(c, d, i).modules[k] == c.modules[k]
    ensures d.modules[i].id !in Replaced(c, d, d.modules[..i])
  {
    hide CarouselOk, Before, Ids, Replaced;
    AllStem(c, d, i);
    LaterId(d, i);
    ReplacedAreSeen(c, d, i);
  }

  lemma WithoutOne(a: Modules, b: Modules, k: uint16, g: nat)
    requires k in a && a[k].generation >= g && !a[k].completed <==> k in b && b[k].generation >= g && !b[k].completed
    requires k in a && k in b ==> a[k] == b[k]
    ensures InFlight(NotOlder(a - {k}, g)) - InFlight(NotOlder(a, g)) == InFlight(NotOlder(b - {k}, g)) - InFlight(NotOlder(b, g))
  {
    hide InFlight;
    Removal(NotOlder(a, g), k);
    Removal(NotOlder(b, g), k);
    NotOlderLess(a, k, g);
    NotOlderLess(b, k, g);
  }

  /** Removing a module that is replaced or rejected. */
  lemma LoadWithout(c: Carousel, d: Dii, i: nat)
    requires CarouselOk(c) && DistinctIds(d.modules) && i < |d.modules| && Whole(c, d, i) && !Announced(c, d, d.modules[i])
    ensures InFlight(NotOlder(Before(c, d, i).modules - {d.modules[i].id}, OldestKept(c, d, d.modules)))
          + (if Adds(c, d, d.modules[i]) then d.modules[i].size else 0)
         == Load(c, d, i + 1, OldestKept(c, d, d.modules))
  {
    hide CarouselOk, Before, InFlight, NotOlder, Replaced, AddedSizes, Adds, OldestKept;
    var k, g := d.modules[i].id, OldestKept(c, d, d.modules);
    NotYetTouched(c, d, i);
    ReplacedMore(c, d, i);
    var kept := c.modules - Replaced(c, d, d.modules[..i]);
    WithoutOne(Before(c, d, i).modules, kept, k, g);
    assert kept - {k} == c.modules - Replaced(c, d, d.modules[..i + 1]);
  }

  /** Where there is room, making it takes nothing that counts. */
  lemma RoomTakesOlder(ms: Modules, size: nat, limit: nat, g: nat)
    requires UniqueGenerations(ms) && InFlight(NotOlder(ms, g)) + size <= limit
    ensures forall k | k in ms && (ms[k].completed || ms[k].generation >= g) :: k in MakeRoom(ms, size, limit)
    ensures InFlight(NotOlder(MakeRoom(ms, size, limit), g)) == InFlight(NotOlder(ms, g))
  {
    hide InFlight, MakeRoom, NotOlder;
    RoomIsMade(ms, size, limit);
    forall k | k in ms && (ms[k].completed || ms[k].generation >= g)
      ensures k in MakeRoom(ms, size, limit)
    {
      if !ms[k].completed {
        SparesExactly(ms, size, limit, k);
        NotOlderIsPart(NotOlder(ms, g), ms[k].generation);
        NotOlderTwice(ms, g, ms[k].generation);
      }
    }
    SameNotOlder(MakeRoom(ms, size, limit), ms, g);
  }

  lemma NotOlderTwice(ms: Modules, g: nat, h: nat)
    requires g <= h
    ensures NotOlder(NotOlder(ms, g), h) == NotOlder(ms, h)
  {
  }

  lemma SameNotOlder(part: Modules, ms: Modules, g: nat)
    requires Part(part, ms) && forall k | k in ms && ms[k].generation >= g :: k in part
    ensures NotOlder(part, g) == NotOlder(ms, g)
  {
  }

  lemma NotOlderPut(ms: Modules, k: uint16, m: Module, g: nat)
    requires k !in ms && m.generation >= g && !m.completed
    ensures InFlight(NotOlder(ms[k := m], g)) == InFlight(NotOlder(ms, g)) + m.info.size
  {
    hide InFlight;
    Putting(NotOlder(ms, g), k, m);
    assert NotOlder(ms[k := m], g) == NotOlder(ms, g)[k := m];
    assert NotOlder(ms, g) - {k} == NotOlder(ms, g);
  }

  /** Nothing is there that was not, and all payloads and all modules that are not older are still there. */
  predicate SparesNotOlder(rest: Modules, room: Modules, g: nat) {
    Part(room, rest) && forall j | j in rest && (rest[j].completed || rest[j].generation >= g) :: j in room
  }

  lemma RoomFor(rest: Modules, k: uint16, m: Module, limit: nat, g: nat)
    requires UniqueGenerations(rest) && k !in rest && m.generation >= g && !m.completed
    requires InFlight(NotOlder(rest, g)) + m.info.size <= limit
    ensures var room := MakeRoom(rest, m.info.size, limit);
            && SparesNotOlder(rest, room, g)
            && InFlight(NotOlder(room[k := m], g)) == InFlight(NotOlder(rest, g)) + m.info.size
  {
    hide InFlight, NotOlder, MakeRoom, UniqueGenerations;
    RoomTakesOlder(rest, m.info.size, limit, g);
    RoomIsMade(rest, m.info.size, limit);
    NotOlderPut(MakeRoom(rest, m.info.size, limit), k, m, g);
  }

  /** A module that was added since the call began is newer than all that were there before. */
  lemma AddedIsNew(c: Carousel, d: Dii, i: nat, j: nat)
    requires CarouselOk(c) && DistinctIds(d.modules) && j < i <= |d.modules| && Adds(c, d, d.modules[j])
    requires d.modules[j].id in Before(c, d, i).modules
    ensures var m := Before(c, d, i).modules[d.modules[j].id];
            m.generation > c.generation && !m.completed
  {
    hide CarouselOk, Before, Judge, Ids;
    AllStem(c, d, i);
    VerdictStands(c, d, i, j);
  }

  lemma StaysWhole(c: Carousel, d: Dii, i: nat)
    requires CarouselOk(c) && DistinctIds(d.modules) && i < |d.modules| && Whole(c, d, i) && Announced(c, d, d.modules[i])
    ensures Whole(c, d, i + 1)
  {
    hide CarouselOk, Before, InFlight, NotOlder, OldestKept, Announced, Load, KeepsOld, KeepsNew;
    StaysTurn(c, d, i);
    SameReplaced(c, d, i);
    StaysKeeps(c, d, i);
  }

  lemma StaysKeeps(c: Carousel, d: Dii, i: nat)
    requires CarouselOk(c) && DistinctIds(d.modules) && i < |d.modules| && KeepsOld(c, d, i) && KeepsNew(c, d, i)
    requires Announced(c, d, d.modules[i])
    ensures KeepsOld(c, d, i + 1) && KeepsNew(c, d, i + 1)
  {
    hide CarouselOk, Before, OldestKept, Announced, Adds, Load, Replaced;
    StaysTurn(c, d, i);
    AnnouncedIsNotAdded(c, d, d.modules[i]);
    SameReplaced(c, d, i);
  }

  lemma SameReplaced(c: Carousel, d: Dii, i: nat)
    requires i < |d.modules| && Announced(c, d, d.modules[i])
    ensures Replaced(c, d, d.modules[..i + 1]) == Replaced(c, d, d.modules[..i])
    ensures forall g :: Load(c, d, i + 1, g) == Load(c, d, i, g)
  {
    hide InFlight, NotOlder, Announced, Replaced, AddedSizes, Adds;
    ReplacedMore(c, d, i);
    AnnouncedIsNotAdded(c, d, d.modules[i]);
  }

  lemma AnnouncedIsNotAdded(c: Carousel, d: Dii, m: Info)
    requires Announced(c, d, m)
    ensures !Adds(c, d, m)
  {
  }

  lemma StaysTurn(c: Carousel, d: Dii, i: nat)
    requires CarouselOk(c) && DistinctIds(d.modules) && i < |d.modules| && KeepsOld(c, d, i) && Announced(c, d, d.modules[i])
    ensures Before(c, d, i + 1).modules == Before(c, d, i).modules
  {
    hide CarouselOk, Before, Replaced, OldestKept, Announce;
    var b, m := Before(c, d, i), d.modules[i];
    NotYetTouched(c, d, i);
    NextTurn(c, d, i);
    AnnounceKeys(b, d, m);
    AnnouncedSize(c, d, m);
    BeforeOk(c, d, i);
    OldEnough(c, d, m);
  }

  lemma OldEnough(c: Carousel, d: Dii, m: Info)
    requires m in d.modules && Announced(c, d, m)
    ensures c.modules[m.id].completed || c.modules[m.id].generation >= OldestKept(c, d, d.modules)
  {
  }

  lemma RejectedWhole(c: Carousel, d: Dii, i: nat)
    requires CarouselOk(c) && DistinctIds(d.modules) && i < |d.modules| && Whole(c, d, i)
    requires !Announced(c, d, d.modules[i]) && !Adds(c, d, d.modules[i])
    ensures Whole(c, d, i + 1)
  {
    hide CarouselOk, Before, InFlight, NotOlder, Replaced, OldestKept, Announced, Adds, Load;
    LoadWithout(c, d, i);
    RejectsTurn(c, d, i);
    ReplacedMore(c, d, i);
    forall j | 0 <= j < i + 1 && Adds(c, d, d.modules[j])
      ensures d.modules[j].id in Before(c, d, i + 1).modules
    {
      assert j < i && d.modules[j].id != d.modules[i].id;
    }
  }

  lemma RejectsTurn(c: Carousel, d: Dii, i: nat)
    requires CarouselOk(c) && DistinctIds(d.modules) && i < |d.modules|
    requires !Announced(c, d, d.modules[i]) && !Adds(c, d, d.modules[i])
    ensures Before(c, d, i + 1).modules == Before(c, d, i).modules - {d.modules[i].id}
  {
    hide CarouselOk, Before, Announce, Judge;
    NextTurn(c, d, i);
    AnnounceKeys(Before(c, d, i), d, d.modules[i]);
    VerdictIsKnown(c, d, i);
  }

  lemma AddedWhole(c: Carousel, d: Dii, i: nat)
    requires CarouselOk(c) && DistinctIds(d.modules) && i < |d.modules| && Whole(c, d, i) && Adds(c, d, d.modules[i])
    requires Load(c, d, i + 1, OldestKept(c, d, d.modules)) <= c.limits.maxInFlight
    ensures Whole(c, d, i + 1)
  {
    hide CarouselOk, Before, InFlight, NotOlder, OldestKept, Adds, Announced, Load, MakeRoom, NewModule, KeepsOld, KeepsNew;
    hide UniqueGenerations, SparesNotOlder, Part;
    var b, m, g := Before(c, d, i), d.modules[i], OldestKept(c, d, d.modules);
    AddsFit(c, d, m);
    LoadWithout(c, d, i);
    AddsTurn(c, d, i);
    var rest := b.modules - {m.id};
    BeforeOk(c, d, i);
    UniqueLess(b, m.id);
    RoomFor(rest, m.id, NewModule(d, m, b.generation + 1), c.limits.maxInFlight, g);
    AddedKeepsOld(c, d, i, MakeRoom(rest, m.size, c.limits.maxInFlight), NewModule(d, m, b.generation + 1));
    AddedKeepsNew(c, d, i, MakeRoom(rest, m.size, c.limits.maxInFlight), NewModule(d, m, b.generation + 1));
  }

  lemma AddedKeepsOld(c: Carousel, d: Dii, i: nat, room: Modules, m: Module)
    requires CarouselOk(c) && DistinctIds(d.modules) && i < |d.modules| && KeepsOld(c, d, i) && Adds(c, d, d.modules[i])
    requires Before(c, d, i + 1).modules == room[d.modules[i].id := m]
    requires SparesNotOlder(Before(c, d, i).modules - {d.modules[i].id}, room, OldestKept(c, d, d.modules))
    ensures KeepsOld(c, d, i + 1)
  {
    hide CarouselOk, Before, Replaced, OldestKept, Judge;
    ReplacedMore(c, d, i);
  }

  lemma AddedKeepsNew(c: Carousel, d: Dii, i: nat, room: Modules, m: Module)
    requires CarouselOk(c) && DistinctIds(d.modules) && i < |d.modules| && KeepsNew(c, d, i) && Adds(c, d, d.modules[i])
    requires Before(c, d, i + 1).modules == room[d.modules[i].id := m]
    requires SparesNotOlder(Before(c, d, i).modules - {d.modules[i].id}, room, OldestKept(c, d, d.modules))
    ensures KeepsNew(c, d, i + 1)
  {
    hide CarouselOk, Before, OldestKept, Adds;
    forall j | 0 <= j < i + 1 && Adds(c, d, d.modules[j])
      ensures d.modules[j].id in Before(c, d, i + 1).modules
    {
      if j < i {
        AddedIsNew(c, d, i, j);
        assert d.modules[j].id != d.modules[i].id;
      }
    }
  }

  lemma UniqueLess(b: Carousel, k: uint16)
    requires CarouselOk(b)
    ensures UniqueGenerations(b.modules - {k})
  {
  }

  lemma StillAdds(c: Carousel, d: Dii, i: nat)
    requires CarouselOk(c) && DistinctIds(d.modules) && i < |d.modules| && Adds(c, d, d.modules[i])
    ensures Adds(Before(c, d, i), d, d.modules[i])
  {
    hide CarouselOk, Before, Judge, Replaced;
    NotYetTouched(c, d, i);
    VerdictIsKnown(c, d, i);
  }

  lemma AddsFit(c: Carousel, d: Dii, m: Info)
    requires Adds(c, d, m)
    ensures d.blockSize > 0 && m.size <= c.limits.maxInFlight && !Announced(c, d, m)
  {
  }

  /** The turn of a module that has to be allocated. */
  lemma AddsTurn(c: Carousel, d: Dii, i: nat)
    requires CarouselOk(c) && DistinctIds(d.modules) && i < |d.modules| && Adds(c, d, d.modules[i])
    ensures var b, m := Before(c, d, i), d.modules[i];
            && Adds(b, d, m) && d.blockSize > 0
            && Before(c, d, i + 1).modules
               == MakeRoom(b.modules - {m.id}, m.size, c.limits.maxInFlight)[m.id := NewModule(d, m, b.generation + 1)]
            && NewModule(d, m, b.generation + 1).generation >= OldestKept(c, d, d.modules)
            && NewModule(d, m, b.generation + 1).info == m && !NewModule(d, m, b.generation + 1).completed
            && m.size <= c.limits.maxInFlight
  {
    var b, m := Before(c, d, i), d.modules[i];
    AddsFit(c, d, m);
    StillAdds(c, d, i);
    AllStem(c, d, i);
    BeforeOk(c, d, i);
    NextTurn(c, d, i);
    AnnounceKeys(b, d, m);
    NewSize(d, m, b.generation + 1);
    NewGeneration(d, m, b.generation + 1);
    hide CarouselOk, Before, Announce, Adds, NewModule, MakeRoom, Accepted, Stems, Judge;
  }

  lemma WholeAtFirst(c: Carousel, d: Dii)
    ensures Whole(c, d, 0)
  {
    NoneAccepted(c, d);
    assert d.modules[..0] == [];
    assert c.modules - {} == c.modules;
  }

  lemma {:induction false} RoomyIsWhole(c: Carousel, d: Dii, n: nat)
    requires CarouselOk(c) && DistinctIds(d.modules) && n <= |d.modules| && Roomy(c, d, n)
    ensures Whole(c, d, n)
    decreases n
  {
    hide CarouselOk, Whole, Load, Announced, Judge, OldestKept;
    if n == 0 {
      WholeAtFirst(c, d);
    } else {
      RoomyIsWhole(c, d, n - 1);
      if Announced(c, d, d.modules[n - 1]) {
        StaysWhole(c, d, n - 1);
      } else if Adds(c, d, d.modules[n - 1]) {
        AddedWhole(c, d, n - 1);
      } else {
        RejectedWhole(c, d, n - 1);
      }
    }
  }

  // ----- and when something is -----

  /** An old module that is gone for now: if it comes back, it is a new one. */
  predicate Gone(c: Carousel, b: Carousel, k: uint16) {
    k in b.modules ==> b.modules[k].generation > c.generation
  }

  lemma GoneTurn(c: Carousel, b: Carousel, d: Dii, m: Info, k: uint16)
    requires Gone(c, b, k) && b.generation >= c.generation
    ensures Gone(c, Announce(b, d, m), k)
  {
    hide MakeRoom, NewModule, Judge, Announce;
    AnnounceKeys(b, d, m);
    RoomIsMade(b.modules - {m.id}, m.size, b.limits.maxInFlight);
    if Adds(b, d, m) { NewGeneration(d, m, b.generation + 1); }
  }

  lemma {:induction false} GoneForGood(c: Carousel, d: Dii, i: nat, n: nat, k: uint16)
    requires CarouselOk(c) && DistinctIds(d.modules) && i <= n <= |d.modules| && Gone(c, Before(c, d, i), k)
    ensures Gone(c, Before(c, d, n), k)
    decreases n
  {
    hide CarouselOk, Before, Gone, Announce;
    if i < n {
      GoneForGood(c, d, i, n - 1, k);
      AllStem(c, d, n - 1);
      NextTurn(c, d, n - 1);
      GoneTurn(c, Before(c, d, n - 1), d, d.modules[n - 1], k);
    }
  }

  /** What was named already does not come back once it is evicted. */
  lemma {:induction false} EvictedForGood(c: Carousel, d: Dii, j: nat, i: nat, n: nat)
    requires DistinctIds(d.modules) && j < i <= n <= |d.modules| && d.modules[j].id !in Before(c, d, i).modules
    ensures d.modules[j].id !in Before(c, d, n).modules
    decreases n
  {
    hide Before, Announce;
    if i < n {
      EvictedForGood(c, d, j, i, n - 1);
      NextTurn(c, d, n - 1);
      AnnounceKeys(Before(c, d, n - 1), d, d.modules[n - 1]);
    }
  }

  /** Where there is too little room, the oldest of what counts goes. */
  lemma TooLittleRoom(ms: Modules, size: nat, limit: nat, g: nat) returns (k: uint16)
    requires UniqueGenerations(ms) && InFlight(NotOlder(ms, g)) + size > limit >= size
    ensures k in ms && !ms[k].completed && ms[k].generation >= g && k !in MakeRoom(ms, size, limit)
    ensures forall j | j in ms && !ms[j].completed && ms[j].generation >= g :: ms[k].generation <= ms[j].generation
  {
    var some := NotOlder(ms, g);
    hide InFlight, MakeRoom;
    if InFlightIds(some) == {} { NothingInFlight(some); }
    k := Oldest(some, InFlightIds(some));
    forall j | j in ms && !ms[j].completed && ms[j].generation >= g
      ensures ms[k].generation <= ms[j].generation
    {
      assert j in InFlightIds(some);
    }
    assert k in InFlightIds(some);
    NotOlderTwice(ms, g, ms[k].generation);
    NotOlderIsAll(some, ms[k].generation);
    SparesExactly(ms, size, limit, k);
  }

  ghost predicate IsThere(c: Carousel, d: Dii, b: Carousel, m: Info) {
    Judge(c, d, m).Accept? ==> m.id in b.modules && (Announced(c, d, m) ==> b.modules[m.id] == c.modules[m.id])
  }

  /** The first turn without room takes the oldest of what counts, and that is announced or new. */
  lemma FirstLoss(c: Carousel, d: Dii, i: nat) returns (m: Info)
    requires CarouselOk(c) && DistinctIds(d.modules) && i < |d.modules| && Whole(c, d, i) && Adds(c, d, d.modules[i])
    requires Load(c, d, i + 1, OldestKept(c, d, d.modules)) > c.limits.maxInFlight
    ensures m in d.modules && !IsThere(c, d, Before(c, d, |d.modules|), m)
  {
    LoadWithout(c, d, i);
    AddsTurn(c, d, i);
    hide CarouselOk, InFlight, Before, NotOlder, Load, MakeRoom, NewModule, AddedSizes, Replaced, Adds, KeepsOld, KeepsNew;
    var b, g, n := Before(c, d, i), OldestKept(c, d, d.modules), |d.modules|;
    BeforeOk(c, d, i);
    UniqueLess(b, d.modules[i].id);
    var rest := b.modules - {d.modules[i].id};
    var k := TooLittleRoom(rest, d.modules[i].size, c.limits.maxInFlight, g);
    assert k !in Before(c, d, i + 1).modules;
    if g <= c.generation {
      m :| m in d.modules && Continues(c, d, m) && c.modules[m.id].generation == g;
      OldestIsLost(c, d, i, m, k);
    } else {
      m := NewIsLost(c, d, i, k);
    }
  }

  lemma OldestIsLost(c: Carousel, d: Dii, i: nat, m: Info, k: uint16)
    requires CarouselOk(c) && DistinctIds(d.modules) && i < |d.modules| && KeepsOld(c, d, i) && Adds(c, d, d.modules[i])
    requires m in d.modules && Continues(c, d, m) && c.modules[m.id].generation == OldestKept(c, d, d.modules)
    requires k in Before(c, d, i).modules && k !in Before(c, d, i + 1).modules
    requires OldestKept(c, d, d.modules) <= Before(c, d, i).modules[k].generation
    requires forall j | j in Before(c, d, i).modules - {d.modules[i].id} && !Before(c, d, i).modules[j].completed
                        && Before(c, d, i).modules[j].generation >= OldestKept(c, d, d.modules) ::
               Before(c, d, i).modules[k].generation <= Before(c, d, i).modules[j].generation
    ensures !IsThere(c, d, Before(c, d, |d.modules|), m)
  {
    hide InFlight, Held, Before, Replaced, OldestKept;
    var b, n := Before(c, d, i), |d.modules|;
    NeverReplaced(c, d, m, i);
    assert b.modules[m.id] == c.modules[m.id];
    BeforeOk(c, d, i);
    assert m.id != d.modules[i].id;
    assert b.modules[k].generation == b.modules[m.id].generation && k == m.id;
    GoneForGood(c, d, i + 1, n, k);
    GenerationOf(c, k);
    AnnouncedSize(c, d, m);
  }

  lemma {:induction false} NeverReplaced(c: Carousel, d: Dii, m: Info, i: nat)
    requires DistinctIds(d.modules) && m in d.modules && Announced(c, d, m) && i <= |d.modules|
    ensures m.id !in Replaced(c, d, d.modules[..i])
    decreases i
  {
    hide Announced;
    if i > 0 {
      NeverReplaced(c, d, m, i - 1);
      ReplacedMore(c, d, i - 1);
    }
  }

  lemma NewIsLost(c: Carousel, d: Dii, i: nat, k: uint16) returns (m: Info)
    requires CarouselOk(c) && DistinctIds(d.modules) && i < |d.modules|
    requires k in Before(c, d, i).modules && Before(c, d, i).modules[k].generation > c.generation
    requires k !in Before(c, d, i + 1).modules
    ensures m in d.modules && !IsThere(c, d, Before(c, d, |d.modules|), m)
  {
    hide CarouselOk, Before;
    AllStem(c, d, i);
    assert Origin(c, Before(c, d, i), Ids(d.modules[..i]), k);
    var j :| 0 <= j < i && d.modules[..i][j].id == k;
    m := d.modules[j];
    VerdictStands(c, d, i, j);
    EvictedForGood(c, d, j, i + 1, |d.modules|);
  }

  lemma {:induction false} FirstWithoutRoom(c: Carousel, d: Dii, n: nat) returns (i: nat)
    requires n <= |d.modules| && !Roomy(c, d, n)
    ensures i < n && Roomy(c, d, i) && Adds(c, d, d.modules[i])
    ensures Load(c, d, i + 1, OldestKept(c, d, d.modules)) > c.limits.maxInFlight
    decreases n
  {
    hide Adds, Load, OldestKept;
    if !Roomy(c, d, n - 1) { i := FirstWithoutRoom(c, d, n - 1); } else { i := n - 1; }
  }

  lemma WholeIsThere(c: Carousel, d: Dii, m: Info)
    requires CarouselOk(c) && DistinctIds(d.modules) && Whole(c, d, |d.modules|) && m in d.modules
    ensures IsThere(c, d, Before(c, d, |d.modules|), m)
  {
    hide CarouselOk, Before, Replaced, Load, InFlight, NotOlder;
    if Announced(c, d, m) {
      NeverReplaced(c, d, m, |d.modules|);
      OldEnough(c, d, m);
    }
  }

  /**
   Nothing accepted is lost, and no module that is announced again loses its blocks,
   exactly if every module that has to be allocated finds room beside all that the oldest
   of those is not younger than and that the DII neither replaces nor rejects before, and
   beside what it adds before.
   */
  lemma NothingLostExactly(c: Carousel, d: Dii)
    requires CarouselOk(c) && DistinctIds(d.modules)
    ensures NothingLost(c, d) <==>
              forall i | 0 <= i < |d.modules| && Adds(c, d, d.modules[i]) ::
                Load(c, d, i + 1, OldestKept(c, d, d.modules)) <= c.limits.maxInFlight
  {
    hide CarouselOk, Load, OldestKept, AnnounceAll, Judge, Announced;
    var n := |d.modules|;
    assert d.modules[..n] == d.modules;
    var b := Before(c, d, n);
    forall m | m in d.modules
      ensures IsThere(c, d, b, m) <==> IsThere(c, d, ObserveDii(c, d), m)
    {
    }
    assert NothingLost(c, d) <==> forall m | m in d.modules :: IsThere(c, d, ObserveDii(c, d), m);
    if Roomy(c, d, n) {
      RoomyIsWhole(c, d, n);
      forall m | m in d.modules
        ensures IsThere(c, d, b, m)
      {
        WholeIsThere(c, d, m);
      }
    } else {
      var i := FirstWithoutRoom(c, d, n);
      RoomyIsWhole(c, d, i);
      var m := FirstLoss(c, d, i);
    }
  }

  // ----- when no incomplete module is announced again -----

  lemma {:induction false} CompleteStays(c: Carousel, d: Dii, n: nat, m: Info)
    requires CarouselOk(c) && DistinctIds(d.modules) && n <= |d.modules|
    requires m in d.modules && Announced(c, d, m) && c.modules[m.id].completed
    ensures m.id in Before(c, d, n).modules && Before(c, d, n).modules[m.id] == c.modules[m.id]
    decreases n
  {
    hide CarouselOk, Before, Announce, MakeRoom, NewModule;
    if n == 0 {
      NoneAccepted(c, d);
    } else {
      var b, last := Before(c, d, n - 1), d.modules[n - 1];
      CompleteStays(c, d, n - 1, m);
      NextTurn(c, d, n - 1);
      BeforeOk(c, d, n - 1);
      AnnounceKeys(b, d, last);
      RoomIsMade(b.modules - {last.id}, last.size, b.limits.maxInFlight);
      AnnouncedSize(c, d, m);
      assert m.id == last.id ==> last == m;
    }
  }

  lemma {:induction false} AddedGrows(c: Carousel, d: Dii, i: nat, n: nat)
    requires i <= n <= |d.modules|
    ensures AddedSizes(c, d, d.modules[..i]) <= AddedSizes(c, d, d.modules[..n])
    decreases n
  {
    hide Adds, AddedSizes;
    if i < n {
      AddedGrows(c, d, i, n - 1);
      ReplacedMore(c, d, n - 1);
    }
  }

  lemma {:induction false} LastAdded(c: Carousel, d: Dii, n: nat) returns (i: nat)
    requires n <= |d.modules| && AddedSizes(c, d, d.modules[..n]) > 0
    ensures i < n && Adds(c, d, d.modules[i]) && AddedSizes(c, d, d.modules[..i + 1]) == AddedSizes(c, d, d.modules[..n])
    decreases n
  {
    hide Adds;
    i := n - 1;
    ReplacedMore(c, d, i);
    if !Adds(c, d, d.modules[i]) { i := LastAdded(c, d, i); }
  }

  lemma NewLoad(c: Carousel, d: Dii, i: nat)
    requires CarouselOk(c) && i <= |d.modules|
    ensures Load(c, d, i, c.generation + 1) == AddedSizes(c, d, d.modules[..i])
  {
    hide Replaced, AddedSizes, Held;
    var kept := NotOlder(c.modules - Replaced(c, d, d.modules[..i]), c.generation + 1);
    forall k | k in kept
      ensures false
    {
      GenerationOf(c, k);
    }
    assert InFlightSizes(kept) == map[];
  }

  lemma IsIn(c: Carousel, d: Dii, m: Info)
    requires Announced(c, d, m)
    ensures m.id in c.modules
  {
  }

  /**
   When no module is announced again while it is incomplete, as in a new carousel: what is
   accepted remains exactly if all that has to be allocated fits into the limit together.
   */
  lemma FitsTogetherExactly(c: Carousel, d: Dii)
    requires CarouselOk(c) && DistinctIds(d.modules) && forall m | m in d.modules :: !Continues(c, d, m)
    ensures AcceptedRemain(c, d) <==> AddedSizes(c, d, d.modules) <= c.limits.maxInFlight
  {
    hide CarouselOk, Load, AnnounceAll, Judge, Announced, Accepted, Adds, AddedSizes;
    var n := |d.modules|;
    assert d.modules[..n] == d.modules;
    NothingLostExactly(c, d);
    AcceptedAreJudged(c, d, n);
    forall m | m in d.modules && Announced(c, d, m)
      ensures m.id in c.modules && (c.modules[m.id].completed ==>
                m.id in ObserveDii(c, d).modules && ObserveDii(c, d).modules[m.id] == c.modules[m.id])
    {
      IsIn(c, d, m);
      if c.modules[m.id].completed { CompleteStays(c, d, n, m); }
    }
    assert AcceptedRemain(c, d) <==> NothingLost(c, d);
    forall i | 0 <= i < n && Adds(c, d, d.modules[i])
      ensures Load(c, d, i + 1, c.generation + 1) == AddedSizes(c, d, d.modules[..i + 1]) <= AddedSizes(c, d, d.modules)
    {
      NewLoad(c, d, i + 1);
      AddedGrows(c, d, i + 1, n);
    }
    if AddedSizes(c, d, d.modules) > 0 { var i := LastAdded(c, d, n); }
  }

  /** So what was accepted first can be evicted for what comes later in the same DII. */
  lemma AcceptedCanBeEvicted(d: Dii, a: Info, b: Info, limits: Limits)
    requires limits.WithDefaults() == limits
    requires d.modules == [a, b] && a.id != b.id && d.blockSize > 0
    requires 0 < a.size <= limits.maxModuleSize && 0 < b.size <= limits.maxModuleSize
    requires a.size <= limits.maxInFlight && b.size <= limits.maxInFlight < a.size + b.size
    ensures var c := NewCarousel(limits);
            Accepted(c, d, d.modules) == [a, b] && ObserveDii(c, d).modules.Keys == {b.id}
  {
    hide InFlight, NewModule;
    var c := NewCarousel(limits);
    var c1 := Announce(c, d, a);
    assert c1.modules == map[a.id := NewModule(d, a, 1)];
    NewSize(d, a, 1);
    OneInFlight(c1.modules, a.id, b.size, limits.maxInFlight);
    assert c1.modules - {b.id} == c1.modules;
    var c2 := Announce(c1, d, b);
    assert c2.modules == map[b.id := NewModule(d, b, 2)];
    assert d.modules[1..] == [b] && [b][1..] == [];
    assert AnnounceAll(c1, d, [b]) == AnnounceAll(c2, d, []) == c2;
    assert AnnounceAll(c, d, d.modules) == AnnounceAll(c1, d, [b]);
    assert Accepted(c1, d, [b]) == [b] + Accepted(c2, d, []);
    assert d.modules[1].id == b.id;
  }

  /** The carousel after a first DII with one module. */
  ghost function Holding(limits: Limits, d: Dii, a: Info): Carousel
    requires d.blockSize > 0
  {
    NewCarousel(limits).(modules := map[a.id := NewModule(d, a, 1)], generation := 1)
  }

  /** A module that is announced again unchanged can still lose its blocks: another makes it go before its turn, and it comes back empty. */
  lemma AnnouncedAgainCanBeNew(d: Dii, a: Info, b: Info, limits: Limits)
    requires limits.WithDefaults() == limits
    requires d.modules == [b, a] && a.id != b.id && d.blockSize > 0
    requires 0 < a.size <= limits.maxModuleSize && 0 < b.size <= limits.maxModuleSize
    requires a.size <= limits.maxInFlight && b.size <= limits.maxInFlight < a.size + b.size
    ensures var c := Holding(limits, d, a);
            && c == ObserveDii(NewCarousel(limits), d.(modules := [a])) && Announced(c, d, a)
            && ObserveDii(c, d).modules == map[a.id := NewModule(d, a, 3)]
  {
    hide InFlight, NewModule;
    var c := Holding(limits, d, a);
    FirstHolding(limits, d, a);
    NewSize(d, a, 1);
    NewSize(d, b, 2);
    NewNamed(d, a, 1);
    OneInFlight(c.modules, a.id, b.size, limits.maxInFlight);
    assert c.modules - {b.id} == c.modules;
    var c1 := Announce(c, d, b);
    assert c1.modules == map[b.id := NewModule(d, b, 2)];
    OneInFlight(c1.modules, b.id, a.size, limits.maxInFlight);
    assert c1.modules - {a.id} == c1.modules;
    var c2 := Announce(c1, d, a);
    assert c2.modules == map[a.id := NewModule(d, a, 3)];
    assert d.modules[1..] == [a] && [a][1..] == [];
    assert AnnounceAll(c1, d, [a]) == AnnounceAll(c2, d, []) == c2;
    assert AnnounceAll(c, d, d.modules) == AnnounceAll(c1, d, [a]);
    assert d.modules[1].id == a.id;
  }

  lemma NewNamed(d: Dii, m: Info, generation: nat)
    requires d.blockSize > 0
    ensures NewModule(d, m, generation).downloadId == d.downloadId && NewModule(d, m, generation).blockSize == d.blockSize
  {
  }

  lemma FirstHolding(limits: Limits, d: Dii, a: Info)
    requires limits.WithDefaults() == limits && d.blockSize > 0 && 0 < a.size <= limits.maxModuleSize && a.size <= limits.maxInFlight
    ensures Holding(limits, d, a) == ObserveDii(NewCarousel(limits), d.(modules := [a]))
  {
    hide InFlight;
    var c, e := NewCarousel(limits), d.(modules := [a]);
    assert [a][1..] == [] && e.modules[0].id == a.id;
    assert InFlightIds(c.modules - {a.id}) == {};
    NothingInFlight(map[]);
    var c1 := Announce(c, e, a);
    assert c1.modules == map[a.id := NewModule(d, a, 1)];
    assert AnnounceAll(c, e, [a]) == AnnounceAll(c1, e, []) == c1;
  }

  lemma OneInFlight(ms: Modules, k: uint16, size: nat, limit: nat)
    requires ms.Keys == {k} && !ms[k].completed && ms[k].info.size + size > limit >= size
    ensures MakeRoom(ms, size, limit) == map[]
  {
    Removal(ms, k);
    assert ms - {k} == map[];
    assert k in InFlightIds(ms);
    assert Oldest(ms, InFlightIds(ms)) == k;
  }
}
