/**
 What the carousel keeps over every run: budgets, one verdict per module, unique
 generations; and that blocks in any order give the module back byte for byte.
 */
module CarouselTheorems {
  import opened MapSums
  import opened Carousel

  // ----- the invariant -----

  function Trues(bs: seq<bool>): nat {
    if bs == [] then 0 else (if bs[|bs| - 1] then 1 else 0) + Trues(bs[..|bs| - 1])
  }

  predicate ModuleOk(c: Carousel, k: uint16)
    requires k in c.modules
  {
    var m := c.modules[k];
    && m.info.id == k && 0 < m.info.size <= c.limits.maxModuleSize && m.blockSize > 0
    && 0 < m.generation <= c.generation
    && if m.completed then m.received == [] && (|m.data| == m.info.size || m.data == [])
       else
         && |m.data| == m.info.size && |m.received| == BlockCount(m.info.size, m.blockSize)
         && m.count == Trues(m.received) && (m.received == [] || m.count < |m.received|)
  }

  predicate ModulesOk(c: Carousel) {
    forall k | k in c.modules :: ModuleOk(c, k)
  }

  predicate UniqueGenerations(ms: Modules) {
    forall a, b | a in ms && b in ms && ms[a].generation == ms[b].generation :: a == b
  }

  predicate OneVerdict(c: Carousel) {
    && c.modules.Keys !! c.rejected.Keys
    && forall k | k in c.rejected :: c.rejected[k].info.id == k
  }

  ghost predicate Budgets(c: Carousel) {
    InFlight(c.modules) <= c.limits.maxInFlight && Held(c.modules) <= c.limits.maxCompleted
  }

  ghost predicate CarouselOk(c: Carousel) {
    ModulesOk(c) && UniqueGenerations(c.modules) && OneVerdict(c) && Budgets(c)
  }

  // ----- sums over modules -----

  lemma Removal(ms: Modules, k: uint16)
    ensures InFlight(ms - {k}) == if k in ms && !ms[k].completed then InFlight(ms) - ms[k].info.size else InFlight(ms)
    ensures Held(ms - {k}) == if k in ms && ms[k].completed then Held(ms) - |ms[k].data| else Held(ms)
  {
    SumWithout(InFlightSizes(ms), k);
    SumWithout(HeldSizes(ms), k);
    assert InFlightSizes(ms - {k}) == InFlightSizes(ms) - {k};
    assert HeldSizes(ms - {k}) == HeldSizes(ms) - {k};
  }

  lemma Putting(ms: Modules, k: uint16, m: Module)
    ensures InFlight(ms[k := m]) == InFlight(ms - {k}) + if m.completed then 0 else m.info.size
    ensures Held(ms[k := m]) == Held(ms - {k}) + if m.completed then |m.data| else 0
  {
    Removal(ms[k := m], k);
    assert ms[k := m] - {k} == ms - {k};
  }

  lemma Sweeping(ms: Modules, gone: set<uint16>)
    ensures InFlight(ms - gone) <= InFlight(ms) && Held(ms - gone) <= Held(ms)
  {
    SumLess(InFlightSizes(ms), gone);
    SumLess(HeldSizes(ms), gone);
    assert InFlightSizes(ms - gone) == InFlightSizes(ms) - gone;
    assert HeldSizes(ms - gone) == HeldSizes(ms) - gone;
  }

  lemma NothingInFlight(ms: Modules)
    requires InFlightIds(ms) == {}
    ensures InFlight(ms) == 0
  {
    forall k | k in ms
      ensures ms[k].completed
    {
      assert k !in InFlightIds(ms);
    }
    assert InFlightSizes(ms) == map[];
  }

  lemma NothingHeld(ms: Modules, except: uint16)
    requires HeldIds(ms, except) == {}
    ensures Held(ms - {except}) == 0
  {
    var w := HeldSizes(ms - {except});
    forall k | k in w
      ensures w[k] == 0
    {
      assert k !in HeldIds(ms, except);
    }
    SumZero(w);
  }

  // ----- eviction -----

  predicate Part(a: Modules, b: Modules) {
    a.Keys <= b.Keys && forall k | k in a :: a[k] == b[k]
  }

  /** The victim does not depend on the order in which the map is walked. */
  lemma VictimIsUnique(ms: Modules, ids: set<uint16>, k: uint16)
    requires UniqueGenerations(ms) && ids <= ms.Keys && IsOldest(ms, ids, k)
    ensures k == Oldest(ms, ids)
  {
    var o := Oldest(ms, ids);
    assert ms[k].generation <= ms[o].generation <= ms[k].generation;
  }

  /** Evicting in-flight modules ends with room for any module within the limit, and touches no complete one. */
  lemma {:induction false} RoomIsMade(ms: Modules, size: nat, limit: nat)
    ensures Part(MakeRoom(ms, size, limit), ms)
    ensures size <= limit ==> InFlight(MakeRoom(ms, size, limit)) + size <= limit
    ensures Held(MakeRoom(ms, size, limit)) == Held(ms)
    ensures forall k | k in ms && ms[k].completed :: k in MakeRoom(ms, size, limit)
    ensures InFlight(ms) + size <= limit ==> MakeRoom(ms, size, limit) == ms
    decreases |ms|
  {
    hide InFlight, Held;
    if InFlight(ms) + size <= limit {
    } else if InFlightIds(ms) == {} {
      NothingInFlight(ms);
    } else {
      var k := Oldest(ms, InFlightIds(ms));
      Removal(ms, k);
      RoomIsMade(ms - {k}, size, limit);
    }
  }

  /** Evicting complete modules keeps the exempt one and everything in flight, and stops within the limit or when nothing else is held. */
  lemma {:induction false} TrimKeeps(ms: Modules, limit: nat, except: uint16)
    ensures Part(Trim(ms, limit, except), ms)
    ensures Held(Trim(ms, limit, except)) <= limit || HeldIds(Trim(ms, limit, except), except) == {}
    ensures InFlight(Trim(ms, limit, except)) == InFlight(ms)
    ensures forall k | k in ms && (!ms[k].completed || k == except) :: k in Trim(ms, limit, except)
    ensures Held(ms) <= limit ==> Trim(ms, limit, except) == ms
    decreases |ms|
  {
    hide InFlight, Held;
    if Held(ms) > limit && HeldIds(ms, except) != {} {
      var k := Oldest(ms, HeldIds(ms, except));
      Removal(ms, k);
      TrimKeeps(ms - {k}, limit, except);
    }
  }

  /** Whoever is evicted to make room is older than every in-flight module that stays. */
  lemma {:induction false} OldestGoFirst(ms: Modules, size: nat, limit: nat, gone: uint16, stays: uint16)
    requires UniqueGenerations(ms) && gone in ms && gone !in MakeRoom(ms, size, limit)
    requires stays in MakeRoom(ms, size, limit) && stays in ms && !ms[stays].completed
    ensures ms[gone].generation < ms[stays].generation
    decreases |ms|
  {
    hide InFlight;
    if InFlight(ms) + size > limit && InFlightIds(ms) != {} {
      var k := Oldest(ms, InFlightIds(ms));
      RoomIsMade(ms - {k}, size, limit);
      assert stays in InFlightIds(ms) && stays != k;
      if gone != k { OldestGoFirst(ms - {k}, size, limit, gone, stays); }
    }
  }

  /** No more is evicted than need be: with the last evicted module there would be no room. */
  lemma {:induction false} NoMoreThanNeeded(ms: Modules, size: nat, limit: nat) returns (last: uint16)
    requires MakeRoom(ms, size, limit) != ms
    ensures last in ms && last !in MakeRoom(ms, size, limit) && !ms[last].completed
    ensures InFlight(MakeRoom(ms, size, limit)) + ms[last].info.size + size > limit
    decreases |ms|
  {
    hide InFlight;
    var k := Oldest(ms, InFlightIds(ms));
    Removal(ms, k);
    RoomIsMade(ms - {k}, size, limit);
    if MakeRoom(ms - {k}, size, limit) == ms - {k} {
      last := k;
    } else {
      last := NoMoreThanNeeded(ms - {k}, size, limit);
    }
  }

  /** The same among the complete modules: the oldest payloads go first. */
  lemma {:induction false} OldestPayloadsGoFirst(ms: Modules, limit: nat, except: uint16, gone: uint16, stays: uint16)
    requires UniqueGenerations(ms) && gone in ms && gone !in Trim(ms, limit, except)
    requires stays in Trim(ms, limit, except) && stays in HeldIds(ms, except)
    ensures ms[gone].generation < ms[stays].generation
    decreases |ms|
  {
    hide Held;
    if Held(ms) > limit && HeldIds(ms, except) != {} {
      var k := Oldest(ms, HeldIds(ms, except));
      TrimKeeps(ms - {k}, limit, except);
      assert stays != k && stays in HeldIds(ms - {k}, except);
      if gone != k { OldestPayloadsGoFirst(ms - {k}, limit, except, gone, stays); }
    }
  }

  /** A complete module stays exactly if it alone is within the limit. */
  lemma StaysExactly(c: Carousel, id: uint16, m: Module)
    requires m.completed
    ensures KeepsBudget(c, id, m) <==> |m.data| <= c.limits.maxCompleted
  {
    hide Held, InFlight, Trim;
    var trimmed := Trim(c.modules[id := m], c.limits.maxCompleted, id);
    TrimKeeps(c.modules[id := m], c.limits.maxCompleted, id);
    assert trimmed[id] == m && trimmed == trimmed[id := m];
    Putting(trimmed, id, m);
    if HeldIds(trimmed, id) == {} { NothingHeld(trimmed, id); }
  }

  // ----- every operation keeps the invariant -----

  lemma PartOk(c: Carousel, part: Modules)
    requires ModulesOk(c) && UniqueGenerations(c.modules) && OneVerdict(c) && Part(part, c.modules)
    ensures var d := c.(modules := part);
            ModulesOk(d) && UniqueGenerations(part) && OneVerdict(d)
  {
    var d := c.(modules := part);
    forall k | k in d.modules
      ensures ModuleOk(d, k)
    {
      assert ModuleOk(c, k);
    }
  }

  lemma RejectKeeps(c: Carousel, m: Info, reason: Reason)
    requires CarouselOk(c)
    ensures CarouselOk(Reject(c, m, reason))
  {
    hide InFlight, Held, ModuleOk;
    Removal(c.modules, m.id);
    var d := Reject(c, m, reason);
    forall k | k in d.modules
      ensures ModuleOk(d, k)
    {
      SameModule(c, d, k);
    }
  }

  lemma SameModule(c: Carousel, d: Carousel, k: uint16)
    requires k in c.modules && k in d.modules && c.modules[k] == d.modules[k]
    requires ModuleOk(c, k) && d.limits == c.limits && d.generation >= c.generation
    ensures ModuleOk(d, k)
  {
  }

  lemma {:induction false} NoTrues(n: nat)
    ensures Trues(seq(n, _ => false)) == 0
  {
    if n > 0 {
      assert seq(n, _ => false)[..n - 1] == seq(n - 1, _ => false);
      NoTrues(n - 1);
    }
  }

  lemma NewModuleOk(c: Carousel, d: Dii, m: Info)
    requires 0 < m.size <= c.limits.maxModuleSize && d.blockSize > 0
    requires m.id in c.modules && c.modules[m.id] == NewModule(d, m, c.generation) && c.generation > 0
    ensures ModuleOk(c, m.id)
  {
    NoTrues(BlockCount(m.size, d.blockSize));
  }

  lemma AnnounceKeeps(c: Carousel, d: Dii, m: Info)
    requires CarouselOk(c)
    ensures CarouselOk(Announce(c, d, m))
  {
    hide InFlight, Held, MakeRoom, ModuleOk, NewModule;
    match Judge(c, d, m) {
      case Refuse(reason) => RejectKeeps(c, m, reason);
      case Accept =>
        var e := Announce(c, d, m);
        if Announced(c, d, m) {
          forall k | k in e.modules
            ensures ModuleOk(e, k)
          {
            SameModule(c, e, k);
          }
        } else {
          AddedKeeps(c, d, m);
        }
    }
  }

  lemma AddedKeeps(c: Carousel, d: Dii, m: Info)
    requires CarouselOk(c) && Judge(c, d, m).Accept? && !Announced(c, d, m)
    ensures CarouselOk(Announce(c, d, m))
  {
    hide InFlight, Held, MakeRoom, ModuleOk;
    var e := Announce(c, d, m);
    var rest := c.modules - {m.id};
    var room := MakeRoom(rest, m.size, c.limits.maxInFlight);
    Removal(c.modules, m.id);
    RoomIsMade(rest, m.size, c.limits.maxInFlight);
    assert room - {m.id} == room;
    Putting(room, m.id, NewModule(d, m, c.generation + 1));
    NewModuleOk(e, d, m);
    forall k | k in e.modules
      ensures ModuleOk(e, k)
      ensures k != m.id ==> k in c.modules && e.modules[k].generation <= c.generation
    {
      if k != m.id {
        assert k in c.modules && ModuleOk(c, k);
        SameModule(c, e, k);
        OldGeneration(c, k);
      }
    }
  }

  lemma OldGeneration(c: Carousel, k: uint16)
    requires k in c.modules && ModuleOk(c, k)
    ensures c.modules[k].generation <= c.generation
  {
  }

  lemma {:induction false} AnnounceAllKeeps(c: Carousel, d: Dii, ms: seq<Info>)
    requires CarouselOk(c)
    ensures CarouselOk(AnnounceAll(c, d, ms))
    ensures AnnounceAll(c, d, ms).limits == c.limits
    decreases |ms|
  {
    hide CarouselOk, MakeRoom;
    if ms != [] {
      AnnounceKeeps(c, d, ms[0]);
      AnnounceAllKeeps(Announce(c, d, ms[0]), d, ms[1..]);
    }
  }

  lemma KeepSeenKeeps(c: Carousel, seen: set<uint16>)
    requires CarouselOk(c)
    ensures CarouselOk(KeepSeen(c, seen))
  {
    hide InFlight, Held, ModuleOk;
    Sweeping(c.modules, c.modules.Keys - seen);
    var d := KeepSeen(c, seen);
    forall k | k in d.modules
      ensures ModuleOk(d, k)
    {
      SameModule(c, d, k);
    }
  }

  lemma DiiKeeps(c: Carousel, d: Dii)
    requires CarouselOk(c)
    ensures CarouselOk(ObserveDii(c, d))
  {
    hide CarouselOk, AnnounceAll;
    AnnounceAllKeeps(c, d, d.modules);
    KeepSeenKeeps(AnnounceAll(c, d, d.modules), Ids(d.modules));
  }

  /** A module of an existing carousel is replaced by a later state of itself. */
  predicate Replaces(c: Carousel, id: uint16, m: Module) {
    id in c.modules && m.generation == c.modules[id].generation && ModuleOk(c.(modules := c.modules[id := m]), id)
  }

  lemma ReplaceOk(c: Carousel, id: uint16, m: Module)
    requires ModulesOk(c) && UniqueGenerations(c.modules) && OneVerdict(c) && Replaces(c, id, m)
    ensures var d := c.(modules := c.modules[id := m]);
            ModulesOk(d) && UniqueGenerations(d.modules) && OneVerdict(d)
  {
    hide ModuleOk;
    var d := c.(modules := c.modules[id := m]);
    forall k | k in d.modules
      ensures ModuleOk(d, k)
    {
      if k != id { SameModule(c, d, k); }
    }
  }

  lemma CompleteKeeps(c: Carousel, id: uint16, m: Module)
    requires CarouselOk(c) && Replaces(c, id, m) && m.completed
    ensures CarouselOk(Complete(c, id, m))
  {
    hide InFlight, Held, Trim, ModuleOk, ModulesOk, UniqueGenerations, OneVerdict;
    ReplaceOk(c, id, m);
    var whole := c.modules[id := m];
    Putting(c.modules, id, m);
    Removal(c.modules, id);
    var trimmed := Trim(whole, c.limits.maxCompleted, id);
    TrimKeeps(whole, c.limits.maxCompleted, id);
    Removal(trimmed, id);
    if !KeepsBudget(c, id, m) { NothingHeld(trimmed, id); }
    PartOk(c.(modules := whole), Complete(c, id, m).modules);
  }

  lemma {:induction false} TruesBound(bs: seq<bool>)
    ensures Trues(bs) <= |bs|
    ensures Trues(bs) == |bs| <==> forall i | 0 <= i < |bs| :: bs[i]
    decreases |bs|
  {
    if bs != [] {
      TruesBound(bs[..|bs| - 1]);
      assert forall i | 0 <= i < |bs| - 1 :: bs[..|bs| - 1][i] == bs[i];
    }
  }

  lemma {:induction false} TruesSet(bs: seq<bool>, i: nat)
    requires i < |bs|
    ensures Trues(bs[i := true]) == Trues(bs) + if bs[i] then 0 else 1
    decreases |bs|
  {
    var last := |bs| - 1;
    if i == last {
      assert bs[i := true][..last] == bs[..last];
    } else {
      assert bs[i := true][..last] == bs[..last][i := true];
      TruesSet(bs[..last], i);
    }
  }

  lemma StoreKeepsIdentity(m: Module, b: Ddb)
    requires Fits(m, b)
    ensures var s := Store(m, b);
            s.info == m.info && s.blockSize == m.blockSize && s.completed == m.completed == false && s.generation == m.generation
            && s.downloadId == m.downloadId
  {
  }

  lemma FitsInFlight(m: Module, b: Ddb)
    requires Fits(m, b)
    ensures !m.completed && b.block < |m.received|
  {
  }

  lemma StoreShape(m: Module, b: Ddb)
    requires Fits(m, b) && m.count == Trues(m.received)
    ensures var s := Store(m, b);
            |s.data| == |m.data| && |s.received| == |m.received| && s.count == Trues(s.received) <= |s.received|
  {
    TruesSet(m.received, b.block);
    TruesBound(Store(m, b).received);
  }

  lemma StoreOk(c: Carousel, id: uint16, b: Ddb)
    requires id in c.modules && ModuleOk(c, id) && Fits(c.modules[id], b)
    ensures var m := Store(c.modules[id], b);
            && |m.data| == m.info.size && m.count == Trues(m.received) <= |m.received|
            && if m.count < |m.received| then Replaces(c, id, m) else m.count == |m.received| && Replaces(c, id, Finished(m))
  {
    hide BlockCount, Store, Fits;
    FitsInFlight(c.modules[id], b);
    StoreShape(c.modules[id], b);
    StoreKeepsIdentity(c.modules[id], b);
  }

  lemma DdbKeeps(c: Carousel, b: Ddb)
    requires CarouselOk(c)
    ensures CarouselOk(ObserveDdb(c, b))
  {
    hide InFlight, Held, Complete, ModuleOk, Fits, Store;
    var id := b.moduleId;
    if id in c.modules && Fits(c.modules[id], b) {
      StoreOk(c, id, b);
      var m := Store(c.modules[id], b);
      StoreKeepsIdentity(c.modules[id], b);
      if m.count < |m.received| {
        ReplaceOk(c, id, m);
        Putting(c.modules, id, m);
        Removal(c.modules, id);
      } else {
        CompleteKeeps(c, id, Finished(m));
      }
    }
  }

  lemma BlocksAreWhole(c: Carousel)
    requires ModulesOk(c)
    ensures forall k | k in c.modules :: c.modules[k].blockSize > 0
  {
    forall k | k in c.modules
      ensures c.modules[k].blockSize > 0
    {
      assert ModuleOk(c, k);
    }
  }

  lemma RestoreKeeps(c: Carousel, r: Cached)
    requires CarouselOk(c) && forall k | k in c.modules :: c.modules[k].blockSize > 0
    ensures CarouselOk(Restore(c, r))
  {
    hide InFlight, Held, Complete, BlockCount, UniqueGenerations, OneVerdict;
    if Restorable(c, r) {
      assert ModuleOk(c, r.moduleId);
      CompleteKeeps(c, r.moduleId, Restored(c.modules[r.moduleId], r.data));
    }
  }

  lemma ReleaseKeeps(c: Carousel, id: uint16)
    requires CarouselOk(c)
    ensures CarouselOk(Release(c, id))
  {
    hide InFlight, Held, BlockCount;
    if Releasable(c, id) {
      assert ModuleOk(c, id);
      var m := c.modules[id].(data := []);
      assert Replaces(c, id, m);
      ReplaceOk(c, id, m);
      Putting(c.modules, id, m);
      Removal(c.modules, id);
    }
  }

  // ----- runs -----

  datatype Event = SawDii(dii: Dii) | SawDdb(ddb: Ddb) | FoundInCache(cached: Cached) | Persisted(id: uint16)

  ghost function Next(c: Carousel, e: Event): Carousel
    requires CarouselOk(c)
  {
    match e
    case SawDii(d) => ObserveDii(c, d)
    case SawDdb(b) => ObserveDdb(c, b)
    case FoundInCache(r) => BlocksAreWhole(c); Restore(c, r)
    case Persisted(id) => Release(c, id)
  }

  lemma NextKeeps(c: Carousel, e: Event)
    requires CarouselOk(c)
    ensures CarouselOk(Next(c, e))
  {
    hide CarouselOk, ObserveDii, ObserveDdb, Restore, Release;
    match e {
      case SawDii(d) => DiiKeeps(c, d);
      case SawDdb(b) => DdbKeeps(c, b);
      case FoundInCache(r) => WholeBlocks(c); RestoreKeeps(c, r);
      case Persisted(id) => ReleaseKeeps(c, id);
    }
  }

  lemma WholeBlocks(c: Carousel)
    requires CarouselOk(c)
    ensures forall k | k in c.modules :: c.modules[k].blockSize > 0
  {
    BlocksAreWhole(c);
  }

  /** The states that the four public operations can bring about, in any order and number. */
  ghost predicate IsRun(c: Carousel, es: seq<Event>, d: Carousel)
    decreases |es|
  {
    if es == [] then c == d else CarouselOk(c) && IsRun(Next(c, es[0]), es[1..], d)
  }

  /** Every run from a new carousel exists and keeps the budgets, one verdict per module and unique generations. */
  lemma {:induction false} RunsKeepCarousel(c: Carousel, es: seq<Event>) returns (d: Carousel)
    requires CarouselOk(c)
    ensures IsRun(c, es, d) && CarouselOk(d)
    decreases |es|
  {
    hide CarouselOk, Next;
    if es == [] {
      d := c;
    } else {
      NextKeeps(c, es[0]);
      d := RunsKeepCarousel(Next(c, es[0]), es[1..]);
    }
  }

  lemma NewSize(d: Dii, m: Info, generation: nat)
    requires d.blockSize > 0
    ensures NewModule(d, m, generation).info == m && !NewModule(d, m, generation).completed
  {
  }
}
