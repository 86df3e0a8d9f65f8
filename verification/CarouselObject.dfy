/**
 The DSMCCCarousel object of ts/dsmcc_carousel.go with its running byte counters.
 Every method does what Carousel says, and the counters, which are natural numbers
 here, always equal the recomputed sums: no subtraction can underflow.
 */
module CarouselObject {
  import opened MapSums
  import opened Carousel
  import C = Carousel
  import opened CarouselTheorems

  datatype Option<T> = None | Some(value: T)

  class DsmccCarousel {
    const limits: Limits
    var modules: Modules
    var completedBytes: nat
    var inFlightBytes: nat
    var generation: nat
    var rejected: map<uint16, Rejection>

    ghost function State(): Carousel
      reads this
    {
      Carousel(limits, modules, generation, rejected)
    }

    ghost predicate Counted()
      reads this
    {
      inFlightBytes == InFlight(modules) && completedBytes == Held(modules)
    }

    ghost predicate Valid()
      reads this
    {
      Counted() && CarouselOk(State())
    }

    constructor (limits: Limits)
      ensures Valid() && State() == NewCarousel(limits)
    {
      this.limits := limits.WithDefaults();
      modules, completedBytes, inFlightBytes, generation, rejected := map[], 0, 0, 0, map[];
      new;
      assert HeldSizes(map[]) == map[];
    }

    method Remove(id: uint16)
      requires Counted()
      modifies this`modules, this`completedBytes, this`inFlightBytes
      ensures Counted() && modules == old(modules) - {id}
    {
      hide InFlight, Held;
      Removal(modules, id);
      if id !in modules {
        assert modules - {id} == modules;
        return;
      }
      var state := modules[id];
      if state.completed {
        completedBytes := completedBytes - |state.data|;
      } else {
        inFlightBytes := inFlightBytes - state.info.size;
      }
      modules := modules - {id};
    }

    /** Walks the map in whatever order it comes. */
    method FindOldest(ids: set<uint16>) returns (oldest: Option<uint16>)
      requires ids <= modules.Keys && UniqueGenerations(modules)
      ensures ids == {} <==> oldest.None?
      ensures ids != {} ==> oldest == Some(Oldest(modules, ids))
    {
      hide UniqueGenerations, IsOldest;
      oldest := None;
      var todo := ids;
      ghost var seen: set<uint16> := {};
      while todo != {}
        invariant todo + seen == ids
        invariant seen == {} <==> oldest.None?
        invariant oldest.Some? ==> oldest.value in ids && IsOldest(modules, seen, oldest.value)
        decreases |todo|
      {
        var id :| id in todo;
        OlderOf(modules, seen, oldest, id);
        if oldest.None? || modules[id].generation < modules[oldest.value].generation {
          oldest := Some(id);
        }
        todo := todo - {id};
        seen := seen + {id};
      }
      if oldest.Some? {
        assert seen == ids;
        VictimIsUnique(modules, ids, oldest.value);
      }
    }

    method EvictOldestInFlight() returns (evicted: bool)
      requires Counted() && UniqueGenerations(modules)
      modifies this`modules, this`completedBytes, this`inFlightBytes
      ensures Counted() && (evicted <==> InFlightIds(old(modules)) != {})
      ensures modules == if evicted then old(modules) - {Oldest(old(modules), InFlightIds(old(modules)))} else old(modules)
    {
      var oldest := FindOldest(InFlightIds(modules));
      if oldest.None? {
        return false;
      }
      Remove(oldest.value);
      evicted := true;
    }

    method EvictOldestCompletedExcept(except: uint16) returns (evicted: bool)
      requires Counted() && UniqueGenerations(modules)
      modifies this`modules, this`completedBytes, this`inFlightBytes
      ensures Counted() && (evicted <==> HeldIds(old(modules), except) != {})
      ensures modules == if evicted then old(modules) - {Oldest(old(modules), HeldIds(old(modules), except))} else old(modules)
    {
      var oldest := FindOldest(HeldIds(modules, except));
      if oldest.None? {
        return false;
      }
      Remove(oldest.value);
      evicted := true;
    }

    /** The loop of ObserveDII that makes room; it ends because every turn removes a module. */
    method MakeRoomFor(size: nat)
      requires Counted() && UniqueGenerations(modules)
      modifies this`modules, this`completedBytes, this`inFlightBytes
      ensures Counted() && modules == MakeRoom(old(modules), size, limits.maxInFlight)
    {
      hide InFlight, Held;
      var evicted := true;
      while inFlightBytes + size > limits.maxInFlight && evicted
        invariant Counted() && UniqueGenerations(modules)
        invariant MakeRoom(modules, size, limits.maxInFlight) == MakeRoom(old(modules), size, limits.maxInFlight)
        invariant !evicted ==> InFlightIds(modules) == {}
        decreases evicted, |modules|
      {
        evicted := EvictOldestInFlight();
      }
    }

    /** The loop that makes room for a payload that has become complete. */
    method TrimFor(except: uint16)
      requires Counted() && UniqueGenerations(modules)
      modifies this`modules, this`completedBytes, this`inFlightBytes
      ensures Counted() && modules == Trim(old(modules), limits.maxCompleted, except)
    {
      hide InFlight, Held;
      var evicted := true;
      while completedBytes > limits.maxCompleted && evicted
        invariant Counted() && UniqueGenerations(modules)
        invariant Trim(modules, limits.maxCompleted, except) == Trim(old(modules), limits.maxCompleted, except)
        invariant !evicted ==> HeldIds(modules, except) == {}
        decreases evicted, |modules|
      {
        evicted := EvictOldestCompletedExcept(except);
      }
    }

    method RejectModule(m: Info, reason: Reason)
      requires Counted()
      modifies this
      ensures Counted() && State() == Reject(old(State()), m, reason)
    {
      Remove(m.id);
      rejected := rejected[m.id := Rejection(m, reason)];
    }

    method AddModule(d: Dii, m: Info)
      requires Counted() && UniqueGenerations(modules) && d.blockSize > 0 && m.size <= limits.maxInFlight
      modifies this
      ensures Counted()
      ensures var room := MakeRoom(old(modules) - {m.id}, m.size, limits.maxInFlight);
              State() == Carousel(limits, room[m.id := NewModule(d, m, old(generation) + 1)], old(generation) + 1, old(rejected))
    {
      hide InFlight, Held, MakeRoom;
      Remove(m.id);
      ghost var rest := modules;
      RoomIsMade(modules, m.size, limits.maxInFlight);
      MakeRoomFor(m.size);
      if inFlightBytes + m.size > limits.maxInFlight {
        assert false;
      }
      assert modules - {m.id} == modules;
      NewSize(d, m, generation + 1);
      Putting(modules, m.id, NewModule(d, m, generation + 1));
      generation := generation + 1;
      modules := modules[m.id := NewModule(d, m, generation)];
      inFlightBytes := inFlightBytes + m.size;
    }

    /** One turn of ObserveDII's loop. */
    method AnnounceModule(d: Dii, m: Info) returns (accepted: bool)
      requires Counted() && UniqueGenerations(modules)
      modifies this
      ensures Counted() && State() == Announce(old(State()), d, m)
      ensures accepted <==> Judge(old(State()), d, m).Accept?
    {
      hide InFlight, Held, MakeRoom, NewModule;
      if m.size == 0 {
        RejectModule(m, SizeZero);
        return false;
      }
      if d.blockSize == 0 {
        RejectModule(m, BlockSizeZero);
        return false;
      }
      if m.size > limits.maxModuleSize {
        RejectModule(m, SizeLimitExceeded);
        return false;
      }
      ghost var was := rejected;
      rejected := rejected - {m.id};
      assert was[m.id := Rejection(m, InFlightBudgetExceeded)] == rejected[m.id := Rejection(m, InFlightBudgetExceeded)];
      if m.id in modules {
        var current := modules[m.id];
        if current.downloadId == d.downloadId && current.info.version == m.version && current.info.size == m.size
           && current.blockSize == d.blockSize {
          return true;
        }
      }
      if m.size > limits.maxInFlight {
        RejectModule(m, InFlightBudgetExceeded);
        return false;
      }
      AddModule(d, m);
      accepted := true;
    }

    method AnnounceModules(d: Dii) returns (accepted: seq<Info>)
      requires Valid()
      modifies this
      ensures Counted() && State() == AnnounceAll(old(State()), d, d.modules) && accepted == Accepted(old(State()), d, d.modules)
    {
      hide CarouselOk, InFlight, Held, Announce, Judge, UniqueGenerations;
      accepted := [];
      ghost var c := State();
      assert d.modules[0..] == d.modules;
      for i := 0 to |d.modules|
        invariant Counted() && CarouselOk(State())
        invariant AnnounceAll(State(), d, d.modules[i..]) == AnnounceAll(c, d, d.modules)
        invariant accepted + Accepted(State(), d, d.modules[i..]) == Accepted(c, d, d.modules)
      {
        var m := d.modules[i];
        assert d.modules[i..][1..] == d.modules[i + 1..];
        AnnounceKeeps(State(), d, m);
        UniqueOf(State());
        ghost var before, was := accepted, State();
        var ok := AnnounceModule(d, m);
        if ok {
          accepted := accepted + [m];
        }
        assert accepted == before + if Judge(was, d, m).Accept? then [m] else [];
      }
    }

    method RemoveUnseenModules(seen: set<uint16>)
      requires Counted()
      modifies this`modules, this`completedBytes, this`inFlightBytes
      ensures Counted() && modules == old(modules) - (old(modules.Keys) - seen)
    {
      hide InFlight, Held;
      var todo := modules.Keys;
      while todo != {}
        invariant Counted() && todo <= old(modules.Keys)
        invariant modules == old(modules) - ((old(modules.Keys) - todo) - seen)
        decreases |todo|
      {
        var id :| id in todo;
        if id !in seen {
          Remove(id);
        }
        todo := todo - {id};
      }
    }

    method RemoveUnseenRejections(seen: set<uint16>)
      modifies this`rejected
      ensures rejected == old(rejected) - (old(rejected.Keys) - seen)
    {
      var todo := rejected.Keys;
      while todo != {}
        invariant todo <= old(rejected.Keys)
        invariant rejected == old(rejected) - ((old(rejected.Keys) - todo) - seen)
        decreases |todo|
      {
        var id :| id in todo;
        if id !in seen {
          rejected := rejected - {id};
        }
        todo := todo - {id};
      }
    }

    method ObserveDii(d: Dii) returns (accepted: seq<Info>)
      requires Valid()
      modifies this
      ensures Valid() && State() == C.ObserveDii(old(State()), d)
      ensures accepted == Accepted(old(State()), d, d.modules)
    {
      hide CarouselOk, AnnounceAll, InFlight, Held;
      DiiKeeps(State(), d);
      accepted := AnnounceModules(d);
      RemoveUnseenModules(Ids(d.modules));
      RemoveUnseenRejections(Ids(d.modules));
    }

    /** What happens when a module has become complete. */
    method CompleteModule(id: uint16, m: Module) returns (kept: bool)
      requires Valid() && Replaces(State(), id, m) && m.completed && !modules[id].completed
      requires m.info == modules[id].info && |m.data| == m.info.size
      modifies this
      ensures Valid() && State() == Complete(old(State()), id, m)
      ensures kept <==> KeepsBudget(old(State()), id, m)
    {
      hide InFlight, Held, Trim, ModuleOk;
      CompleteKeeps(State(), id, m);
      ReplaceOk(State(), id, m);
      Putting(modules, id, m);
      Removal(modules, id);
      modules := modules[id := m];
      inFlightBytes := inFlightBytes - m.info.size;
      completedBytes := completedBytes + m.info.size;
      TrimFor(id);
      if completedBytes > limits.maxCompleted {
        Remove(id);
        return false;
      }
      kept := true;
    }

    method ObserveDdb(b: Ddb) returns (outcome: Outcome)
      requires Valid()
      modifies this
      ensures Valid() && State() == C.ObserveDdb(old(State()), b)
      ensures outcome == DdbOutcome(old(State()), b)
    {
      hide InFlight, Held, Complete, ModuleOk, Fits, Store, KeepsBudget;
      if b.moduleId !in modules || !Fits(modules[b.moduleId], b) {
        return Ignored;
      }
      var was := modules[b.moduleId];
      FitsHasBlock(was, b);
      StoreOk(State(), b.moduleId, b);
      StoreKeepsIdentity(was, b);
      DdbKeeps(State(), b);
      var m := StoreBlock(was, b);
      if m.count < |m.received| {
        Putting(modules, b.moduleId, m);
        Removal(modules, b.moduleId);
        modules := modules[b.moduleId := m];
        return if was.received[b.block] then Duplicate else Block;
      }
      var kept := CompleteModule(b.moduleId, Finished(m));
      outcome := if kept then Completed(Finished(m)) else OverBudget;
    }

    method Restore(r: Cached) returns (restored: bool)
      requires Valid()
      modifies this
      ensures Valid() && (BlocksAreWhole(old(State())); State() == C.Restore(old(State()), r))
      ensures restored <==> Restorable(old(State()), r) && |r.data| <= limits.maxCompleted
    {
      hide InFlight, Held, Complete, BlockCount, UniqueGenerations, OneVerdict, KeepsBudget;
      BlocksAreWhole(State());
      if r.moduleId !in modules {
        return false;
      }
      var state := modules[r.moduleId];
      if state.completed || state.downloadId != r.downloadId || state.info.version != r.version || state.info.size != r.size
         || |r.data| != r.size {
        return false;
      }
      assert ModuleOk(State(), r.moduleId);
      var m := Restored(modules[r.moduleId], r.data);
      StaysExactly(State(), r.moduleId, m);
      restored := CompleteModule(r.moduleId, m);
    }

    method ReleaseCompletedPayload(id: uint16) returns (released: bool)
      requires Valid()
      modifies this
      ensures Valid() && State() == Release(old(State()), id)
      ensures released <==> Releasable(old(State()), id)
    {
      hide InFlight, Held, ModuleOk;
      ReleaseKeeps(State(), id);
      if id !in modules || !modules[id].completed || |modules[id].data| != modules[id].info.size {
        return false;
      }
      Putting(modules, id, modules[id].(data := []));
      Removal(modules, id);
      completedBytes := completedBytes - |modules[id].data|;
      modules := modules[id := modules[id].(data := [])];
      released := true;
    }
  }

  /** The block is copied into the module's bytes as far as they reach. */
  method StoreBlock(m: Module, b: Ddb) returns (stored: Module)
    requires Fits(m, b)
    ensures stored == Store(m, b)
  {
    var off := b.block * m.blockSize;
    var end := off + |b.data|;
    if end > |m.data| {
      end := |m.data|;
    }
    var received, count := m.received, m.count;
    if !received[b.block] {
      received := received[b.block := true];
      count := count + 1;
    }
    assert m.received[b.block := true] == received;
    stored := m.(received := received, count := count, data := m.data[..off] + b.data[..end - off] + m.data[end..]);
  }

  lemma OlderOf(ms: Modules, seen: set<uint16>, oldest: Option<uint16>, id: uint16)
    requires seen + {id} <= ms.Keys && (seen == {} <==> oldest.None?)
    requires oldest.Some? ==> IsOldest(ms, seen, oldest.value)
    ensures oldest.Some? ==> oldest.value in seen
    ensures oldest.None? || ms[id].generation < ms[oldest.value].generation ==> IsOldest(ms, seen + {id}, id)
    ensures oldest.Some? && ms[id].generation >= ms[oldest.value].generation ==> IsOldest(ms, seen + {id}, oldest.value)
  {
  }

  lemma FitsHasBlock(m: Module, b: Ddb)
    requires Fits(m, b)
    ensures b.block < |m.received|
  {
  }

  lemma UniqueOf(c: Carousel)
    requires CarouselOk(c)
    ensures UniqueGenerations(c.modules)
  {
  }
}
