/**
 What is in the carousel after a DII, and whether it is old or new, computed from the
 carousel and the DII before the call.
 */
module CarouselKeeping {
  import opened MapSums
  import opened Carousel
  import opened CarouselTheorems
  import opened CarouselAcceptance

  // ----- what can be computed before the call -----

  /**
   The bytes in flight before the call that are not older than g, without the modules that
   the first i modules of the DII replace or reject.
   */
  ghost function OldLoad(c: Carousel, d: Dii, i: nat, g: nat): nat
    requires i <= |d.modules|
  {
    InFlight(NotOlder(c.modules - Replaced(c, d, d.modules[..i]), g))
  }

  /** The bytes that the first i modules of the DII allocate. */
  ghost function NewLoad(c: Carousel, d: Dii, i: nat): nat
    requires i <= |d.modules|
    decreases i, 0
  {
    if i == 0 then 0 else NewLoad(c, d, i - 1) + if Allocates(c, d, i - 1) then d.modules[i - 1].size else 0
  }

  /** The first i modules push out what has been in flight since generation g. */
  ghost predicate PushedOut(c: Carousel, d: Dii, i: nat, g: nat)
    requires i <= |d.modules|
    decreases i, 1
  {
    i > 0 && (PushedOut(c, d, i - 1, g) || (Allocates(c, d, i - 1) && OldLoad(c, d, i, g) + NewLoad(c, d, i) > c.limits.maxInFlight))
  }

  /** Module i of the DII is allocated: it is accepted and not there as named, or was pushed out before its turn. */
  ghost predicate Allocates(c: Carousel, d: Dii, i: nat)
    requires i < |d.modules|
    decreases i, 2
  {
    var m := d.modules[i];
    && IsAcceptable(c, d, m)
    && (m.id in c.modules && IsNamed(c.modules[m.id], d, m) ==>
          !c.modules[m.id].completed && PushedOut(c, d, i, c.modules[m.id].generation))
  }

  // ----- the turns -----

  predicate OldThere(c: Carousel, b: Carousel, k: uint16)
    requires k in c.modules
  {
    k in b.modules && b.modules[k] == c.modules[k]
  }

  /** All payloads, and all that is not older than g, are there but for what is replaced; the bytes are known. */
  ghost predicate Kept(c: Carousel, d: Dii, i: nat, g: nat)
    requires i <= |d.modules|
  {
    var b := Before(c, d, i);
    && (forall k | k in c.modules && k !in Replaced(c, d, d.modules[..i]) && (c.modules[k].completed || c.modules[k].generation >= g) ::
          OldThere(c, b, k))
    && InFlight(NotOlder(b.modules, g)) == OldLoad(c, d, i, g) + NewLoad(c, d, i)
  }

  lemma AnnouncedIs(c: Carousel, d: Dii, m: Info)
    ensures Announced(c, d, m) <==> m.id in c.modules && IsNamed(c.modules[m.id], d, m)
    ensures Judge(c, d, m).Accept? <==> IsAcceptable(c, d, m)
    ensures Adds(c, d, m) <==> IsAcceptable(c, d, m) && !(m.id in c.modules && IsNamed(c.modules[m.id], d, m))
  {
    JudgedExactly(c, d, m);
  }

  /** A module that is there as named is acceptable. */
  lemma NamedIsAccepted(c: Carousel, d: Dii, m: Info)
    requires CarouselOk(c) && Announced(c, d, m)
    ensures Judge(c, d, m).Accept?
  {
    hide CarouselOk;
    AnnouncedSize(c, d, m);
  }

  /** Whether a module is allocated at its turn, when what is known before the call has been right so far. */
  lemma TurnAllocates(c: Carousel, d: Dii, i: nat)
    requires CarouselOk(c) && DistinctIds(d.modules) && i < |d.modules|
    requires var k := d.modules[i].id;
             k in c.modules && !c.modules[k].completed ==>
               (OldThere(c, Before(c, d, i), k) <==> !PushedOut(c, d, i, c.modules[k].generation))
    ensures Allocates(c, d, i) <==> Adds(Before(c, d, i), d, d.modules[i])
    ensures Announced(c, d, d.modules[i]) && Adds(Before(c, d, i), d, d.modules[i]) ==> d.modules[i].id !in Before(c, d, i).modules
  {
    hide CarouselOk, Before, Judge, PushedOut, Ids, Adds, Announced, IsAcceptable, IsNamed, Replaced;
    var b, m := Before(c, d, i), d.modules[i];
    NotYetTouched(c, d, i);
    VerdictIsKnown(c, d, i);
    AllStem(c, d, i);
    LaterId(d, i);
    AnnouncedIs(c, d, m);
    AnnouncedIs(b, d, m);
  }

  /** What is in flight beside module i at its turn, once what it replaces is gone. */
  lemma RestLoad(c: Carousel, d: Dii, i: nat, g: nat)
    requires CarouselOk(c) && DistinctIds(d.modules) && i < |d.modules| && Kept(c, d, i, g)
    requires Announced(c, d, d.modules[i]) ==> d.modules[i].id !in Before(c, d, i).modules
    ensures InFlight(NotOlder(Before(c, d, i).modules - {d.modules[i].id}, g)) == OldLoad(c, d, i + 1, g) + NewLoad(c, d, i)
  {
    hide CarouselOk, Before, InFlight, NotOlder, Replaced, AddedSizes, Announced, NewLoad;
    var b, k := Before(c, d, i), d.modules[i].id;
    NotYetTouched(c, d, i);
    ReplacedMore(c, d, i);
    var kept := c.modules - Replaced(c, d, d.modules[..i]);
    if Announced(c, d, d.modules[i]) {
      assert b.modules - {k} == b.modules;
      assert Replaced(c, d, d.modules[..i + 1]) == Replaced(c, d, d.modules[..i]);
    } else {
      WithoutOne(b.modules, kept, k, g);
      assert kept - {k} == c.modules - Replaced(c, d, d.modules[..i + 1]);
    }
  }

  /** What the turn of a module that is allocated makes of what counts. */
  lemma TurnOfNew(c: Carousel, d: Dii, i: nat, g: nat)
    requires CarouselOk(c) && DistinctIds(d.modules) && i < |d.modules| && Adds(Before(c, d, i), d, d.modules[i]) && g <= c.generation + 1
    ensures var b, m := Before(c, d, i), d.modules[i];
            var rest := b.modules - {m.id};
            var room := MakeRoom(rest, m.size, c.limits.maxInFlight);
            && d.blockSize > 0
            && Before(c, d, i + 1).modules == room[m.id := NewModule(d, m, b.generation + 1)]
            && Before(c, d, i + 1).generation == b.generation + 1 > c.generation
            && Part(room, rest) && UniqueGenerations(rest)
            && NewModule(d, m, b.generation + 1).generation == b.generation + 1
            && (InFlight(NotOlder(rest, g)) + m.size <= c.limits.maxInFlight ==>
                  && SparesNotOlder(rest, room, g)
                  && InFlight(NotOlder(Before(c, d, i + 1).modules, g)) == InFlight(NotOlder(rest, g)) + m.size)
  {
    hide CarouselOk, Before, Announce, NewModule, MakeRoom, InFlight, NotOlder, Judge, UniqueGenerations, Part, SparesNotOlder;
    var b, m := Before(c, d, i), d.modules[i];
    var rest := b.modules - {m.id};
    NextTurn(c, d, i);
    BeforeOk(c, d, i);
    AllStem(c, d, i);
    AnnounceKeys(b, d, m);
    AnnounceCounts(b, d, m);
    UniqueLess(b, m.id);
    NewGeneration(d, m, b.generation + 1);
    NewSize(d, m, b.generation + 1);
    RoomIsMade(rest, m.size, c.limits.maxInFlight);
    if InFlight(NotOlder(rest, g)) + m.size <= c.limits.maxInFlight {
      RoomFor(rest, m.id, NewModule(d, m, b.generation + 1), c.limits.maxInFlight, g);
    }
  }

  lemma AnnounceCounts(c: Carousel, d: Dii, m: Info)
    requires Adds(c, d, m)
    ensures Announce(c, d, m).generation == c.generation + 1
  {
    hide MakeRoom, NewModule;
  }

  /** The old modules that are spared are still there as they were. */
  lemma StillThere(c: Carousel, d: Dii, i: nat, g: nat, k: uint16)
    requires CarouselOk(c) && DistinctIds(d.modules) && i < |d.modules| && Adds(Before(c, d, i), d, d.modules[i]) && g <= c.generation + 1
    requires k in c.modules && k != d.modules[i].id && OldThere(c, Before(c, d, i), k)
    requires c.modules[k].completed || c.modules[k].generation >= g
    requires InFlight(NotOlder(Before(c, d, i).modules - {d.modules[i].id}, g)) + d.modules[i].size <= c.limits.maxInFlight
    ensures OldThere(c, Before(c, d, i + 1), k)
  {
    hide CarouselOk, Before, NewModule, MakeRoom, InFlight, NotOlder, Adds, UniqueGenerations;
    TurnOfNew(c, d, i, g);
  }

  // ----- both sides of every turn -----

  lemma {:induction false} Keeping(c: Carousel, d: Dii, i: nat, g: nat)
    requires CarouselOk(c) && DistinctIds(d.modules) && i <= |d.modules| && g <= c.generation + 1 && !PushedOut(c, d, i, g)
    ensures Kept(c, d, i, g)
    decreases i, 1
  {
    hide CarouselOk, Before, Kept, OldLoad, Announced, Adds, Allocates;
    if i == 0 {
      KeptAtFirst(c, d, g);
    } else {
      var j := i - 1;
      Keeping(c, d, j, g);
      AllocatesReally(c, d, j);
      if Adds(Before(c, d, j), d, d.modules[j]) {
        KeptByNew(c, d, j, g);
      } else {
        KeptByOld(c, d, j, g);
      }
    }
  }

  lemma KeptAtFirst(c: Carousel, d: Dii, g: nat)
    ensures Kept(c, d, 0, g)
  {
    NoneAccepted(c, d);
    assert d.modules[..0] == [];
    assert c.modules - {} == c.modules;
  }

  lemma KeptByNew(c: Carousel, d: Dii, i: nat, g: nat)
    requires CarouselOk(c) && DistinctIds(d.modules) && i < |d.modules| && g <= c.generation + 1 && Kept(c, d, i, g)
    requires Adds(Before(c, d, i), d, d.modules[i]) && Allocates(c, d, i)
    requires Announced(c, d, d.modules[i]) ==> d.modules[i].id !in Before(c, d, i).modules
    requires OldLoad(c, d, i + 1, g) + NewLoad(c, d, i + 1) <= c.limits.maxInFlight
    ensures Kept(c, d, i + 1, g)
  {
    hide CarouselOk, Before, InFlight, NotOlder, Replaced, OldLoad, Announced, Adds, Allocates, UniqueGenerations, NewModule, MakeRoom;
    RestLoad(c, d, i, g);
    TurnOfNew(c, d, i, g);
    ReplacedMore(c, d, i);
    forall k | k in c.modules && k !in Replaced(c, d, d.modules[..i + 1]) && (c.modules[k].completed || c.modules[k].generation >= g)
      ensures OldThere(c, Before(c, d, i + 1), k)
    {
      if k != d.modules[i].id { StillThere(c, d, i, g, k); }
    }
  }

  lemma KeptByOld(c: Carousel, d: Dii, i: nat, g: nat)
    requires CarouselOk(c) && DistinctIds(d.modules) && i < |d.modules| && Kept(c, d, i, g)
    requires !Adds(Before(c, d, i), d, d.modules[i]) && !Allocates(c, d, i)
    ensures Kept(c, d, i + 1, g)
  {
    hide CarouselOk, Before, InFlight, NotOlder, Replaced, OldLoad, Announced, Adds, Allocates, Judge, Announce;
    var b, m := Before(c, d, i), d.modules[i];
    NextTurn(c, d, i);
    AnnounceKeys(b, d, m);
    VerdictIsKnown(c, d, i);
    ReplacedMore(c, d, i);
    NotYetTouched(c, d, i);
    if Announced(c, d, m) {
      NamedIsAccepted(c, d, m);
      SameReplacedLoad(c, d, i, g);
    } else {
      OldIsNotAnnounced(c, b, d, m);
      RestLoad(c, d, i, g);
    }
  }

  lemma SameReplacedLoad(c: Carousel, d: Dii, i: nat, g: nat)
    requires i < |d.modules| && Announced(c, d, d.modules[i])
    ensures OldLoad(c, d, i + 1, g) == OldLoad(c, d, i, g)
  {
    hide InFlight, NotOlder, Announced, Replaced;
    ReplacedMore(c, d, i);
    assert Replaced(c, d, d.modules[..i + 1]) == Replaced(c, d, d.modules[..i]);
  }

  /** A module that is not there as named at its turn either is refused, if it is not allocated. */
  lemma OldIsNotAnnounced(c: Carousel, b: Carousel, d: Dii, m: Info)
    requires !Announced(c, d, m) && (m.id in b.modules ==> m.id in c.modules && b.modules[m.id] == c.modules[m.id]) && !Adds(b, d, m)
    ensures !Judge(b, d, m).Accept?
  {
  }

  /** Whether an old module that is not replaced is still there. */
  lemma {:induction false} Evicting(c: Carousel, d: Dii, i: nat, k: uint16)
    requires CarouselOk(c) && DistinctIds(d.modules) && i <= |d.modules|
    requires k in c.modules && !c.modules[k].completed && k !in Replaced(c, d, d.modules[..i])
    ensures OldThere(c, Before(c, d, i), k) <==> !PushedOut(c, d, i, c.modules[k].generation)
    decreases i, 2
  {
    hide CarouselOk, Before, Kept, OldLoad, Announced, Adds, Allocates, Replaced;
    var g := c.modules[k].generation;
    GenerationOf(c, k);
    if i == 0 {
      NoneAccepted(c, d);
    } else {
      var j := i - 1;
      ReplacedMore(c, d, j);
      Evicting(c, d, j, k);
      AllocatesReally(c, d, j);
      if !PushedOut(c, d, j, g) { Keeping(c, d, j, g); }
      if !Adds(Before(c, d, j), d, d.modules[j]) {
        OldStays(c, d, j, k);
      } else if !OldThere(c, Before(c, d, j), k) {
        NotComingBack(c, d, j, k);
      } else {
        PushesOut(c, d, j, k);
      }
    }
  }

  lemma OldStays(c: Carousel, d: Dii, i: nat, k: uint16)
    requires CarouselOk(c) && DistinctIds(d.modules) && i < |d.modules| && !Adds(Before(c, d, i), d, d.modules[i])
    requires k in c.modules && k !in Replaced(c, d, d.modules[..i + 1])
    ensures OldThere(c, Before(c, d, i + 1), k) <==> OldThere(c, Before(c, d, i), k)
  {
    hide CarouselOk, Before, Announced, Adds, Announce, Judge, Replaced;
    var b, m := Before(c, d, i), d.modules[i];
    NextTurn(c, d, i);
    AnnounceKeys(b, d, m);
    VerdictIsKnown(c, d, i);
    ReplacedMore(c, d, i);
    if k == m.id { NamedIsAccepted(c, d, m); }
  }

  lemma NotComingBack(c: Carousel, d: Dii, i: nat, k: uint16)
    requires CarouselOk(c) && DistinctIds(d.modules) && i < |d.modules| && Adds(Before(c, d, i), d, d.modules[i])
    requires k in c.modules && !OldThere(c, Before(c, d, i), k)
    ensures !OldThere(c, Before(c, d, i + 1), k)
  {
    hide CarouselOk, Before, Adds, NewModule, MakeRoom, InFlight, NotOlder, UniqueGenerations;
    TurnOfNew(c, d, i, 0);
    GenerationOf(c, k);
  }

  lemma PushesOut(c: Carousel, d: Dii, i: nat, k: uint16)
    requires CarouselOk(c) && DistinctIds(d.modules) && i < |d.modules|
    requires Adds(Before(c, d, i), d, d.modules[i]) && Allocates(c, d, i)
    requires Announced(c, d, d.modules[i]) ==> d.modules[i].id !in Before(c, d, i).modules
    requires k in c.modules && !c.modules[k].completed && OldThere(c, Before(c, d, i), k) && k !in Replaced(c, d, d.modules[..i + 1])
    requires Kept(c, d, i, c.modules[k].generation)
    ensures OldThere(c, Before(c, d, i + 1), k) <==> OldLoad(c, d, i + 1, c.modules[k].generation) + NewLoad(c, d, i + 1) <= c.limits.maxInFlight
  {
    hide CarouselOk, Before, Adds, NewModule, MakeRoom, InFlight, NotOlder, Kept, OldLoad, Allocates, Announced, Replaced;
    var g, m := c.modules[k].generation, d.modules[i];
    GenerationOf(c, k);
    ReplacedMore(c, d, i);
    RestLoad(c, d, i, g);
    TurnOfNew(c, d, i, g);
    var rest := Before(c, d, i).modules - {m.id};
    assert k != m.id;
    SparesExactly(rest, m.size, c.limits.maxInFlight, k);
  }

  lemma AllocatesReally(c: Carousel, d: Dii, i: nat)
    requires CarouselOk(c) && DistinctIds(d.modules) && i < |d.modules|
    ensures Allocates(c, d, i) <==> Adds(Before(c, d, i), d, d.modules[i])
    ensures Announced(c, d, d.modules[i]) && Adds(Before(c, d, i), d, d.modules[i]) ==> d.modules[i].id !in Before(c, d, i).modules
    decreases i, 3
  {
    hide CarouselOk, Before, Adds, Announced, Allocates, Replaced, PushedOut;
    var k := d.modules[i].id;
    NotYetTouched(c, d, i);
    if k in c.modules && !c.modules[k].completed { Evicting(c, d, i, k); }
    TurnAllocates(c, d, i);
  }

  // ----- the modules that the DII allocates -----

  lemma {:induction false} SameCalls(c: Carousel, d: Dii, e: Dii, ms: seq<Info>)
    requires d.downloadId == e.downloadId && d.blockSize == e.blockSize
    ensures AnnounceAll(c, d, ms) == AnnounceAll(c, e, ms)
    decreases |ms|
  {
    if ms != [] {
      SameCall(c, d, e, ms[0]);
      hide Announce;
      SameCalls(Announce(c, d, ms[0]), d, e, ms[1..]);
    }
  }

  lemma SameCall(c: Carousel, d: Dii, e: Dii, m: Info)
    requires d.downloadId == e.downloadId && d.blockSize == e.blockSize
    ensures Announce(c, d, m) == Announce(c, e, m) && (Adds(c, d, m) <==> Adds(c, e, m))
  {
    hide MakeRoom;
  }

  lemma {:induction false} CallsAppend(c: Carousel, d: Dii, first: seq<Info>, rest: seq<Info>)
    ensures AnnounceAll(c, d, first + rest) == AnnounceAll(AnnounceAll(c, d, first), d, rest)
    decreases |first|
  {
    hide Announce;
    if first == [] {
      assert first + rest == rest;
    } else {
      assert (first + rest)[1..] == first[1..] + rest;
      CallsAppend(Announce(c, d, first[0]), d, first[1..], rest);
    }
  }

  /** The DII without its first j + 1 modules. */
  function Later(d: Dii, j: nat): Dii
    requires j < |d.modules|
  {
    d.(modules := d.modules[j + 1..])
  }

  lemma LaterBefore(c: Carousel, d: Dii, j: nat, i: nat)
    requires j < |d.modules| && j + 1 + i <= |d.modules|
    ensures Before(Before(c, d, j + 1), Later(d, j), i) == Before(c, d, j + 1 + i)
  {
    hide AnnounceAll;
    var first, rest := d.modules[..j + 1], Later(d, j).modules[..i];
    assert first + rest == d.modules[..j + 1 + i];
    CallsAppend(c, d, first, rest);
    SameCalls(AnnounceAll(c, d, first), d, Later(d, j), rest);
  }

  lemma LaterOk(c: Carousel, d: Dii, j: nat)
    requires CarouselOk(c) && DistinctIds(d.modules) && j < |d.modules|
    ensures CarouselOk(Before(c, d, j + 1)) && DistinctIds(Later(d, j).modules)
    ensures forall i | 0 <= i < |Later(d, j).modules| :: Later(d, j).modules[i] == d.modules[j + 1 + i]
  {
    hide CarouselOk, Before;
    BeforeOk(c, d, j + 1);
  }

  lemma LaterAllocates(c: Carousel, d: Dii, j: nat, i: nat)
    requires CarouselOk(c) && DistinctIds(d.modules) && j < |d.modules| && j + 1 + i < |d.modules|
    ensures Allocates(Before(c, d, j + 1), Later(d, j), i) <==> Allocates(c, d, j + 1 + i)
  {
    hide CarouselOk, Before, Adds, Allocates, DistinctIds;
    LaterOk(c, d, j);
    LaterBefore(c, d, j, i);
    AllocatesReally(c, d, j + 1 + i);
    AllocatesReally(Before(c, d, j + 1), Later(d, j), i);
    SameCall(Before(c, d, j + 1 + i), d, Later(d, j), d.modules[j + 1 + i]);
  }

  lemma {:induction false} LaterLoad(c: Carousel, d: Dii, j: nat, i: nat)
    requires CarouselOk(c) && DistinctIds(d.modules) && j < |d.modules| && j + 1 + i <= |d.modules|
    ensures NewLoad(Before(c, d, j + 1), Later(d, j), i) == NewLoad(c, d, j + 1 + i) - NewLoad(c, d, j + 1)
    decreases i
  {
    hide CarouselOk, Before, Allocates;
    if i > 0 {
      LaterLoad(c, d, j, i - 1);
      LaterAllocates(c, d, j, i - 1);
    }
  }

  /** A single module that is in flight with the latest generation. */
  lemma OnlyNewest(b: Carousel, gone: set<uint16>, k: uint16)
    requires CarouselOk(b) && k in b.modules && k !in gone && !b.modules[k].completed && b.modules[k].generation == b.generation
    ensures InFlight(NotOlder(b.modules - gone, b.generation)) == b.modules[k].info.size
  {
    hide InFlight;
    forall x | x in b.modules
      ensures b.modules[x].generation <= b.generation && (b.modules[x].generation == b.generation ==> x == k)
    {
      GenerationOf(b, x);
    }
    assert NotOlder(b.modules - gone, b.generation) == map[k := b.modules[k]];
    assert NotOlder(map[][k := b.modules[k]], 0) == map[k := b.modules[k]];
    assert NotOlder(map[], 0) == map[];
    NotOlderPut(map[], k, b.modules[k], 0);
    NothingIsInFlight();
  }

  lemma NothingIsInFlight()
    ensures InFlight(map[]) == 0
  {
    assert InFlightSizes(map[]) == map[];
  }

  /** Some later module is allocated that does not fit beside all that is allocated from module j to it. */
  ghost predicate Crowded(c: Carousel, d: Dii, j: nat, n: nat)
    requires j < n <= |d.modules|
  {
    exists x | j < x < n :: Allocates(c, d, x) && NewLoad(c, d, x + 1) - NewLoad(c, d, j) > c.limits.maxInFlight
  }

  lemma NewestAfter(c: Carousel, d: Dii, j: nat)
    requires CarouselOk(c) && DistinctIds(d.modules) && j < |d.modules| && Allocates(c, d, j)
    ensures var b, m := Before(c, d, j + 1), d.modules[j];
            && b.limits == c.limits && m.id in b.modules && b.modules[m.id].info.size == m.size
            && !b.modules[m.id].completed && b.modules[m.id].generation == b.generation > c.generation
            && IsEmpty(b.modules[m.id], d, m)
  {
    hide CarouselOk, Before, Adds, NewModule, MakeRoom, InFlight, NotOlder, UniqueGenerations, Allocates, Part;
    AllocatesReally(c, d, j);
    BeforeOk(c, d, j + 1);
    TurnOfNew(c, d, j, 0);
    NewIsEmpty(d, d.modules[j], Before(c, d, j).generation + 1);
  }

  lemma {:induction false} PushedOutLater(c: Carousel, d: Dii, j: nat, i: nat)
    requires CarouselOk(c) && DistinctIds(d.modules) && j < |d.modules| && j + 1 + i <= |d.modules| && Allocates(c, d, j)
    ensures var b := Before(c, d, j + 1);
            PushedOut(b, Later(d, j), i, b.generation) <==> Crowded(c, d, j, j + 1 + i)
    decreases i
  {
    hide CarouselOk, Before, Allocates, OldLoad, NewLoad, IsEmpty;
    if i > 0 {
      var b := Before(c, d, j + 1);
      PushedOutLater(c, d, j, i - 1);
      NewestAfter(c, d, j);
      LaterAllocates(c, d, j, i - 1);
      LaterLoad(c, d, j, i);
      NewLoadNext(c, d, j);
      OldLoadOfNewest(c, d, j, i);
      assert Crowded(c, d, j, j + 1 + i) <==>
               Crowded(c, d, j, j + i) || (Allocates(c, d, j + i) && NewLoad(c, d, j + i + 1) - NewLoad(c, d, j) > c.limits.maxInFlight);
    }
  }

  lemma NewLoadNext(c: Carousel, d: Dii, j: nat)
    requires j < |d.modules| && Allocates(c, d, j)
    ensures NewLoad(c, d, j + 1) == NewLoad(c, d, j) + d.modules[j].size
  {
    hide Allocates;
  }

  lemma OldLoadOfNewest(c: Carousel, d: Dii, j: nat, i: nat)
    requires CarouselOk(c) && DistinctIds(d.modules) && j < |d.modules| && j + 1 + i <= |d.modules| && Allocates(c, d, j)
    ensures var b := Before(c, d, j + 1);
            OldLoad(b, Later(d, j), i, b.generation) == d.modules[j].size
  {
    hide CarouselOk, Before, Allocates, IsEmpty, InFlight, NotOlder, Replaced;
    NewestAfter(c, d, j);
    LaterOk(c, d, j);
    ReplacedAreSeen(Before(c, d, j + 1), Later(d, j), i);
    NotSeenAgain(d, j, i);
    OnlyNewest(Before(c, d, j + 1), Replaced(Before(c, d, j + 1), Later(d, j), Later(d, j).modules[..i]), d.modules[j].id);
  }

  lemma NotSeenAgain(d: Dii, j: nat, i: nat)
    requires DistinctIds(d.modules) && j < |d.modules| && j + 1 + i <= |d.modules|
    ensures d.modules[j].id !in Ids(Later(d, j).modules[..i])
  {
  }

  /** Whether a module that the DII allocates is still there in the end. */
  lemma NewStays(c: Carousel, d: Dii, j: nat)
    requires CarouselOk(c) && DistinctIds(d.modules) && j < |d.modules| && Allocates(c, d, j)
    ensures d.modules[j].id in Before(c, d, |d.modules|).modules <==> !Crowded(c, d, j, |d.modules|)
  {
    hide CarouselOk, Before, Allocates, IsEmpty, PushedOut, Replaced, Crowded;
    var b, e, n, k := Before(c, d, j + 1), Later(d, j), |d.modules|, d.modules[j].id;
    var i := n - (j + 1);
    NewestAfter(c, d, j);
    LaterOk(c, d, j);
    LaterBefore(c, d, j, i);
    PushedOutLater(c, d, j, i);
    ReplacedAreSeen(b, e, i);
    NotSeenAgain(d, j, i);
    Evicting(b, e, i, k);
    if k in Before(c, d, n).modules { ModuleStands(c, d, n, j); }
  }

  // ----- what a DII leaves -----

  lemma OldStaysExactly(c: Carousel, d: Dii, j: nat)
    requires CarouselOk(c) && DistinctIds(d.modules) && j < |d.modules| && !Allocates(c, d, j) && IsAcceptable(c, d, d.modules[j])
    ensures var n, k := |d.modules|, d.modules[j].id;
            && k in c.modules && IsNamed(c.modules[k], d, d.modules[j])
            && (k in Before(c, d, n).modules <==> c.modules[k].completed || !PushedOut(c, d, n, c.modules[k].generation))
            && (k in Before(c, d, n).modules ==> Before(c, d, n).modules[k] == c.modules[k])
  {
    hide CarouselOk, Before, PushedOut, Replaced, Adds, Judge, Announced, IsNamed, IsAcceptable, Announce;
    var n, k, m := |d.modules|, d.modules[j].id, d.modules[j];
    AnnouncedIs(c, d, m);
    if c.modules[k].completed {
      CompleteStays(c, d, n, m);
    } else {
      NotYetTouched(c, d, j);
      NotReplaced(c, d, n, j);
      Evicting(c, d, n, k);
      Evicting(c, d, j, k);
      AllocatesReally(c, d, j);
      NextTurn(c, d, j);
      AnnounceKeys(Before(c, d, j), d, m);
      VerdictIsKnown(c, d, j);
      if k in Before(c, d, n).modules { ModuleStands(c, d, n, j); }
    }
  }

  lemma {:induction false} NotReplaced(c: Carousel, d: Dii, n: nat, j: nat)
    requires DistinctIds(d.modules) && j < |d.modules| && n <= |d.modules| && Announced(c, d, d.modules[j])
    ensures d.modules[j].id !in Replaced(c, d, d.modules[..n])
    decreases n
  {
    hide Announced, Replaced;
    if n == 0 {
      assert d.modules[..0] == [];
      NothingReplaced(c, d);
    } else {
      NotReplaced(c, d, n - 1, j);
      ReplacedMore(c, d, n - 1);
    }
  }

  lemma NothingReplaced(c: Carousel, d: Dii)
    ensures Replaced(c, d, []) == {}
  {
  }

  /**
   After a DII with distinct ids, told from the carousel and the DII alone: a module of it
   is there exactly if it is acceptable and nothing that the DII allocates pushes it out.
   It is empty and new if it has to be allocated, because it was not there as named or had
   been pushed out by its turn; otherwise it is just as it was.
   */
  lemma DiiLeavesExactly(c: Carousel, d: Dii, j: nat)
    requires CarouselOk(c) && DistinctIds(d.modules) && j < |d.modules|
    ensures var m, e := d.modules[j], ObserveDii(c, d);
            && (m.id in e.modules <==>
                  && IsAcceptable(c, d, m)
                  && if Allocates(c, d, j) then !Crowded(c, d, j, |d.modules|)
                     else c.modules[m.id].completed || !PushedOut(c, d, |d.modules|, c.modules[m.id].generation))
            && (m.id in e.modules ==>
                  if Allocates(c, d, j) then IsEmpty(e.modules[m.id], d, m) && e.modules[m.id].generation > c.generation
                  else e.modules[m.id] == c.modules[m.id] && IsNamed(c.modules[m.id], d, m))
  {
    hide CarouselOk, Before, PushedOut, Judge, IsNamed, IsAcceptable, IsEmpty, Allocates, Crowded, AnnounceAll;
    var n, m := |d.modules|, d.modules[j];
    IsBefore(c, d);
    AnnouncedIs(c, d, m);
    assert m.id in Ids(d.modules);
    if !IsAcceptable(c, d, m) {
      VerdictStands(c, d, n, j);
      NotAllocated(c, d, j);
    } else if Allocates(c, d, j) {
      NewStays(c, d, j);
      NewestAfter(c, d, j);
      if m.id in Before(c, d, n).modules { ModuleStands(c, d, n, j); }
    } else {
      OldStaysExactly(c, d, j);
    }
  }

  lemma NotAllocated(c: Carousel, d: Dii, j: nat)
    requires j < |d.modules| && !IsAcceptable(c, d, d.modules[j])
    ensures !Allocates(c, d, j)
  {
  }
}
