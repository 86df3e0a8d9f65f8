/**
 The DSM-CC carousel of ts/dsmcc_carousel.go as values.  How many bytes are in
 flight and how many are held is recomputed from the modules wherever it matters,
 so this is the reference that the carousel's running counters must agree with.
 */
module Carousel {
  import opened MapSums

  type byte = b: int | 0 <= b < 0x100
  type uint16 = w: int | 0 <= w < 0x1_0000
  type uint32 = w: int | 0 <= w < 0x1_0000_0000

  datatype Limits = Limits(maxModuleSize: uint32, maxCompleted: nat, maxInFlight: nat) {
    function WithDefaults(): Limits {
      Limits(if maxModuleSize == 0 then 1040896 else maxModuleSize,
             if maxCompleted == 0 then 0x400_0000 else maxCompleted,
             if maxInFlight == 0 then 0x100_0000 else maxInFlight)
    }
  }

  datatype Info = Info(id: uint16, size: uint32, version: byte, info: seq<byte>)

  datatype Dii = Dii(downloadId: uint32, blockSize: uint16, modules: seq<Info>)

  datatype Ddb = Ddb(downloadId: uint32, moduleId: uint16, version: byte, block: uint16, data: seq<byte>)

  datatype Module = Module(
    info: Info, downloadId: uint32, blockSize: uint16,
    data: seq<byte>, received: seq<bool>, count: nat, completed: bool, generation: nat)

  datatype Reason = SizeZero | BlockSizeZero | SizeLimitExceeded | InFlightBudgetExceeded

  datatype Rejection = Rejection(info: Info, reason: Reason)

  type Modules = map<uint16, Module>

  datatype Carousel = Carousel(limits: Limits, modules: Modules, generation: nat, rejected: map<uint16, Rejection>)

  function NewCarousel(limits: Limits): Carousel {
    Carousel(limits.WithDefaults(), map[], 0, map[])
  }

  /** The sum is taken in 32 bits. */
  function BlockCount(size: uint32, blockSize: uint16): nat
    requires blockSize > 0
  {
    ((size + blockSize - 1) % 0x1_0000_0000) / blockSize
  }

  // ----- the bytes -----

  function InFlightSizes(ms: Modules): map<uint16, nat> {
    map k | k in ms && !ms[k].completed :: ms[k].info.size
  }

  function HeldSizes(ms: Modules): map<uint16, nat> {
    map k | k in ms && ms[k].completed :: |ms[k].data|
  }

  ghost function InFlight(ms: Modules): nat {
    Sum(InFlightSizes(ms))
  }

  ghost function Held(ms: Modules): nat {
    Sum(HeldSizes(ms))
  }

  // ----- eviction -----

  function InFlightIds(ms: Modules): set<uint16> {
    set k | k in ms && !ms[k].completed
  }

  function HeldIds(ms: Modules, except: uint16): set<uint16> {
    set k | k in ms && ms[k].completed && |ms[k].data| > 0 && k != except
  }

  predicate IsOldest(ms: Modules, ids: set<uint16>, k: uint16)
    requires ids <= ms.Keys
  {
    k in ids && forall j | j in ids :: ms[k].generation <= ms[j].generation
  }

  lemma {:induction false} OldestExists(ms: Modules, ids: set<uint16>)
    requires ids <= ms.Keys && ids != {}
    ensures exists k :: IsOldest(ms, ids, k)
    decreases |ids|
  {
    var c :| c in ids;
    if ids == {c} {
      assert IsOldest(ms, ids, c);
    } else {
      var rest := ids - {c};
      assert ids == rest + {c};
      OldestExists(ms, rest);
      var k :| IsOldest(ms, rest, k);
      assert IsOldest(ms, ids, if ms[c].generation <= ms[k].generation then c else k);
    }
  }

  ghost function Oldest(ms: Modules, ids: set<uint16>): (k: uint16)
    requires ids <= ms.Keys && ids != {}
    ensures IsOldest(ms, ids, k)
  {
    OldestExists(ms, ids);
    var k :| IsOldest(ms, ids, k);
    k
  }

  /** The loop around evictOldestInFlight. */
  ghost function MakeRoom(ms: Modules, size: nat, limit: nat): Modules
    decreases |ms|
  {
    if InFlight(ms) + size <= limit || InFlightIds(ms) == {} then ms
    else MakeRoom(ms - {Oldest(ms, InFlightIds(ms))}, size, limit)
  }

  /** The loop around evictOldestCompletedExcept. */
  ghost function Trim(ms: Modules, limit: nat, except: uint16): Modules
    decreases |ms|
  {
    if Held(ms) <= limit || HeldIds(ms, except) == {} then ms
    else Trim(ms - {Oldest(ms, HeldIds(ms, except))}, limit, except)
  }

  // ----- ObserveDII -----

  function Reject(c: Carousel, m: Info, reason: Reason): Carousel {
    c.(modules := c.modules - {m.id}, rejected := c.rejected[m.id := Rejection(m, reason)])
  }

  /** The module is announced as it already is. */
  predicate Announced(c: Carousel, d: Dii, m: Info) {
    && m.id in c.modules
    && var s := c.modules[m.id];
       s.downloadId == d.downloadId && s.info.version == m.version && s.info.size == m.size && s.blockSize == d.blockSize
  }

  function NewModule(d: Dii, m: Info, generation: nat): Module
    requires d.blockSize > 0
  {
    Module(m, d.downloadId, d.blockSize, seq(m.size, _ => 0), seq(BlockCount(m.size, d.blockSize), _ => false), 0, false, generation)
  }

  datatype Verdict = Accept | Refuse(reason: Reason)

  /** What ObserveDII does with a module, decided before any eviction. */
  function Judge(c: Carousel, d: Dii, m: Info): Verdict {
    if m.size == 0 then Refuse(SizeZero)
    else if d.blockSize == 0 then Refuse(BlockSizeZero)
    else if m.size > c.limits.maxModuleSize then Refuse(SizeLimitExceeded)
    else if Announced(c, d, m) then Accept
    else if m.size > c.limits.maxInFlight then Refuse(InFlightBudgetExceeded)
    else Accept
  }

  /** One turn of ObserveDII's loop. */
  ghost function Announce(c: Carousel, d: Dii, m: Info): Carousel {
    match Judge(c, d, m)
    case Refuse(reason) => Reject(c, m, reason)
    case Accept =>
      if Announced(c, d, m) then c.(rejected := c.rejected - {m.id})
      else
        var room := MakeRoom(c.modules - {m.id}, m.size, c.limits.maxInFlight);
        c.(generation := c.generation + 1,
           modules := room[m.id := NewModule(d, m, c.generation + 1)],
           rejected := c.rejected - {m.id})
  }

  ghost function AnnounceAll(c: Carousel, d: Dii, ms: seq<Info>): Carousel
    decreases |ms|
  {
    if ms == [] then c else AnnounceAll(Announce(c, d, ms[0]), d, ms[1..])
  }

  ghost function Accepted(c: Carousel, d: Dii, ms: seq<Info>): seq<Info>
    decreases |ms|
  {
    if ms == [] then []
    else (if Judge(c, d, ms[0]).Accept? then [ms[0]] else []) + Accepted(Announce(c, d, ms[0]), d, ms[1..])
  }

  function Ids(ms: seq<Info>): set<uint16> {
    set i | 0 <= i < |ms| :: ms[i].id
  }

  function KeepSeen(c: Carousel, seen: set<uint16>): Carousel {
    c.(modules := c.modules - (c.modules.Keys - seen), rejected := c.rejected - (c.rejected.Keys - seen))
  }

  /** ObserveDII */
  ghost function ObserveDii(c: Carousel, d: Dii): Carousel {
    KeepSeen(AnnounceAll(c, d, d.modules), Ids(d.modules))
  }

  // ----- ObserveDDBWithResult -----

  datatype Outcome = Ignored | Block | Duplicate | Completed(whole: Module) | OverBudget

  predicate Fits(m: Module, b: Ddb) {
    && !m.completed && m.downloadId == b.downloadId && m.info.version == b.version && m.blockSize != 0
    && b.block < |m.received|
    && b.block * m.blockSize < |m.data|
  }

  function BlockEnd(m: Module, b: Ddb): nat {
    var end := b.block * m.blockSize + |b.data|;
    if end > |m.data| then |m.data| else end
  }

  /** The module with the block's bytes in place; bytes past the module's end are cut off. */
  function Store(m: Module, b: Ddb): Module
    requires Fits(m, b)
  {
    var off := b.block * m.blockSize;
    m.(received := m.received[b.block := true],
       count := if m.received[b.block] then m.count else m.count + 1,
       data := m.data[..off] + b.data[..BlockEnd(m, b) - off] + m.data[BlockEnd(m, b)..])
  }

  function Finished(m: Module): Module {
    m.(completed := true, received := [])
  }

  ghost predicate KeepsBudget(c: Carousel, id: uint16, m: Module) {
    Held(Trim(c.modules[id := m], c.limits.maxCompleted, id)) <= c.limits.maxCompleted
  }

  /** A module has become complete: older payloads make room for it, or else it is dropped. */
  ghost function Complete(c: Carousel, id: uint16, m: Module): Carousel {
    var trimmed := Trim(c.modules[id := m], c.limits.maxCompleted, id);
    c.(modules := if KeepsBudget(c, id, m) then trimmed else trimmed - {id})
  }

  ghost function ObserveDdb(c: Carousel, b: Ddb): Carousel {
    if b.moduleId !in c.modules || !Fits(c.modules[b.moduleId], b) then c
    else
      var m := Store(c.modules[b.moduleId], b);
      if m.count < |m.received| then c.(modules := c.modules[b.moduleId := m])
      else Complete(c, b.moduleId, Finished(m))
  }

  ghost function DdbOutcome(c: Carousel, b: Ddb): Outcome {
    if b.moduleId !in c.modules || !Fits(c.modules[b.moduleId], b) then Ignored
    else
      var was := c.modules[b.moduleId];
      var m := Store(was, b);
      if m.count < |m.received| then (if was.received[b.block] then Duplicate else Block)
      else if KeepsBudget(c, b.moduleId, Finished(m)) then Completed(Finished(m))
      else OverBudget
  }

  // ----- Restore and ReleaseCompletedPayload -----

  datatype Cached = Cached(downloadId: uint32, moduleId: uint16, version: byte, size: uint32, data: seq<byte>)

  predicate Restorable(c: Carousel, r: Cached) {
    && r.moduleId in c.modules
    && var m := c.modules[r.moduleId];
       !m.completed && m.downloadId == r.downloadId && m.info.version == r.version && m.info.size == r.size && |r.data| == r.size
  }

  function Restored(m: Module, data: seq<byte>): Module
    requires m.blockSize > 0
  {
    m.(data := data, received := [], count := BlockCount(m.info.size, m.blockSize), completed := true)
  }

  ghost function Restore(c: Carousel, r: Cached): Carousel
    requires forall k | k in c.modules :: c.modules[k].blockSize > 0
  {
    if !Restorable(c, r) then c else Complete(c, r.moduleId, Restored(c.modules[r.moduleId], r.data))
  }

  predicate Releasable(c: Carousel, id: uint16) {
    id in c.modules && c.modules[id].completed && |c.modules[id].data| == c.modules[id].info.size
  }

  function Release(c: Carousel, id: uint16): Carousel {
    if Releasable(c, id) then c.(modules := c.modules[id := c.modules[id].(data := [])]) else c
  }
}
