/**
 Reassembly: the blocks of a module in any order, repeated, and mixed with blocks of
 other modules, give its payload exactly when the last distinct one arrives; a cached
 payload leaves the same carousel; and the simpler logo carousel gives the same bytes.
 */
module CarouselAssembly {
  import opened Carousel
  import opened CarouselTheorems

  // ----- what a block carries -----

  /** The 32-bit sum in BlockCount does not wrap around. */
  predicate NoWrap(size: uint32, blockSize: uint16) {
    size + blockSize - 1 < 0x1_0000_0000
  }

  function Min(a: nat, b: nat): nat {
    if a < b then a else b
  }

  /** All of the payload's bytes at the block's place, and no others. */
  predicate Carries(b: Ddb, blockSize: nat, payload: seq<byte>) {
    var off := b.block * blockSize;
    off < |payload| ==>
      && |b.data| >= Min(blockSize, |payload| - off)
      && forall j | 0 <= j < Min(|b.data|, |payload| - off) :: b.data[j] == payload[off + j]
  }

  /** The bytes of every block that counts as received are the payload's. */
  predicate Agrees(m: Module, payload: seq<byte>) {
    && |m.data| == |payload|
    && forall i, j | 0 <= i < |m.received| && m.received[i] && i * m.blockSize <= j < Min((i + 1) * m.blockSize, |payload|) ::
         m.data[j] == payload[j]
  }

  lemma StoreAgrees(m: Module, b: Ddb, payload: seq<byte>)
    requires Fits(m, b) && Agrees(m, payload) && Carries(b, m.blockSize, payload)
    ensures Agrees(Store(m, b), payload)
  {
    var s := Store(m, b);
    var off, end := b.block * m.blockSize, BlockEnd(m, b);
    StoredBytes(m, b, payload);
    forall i, j | 0 <= i < |s.received| && s.received[i] && i * s.blockSize <= j < Min((i + 1) * s.blockSize, |payload|)
      ensures s.data[j] == payload[j]
    {
      BlockSpan(i, m.blockSize);
      if !(off <= j < end) && i != b.block { assert m.received[i]; }
    }
  }

  lemma BlockSpan(i: nat, size: nat)
    ensures (i + 1) * size == i * size + size
  {
  }

  lemma StoredBytes(m: Module, b: Ddb, payload: seq<byte>)
    requires Fits(m, b) && |m.data| == |payload| && Carries(b, m.blockSize, payload)
    ensures var s := Store(m, b);
            var off, end := b.block * m.blockSize, BlockEnd(m, b);
            && |s.data| == |payload| && end >= Min(off + m.blockSize, |payload|)
            && (forall j | off <= j < end :: s.data[j] == payload[j])
            && (forall j | 0 <= j < |payload| && !(off <= j < end) :: s.data[j] == m.data[j])
  {
  }

  // ----- all blocks together are the payload -----

  lemma EveryByteHasABlock(size: uint32, blockSize: uint16, j: nat)
    requires blockSize > 0 && NoWrap(size, blockSize) && j < size
    ensures j / blockSize < BlockCount(size, blockSize)
    ensures (j / blockSize) * blockSize <= j < (j / blockSize + 1) * blockSize
  {
    var i := j / blockSize;
    assert j == i * blockSize + j % blockSize;
    BlockSpan(i, blockSize);
    assert BlockCount(size, blockSize) == (size + blockSize - 1) / blockSize;
    Dividing(j + blockSize, size + blockSize - 1, blockSize);
    NextBlock(j, blockSize);
  }

  lemma Dividing(a: nat, b: nat, d: nat)
    requires d > 0 && a <= b
    ensures a / d <= b / d
  {
    if a / d > b / d {
      Larger(b / d + 1, a / d, d);
    }
  }

  lemma Larger(p: nat, q: nat, d: nat)
    requires p <= q
    ensures p * d <= q * d
  {
  }

  lemma NextBlock(j: nat, d: nat)
    requires d > 0
    ensures (j + d) / d == j / d + 1
  {
    var i := j / d;
    var r := j % d;
    assert j == i * d + r;
    BlockSpan(i, d);
    Quotient(j + d, i + 1, r, d);
  }

  lemma Quotient(n: nat, q: nat, r: nat, d: nat)
    requires d > 0 && n == q * d + r && r < d
    ensures n / d == q
  {
    var p, s := n / d, n % d;
    assert n == p * d + s && s < d;
    if p < q { Larger(p + 1, q, d); BlockSpan(p, d); }
    if q < p { Larger(q + 1, p, d); BlockSpan(q, d); }
  }

  lemma AllReceivedIsWhole(m: Module, payload: seq<byte>)
    requires m.blockSize > 0 && |payload| == m.info.size && NoWrap(m.info.size, m.blockSize)
    requires |m.received| == BlockCount(m.info.size, m.blockSize) == Trues(m.received)
    requires Agrees(m, payload)
    ensures m.data == payload
  {
    hide BlockCount;
    TruesBound(m.received);
    forall j | 0 <= j < |payload|
      ensures m.data[j] == payload[j]
    {
      EveryByteHasABlock(m.info.size, m.blockSize, j);
      assert m.received[j / m.blockSize];
    }
  }

  /** A module has no blocks exactly if the 32-bit sum wraps around. */
  lemma NoBlocksExactly(size: uint32, blockSize: uint16)
    requires blockSize > 0 && size > 0
    ensures BlockCount(size, blockSize) == 0 <==> !NoWrap(size, blockSize)
  {
    var n := size + blockSize - 1;
    if NoWrap(size, blockSize) {
      Dividing(blockSize, n, blockSize);
      Quotient(blockSize, 1, 0, blockSize);
    } else {
      assert n % 0x1_0000_0000 == n - 0x1_0000_0000;
      Quotient(n - 0x1_0000_0000, 0, n - 0x1_0000_0000, blockSize);
    }
  }

  /** An incomplete module whose block count wraps around. */
  predicate Wraps(c: Carousel, k: uint16) {
    k in c.modules && !c.modules[k].completed && !NoWrap(c.modules[k].info.size, c.modules[k].blockSize)
  }

  /** Every block for it is ignored and changes nothing. */
  lemma WrapIgnoresBlocks(c: Carousel, b: Ddb)
    requires CarouselOk(c) && Wraps(c, b.moduleId)
    ensures DdbOutcome(c, b) == Ignored && ObserveDdb(c, b) == c
  {
    hide BlockCount, NoWrap, UniqueGenerations, OneVerdict, Budgets, Store, Complete, KeepsBudget;
    assert ModuleOk(c, b.moduleId);
    NoBlocksExactly(c.modules[b.moduleId].info.size, c.modules[b.moduleId].blockSize);
  }

  /** A DII completes nothing. */
  lemma {:induction false} DiiCompletesNothing(c: Carousel, d: Dii, ms: seq<Info>, k: uint16)
    requires k in c.modules ==> !c.modules[k].completed
    ensures k in AnnounceAll(c, d, ms).modules ==> !AnnounceAll(c, d, ms).modules[k].completed
    decreases |ms|
  {
    hide Judge, MakeRoom, Announced;
    if ms != [] {
      RoomIsMade(c.modules - {ms[0].id}, ms[0].size, c.limits.maxInFlight);
      DiiCompletesNothing(Announce(c, d, ms[0]), d, ms[1..], k);
    }
  }

  ghost predicate IsComplete(c: Carousel, k: uint16) {
    k in c.modules && c.modules[k].completed
  }

  /**
   When the 32-bit sum wraps around, no operation completes the module but Restore, and
   that does exactly if it is given a matching payload within the limit.
   */
  lemma WrapCompletesFromCacheOnly(c: Carousel, e: Event, k: uint16)
    requires CarouselOk(c) && Wraps(c, k)
    ensures IsComplete(Next(c, e), k) <==>
              e.FoundInCache? && e.cached.moduleId == k && Restorable(c, e.cached) && |e.cached.data| <= c.limits.maxCompleted
  {
    hide CarouselOk, BlockCount, NoWrap, Trim, Store, Fits, AnnounceAll, Held, InFlight;
    match e {
      case SawDii(d) => DiiCompletesNothing(c, d, d.modules, k);
      case SawDdb(b) => if b.moduleId == k { WrapIgnoresBlocks(c, b); } else { OtherCompletes(c, b, k); }
      case FoundInCache(r) =>
        WholeBlocks(c);
        if Restorable(c, r) {
          var m := Restored(c.modules[r.moduleId], r.data);
          TrimKeeps(c.modules[r.moduleId := m], c.limits.maxCompleted, r.moduleId);
          StaysExactly(c, r.moduleId, m);
        }
      case Persisted(id) =>
    }
  }

  lemma OtherCompletes(c: Carousel, b: Ddb, k: uint16)
    requires b.moduleId != k && k in c.modules && !c.modules[k].completed
    ensures !IsComplete(ObserveDdb(c, b), k)
  {
    hide Trim, Store, Fits, Held, InFlight;
    if b.moduleId in c.modules && Fits(c.modules[b.moduleId], b) {
      TrimKeeps(c.modules[b.moduleId := Finished(Store(c.modules[b.moduleId], b))], c.limits.maxCompleted, b.moduleId);
    }
  }

  // ----- one module under a stream of blocks -----

  /** The block belongs to this state of this module. */
  predicate Belongs(b: Ddb, k: uint16, m: Module) {
    b.moduleId == k && b.downloadId == m.downloadId && b.version == m.info.version
  }

  /** The block is one of the module's, and a number that it has. */
  predicate Counts(b: Ddb, k: uint16, m: Module) {
    Belongs(b, k, m) && b.block < |m.received|
  }

  function Marked(received: seq<bool>, bs: seq<Ddb>, k: uint16, m: Module): seq<bool>
    requires |received| == |m.received|
    ensures |Marked(received, bs, k, m)| == |m.received|
    decreases |bs|
  {
    if bs == [] then received
    else Marked(if Counts(bs[0], k, m) then received[bs[0].block := true] else received, bs[1..], k, m)
  }

  predicate AllTrue(bs: seq<bool>) {
    forall i | 0 <= i < |bs| :: bs[i]
  }

  ghost function After(c: Carousel, bs: seq<Ddb>): Carousel
    decreases |bs|
  {
    if bs == [] then c else After(ObserveDdb(c, bs[0]), bs[1..])
  }

  /** A module that still waits for blocks of payload. */
  predicate Waits(c: Carousel, k: uint16, payload: seq<byte>) {
    && k in c.modules && ModuleOk(c, k) && !c.modules[k].completed
    && |payload| == c.modules[k].info.size && NoWrap(c.modules[k].info.size, c.modules[k].blockSize)
    && Agrees(c.modules[k], payload)
  }

  /** A newly announced module waits for whatever payload of its size will come. */
  lemma AnnouncedWaits(c: Carousel, d: Dii, m: Info, payload: seq<byte>)
    requires CarouselOk(c) && Judge(c, d, m).Accept? && !Announced(c, d, m)
    requires |payload| == m.size && NoWrap(m.size, d.blockSize)
    ensures Waits(Announce(c, d, m), m.id, payload)
    ensures forall i | 0 <= i < |Announce(c, d, m).modules[m.id].received| :: !Announce(c, d, m).modules[m.id].received[i]
  {
    hide CarouselOk, ModuleOk, MakeRoom, BlockCount, Carries;
    var e := Announce(c, d, m);
    AnnounceKeeps(c, d, m);
    OkModule(e, m.id);
  }

  lemma OkModule(c: Carousel, k: uint16)
    requires CarouselOk(c) && k in c.modules
    ensures ModuleOk(c, k)
  {
  }

  predicate AllCarry(bs: seq<Ddb>, k: uint16, m: Module, payload: seq<byte>) {
    forall b | b in bs && Belongs(b, k, m) :: Carries(b, m.blockSize, payload)
  }

  lemma CountsIsFits(c: Carousel, b: Ddb, k: uint16, payload: seq<byte>)
    requires Waits(c, k, payload)
    ensures Counts(b, k, c.modules[k]) <==> b.moduleId == k && Fits(c.modules[k], b)
  {
    var m := c.modules[k];
    if Counts(b, k, m) {
      BlockInside(m.info.size, m.blockSize, b.block);
    }
  }

  lemma BlockInside(size: uint32, blockSize: uint16, i: nat)
    requires blockSize > 0 && NoWrap(size, blockSize) && i < BlockCount(size, blockSize)
    ensures i * blockSize < size
  {
    var n := size + blockSize - 1;
    var q := n / blockSize;
    assert n == q * blockSize + n % blockSize;
    Larger(i + 1, q, blockSize);
    BlockSpan(i, blockSize);
  }

  /** A block that is not the module's leaves the module as it is, whatever it completes or evicts. */
  lemma OthersLeaveIt(c: Carousel, b: Ddb, k: uint16, payload: seq<byte>)
    requires Waits(c, k, payload) && !Counts(b, k, c.modules[k])
    ensures var d := ObserveDdb(c, b);
            k in d.modules && d.modules[k] == c.modules[k] && d.limits == c.limits && d.generation == c.generation
    ensures b.moduleId == k ==> ObserveDdb(c, b) == c && DdbOutcome(c, b) == Ignored
  {
    hide Fits, Store, BlockCount, Trim;
    CountsIsFits(c, b, k, payload);
    if b.moduleId != k && b.moduleId in c.modules && Fits(c.modules[b.moduleId], b) {
      var m := Store(c.modules[b.moduleId], b);
      TrimKeeps(c.modules[b.moduleId := Finished(m)], c.limits.maxCompleted, b.moduleId);
    }
  }

  /** A block of the module that is not the last one missing. */
  lemma OneMoreBlock(c: Carousel, b: Ddb, k: uint16, payload: seq<byte>)
    requires Waits(c, k, payload) && Counts(b, k, c.modules[k]) && Carries(b, c.modules[k].blockSize, payload)
    requires !AllTrue(c.modules[k].received[b.block := true])
    ensures var d := ObserveDdb(c, b);
            && Waits(d, k, payload) && d == c.(modules := c.modules[k := d.modules[k]])
            && d.modules[k].received == c.modules[k].received[b.block := true]
            && SameIdentity(c.modules[k], d.modules[k])
    ensures DdbOutcome(c, b) == if c.modules[k].received[b.block] then Duplicate else Block
  {
    hide BlockCount, Store, Agrees, Carries;
    CountsIsFits(c, b, k, payload);
    StoreOk(c, k, b);
    StoreAgrees(c.modules[k], b, payload);
    StoreKeepsIdentity(c.modules[k], b);
    StoreReceives(c.modules[k], b);
    TruesBound(Store(c.modules[k], b).received);
  }

  predicate SameIdentity(a: Module, b: Module) {
    a.info == b.info && a.downloadId == b.downloadId && a.blockSize == b.blockSize && a.generation == b.generation
    && |a.received| == |b.received|
  }

  lemma StoreReceives(m: Module, b: Ddb)
    requires Fits(m, b)
    ensures Store(m, b).received == m.received[b.block := true]
  {
  }

  /** The module as it stands when its payload is there. */
  function Whole(m: Module, payload: seq<byte>): Module
    requires m.blockSize > 0
  {
    Restored(m, payload)
  }

  /** The last missing block completes the module with exactly the payload, if the payload may be held at all. */
  lemma LastBlock(c: Carousel, b: Ddb, k: uint16, payload: seq<byte>)
    requires Waits(c, k, payload) && Counts(b, k, c.modules[k]) && Carries(b, c.modules[k].blockSize, payload)
    requires AllTrue(c.modules[k].received[b.block := true])
    ensures ObserveDdb(c, b) == Complete(c, k, Whole(c.modules[k], payload))
    ensures DdbOutcome(c, b) == if |payload| <= c.limits.maxCompleted then Completed(Whole(c.modules[k], payload)) else OverBudget
    ensures |payload| <= c.limits.maxCompleted ==>
              k in ObserveDdb(c, b).modules && ObserveDdb(c, b).modules[k] == Whole(c.modules[k], payload)
  {
    hide BlockCount, Store, Agrees, Carries, Trim, Held;
    CountsIsFits(c, b, k, payload);
    StoreOk(c, k, b);
    StoreAgrees(c.modules[k], b, payload);
    StoreKeepsIdentity(c.modules[k], b);
    StoreReceives(c.modules[k], b);
    var m := Store(c.modules[k], b);
    TruesBound(m.received);
    AllReceivedIsWhole(m, payload);
    assert Finished(m) == Whole(c.modules[k], payload);
    StaysExactly(c, k, Finished(m));
    TrimKeeps(c.modules[k := Finished(m)], c.limits.maxCompleted, k);
  }

  /** Marks are never taken back. */
  lemma {:induction false} MarksStay(received: seq<bool>, bs: seq<Ddb>, k: uint16, m: Module, i: nat)
    requires |received| == |m.received| && i < |received| && received[i]
    ensures Marked(received, bs, k, m)[i]
    decreases |bs|
  {
    if bs != [] {
      MarksStay(if Counts(bs[0], k, m) then received[bs[0].block := true] else received, bs[1..], k, m, i);
    }
  }

  lemma {:induction false} MarkedFor(received: seq<bool>, bs: seq<Ddb>, k: uint16, m: Module, n: Module)
    requires |received| == |m.received| && SameIdentity(m, n)
    ensures Marked(received, bs, k, m) == Marked(received, bs, k, n)
    decreases |bs|
  {
    if bs != [] {
      MarkedFor(if Counts(bs[0], k, m) then received[bs[0].block := true] else received, bs[1..], k, m, n);
    }
  }

  /**
   After any blocks, as long as one of the module's is missing, the module waits on,
   has received exactly the blocks that came, and the bytes of those are in place.
   */
  lemma {:induction false} StillWaiting(c: Carousel, bs: seq<Ddb>, k: uint16, payload: seq<byte>)
    requires Waits(c, k, payload) && AllCarry(bs, k, c.modules[k], payload)
    requires !AllTrue(Marked(c.modules[k].received, bs, k, c.modules[k]))
    ensures var d := After(c, bs);
            && Waits(d, k, payload) && SameIdentity(c.modules[k], d.modules[k]) && d.limits == c.limits
            && d.modules[k].received == Marked(c.modules[k].received, bs, k, c.modules[k])
    decreases |bs|
  {
    hide ModuleOk, Agrees, Carries, ObserveDdb;
    if bs != [] {
      var m := c.modules[k];
      var d := ObserveDdb(c, bs[0]);
      if Counts(bs[0], k, m) {
        var now := m.received[bs[0].block := true];
        if AllTrue(now) {
          forall i | 0 <= i < |now|
            ensures Marked(now, bs[1..], k, m)[i]
          {
            MarksStay(now, bs[1..], k, m, i);
          }
        }
        OneMoreBlock(c, bs[0], k, payload);
      } else {
        OthersLeaveIt(c, bs[0], k, payload);
        SameWaits(c, d, k, payload);
      }
      MarkedFor(d.modules[k].received, bs[1..], k, m, d.modules[k]);
      StillWaiting(d, bs[1..], k, payload);
    }
  }

  lemma SameWaits(c: Carousel, d: Carousel, k: uint16, payload: seq<byte>)
    requires Waits(c, k, payload) && k in d.modules && d.modules[k] == c.modules[k]
    requires d.limits == c.limits && d.generation == c.generation
    ensures Waits(d, k, payload)
  {
  }

  /** Of the module's blocks, b is the last one missing after bs. */
  predicate IsLast(c: Carousel, bs: seq<Ddb>, b: Ddb, k: uint16)
    requires k in c.modules
  {
    var m := c.modules[k];
    var marked := Marked(m.received, bs, k, m);
    Counts(b, k, m) && !AllTrue(marked) && AllTrue(marked[b.block := true])
  }

  /** What observing one of the module's blocks reports. */
  function Report(m: Module, b: Ddb, last: bool, payload: seq<byte>, limits: Limits): Outcome {
    if !last then (if b.block < |m.received| && m.received[b.block] then Duplicate else Block)
    else if |payload| <= limits.maxCompleted && m.blockSize > 0 then Completed(Whole(m, payload))
    else OverBudget
  }

  /**
   Reassembly in any order: b completes the module after bs exactly if b is the last
   block missing, and then the module is the payload, byte for byte.
   */
  lemma ReassemblesInAnyOrder(c: Carousel, bs: seq<Ddb>, b: Ddb, k: uint16, payload: seq<byte>)
    requires Waits(c, k, payload) && AllCarry(bs + [b], k, c.modules[k], payload)
    requires !AllTrue(Marked(c.modules[k].received, bs, k, c.modules[k])) && Counts(b, k, c.modules[k])
    ensures k in After(c, bs).modules
    ensures DdbOutcome(After(c, bs), b) == Report(After(c, bs).modules[k], b, IsLast(c, bs, b, k), payload, c.limits)
    ensures IsLast(c, bs, b, k) && |payload| <= c.limits.maxCompleted ==>
              k in After(c, bs + [b]).modules && After(c, bs + [b]).modules[k].completed && After(c, bs + [b]).modules[k].data == payload
  {
    hide Agrees, Carries, ObserveDdb, DdbOutcome, BlockCount, ModuleOk;
    assert forall x | x in bs :: x in bs + [b];
    StillWaiting(c, bs, k, payload);
    var d := After(c, bs);
    WaitsHasBlocks(d, k, payload);
    AfterOne(c, bs, b);
    assert b in bs + [b];
    if AllTrue(d.modules[k].received[b.block := true]) {
      LastBlock(d, b, k, payload);
    } else {
      OneMoreBlock(d, b, k, payload);
    }
  }

  lemma WaitsHasBlocks(c: Carousel, k: uint16, payload: seq<byte>)
    requires Waits(c, k, payload)
    ensures c.modules[k].blockSize > 0
  {
  }

  lemma {:induction false} AfterOne(c: Carousel, bs: seq<Ddb>, b: Ddb)
    ensures After(c, bs + [b]) == ObserveDdb(After(c, bs), b)
    decreases |bs|
  {
    hide ObserveDdb;
    if bs == [] {
      assert ([] + [b])[1..] == [];
    } else {
      assert (bs + [b])[1..] == bs[1..] + [b];
      AfterOne(ObserveDdb(c, bs[0]), bs[1..], b);
    }
  }

  // ----- Restore -----

  /** What the cache has for a module. */
  function FromCache(k: uint16, m: Module, payload: seq<byte>): Cached {
    Cached(m.downloadId, k, m.info.version, m.info.size, payload)
  }

  /** All blocks were the module's own. */
  predicate AllFor(bs: seq<Ddb>, k: uint16) {
    forall b | b in bs :: b.moduleId == k
  }

  lemma {:induction false} OnlyThatModule(c: Carousel, bs: seq<Ddb>, k: uint16, payload: seq<byte>)
    requires Waits(c, k, payload) && AllCarry(bs, k, c.modules[k], payload) && AllFor(bs, k)
    requires !AllTrue(Marked(c.modules[k].received, bs, k, c.modules[k]))
    ensures k in After(c, bs).modules && After(c, bs) == c.(modules := c.modules[k := After(c, bs).modules[k]])
    decreases |bs|
  {
    hide ModuleOk, Agrees, Carries, ObserveDdb;
    if bs == [] {
      assert c.modules == c.modules[k := c.modules[k]];
    } else {
      var m := c.modules[k];
      StillWaiting(c, [bs[0]], k, payload) by { MarkedPrefix(m.received, bs, k, m); assert AllCarry([bs[0]], k, m, payload); }
      var d := ObserveDdb(c, bs[0]);
      assert After(c, [bs[0]]) == After(d, []) == d;
      if Counts(bs[0], k, m) { FirstIsNotLast(c, bs, k, payload); OneMoreBlock(c, bs[0], k, payload); } else { OthersLeaveIt(c, bs[0], k, payload); }
      MarkedFor(d.modules[k].received, bs[1..], k, m, d.modules[k]);
      OnlyThatModule(d, bs[1..], k, payload);
      var e := After(d, bs[1..]);
      assert d.modules[k := e.modules[k]] == c.modules[k := e.modules[k]] by { if d != c { assert d.modules == c.modules[k := d.modules[k]]; } }
    }
  }

  lemma MarkedPrefix(received: seq<bool>, bs: seq<Ddb>, k: uint16, m: Module)
    requires |received| == |m.received| && bs != [] && !AllTrue(Marked(received, bs, k, m))
    ensures !AllTrue(Marked(received, [bs[0]], k, m))
  {
    var one := Marked(received, [bs[0]], k, m);
    assert [bs[0]][1..] == [];
    var next := if Counts(bs[0], k, m) then received[bs[0].block := true] else received;
    assert Marked(next, [], k, m) == next;
    if AllTrue(one) {
      forall i | 0 <= i < |one|
        ensures Marked(one, bs[1..], k, m)[i]
      {
        MarksStay(one, bs[1..], k, m, i);
      }
    }
  }

  lemma FirstIsNotLast(c: Carousel, bs: seq<Ddb>, k: uint16, payload: seq<byte>)
    requires Waits(c, k, payload) && bs != [] && Counts(bs[0], k, c.modules[k])
    requires !AllTrue(Marked(c.modules[k].received, bs, k, c.modules[k]))
    ensures !AllTrue(c.modules[k].received[bs[0].block := true])
  {
    var m := c.modules[k];
    MarkedPrefix(m.received, bs, k, m);
    assert Marked(m.received, [bs[0]], k, m) == m.received[bs[0].block := true];
  }

  /** Restoring a module leaves the same carousel as receiving all its blocks, in any order. */
  lemma RestoreIsReceiving(c: Carousel, bs: seq<Ddb>, b: Ddb, k: uint16, payload: seq<byte>)
    requires Waits(c, k, payload) && AllCarry(bs + [b], k, c.modules[k], payload) && AllFor(bs + [b], k)
    requires !AllTrue(Marked(c.modules[k].received, bs, k, c.modules[k])) && Counts(b, k, c.modules[k])
    requires AllTrue(Marked(c.modules[k].received, bs, k, c.modules[k])[b.block := true])
    requires forall j | j in c.modules :: c.modules[j].blockSize > 0
    ensures ObserveDdb(After(c, bs), b) == Restore(c, FromCache(k, c.modules[k], payload))
  {
    hide Agrees, Carries, ObserveDdb, DdbOutcome, BlockCount, Trim, Held;
    assert forall x | x in bs :: x in bs + [b];
    assert b in bs + [b];
    StillWaiting(c, bs, k, payload);
    OnlyThatModule(c, bs, k, payload);
    var d := After(c, bs);
    LastBlock(d, b, k, payload);
    var whole := Whole(d.modules[k], payload);
    assert whole == Whole(c.modules[k], payload);
    assert d.modules[k := whole] == c.modules[k := whole];
  }

  // ----- restoring and releasing, field by field -----

  /** The cached payload is that of the module, which is still incomplete. */
  predicate IsFor(r: Cached, m: Module) {
    && !m.completed && m.downloadId == r.downloadId && m.info.version == r.version
    && m.info.size == r.size && |r.data| == r.size
  }

  /** Restore does something exactly if the payload is for the module: it is complete then, or gone if its payload is over the limit. */
  lemma RestoreExactly(c: Carousel, r: Cached)
    requires CarouselOk(c)
    ensures forall k | k in c.modules :: c.modules[k].blockSize > 0
    ensures var e := Restore(c, r);
            var k := r.moduleId;
            if k in c.modules && IsFor(r, c.modules[k]) then
              if |r.data| <= c.limits.maxCompleted then
                && k in e.modules && e.modules[k].completed && e.modules[k].data == r.data
                && e.modules[k].info == c.modules[k].info && e.modules[k].generation == c.modules[k].generation
              else k !in e.modules
            else e == c
  {
    hide CarouselOk, BlockCount, Trim, Held, InFlight;
    WholeBlocks(c);
    if Restorable(c, r) {
      var m := Restored(c.modules[r.moduleId], r.data);
      TrimKeeps(c.modules[r.moduleId := m], c.limits.maxCompleted, r.moduleId);
      StaysExactly(c, r.moduleId, m);
    }
  }

  /** A payload is released exactly if the module is complete and still holds it; nothing else changes, and it is released once. */
  lemma ReleaseExactly(c: Carousel, k: uint16)
    requires CarouselOk(c)
    ensures var e := Release(c, k);
            if k in c.modules && c.modules[k].completed && c.modules[k].data != [] then
              && e == c.(modules := c.modules[k := c.modules[k].(data := [])])
              && Held(e.modules) == Held(c.modules) - c.modules[k].info.size && Release(e, k) == e
            else e == c
  {
    hide Held, InFlight, UniqueGenerations, OneVerdict, BlockCount;
    if k in c.modules {
      assert ModuleOk(c, k);
      Putting(c.modules, k, c.modules[k].(data := []));
      Removal(c.modules, k);
    }
  }
}
