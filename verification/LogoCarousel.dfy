/**
 The simpler carousel of ts/logo_common.go, which keeps the blocks of logo modules as
 they come and joins them at the end: it gives the same bytes as DSMCCCarousel.
 */
module LogoCarousel {
  import opened Carousel
  import opened CarouselTheorems
  import opened CarouselAssembly

  datatype Option<T> = None | Some(value: T)

  type Blocks = map<uint16, seq<byte>>

  function Number(i: nat): uint16 {
    i % 0x1_0000
  }

  /** The blocks i, i + 1, ..., count - 1 behind each other, if all are there. */
  function Joined(blocks: Blocks, i: nat, count: nat): Option<seq<byte>>
    decreases count - i
  {
    if i >= count then Some([])
    else if Number(i) !in blocks then None
    else match Joined(blocks, i + 1, count)
      case None => None
      case Some(rest) => Some(blocks[Number(i)] + rest)
  }

  /** assemble */
  function Assemble(size: uint32, blockSize: uint16, blocks: Blocks): Option<seq<byte>> {
    if blockSize == 0 || |blocks| < BlockCount(size, blockSize) then None
    else match Joined(blocks, 0, BlockCount(size, blockSize))
      case None => None
      case Some(data) => if |data| < size then None else Some(data[..size])
  }

  // ----- what the blocks are -----

  /** The payload's bytes from block i on. */
  function From(payload: seq<byte>, blockSize: uint16, i: nat): seq<byte> {
    if i * blockSize <= |payload| then payload[i * blockSize..] else []
  }

  /** A block is its slice of the payload; the last one may have more behind it. */
  predicate IsSlice(data: seq<byte>, payload: seq<byte>, blockSize: uint16, i: nat) {
    var rest := From(payload, blockSize, i);
    if |rest| > blockSize then data == rest[..blockSize] else rest <= data
  }

  predicate AllSlices(blocks: Blocks, payload: seq<byte>, blockSize: uint16, count: nat) {
    forall i | 0 <= i < count && Number(i) in blocks :: IsSlice(blocks[Number(i)], payload, blockSize, i)
  }

  lemma {:induction false} JoinedIsRest(blocks: Blocks, payload: seq<byte>, blockSize: uint16, i: nat, count: nat)
    requires blockSize > 0 && AllSlices(blocks, payload, blockSize, count)
    requires i < count && (count - 1) * blockSize < |payload| <= count * blockSize
    ensures Joined(blocks, i, count).Some? <==> forall j | i <= j < count :: Number(j) in blocks
    ensures Joined(blocks, i, count).Some? ==> From(payload, blockSize, i) <= Joined(blocks, i, count).value
    decreases count - i
  {
    hide Number;
    Larger(i, count - 1, blockSize);
    BlockSpan(i, blockSize);
    if Number(i) in blocks {
      assert IsSlice(blocks[Number(i)], payload, blockSize, i);
      if i + 1 < count {
        JoinedIsRest(blocks, payload, blockSize, i + 1, count);
        Larger(i + 1, count - 1, blockSize);
      } else {
        assert Joined(blocks, i + 1, count) == Some([]);
        BlockSpan(count - 1, blockSize);
        assert blocks[Number(i)] + [] == blocks[Number(i)];
      }
    }
  }

  lemma BlockOf(size: uint32, blockSize: uint16, j: nat) returns (i: nat)
    requires blockSize > 0 && NoWrap(size, blockSize) && j < size
    ensures i < BlockCount(size, blockSize) && j < (i + 1) * blockSize
  {
    hide BlockCount;
    EveryByteHasABlock(size, blockSize, j);
    i := j / blockSize;
  }

  /** The blocks cover the payload exactly. */
  lemma BlocksCover(size: uint32, blockSize: uint16)
    requires blockSize > 0 && size > 0 && NoWrap(size, blockSize)
    ensures var count := BlockCount(size, blockSize);
            count > 0 && (count - 1) * blockSize < size <= count * blockSize
  {
    hide BlockCount;
    var count := BlockCount(size, blockSize);
    var i := BlockOf(size, blockSize, size - 1);
    BlockInside(size, blockSize, count - 1);
    Larger(i + 1, count, blockSize);
  }

  lemma {:induction false} Numbers(n: nat)
    requires n <= 0x1_0000
    ensures |set i | 0 <= i < n :: Number(i)| == n
    decreases n
  {
    var all := set i | 0 <= i < n :: Number(i);
    if n == 0 {
      assert all == {};
    } else {
      Numbers(n - 1);
      var fewer := set i | 0 <= i < n - 1 :: Number(i);
      assert Number(n - 1) == n - 1 && Number(n - 1) !in fewer;
      assert all == fewer + {Number(n - 1)};
    }
  }

  lemma MoreIsMore<T>(a: set<T>, b: set<T>)
    requires a <= b
    ensures |a| <= |b|
  {
    assert b == a + (b - a);
  }

  lemma EnoughBlocks(blocks: Blocks, count: nat)
    requires count <= 0x1_0000 && forall i | 0 <= i < count :: Number(i) in blocks
    ensures |blocks| >= count
  {
    Numbers(count);
    MoreIsMore(set i | 0 <= i < count :: Number(i), blocks.Keys);
    assert |blocks| == |blocks.Keys|;
  }

  /** assemble gives the payload, byte for byte, exactly when every block is there. */
  lemma AssemblesExactly(payload: seq<byte>, blockSize: uint16, blocks: Blocks)
    requires 0 < |payload| < 0x1_0000_0000 && blockSize > 0 && NoWrap(|payload|, blockSize)
    requires BlockCount(|payload|, blockSize) <= 0x1_0000
    requires AllSlices(blocks, payload, blockSize, BlockCount(|payload|, blockSize))
    ensures Assemble(|payload|, blockSize, blocks) ==
            if forall i | 0 <= i < BlockCount(|payload|, blockSize) :: Number(i) in blocks then Some(payload) else None
  {
    hide BlockCount, IsSlice, Number;
    var count := BlockCount(|payload|, blockSize);
    BlocksCover(|payload|, blockSize);
    JoinedIsRest(blocks, payload, blockSize, 0, count);
    if forall i | 0 <= i < count :: Number(i) in blocks {
      EnoughBlocks(blocks, count);
      assert From(payload, blockSize, 0) == payload;
      assert Joined(blocks, 0, count).value[..|payload|] == payload;
    }
  }

  // ----- the same bytes as the other carousel -----

  /** The blocks of the module that have come, the later one in place of the earlier. */
  function Collected(bs: seq<Ddb>, k: uint16, m: Module): Blocks
    decreases |bs|
  {
    if bs == [] then map[]
    else
      var before, b := Collected(bs[..|bs| - 1], k, m), bs[|bs| - 1];
      if Belongs(b, k, m) then before[b.block := b.data] else before
  }

  predicate AllAreSlices(bs: seq<Ddb>, k: uint16, m: Module, payload: seq<byte>) {
    forall b | b in bs && Belongs(b, k, m) :: IsSlice(b.data, payload, m.blockSize, b.block)
  }

  lemma SliceCarries(b: Ddb, payload: seq<byte>, blockSize: uint16)
    requires IsSlice(b.data, payload, blockSize, b.block)
    ensures Carries(b, blockSize, payload)
  {
    var off := b.block * blockSize;
    if off < |payload| {
      var rest := payload[off..];
      forall j | 0 <= j < Min(|b.data|, |payload| - off)
        ensures b.data[j] == payload[off + j]
      {
        assert rest[j] == payload[off + j];
      }
    }
  }

  lemma {:induction false} CollectedSlices(bs: seq<Ddb>, k: uint16, m: Module, payload: seq<byte>)
    requires AllAreSlices(bs, k, m, payload)
    ensures forall n | n in Collected(bs, k, m) :: IsSlice(Collected(bs, k, m)[n], payload, m.blockSize, n)
    decreases |bs|
  {
    hide IsSlice;
    if bs != [] {
      var rest, b := bs[..|bs| - 1], bs[|bs| - 1];
      assert forall x | x in rest :: x in bs;
      assert b in bs;
      CollectedSlices(rest, k, m, payload);
    }
  }

  /** The two carousels mark the same block numbers as received. */
  lemma {:induction false} CollectedIsMarked(bs: seq<Ddb>, k: uint16, m: Module, i: nat)
    requires i < |m.received| && i < 0x1_0000
    ensures Marked(seq(|m.received|, _ => false), bs, k, m)[i] <==> i in Collected(bs, k, m)
    decreases |bs|
  {
    var none := seq(|m.received|, _ => false);
    if bs != [] {
      var rest, b := bs[..|bs| - 1], bs[|bs| - 1];
      CollectedIsMarked(rest, k, m, i);
      MarkedLast(none, rest, b, k, m);
      assert bs == rest + [b];
    }
  }

  lemma {:induction false} MarkedLast(received: seq<bool>, bs: seq<Ddb>, b: Ddb, k: uint16, m: Module)
    requires |received| == |m.received|
    ensures Marked(received, bs + [b], k, m)
         == if Counts(b, k, m) then Marked(received, bs, k, m)[b.block := true] else Marked(received, bs, k, m)
    decreases |bs|
  {
    if bs == [] {
      assert ([] + [b])[1..] == [];
      var next := if Counts(b, k, m) then received[b.block := true] else received;
      assert Marked(next, [], k, m) == next;
    } else {
      assert (bs + [b])[1..] == bs[1..] + [b];
      MarkedLast(if Counts(bs[0], k, m) then received[bs[0].block := true] else received, bs[1..], b, k, m);
    }
  }

  /**
   When the last block of a freshly announced module arrives, the DSM-CC carousel
   holds, and the logo carousel assembles, the same payload.
   */
  lemma SameBytes(c: Carousel, bs: seq<Ddb>, b: Ddb, k: uint16, payload: seq<byte>)
    requires Waits(c, k, payload) && payload != [] && |payload| <= c.limits.maxCompleted
    requires c.modules[k].received == seq(|c.modules[k].received|, _ => false)
    requires BlockCount(|payload|, c.modules[k].blockSize) <= 0x1_0000
    requires AllAreSlices(bs + [b], k, c.modules[k], payload) && IsLast(c, bs, b, k)
    ensures k in After(c, bs + [b]).modules
    ensures Assemble(|payload|, c.modules[k].blockSize, Collected(bs + [b], k, c.modules[k])) == Some(After(c, bs + [b]).modules[k].data)
    ensures Assemble(|payload|, c.modules[k].blockSize, Collected(bs, k, c.modules[k])) == None
  {
    hide BlockCount, IsSlice, Carries, Agrees;
    var m := c.modules[k];
    CarriesOf(bs + [b], k, m, payload);
    ReassemblesInAnyOrder(c, bs, b, k, payload);
    assert forall x | x in bs :: x in bs + [b];
    CollectedAll(bs + [b], k, m, payload);
    CollectedAll(bs, k, m, payload);
    MarkedLast(m.received, bs, b, k, m);
  }

  lemma CarriesOf(bs: seq<Ddb>, k: uint16, m: Module, payload: seq<byte>)
    requires AllAreSlices(bs, k, m, payload)
    ensures AllCarry(bs, k, m, payload)
  {
    hide IsSlice, Carries;
    forall b | b in bs && Belongs(b, k, m)
      ensures Carries(b, m.blockSize, payload)
    {
      SliceCarries(b, payload, m.blockSize);
    }
  }

  lemma CollectedAll(bs: seq<Ddb>, k: uint16, m: Module, payload: seq<byte>)
    requires 0 < |payload| < 0x1_0000_0000 && m.blockSize > 0 && NoWrap(|payload|, m.blockSize)
    requires |m.received| == BlockCount(|payload|, m.blockSize) <= 0x1_0000 && AllAreSlices(bs, k, m, payload)
    ensures Assemble(|payload|, m.blockSize, Collected(bs, k, m))
         == if AllTrue(Marked(seq(|m.received|, _ => false), bs, k, m)) then Some(payload) else None
  {
    hide BlockCount, IsSlice, Assemble;
    var blocks := Collected(bs, k, m);
    CollectedSlices(bs, k, m, payload);
    forall i | 0 <= i < |m.received|
      ensures Number(i) == i
      ensures Marked(seq(|m.received|, _ => false), bs, k, m)[i] <==> Number(i) in blocks
    {
      CollectedIsMarked(bs, k, m, i);
    }
    AssemblesExactly(payload, m.blockSize, blocks);
    var marked := Marked(seq(|m.received|, _ => false), bs, k, m);
    if AllTrue(marked) {
      assert forall i | 0 <= i < |m.received| :: marked[i] && Number(i) in blocks;
    } else {
      var i :| 0 <= i < |marked| && !marked[i];
      assert Number(i) !in blocks;
    }
  }

  // ----- the object -----

  datatype LogoModule = LogoModule(info: Info, downloadId: uint32, blockSize: uint16, blocks: Blocks, emitted: bool)

  const LOGO: seq<byte> := [0x4c, 0x4f, 0x47, 0x4f, 0x2d, 0x30]

  /** IsLogoModule: the info contains "LOGO-0". */
  predicate IsLogo(m: Info) {
    Contains(m.info, LOGO)
  }

  predicate Contains(text: seq<byte>, part: seq<byte>) {
    part <= text || (text != [] && Contains(text[1..], part))
  }

  predicate Registered(modules: map<uint16, LogoModule>, d: Dii, m: Info) {
    m.id in modules && modules[m.id].downloadId == d.downloadId && modules[m.id].info.version == m.version
    && modules[m.id].info.size == m.size
  }

  function Register(modules: map<uint16, LogoModule>, d: Dii, ms: seq<Info>): map<uint16, LogoModule>
    decreases |ms|
  {
    if ms == [] then modules
    else
      var m := ms[0];
      Register(if !IsLogo(m) || Registered(modules, d, m) then modules
               else modules[m.id := LogoModule(m, d.downloadId, d.blockSize, map[], false)], d, ms[1..])
  }

  predicate Wants(modules: map<uint16, LogoModule>, b: Ddb) {
    b.moduleId in modules && !modules[b.moduleId].emitted && modules[b.moduleId].downloadId == b.downloadId
    && modules[b.moduleId].info.version == b.version
  }

  /** What a block makes the carousel hand to the parser. */
  function Given(modules: map<uint16, LogoModule>, b: Ddb): Option<seq<byte>> {
    if !Wants(modules, b) then None
    else Assemble(modules[b.moduleId].info.size, modules[b.moduleId].blockSize, modules[b.moduleId].blocks[b.block := b.data])
  }

  /** The modules after a block; one is done once its payload has been parsed. */
  function Stored(modules: map<uint16, LogoModule>, b: Ddb, parses: seq<byte> -> bool): map<uint16, LogoModule> {
    if !Wants(modules, b) then modules
    else modules[b.moduleId := modules[b.moduleId].(
                                 blocks := modules[b.moduleId].blocks[b.block := b.data],
                                 emitted := Given(modules, b).Some? && parses(Given(modules, b).value))]
  }

  function StoredAll(modules: map<uint16, LogoModule>, bs: seq<Ddb>, parses: seq<byte> -> bool): map<uint16, LogoModule>
    decreases |bs|
  {
    if bs == [] then modules else Stored(StoredAll(modules, bs[..|bs| - 1], parses), bs[|bs| - 1], parses)
  }

  class LogoCarousel {
    const parses: seq<byte> -> bool
    var modules: map<uint16, LogoModule>

    constructor (parses: seq<byte> -> bool)
      ensures modules == map[] && this.parses == parses
    {
      this.parses := parses;
      modules := map[];
    }

    method ObserveDii(d: Dii) returns (accepted: bool)
      modifies this
      ensures modules == Register(old(modules), d, d.modules)
      ensures accepted <==> exists m :: m in d.modules && IsLogo(m)
    {
      hide IsLogo;
      accepted := false;
      assert d.modules[0..] == d.modules;
      for i := 0 to |d.modules|
        invariant Register(modules, d, d.modules[i..]) == Register(old(modules), d, d.modules)
        invariant accepted <==> exists j :: 0 <= j < i && IsLogo(d.modules[j])
      {
        assert d.modules[i..][1..] == d.modules[i + 1..];
        var m := d.modules[i];
        if IsLogo(m) {
          accepted := true;
          if !Registered(modules, d, m) {
            modules := modules[m.id := LogoModule(m, d.downloadId, d.blockSize, map[], false)];
          }
        }
      }
    }

    /** Stores the block, and once the payload is whole hands it to the parser; the module is done if that succeeds. */
    method ObserveDdb(b: Ddb) returns (payload: Option<seq<byte>>)
      modifies this
      ensures payload == Given(old(modules), b) && modules == Stored(old(modules), b, parses)
    {
      hide Assemble;
      if !Wants(modules, b) {
        return None;
      }
      var m := modules[b.moduleId];
      m := m.(blocks := m.blocks[b.block := b.data]);
      modules := modules[b.moduleId := m];
      payload := AssembleModule(m);
      if payload.Some? && parses(payload.value) {
        modules := modules[b.moduleId := m.(emitted := true)];
      }
    }

    method AssembleModule(m: LogoModule) returns (payload: Option<seq<byte>>)
      ensures payload == Assemble(m.info.size, m.blockSize, m.blocks)
    {
      if m.blockSize == 0 {
        return None;
      }
      hide Number, BlockCount;
      var blockCount := BlockCount(m.info.size, m.blockSize);
      if |m.blocks| < blockCount {
        return None;
      }
      var data: seq<byte> := [];
      ghost var whole := Joined(m.blocks, 0, blockCount);
      if whole.Some? {
        assert [] + whole.value == whole.value;
      }
      for i := 0 to blockCount
        invariant whole == match Joined(m.blocks, i, blockCount) case None => None case Some(rest) => Some(data + rest)
      {
        if Number(i) !in m.blocks {
          return None;
        }
        ghost var before := data;
        data := data + m.blocks[Number(i)];
        if Joined(m.blocks, i + 1, blockCount).Some? {
          var rest := Joined(m.blocks, i + 1, blockCount).value;
          assert before + (m.blocks[Number(i)] + rest) == data + rest;
        }
      }
      assert data + [] == data;
      if |data| < m.info.size {
        return None;
      }
      payload := Some(data[..m.info.size]);
    }
  }

  // ----- the object gives the same bytes as the other carousel -----

  /** The same module in both carousels, before its first block. */
  predicate Registers(modules: map<uint16, LogoModule>, k: uint16, m: Module) {
    && k in modules && modules[k] == LogoModule(m.info, m.downloadId, m.blockSize, map[], false)
    && m.received == seq(|m.received|, _ => false)
  }

  /** The module's payload, in blocks whose numbers fit into 16 bits. */
  predicate Fills(payload: seq<byte>, m: Module) {
    && 0 < |payload| == m.info.size && m.blockSize > 0 && NoWrap(|payload|, m.blockSize)
    && |m.received| == BlockCount(|payload|, m.blockSize) <= 0x1_0000
  }

  lemma FewerMarks(bs: seq<Ddb>, k: uint16, m: Module)
    requires bs != [] && !AllTrue(Marked(m.received, bs, k, m))
    ensures !AllTrue(Marked(m.received, bs[..|bs| - 1], k, m))
  {
    MarkedLast(m.received, bs[..|bs| - 1], bs[|bs| - 1], k, m);
    assert bs[..|bs| - 1] + [bs[|bs| - 1]] == bs;
  }

  /** As long as a block is missing, the object has all blocks that came, and nothing has been handed out. */
  lemma {:induction false} KeepsAll(modules: map<uint16, LogoModule>, bs: seq<Ddb>, k: uint16, m: Module, payload: seq<byte>, parses: seq<byte> -> bool)
    requires Registers(modules, k, m) && Fills(payload, m) && AllAreSlices(bs, k, m, payload)
    requires !AllTrue(Marked(m.received, bs, k, m))
    ensures var all := StoredAll(modules, bs, parses);
            k in all && all[k] == LogoModule(m.info, m.downloadId, m.blockSize, Collected(bs, k, m), false)
    ensures forall i | 0 <= i < |bs| && bs[i].moduleId == k :: Given(StoredAll(modules, bs[..i], parses), bs[i]).None?
    decreases |bs|
  {
    hide Assemble, IsSlice, BlockCount, NoWrap;
    if bs != [] {
      var rest, b := bs[..|bs| - 1], bs[|bs| - 1];
      assert forall x | x in rest :: x in bs;
      FewerMarks(bs, k, m);
      KeepsAll(modules, rest, k, m, payload, parses);
      CollectedAll(bs, k, m, payload);
      forall i | 0 <= i < |bs| && bs[i].moduleId == k
        ensures Given(StoredAll(modules, bs[..i], parses), bs[i]).None?
      {
        if i < |rest| { assert rest[i] == bs[i] && rest[..i] == bs[..i]; }
      }
    }
  }

  /**
   The run of the object: it hands nothing to the parser until the last block of the
   module arrives, and then exactly what the DSM-CC carousel holds after the same blocks.
   */
  lemma GivesTheSame(c: Carousel, bs: seq<Ddb>, b: Ddb, k: uint16, payload: seq<byte>,
                     modules: map<uint16, LogoModule>, parses: seq<byte> -> bool)
    requires Waits(c, k, payload) && Fills(payload, c.modules[k]) && |payload| <= c.limits.maxCompleted
    requires Registers(modules, k, c.modules[k]) && AllAreSlices(bs + [b], k, c.modules[k], payload) && IsLast(c, bs, b, k)
    ensures k in After(c, bs + [b]).modules
    ensures Given(StoredAll(modules, bs, parses), b) == Some(After(c, bs + [b]).modules[k].data)
    ensures forall i | 0 <= i < |bs| && bs[i].moduleId == k :: Given(StoredAll(modules, bs[..i], parses), bs[i]).None?
  {
    hide Assemble, IsSlice, BlockCount, NoWrap, Agrees, After;
    var m := c.modules[k];
    assert forall x | x in bs :: x in bs + [b];
    SameBytes(c, bs, b, k, payload);
    KeepsAll(modules, bs, k, m, payload, parses);
    assert (bs + [b])[..|bs|] == bs;
  }

  // ----- which modules are registered -----

  predicate IsAt(text: seq<byte>, part: seq<byte>, i: nat) {
    i + |part| <= |text| && text[i..i + |part|] == part
  }

  lemma {:induction false} ContainsExactly(text: seq<byte>, part: seq<byte>)
    ensures Contains(text, part) <==> exists i: nat :: IsAt(text, part, i)
    decreases |text|
  {
    if part <= text {
      assert IsAt(text, part, 0);
    } else if text != [] {
      ContainsExactly(text[1..], part);
      forall i: nat
        ensures IsAt(text[1..], part, i) <==> IsAt(text, part, i + 1)
      {
        if i + 1 + |part| <= |text| { assert text[1..][i..i + |part|] == text[i + 1..i + 1 + |part|]; }
      }
      if i: nat :| IsAt(text, part, i) {
        assert i > 0 && IsAt(text[1..], part, i - 1);
      }
    }
  }

  /** The block size is not compared. */
  predicate IsSame(k: LogoModule, d: Dii, m: Info) {
    k.downloadId == d.downloadId && k.info.version == m.version && k.info.size == m.size
  }

  predicate OneEach(ms: seq<Info>) {
    forall i, j | 0 <= i < j < |ms| :: ms[i].id != ms[j].id
  }

  lemma {:induction false} OthersStay(modules: map<uint16, LogoModule>, d: Dii, ms: seq<Info>, k: uint16)
    requires forall i | 0 <= i < |ms| :: ms[i].id != k || !IsLogo(ms[i])
    ensures k in Register(modules, d, ms) <==> k in modules
    ensures k in modules ==> Register(modules, d, ms)[k] == modules[k]
    decreases |ms|
  {
    hide IsLogo;
    if ms != [] {
      var m := ms[0];
      assert forall i | 0 <= i < |ms[1..]| :: ms[1..][i] == ms[i + 1];
      OthersStay(if !IsLogo(m) || Registered(modules, d, m) then modules
                 else modules[m.id := LogoModule(m, d.downloadId, d.blockSize, map[], false)], d, ms[1..], k);
    }
  }

  /**
   After a DII every logo module that it names is registered: with the blocks it has, if
   download, version and size are the same, and otherwise with none.
   */
  lemma {:induction false} RegistersExactly(modules: map<uint16, LogoModule>, d: Dii, ms: seq<Info>, j: nat)
    requires OneEach(ms) && j < |ms| && IsLogo(ms[j])
    ensures var m := ms[j];
            && m.id in Register(modules, d, ms)
            && Register(modules, d, ms)[m.id] ==
                 if m.id in modules && IsSame(modules[m.id], d, m) then modules[m.id]
                 else LogoModule(m, d.downloadId, d.blockSize, map[], false)
    decreases |ms|
  {
    hide IsLogo;
    var first := ms[0];
    var next := if !IsLogo(first) || Registered(modules, d, first) then modules
                else modules[first.id := LogoModule(first, d.downloadId, d.blockSize, map[], false)];
    assert forall i | 0 <= i < |ms[1..]| :: ms[1..][i] == ms[i + 1];
    if j == 0 {
      OthersStay(next, d, ms[1..], first.id);
    } else {
      RegistersExactly(next, d, ms[1..], j - 1);
    }
  }

  // ----- once parsed, done -----

  lemma {:induction false} StaysDone(modules: map<uint16, LogoModule>, bs: seq<Ddb>, k: uint16, parses: seq<byte> -> bool)
    requires k in modules && modules[k].emitted
    ensures k in StoredAll(modules, bs, parses) && StoredAll(modules, bs, parses)[k] == modules[k]
    decreases |bs|
  {
    hide Given;
    if bs != [] { StaysDone(modules, bs[..|bs| - 1], k, parses); }
  }

  /**
   Once a module's payload has been parsed, no block of it hands out anything until a DII
   registers the module anew; if the parser refuses the payload, the block hands it out
   again when it comes again.
   */
  lemma ParsedOnce(modules: map<uint16, LogoModule>, b: Ddb, bs: seq<Ddb>, next: Ddb, parses: seq<byte> -> bool)
    requires Given(modules, b).Some? && next.moduleId == b.moduleId
    ensures parses(Given(modules, b).value) ==> Given(StoredAll(Stored(modules, b, parses), bs, parses), next).None?
    ensures !parses(Given(modules, b).value) ==> Given(Stored(modules, b, parses), b) == Given(modules, b)
  {
    if parses(Given(modules, b).value) {
      hide Assemble;
      StaysDone(Stored(modules, b, parses), bs, b.moduleId, parses);
    } else {
      var blocks := modules[b.moduleId].blocks[b.block := b.data];
      assert blocks[b.block := b.data] == blocks;
    }
  }
}
