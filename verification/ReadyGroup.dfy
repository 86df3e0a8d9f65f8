/**
 The bitmaps of internal/epg/snapshot.go: snapshotReadyGroup with 32 bytes for each of
 its flag and ignore fields, each method against the sets in Readiness.
 */
module ReadyGroup {
  import opened Readiness

  type bits = bv8

  datatype ReadyFlag = ReadyFlag(observed: bool, version: byte, flag: seq<bits>, ignore: seq<bits>)

  // ----- bits -----

  function Mask(k: nat): bits
    requires k < 8
  {
    1 << k
  }

  predicate Bit(b: bits, k: nat)
    requires k < 8
  {
    b & Mask(k) != 0
  }

  lemma SetBit(b: bits, k: nat, j: nat)
    requires k < 8 && j < 8
    ensures Bit(b | Mask(k), j) <==> Bit(b, j) || j == k
  {
  }

  lemma OrBit(a: bits, b: bits, j: nat)
    requires j < 8
    ensures Bit(a | b, j) <==> Bit(a, j) || Bit(b, j)
  {
  }

  lemma FullBit(j: nat)
    requires j < 8
    ensures Bit(0xff, j) && !Bit(0, j)
  {
  }

  lemma FullBits(b: bits)
    requires Bit(b, 0) && Bit(b, 1) && Bit(b, 2) && Bit(b, 3) && Bit(b, 4) && Bit(b, 5) && Bit(b, 6) && Bit(b, 7)
    ensures b == 0xff
  {
  }

  predicate Has(bytes: seq<bits>, n: nat)
    requires |bytes| == 32 && n < 256
  {
    Bit(bytes[n / 8], n % 8)
  }

  function Bits(bytes: seq<bits>): (r: set<nat>)
    requires |bytes| == 32
    ensures forall n: nat :: n in r <==> n < 256 && Has(bytes, n)
  {
    set n | n in All() && Has(bytes, n)
  }

  predicate FlagOk(f: ReadyFlag) {
    |f.flag| == 32 && |f.ignore| == 32
  }

  function TableOf(f: ReadyFlag): Table
    requires FlagOk(f)
  {
    Table(f.observed, f.version, Bits(f.flag), Bits(f.ignore))
  }

  // ----- single updates -----

  lemma UpdateByte(bytes: seq<bits>, i: nat, b: bits, n: nat)
    requires |bytes| == 32 && i < 32 && n < 256
    ensures Has(bytes[i := b], n) <==> if n / 8 == i then Bit(b, n % 8) else Has(bytes, n)
  {
  }

  /** The numbers of a range of segments. */
  function Segments(from: nat, to: nat): (r: set<nat>)
    ensures forall n: nat :: n in r <==> n < 256 && from <= n / 8 < to
  {
    set n | n in All() && from <= n / 8 < to
  }

  lemma FillByte(bytes: seq<bits>, i: nat)
    requires |bytes| == 32 && i < 32
    ensures Bits(bytes[i := 0xff]) == Bits(bytes) + Segments(i, i + 1)
  {
    hide Bit;
    forall n: nat | n < 256
      ensures Has(bytes[i := 0xff], n) <==> Has(bytes, n) || n / 8 == i
    {
      UpdateByte(bytes, i, 0xff, n);
      FullBit(n % 8);
    }
  }

  lemma FullByte(bytes: seq<bits>, i: nat)
    requires |bytes| == 32 && i < 32
    ensures bytes[i] == 0xff <==> Segments(i, i + 1) <= Bits(bytes)
  {
    hide Bit;
    if bytes[i] == 0xff {
      forall n | n in Segments(i, i + 1)
        ensures n in Bits(bytes)
      {
        FullBit(n % 8);
      }
    } else if Segments(i, i + 1) <= Bits(bytes) {
      forall k: nat | k < 8
        ensures Bit(bytes[i], k)
      {
        assert (8 * i + k) / 8 == i && (8 * i + k) % 8 == k;
        assert 8 * i + k in Segments(i, i + 1);
        assert Has(bytes, 8 * i + k);
      }
      FullBits(bytes[i]);
    }
  }

  lemma AddBit(bytes: seq<bits>, i: nat, k: nat)
    requires |bytes| == 32 && i < 32 && k < 8
    ensures Bits(bytes[i := bytes[i] | Mask(k)]) == Bits(bytes) + {8 * i + k}
    ensures bytes[i] & Mask(k) == 0 <==> 8 * i + k !in Bits(bytes)
  {
    assert (8 * i + k) / 8 == i && (8 * i + k) % 8 == k;
    assert bytes[i] & Mask(k) == 0 <==> !Bit(bytes[i], k);
    hide Bit;
    forall n: nat | n < 256
      ensures Has(bytes[i := bytes[i] | Mask(k)], n) <==> Has(bytes, n) || n == 8 * i + k
    {
      UpdateByte(bytes, i, bytes[i] | Mask(k), n);
      SetBit(bytes[i], k, n % 8);
      assert n == 8 * (n / 8) + n % 8;
    }
  }

  // ----- the loops -----

  /** Sets whole bytes; changed if one was not full. */
  method IgnoreSegments(bytes: seq<bits>, from: nat, to: nat) returns (r: seq<bits>, changed: bool)
    requires |bytes| == 32 && to <= 32
    ensures |r| == 32 && Bits(r) == Bits(bytes) + Segments(from, to)
    ensures changed <==> !(Segments(from, to) <= Bits(bytes))
  {
    hide Bits, Segments;
    r, changed := bytes, false;
    assert Bits(bytes) == Bits(bytes) + Segments(from, from);
    var i := from;
    while i < to
      invariant |r| == 32 && (from <= to ==> from <= i <= to) && (from > to ==> i == from)
      invariant Bits(r) == Bits(bytes) + Segments(from, i)
      invariant changed <==> !(Segments(from, i) <= Bits(bytes))
    {
      FillByte(r, i);
      FullByte(r, i);
      if r[i] != 0xff {
        r := r[i := 0xff];
        changed := true;
      }
      i := i + 1;
    }
  }

  /** The rest of a segment behind its last section. */
  function Behind(segment: nat, last: nat, to: nat): (r: set<nat>)
    ensures forall n: nat :: n in r <==> n < 256 && n / 8 == segment && last < n % 8 < to
  {
    set n | n in All() && n / 8 == segment && last < n % 8 < to
  }

  lemma MoreBehind(segment: nat, last: nat, k: nat)
    requires segment < 32 && last < k < 8
    ensures Behind(segment, last, k + 1) == Behind(segment, last, k) + {8 * segment + k}
    ensures 8 * segment + k !in Behind(segment, last, k)
  {
    assert (8 * segment + k) / 8 == segment && (8 * segment + k) % 8 == k;
    forall n: nat | n / 8 == segment && n % 8 == k
      ensures n == 8 * segment + k
    {
    }
  }

  method IgnoreRest(bytes: seq<bits>, segment: nat, last: nat) returns (r: seq<bits>, changed: bool)
    requires |bytes| == 32 && segment < 32 && last < 8
    ensures |r| == 32 && Bits(r) == Bits(bytes) + Behind(segment, last, 8)
    ensures changed <==> !(Behind(segment, last, 8) <= Bits(bytes))
  {
    hide Bits, Behind;
    r, changed := bytes, false;
    assert Behind(segment, last, last + 1) == {};
    for k := last + 1 to 8
      invariant |r| == 32 && Bits(r) == Bits(bytes) + Behind(segment, last, k)
      invariant changed <==> !(Behind(segment, last, k) <= Bits(bytes))
    {
      AddBit(r, segment, k);
      MoreBehind(segment, last, k);
      if r[segment] & Mask(k) == 0 {
        r := r[segment := r[segment] | Mask(k)];
        changed := true;
      }
    }
  }

  // ----- the group -----

  /** What a section lets go, as the three loops do it. */
  lemma LetGoInParts(x: Seen)
    ensures var s := x.section;
            LetGo(x) == (if FlagsId(s) == 0 && IsCurrent(s) then Segments(0, Segment(x.now)) else {})
                      + Segments(s.last / 8 + 1, 32) + Behind(s.number / 8, s.segmentLast % 8, 8)
  {
  }

  /** The part of observeReady that fills target.ignore. */
  method IgnoreFor(bytes: seq<bits>, x: Seen) returns (r: seq<bits>, changed: bool)
    requires |bytes| == 32
    ensures |r| == 32 && Bits(r) == Bits(bytes) + LetGo(x)
    ensures changed <==> !(LetGo(x) <= Bits(bytes))
  {
    hide Bits, Segments, Behind, LetGo, IsCurrent, Segment;
    LetGoInParts(x);
    var s := x.section;
    r, changed := bytes, false;
    var more: bool;
    ghost var today: set<nat> := {};
    if FlagsId(s) == 0 && IsCurrent(s) {
      today := Segments(0, Segment(x.now));
      r, changed := IgnoreSegments(r, 0, Segment(x.now));
    }
    r, more := IgnoreSegments(r, s.last / 8 + 1, 32);
    changed := changed || more;
    r, more := IgnoreRest(r, s.number / 8, s.segmentLast % 8);
    changed := changed || more;
  }

  predicate FlagsOk(flags: seq<ReadyFlag>) {
    |flags| == 8 && forall i | 0 <= i < 8 :: FlagOk(flags[i])
  }

  function TablesOf(flags: seq<ReadyFlag>): (r: seq<Table>)
    requires FlagsOk(flags)
    ensures |r| == 8 && forall i | 0 <= i < 8 :: r[i] == TableOf(flags[i])
  {
    seq(8, i requires 0 <= i < 8 => TableOf(flags[i]))
  }

  method SetFlag(bytes: seq<bits>, number: byte) returns (r: seq<bits>, changed: bool)
    requires |bytes| == 32
    ensures |r| == 32 && Bits(r) == Bits(bytes) + {number}
    ensures changed <==> number !in Bits(bytes)
  {
    hide Bits, Mask;
    var segment, k := number / 8, number % 8;
    AddBit(bytes, segment, k);
    assert 8 * segment + k == number;
    changed := bytes[segment] & Mask(k) == 0;
    r := bytes[segment := bytes[segment] | Mask(k)];
  }

  /** What observeReady makes of the table that the section belongs to. */
  method ObserveTarget(f: ReadyFlag, x: Seen) returns (target: ReadyFlag, changed: bool)
    requires FlagOk(f)
    ensures var s := x.section;
            var t := TableOf(f);
            && FlagOk(target) && TableOf(target) == Table(true, s.version, t.flag + {s.number}, t.ignore + LetGo(x))
            && (changed <==> !t.observed || t.version != s.version || s.number !in t.flag || !(LetGo(x) <= t.ignore))
  {
    hide Bits, LetGo, IsCurrent;
    var s := x.section;
    target, changed := f, false;
    if !target.observed || target.version != s.version {
      target := target.(observed := true, version := s.version);
      changed := true;
    }
    var ignore, more := IgnoreFor(target.ignore, x);
    var flag, marked := SetFlag(target.flag, s.number);
    changed := changed || more || marked;
    target := target.(ignore := ignore, flag := flag);
  }

  class Group {
    var lastFlagsId: int
    var flags: seq<ReadyFlag>

    ghost predicate Valid()
      reads this
    {
      FlagsOk(flags)
    }

    ghost function State(): Readiness.Group
      requires Valid()
      reads this
    {
      Readiness.Group(lastFlagsId, TablesOf(flags))
    }

    constructor ()
      ensures Valid() && State() == NewGroup()
    {
      lastFlagsId := -1;
      flags := seq(8, _ => ReadyFlag(false, 0, Bytes(0), Bytes(0xff)));
      new;
      EmptyBits();
      assert TableOf(ReadyFlag(false, 0, Bytes(0), Bytes(0xff))) == Table(false, 0, {}, All());
    }

    method Reset(last: nat)
      requires Valid()
      modifies this
      ensures Valid() && State() == Readiness.Group(old(lastFlagsId), ResetTables(last))
    {
      hide Bits, TableOf, FlagOk;
      for i := 0 to 8
        invariant Valid() && lastFlagsId == old(lastFlagsId)
        invariant forall k | 0 <= k < i :: TableOf(flags[k]) == ResetTables(last)[k]
      {
        var cleared := ReadyFlag(false, 0, Bytes(0), if i <= last then Bytes(0) else Bytes(0xff));
        FreshTable(cleared, i <= last);
        flags := flags[i := cleared];
      }
    }

    /** observeReady */
    method ObserveReady(x: Seen) returns (changed: bool)
      requires Valid()
      modifies this
      ensures Valid() && State() == Observe(old(State()), x)
      ensures changed <==> Changes(old(State()), x)
    {
      hide LetGo, FlagOk, TableOf;
      var s := x.section;
      var flagsId, last := FlagsId(s), LastFlagsId(s);
      TableFields(flags[flagsId]) by { assert FlagOk(flags[flagsId]); }
      ghost var g := State();
      changed := false;
      if lastFlagsId != last || (flags[flagsId].observed && flags[flagsId].version != s.version) {
        Reset(last);
        changed := true;
      }
      lastFlagsId := last;
      assert State() == Base(g, s);
      var target, more := ObserveTarget(flags[flagsId], x);
      changed := changed || more;
      flags := flags[flagsId := target];
    }

    method IsReady() returns (ready: bool)
      requires Valid()
      ensures ready <==> Ready(State())
    {
      hide FlagOk, TableOf, TableComplete;
      for i := 0 to 8
        invariant forall j | 0 <= j < i :: TableComplete(State().tables[j])
      {
        var complete := IsTableComplete(flags[i]);
        if !complete {
          return false;
        }
      }
      ready := true;
    }
  }

  lemma TableFields(f: ReadyFlag)
    requires FlagOk(f)
    ensures TableOf(f).observed == f.observed && TableOf(f).version == f.version
  {
  }

  function Bytes(b: bits): seq<bits> {
    seq(32, _ => b)
  }

  lemma EmptyBits()
    ensures Bits(Bytes(0)) == {} && Bits(Bytes(0xff)) == All()
  {
    forall n: nat | n < 256
      ensures !Has(Bytes(0), n) && Has(Bytes(0xff), n)
    {
      FullBit(n % 8);
    }
  }

  lemma FreshTable(f: ReadyFlag, listed: bool)
    requires f == ReadyFlag(false, 0, Bytes(0), if listed then Bytes(0) else Bytes(0xff))
    ensures FlagOk(f) && TableOf(f) == Table(false, 0, {}, if listed then {} else All())
  {
    EmptyBits();
  }

  /** The loop of ready and of readyTableComplete over one table's bytes. */
  method IsTableComplete(f: ReadyFlag) returns (complete: bool)
    requires FlagOk(f)
    ensures complete <==> TableComplete(TableOf(f))
  {
    hide Bit;
    for i := 0 to 32
      invariant forall n: nat | n / 8 < i && n < 256 :: Has(f.flag, n) || Has(f.ignore, n)
    {
      ByteComplete(f, i);
      if f.flag[i] | f.ignore[i] != 0xff {
        return false;
      }
    }
    complete := true;
  }

  lemma ByteComplete(f: ReadyFlag, i: nat)
    requires FlagOk(f) && i < 32
    ensures f.flag[i] | f.ignore[i] == 0xff <==> forall n: nat | n / 8 == i && n < 256 :: Has(f.flag, n) || Has(f.ignore, n)
  {
    hide Bit;
    var both := f.flag[i] | f.ignore[i];
    forall k: nat | k < 8
      ensures Bit(both, k) <==> Bit(f.flag[i], k) || Bit(f.ignore[i], k)
    {
      OrBit(f.flag[i], f.ignore[i], k);
    }
    if both == 0xff {
      forall n: nat | n / 8 == i && n < 256
        ensures Has(f.flag, n) || Has(f.ignore, n)
      {
        FullBit(n % 8);
      }
    } else if forall n: nat | n / 8 == i && n < 256 :: Has(f.flag, n) || Has(f.ignore, n) {
      forall k: nat | k < 8
        ensures Bit(both, k)
      {
        assert (8 * i + k) / 8 == i && (8 * i + k) % 8 == k;
        assert Has(f.flag, 8 * i + k) || Has(f.ignore, 8 * i + k);
      }
      FullBits(both);
    }
  }

  /** readyMissingSections */
  method MissingSections(f: ReadyFlag) returns (missing: seq<nat>)
    requires FlagOk(f)
    ensures missing == Missing(TableOf(f))
  {
    hide TableOf, MissingFrom;
    missing := [];
    for segment := 0 to 32
      invariant missing + MissingFrom(TableOf(f), 8 * segment) == Missing(TableOf(f))
    {
      missing := MissingInSegment(f, segment, missing);
    }
    NoneFromHere(TableOf(f));
    assert missing + [] == missing;
  }

  method MissingInSegment(f: ReadyFlag, segment: nat, found: seq<nat>) returns (missing: seq<nat>)
    requires FlagOk(f) && segment < 32
    ensures missing + MissingFrom(TableOf(f), 8 * (segment + 1)) == found + MissingFrom(TableOf(f), 8 * segment)
  {
    hide TableOf, MissingFrom, Mask;
    missing := found;
    var needed := !(f.flag[segment] | f.ignore[segment]);
    for section := 0 to 8
      invariant missing + MissingFrom(TableOf(f), 8 * segment + section) == found + MissingFrom(TableOf(f), 8 * segment)
    {
      NeededBit(f, segment, section);
      MissingStep(f, missing, 8 * segment + section);
      if needed & Mask(section) != 0 {
        missing := missing + [8 * segment + section];
      }
    }
  }

  lemma MissingStep(f: ReadyFlag, missing: seq<nat>, n: nat)
    requires FlagOk(f) && n < 256
    ensures missing + MissingFrom(TableOf(f), n) ==
            (if n in Bits(f.flag) || n in Bits(f.ignore) then missing else missing + [n]) + MissingFrom(TableOf(f), n + 1)
  {
    hide Bits;
    var rest := MissingFrom(TableOf(f), n + 1);
    assert missing + ([n] + rest) == (missing + [n]) + rest;
    assert [] + rest == rest;
  }

  lemma NoneFromHere(t: Table)
    ensures MissingFrom(t, 256) == []
  {
  }

  lemma NeededBit(f: ReadyFlag, segment: nat, section: nat)
    requires FlagOk(f) && segment < 32 && section < 8
    ensures var n := 8 * segment + section;
            !(f.flag[segment] | f.ignore[segment]) & Mask(section) != 0 <==> n !in Bits(f.flag) && n !in Bits(f.ignore)
  {
    var n := 8 * segment + section;
    assert n / 8 == segment && n % 8 == section;
    assert Has(f.flag, n) == Bit(f.flag[segment], section) && Has(f.ignore, n) == Bit(f.ignore[segment], section);
    OrBit(f.flag[segment], f.ignore[segment], section);
  }
}
