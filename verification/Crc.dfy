/**
 CRC_32 of ts/section.go: the table-driven form, and the bit-serial shift
 register of Annex A of ISO/IEC 13818-1 that it stands for.
 */
module Crc {
  type byte = bv8

  const POLYNOMIAL: bv32 := 0x04c11db7
  const INITIAL: bv32 := 0xffffffff
  const TOP: bv32 := 0x80000000

  // ----- the register of the standard -----

  predicate HasTop(w: bv32) {
    w & TOP != 0
  }

  /** The register moved up by one place, with the polynomial folded in on feedback. */
  function Feed(w: bv32, feedback: bool): bv32 {
    if feedback then (w << 1) ^ POLYNOMIAL else w << 1
  }

  /** One clock of the decoder's register: the input bit meets the register's top bit. */
  function Clock(register: bv32, bit: bool): bv32 {
    Feed(register, HasTop(register) != bit)
  }

  /** Clocks in the top n bits of w, the most significant first. */
  function ClockBits(register: bv32, w: bv32, n: nat): bv32
    decreases n
  {
    if n == 0 then register else ClockBits(Clock(register, HasTop(w)), w << 1, n - 1)
  }

  function ClockByte(register: bv32, b: byte): bv32 {
    ClockBits(register, (b as bv32) << 24, 8)
  }

  /** The register after all bytes, from the given start. */
  function Register(start: bv32, data: seq<byte>): bv32
    decreases |data|
  {
    if data == [] then start else Register(ClockByte(start, data[0]), data[1..])
  }

  // ----- the table -----

  /** One turn of the inner loop of makeCRC32MPEG2Table. */
  function Shift(crc: bv32): bv32 {
    Feed(crc, HasTop(crc))
  }

  function Shifts(crc: bv32, n: nat): bv32
    decreases n
  {
    if n == 0 then crc else Shifts(Shift(crc), n - 1)
  }

  function Entry(index: byte): bv32 {
    Shifts((index as bv32) << 24, 8)
  }

  /** Exclusive or under a name, so that proofs about it need not look at single bits. */
  function Xor(a: bv32, b: bv32): bv32 {
    a ^ b
  }

  /** One turn of crc32MPEG2's loop. */
  function TableStep(crc: bv32, b: byte): bv32 {
    Xor(crc << 8, Entry((crc >> 24) as byte ^ b))
  }

  function TableCrc(start: bv32, data: seq<byte>): bv32
    decreases |data|
  {
    if data == [] then start else TableCrc(TableStep(start, data[0]), data[1..])
  }

  // ----- words -----

  function ShiftLeft(w: bv32, n: nat): bv32
    decreases n
  {
    if n == 0 then w else ShiftLeft(w << 1, n - 1)
  }

  lemma ShiftLeft8(w: bv32)
    ensures ShiftLeft(w, 8) == w << 8
  {
    assert ShiftLeft(w, 8) == ShiftLeft(w << 1, 7) == ShiftLeft((w << 1) << 1, 6);
    assert (w << 1) << 1 == w << 2 && (w << 2) << 1 == w << 3 && (w << 3) << 1 == w << 4;
    assert ShiftLeft(w << 2, 6) == ShiftLeft(w << 3, 5) == ShiftLeft(w << 4, 4);
    assert (w << 4) << 1 == w << 5 && (w << 5) << 1 == w << 6 && (w << 6) << 1 == w << 7 && (w << 7) << 1 == w << 8;
    assert ShiftLeft(w << 4, 4) == ShiftLeft(w << 5, 3) == ShiftLeft(w << 6, 2);
    assert ShiftLeft(w << 6, 2) == ShiftLeft(w << 7, 1) == ShiftLeft(w << 8, 0);
  }

  lemma XorIs(a: bv32, b: bv32)
    ensures Xor(a, b) == a ^ b
  {
  }

  lemma XorTop(r: bv32, w: bv32)
    ensures HasTop(r ^ w) <==> (HasTop(r) != HasTop(w))
  {
  }

  lemma XorMoved(r: bv32, w: bv32)
    ensures Xor(r << 1, w << 1) == (r ^ w) << 1
  {
  }

  lemma XorMovedWithPolynomial(r: bv32, w: bv32)
    ensures Xor((r << 1) ^ POLYNOMIAL, w << 1) == ((r ^ w) << 1) ^ POLYNOMIAL
  {
  }

  // ----- one lookup is eight clocks -----

  lemma FeedIsLinear(r: bv32, w: bv32, feedback: bool)
    ensures Xor(Feed(r, feedback), w << 1) == Feed(r ^ w, feedback)
  {
    hide Xor;
    if feedback { XorMovedWithPolynomial(r, w); } else { XorMoved(r, w); }
  }

  /** Feeding a bit in at the top is the same as folding the pending bits into the register first. */
  lemma ClockIsShift(r: bv32, w: bv32)
    ensures Xor(Clock(r, HasTop(w)), w << 1) == Shift(Xor(r, w))
  {
    hide Xor, Feed, HasTop;
    XorIs(r, w);
    XorTop(r, w);
    FeedIsLinear(r, w, HasTop(r) != HasTop(w));
  }

  lemma {:induction false} ClockBitsIsShifts(r: bv32, w: bv32, n: nat)
    ensures Xor(ClockBits(r, w, n), ShiftLeft(w, n)) == Shifts(Xor(r, w), n)
    decreases n
  {
    hide Xor, Clock, Shift, HasTop;
    if n > 0 {
      ClockIsShift(r, w);
      ClockBitsIsShifts(Clock(r, HasTop(w)), w << 1, n - 1);
    }
  }

  /** The bits of y stay below the top during n shifts. */
  predicate StaysLow(y: bv32, n: nat)
    decreases n
  {
    n == 0 || (!HasTop(y) && StaysLow(y << 1, n - 1))
  }

  /** Shift is linear: a bit that does not reach the top just moves up. */
  lemma ShiftMovesLowBits(x: bv32, y: bv32)
    requires !HasTop(y)
    ensures Shift(Xor(x, y)) == Xor(Shift(x), y << 1)
  {
    hide Xor, Feed, HasTop;
    XorIs(x, y);
    XorTop(x, y);
    FeedIsLinear(x, y, HasTop(x));
  }

  lemma {:induction false} ShiftsMoveLowBits(x: bv32, y: bv32, n: nat)
    requires StaysLow(y, n)
    ensures Shifts(Xor(x, y), n) == Xor(Shifts(x, n), ShiftLeft(y, n))
    decreases n
  {
    hide Xor, Shift, HasTop;
    if n > 0 {
      ShiftMovesLowBits(x, y);
      ShiftsMoveLowBits(Shift(x), y << 1, n - 1);
    }
  }

  lemma LowTops(y: bv32)
    requires y & 0xff000000 == 0
    ensures !HasTop(y) && !HasTop(y << 1) && !HasTop(y << 2) && !HasTop(y << 3)
    ensures !HasTop(y << 4) && !HasTop(y << 5) && !HasTop(y << 6) && !HasTop(y << 7)
  {
  }

  lemma Doubled(y: bv32)
    ensures (y << 1) << 1 == y << 2 && (y << 2) << 1 == y << 3 && (y << 3) << 1 == y << 4 && (y << 4) << 1 == y << 5
    ensures (y << 5) << 1 == y << 6 && (y << 6) << 1 == y << 7 && (y << 7) << 1 == y << 8
  {
  }

  lemma Low8(y: bv32)
    requires y & 0xff000000 == 0
    ensures StaysLow(y, 8)
  {
    hide HasTop;
    LowTops(y);
    Doubled(y);
    assert StaysLow(y << 8, 0);
    assert StaysLow(y << 7, 1);
    assert StaysLow(y << 6, 2);
    assert StaysLow(y << 5, 3);
    assert StaysLow(y << 4, 4);
    assert StaysLow(y << 3, 5);
    assert StaysLow(y << 2, 6);
    assert StaysLow(y << 1, 7);
  }

  lemma PendingRunsOut(b: byte, r: bv32)
    ensures Xor(r, ShiftLeft((b as bv32) << 24, 8)) == r
  {
    hide Xor, ShiftLeft;
    ShiftLeft8((b as bv32) << 24);
    assert ((b as bv32) << 24) << 8 == 0;
    XorIs(r, 0);
    assert r ^ 0 == r;
  }

  lemma ClockByteIsShifts(crc: bv32, b: byte)
    ensures ClockByte(crc, b) == Shifts(Xor(crc, (b as bv32) << 24), 8)
  {
    hide Xor, ShiftLeft, ClockBits, Shifts;
    ClockBitsIsShifts(crc, (b as bv32) << 24, 8);
    PendingRunsOut(b, ClockByte(crc, b));
  }

  /** A register and a pending byte, taken apart into the table's index and the bits below it. */
  lemma SplitRegister(crc: bv32, b: byte)
    ensures Xor(crc, (b as bv32) << 24) == Xor((((crc >> 24) as byte ^ b) as bv32) << 24, crc & 0x00ffffff)
  {
  }

  lemma LowBytesMoveUp(crc: bv32)
    ensures StaysLow(crc & 0x00ffffff, 8) && ShiftLeft(crc & 0x00ffffff, 8) == crc << 8
  {
    hide StaysLow, ShiftLeft;
    Low8(crc & 0x00ffffff);
    ShiftLeft8(crc & 0x00ffffff);
    assert (crc & 0x00ffffff) << 8 == crc << 8;
  }

  lemma TableStepIsXor(crc: bv32, b: byte)
    ensures TableStep(crc, b) == Xor(Entry((crc >> 24) as byte ^ b), crc << 8)
  {
    hide Entry;
    XorCommutes(crc << 8, Entry((crc >> 24) as byte ^ b));
  }

  lemma XorCommutes(a: bv32, b: bv32)
    ensures Xor(a, b) == Xor(b, a)
  {
  }

  /** One table lookup does eight clocks of the register. */
  lemma TableStepIsClockByte(crc: bv32, b: byte)
    ensures TableStep(crc, b) == ClockByte(crc, b)
  {
    hide Xor, ShiftLeft, Shifts, TableStep, ClockByte, StaysLow;
    ClockByteIsShifts(crc, b);
    SplitRegister(crc, b);
    LowBytesMoveUp(crc);
    ShiftsMoveLowBits((((crc >> 24) as byte ^ b) as bv32) << 24, crc & 0x00ffffff, 8);
    TableStepIsXor(crc, b);
  }

  /** The table-driven CRC is the register of the standard, on every byte sequence. */
  lemma {:induction false} TableCrcIsRegister(start: bv32, data: seq<byte>)
    ensures TableCrc(start, data) == Register(start, data)
    decreases |data|
  {
    if data != [] {
      TableStepIsClockByte(start, data[0]);
      TableCrcIsRegister(TableStep(start, data[0]), data[1..]);
    }
  }

  // ----- the residue -----

  /** The four bytes that BuildPATSection appends. */
  function BigEndian(crc: bv32): seq<byte> {
    [(crc >> 24) as byte, ((crc >> 16) & 0xff) as byte, ((crc >> 8) & 0xff) as byte, (crc & 0xff) as byte]
  }

  lemma {:induction false} TableCrcAppend(start: bv32, a: seq<byte>, b: seq<byte>)
    ensures TableCrc(start, a + b) == TableCrc(TableCrc(start, a), b)
    decreases |a|
  {
    if a == [] {
      assert a + b == b;
    } else {
      assert (a + b)[1..] == a[1..] + b;
      TableCrcAppend(TableStep(start, a[0]), a[1..], b);
    }
  }

  lemma EntryZero()
    ensures Entry(0) == 0
  {
    assert Shift(0) == 0;
    assert (0 as byte) as bv32 << 24 == 0;
    assert Shifts(0, 8) == Shifts(0, 7) == Shifts(0, 6) == Shifts(0, 5) == Shifts(0, 4);
    assert Shifts(0, 4) == Shifts(0, 3) == Shifts(0, 2) == Shifts(0, 1) == Shifts(0, 0);
  }

  function Head(crc: bv32): byte {
    (crc >> 24) as byte
  }

  function Tail(crc: bv32): bv32 {
    crc << 8
  }

  lemma HeadCancels(crc: bv32)
    ensures (crc >> 24) as byte ^ Head(crc) == 0
  {
  }

  lemma XorZero(crc: bv32)
    ensures Xor(crc << 8, 0) == Tail(crc)
  {
  }

  /** A register eats its own top byte: the lookup is zero. */
  lemma OwnByte(crc: bv32)
    ensures TableStep(crc, Head(crc)) == Tail(crc)
  {
    hide Entry, Xor, Head, Tail;
    EntryZero();
    HeadCancels(crc);
    XorZero(crc);
  }

  lemma OneByte(crc: bv32, rest: seq<byte>)
    ensures TableCrc(crc, [Head(crc)] + rest) == TableCrc(Tail(crc), rest)
  {
    hide TableStep, Head, Tail;
    OwnByte(crc);
    assert ([Head(crc)] + rest)[1..] == rest;
  }

  lemma FourHeads(crc: bv32)
    ensures BigEndian(crc) == [Head(crc), Head(Tail(crc)), Head(Tail(Tail(crc))), Head(Tail(Tail(Tail(crc))))]
    ensures Tail(Tail(Tail(Tail(crc)))) == 0
  {
  }

  lemma OwnBytes(crc: bv32)
    ensures TableCrc(crc, BigEndian(crc)) == 0
  {
    hide TableStep, TableCrc, Head, Tail, BigEndian;
    FourHeads(crc);
    var c1 := Tail(crc);
    var c2 := Tail(c1);
    var c3 := Tail(c2);
    OneByte(crc, [Head(c1), Head(c2), Head(c3)]);
    OneByte(c1, [Head(c2), Head(c3)]);
    OneByte(c2, [Head(c3)]);
    OneByte(c3, []);
    TableCrcEmpty(0);
    assert [Head(crc), Head(c1), Head(c2), Head(c3)] == [Head(crc)] + [Head(c1), Head(c2), Head(c3)];
    assert [Head(c1), Head(c2), Head(c3)] == [Head(c1)] + [Head(c2), Head(c3)];
    assert [Head(c2), Head(c3)] == [Head(c2)] + [Head(c3)];
    assert [Head(c3)] == [Head(c3)] + [];
  }

  lemma TableCrcEmpty(crc: bv32)
    ensures TableCrc(crc, []) == crc
  {
  }

  /** Appending its own CRC to a message brings the register to zero. */
  lemma ResidueIsZero(data: seq<byte>)
    ensures TableCrc(INITIAL, data + BigEndian(TableCrc(INITIAL, data))) == 0
  {
    var crc := TableCrc(INITIAL, data);
    TableCrcAppend(INITIAL, data, BigEndian(crc));
    OwnBytes(crc);
  }

  // ----- the loops -----

  method MakeTable() returns (table: array<bv32>)
    ensures fresh(table) && IsTable(table[..])
  {
    hide Entry;
    table := new bv32[256];
    for i := 0 to 256
      invariant forall j | 0 <= j < i :: table[j] == Entry(j as byte)
    {
      table[i] := TableEntry(i as byte);
    }
  }

  method TableEntry(index: byte) returns (crc: bv32)
    ensures crc == Entry(index)
  {
    crc := (index as bv32) << 24;
    for k := 0 to 8
      invariant Shifts(crc, 8 - k) == Entry(index)
    {
      if HasTop(crc) {
        crc := (crc << 1) ^ POLYNOMIAL;
      } else {
        crc := crc << 1;
      }
    }
  }

  ghost predicate IsTable(table: seq<bv32>) {
    |table| == 256 && forall b: byte :: table[b as int] == Entry(b)
  }

  method Lookup(table: array<bv32>, index: byte) returns (entry: bv32)
    requires IsTable(table[..])
    ensures entry == Entry(index)
  {
    entry := table[index as int];
    assert table[..][index as int] == entry;
  }

  method Step(table: array<bv32>, crc: bv32, b: byte) returns (next: bv32)
    requires IsTable(table[..])
    ensures next == TableStep(crc, b)
  {
    hide Entry, IsTable, Xor;
    var entry := Lookup(table, (crc >> 24) as byte ^ b);
    next := Xor(crc << 8, entry);
  }

  /** crc32MPEG2: the loop over the table computes the standard's register. */
  method Crc32(table: array<bv32>, data: seq<byte>) returns (crc: bv32)
    requires IsTable(table[..])
    ensures crc == Register(INITIAL, data)
  {
    hide TableStep, IsTable;
    crc := INITIAL;
    assert data[0..] == data;
    for i := 0 to |data|
      invariant TableCrc(crc, data[i..]) == TableCrc(INITIAL, data)
    {
      assert data[i..][1..] == data[i + 1..];
      crc := Step(table, crc, data[i]);
    }
    TableCrcIsRegister(INITIAL, data);
  }
}
