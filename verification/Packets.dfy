/** The packet header accessors of ts/packet.go. */
module Packets {
  import opened Crc

  const PACKET_SIZE: nat := 188
  const SYNC_BYTE: byte := 0x47

  type Packet = p: seq<byte> | |p| == PACKET_SIZE witness seq(PACKET_SIZE, _ => 0)

  type uint16 = w: int | 0 <= w < 0x1_0000

  const MAX_PID: uint16 := 0x1fff

  /** The two bytes of a 16-bit word: shifting by eight is dividing by 256. */
  function High(w: uint16): byte {
    (w / 0x100) as byte
  }

  function Low(w: uint16): byte {
    (w % 0x100) as byte
  }

  function Word(high: byte, low: byte): uint16 {
    high as int * 0x100 + low as int
  }

  /** A PID keeps only the low five bits of its first byte. */
  function PidWord(high: byte, low: byte): uint16 {
    Word(high & 0x1f, low)
  }

  lemma NextByte(b: byte)
    requires b as int < 0xff
    ensures (b + 1) as int == b as int + 1
  {
  }

  lemma BackToByte(b: byte)
    ensures (b as int) as byte == b
  {
  }

  lemma {:induction false} ByteOf(n: nat)
    requires n < 0x100
    ensures (n as byte) as int == n
  {
    if n == 0 {
    } else {
      ByteOf(n - 1);
      var b := (n - 1) as byte;
      NextByte(b);
      BackToByte(b + 1);
    }
  }

  lemma WordOfBytes(w: uint16)
    ensures Word(High(w), Low(w)) == w
  {
    ByteOf(w / 0x100);
    ByteOf(w % 0x100);
  }

  lemma FiveBits(b: byte)
    ensures (b & 0x1f) as int < 0x20
    ensures b as int < 0x20 ==> (0xe0 | b) & 0x1f == b
  {
  }

  /** Go's own reading of two bytes. */
  lemma WordIsShifted(high: byte, low: byte)
    ensures Word(high, low) == ((high as bv16 << 8) | low as bv16) as int
  {
  }

  lemma PidFits(high: byte, low: byte)
    ensures PidWord(high, low) <= MAX_PID
  {
    FiveBits(high);
  }

  predicate TransportError(p: Packet) {
    p[1] & 0x80 != 0
  }

  predicate UnitStart(p: Packet) {
    p[1] & 0x40 != 0
  }

  function Pid(p: Packet): uint16 {
    PidWord(p[1], p[2])
  }

  predicate HasAdaptation(p: Packet) {
    (p[3] >> 4) & 0x03 >= 2
  }

  predicate HasPayload(p: Packet) {
    (p[3] >> 4) & 0x03 == 1 || (p[3] >> 4) & 0x03 == 3
  }

  function Counter(p: Packet): byte {
    p[3] & 0x0f
  }

  function AdaptationLength(p: Packet): nat {
    if HasAdaptation(p) then p[4] as nat else 0
  }

  predicate Discontinuity(p: Packet) {
    HasAdaptation(p) && AdaptationLength(p) >= 1 && p[5] & 0x80 != 0
  }

  function PayloadOffset(p: Packet): nat {
    if HasAdaptation(p) then 5 + AdaptationLength(p) else 4
  }

  predicate ValidPayloadOffset(p: Packet) {
    !(HasAdaptation(p) && PayloadOffset(p) > PACKET_SIZE)
  }

  function Payload(p: Packet): seq<byte> {
    if !HasPayload(p) || !ValidPayloadOffset(p) then [] else p[PayloadOffset(p)..]
  }

  predicate IsNull(p: Packet) {
    Pid(p) == MAX_PID
  }

  function NextCounter(counter: byte): byte {
    (counter + 1) & 0x0f
  }

  // ----- the adaptation field -----

  /** The two bits that say what follows the header. */
  lemma AdaptationBits(b: byte)
    ensures (b >> 4) & 0x03 >= 2 <==> b & 0x20 != 0
    ensures (b >> 4) & 0x03 == 1 || (b >> 4) & 0x03 == 3 <==> b & 0x10 != 0
  {
  }

  /** A packet with an adaptation field of these bytes behind its length, and then a payload. */
  function Adapted(b1: byte, b2: byte, b3: byte, field: seq<byte>, payload: seq<byte>): Packet
    requires |field| + |payload| == 183
  {
    [SYNC_BYTE, b1, b2, b3, |field| as byte] + field + payload
  }

  /** Bit 5 announces an adaptation field and bit 4 a payload, which begins behind the field; the field's first bit signals a discontinuity. */
  lemma AdaptedReadsBack(b1: byte, b2: byte, b3: byte, field: seq<byte>, payload: seq<byte>)
    requires |field| + |payload| == 183
    ensures var p := Adapted(b1, b2, b3, field, payload);
            && (b3 & 0x20 != 0 ==>
                  && ValidPayloadOffset(p)
                  && Payload(p) == (if b3 & 0x10 != 0 then payload else [])
                  && (Discontinuity(p) <==> field != [] && field[0] & 0x80 != 0))
            && (b3 & 0x20 == 0 ==>
                  && Payload(p) == (if b3 & 0x10 != 0 then p[4..] else []) && !Discontinuity(p))
            && (HasPayload(p) <==> b3 & 0x10 != 0)
  {
    AdaptationBits(b3);
    ByteOf(|field|);
    var p := Adapted(b1, b2, b3, field, payload);
    assert p[3] == b3 && p[4] == |field| as byte;
    assert p[5 + |field|..] == payload;
  }
}
