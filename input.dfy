/**
 * The raw keyboard record: the kernel's `input_event` layout on a 64-bit
 * little-endian target, the two predicates that select key presses, and a
 * strict decoder that accepts exactly one 24-byte record.
 */
module Input {
  import opened Types

  /** Event type of a key event (EV_KEY). */
  const EV_KEY: U16 := 1
  /** Event value of a key press; 0 is a release and 2 an auto-repeat. */
  const KEY_PRESS: I32 := 1
  /** Size of one record: two 8-byte timestamps, two 2-byte fields and one 4-byte field. */
  const EVENT_SIZE: nat := 24

  const TWO_32: nat := 0x1_0000_0000
  const TWO_64: nat := 0x1_0000_0000_0000_0000

  /** One input event: seconds and microseconds of its timestamp, type, code and value. */
  datatype InputEvent = InputEvent(sec: I64, usec: I64, eventType: U16, code: U16, value: I32)

  predicate IsKeyEvent(t: U16) {
    t == EV_KEY
  }

  predicate IsKeyPress(v: I32) {
    v == KEY_PRESS
  }

  /** Releases and auto-repeats are not presses. */
  lemma ReleaseAndRepeatAreNotPresses()
    ensures !IsKeyPress(0) && !IsKeyPress(2)
    ensures forall v: I32 :: IsKeyPress(v) <==> v == 1
    ensures forall t: U16 :: IsKeyEvent(t) <==> t == 1
  {
  }

  // ---------------------------------------------------------------------
  // Little-endian fixed-width integers
  // ---------------------------------------------------------------------

  function Pow256(n: nat): (r: nat)
    ensures r >= 1
  {
    if n == 0 then 1 else 256 * Pow256(n - 1)
  }

  /** The unsigned value of a little-endian byte string. */
  function LittleEndian(bs: seq<Byte>): (r: nat)
    ensures r < Pow256(|bs|)
    decreases |bs|
  {
    if bs == [] then 0 else bs[0] + 256 * LittleEndian(bs[1..])
  }

  /** The `n` little-endian bytes of a value below 256^n. */
  function LittleEndianBytes(v: nat, n: nat): (r: seq<Byte>)
    requires v < Pow256(n)
    ensures |r| == n && LittleEndian(r) == v
    decreases n
  {
    if n == 0 then []
    else
      var r := [v % 256] + LittleEndianBytes(v / 256, n - 1);
      assert r[1..] == LittleEndianBytes(v / 256, n - 1);
      r
  }

  /** Decoding then re-encoding a byte string gives it back. */
  lemma {:induction false} LittleEndianBytesInverse(bs: seq<Byte>)
    ensures LittleEndianBytes(LittleEndian(bs), |bs|) == bs
    decreases |bs|
  {
    if bs != [] {
      var v := LittleEndian(bs);
      assert v % 256 == bs[0] && v / 256 == LittleEndian(bs[1..]);
      LittleEndianBytesInverse(bs[1..]);
    }
  }

  lemma WidthPowers()
    ensures Pow256(2) == 0x1_0000 && Pow256(4) == TWO_32 && Pow256(8) == TWO_64
  {
  }

  lemma LittleEndian2(bs: seq<Byte>)
    requires |bs| == 2
    ensures LittleEndian(bs) == bs[0] as int + 0x100 * bs[1] as int
  {
    assert bs[1..][1..] == [];
  }

  lemma LittleEndian4(bs: seq<Byte>)
    requires |bs| == 4
    ensures LittleEndian(bs)
            == bs[0] as int + 0x100 * bs[1] as int + 0x1_0000 * bs[2] as int + 0x100_0000 * bs[3] as int
  {
    LittleEndian2(bs[2..]);
    assert bs[1..][1..] == bs[2..];
  }

  // ---------------------------------------------------------------------
  // Two's complement
  // ---------------------------------------------------------------------

  function I32FromBits(u: nat): I32
    requires u < TWO_32
  {
    if u < TWO_32 / 2 then u else u - TWO_32
  }

  function I32Bits(x: I32): (u: nat)
    ensures u < TWO_32 && I32FromBits(u) == x
  {
    if x >= 0 then x else x + TWO_32
  }

  function I64FromBits(u: nat): I64
    requires u < TWO_64
  {
    if u < TWO_64 / 2 then u else u - TWO_64
  }

  function I64Bits(x: I64): (u: nat)
    ensures u < TWO_64 && I64FromBits(u) == x
  {
    if x >= 0 then x else x + TWO_64
  }

  lemma BitsInverse(u32: nat, u64: nat)
    requires u32 < TWO_32 && u64 < TWO_64
    ensures I32Bits(I32FromBits(u32)) == u32 && I64Bits(I64FromBits(u64)) == u64
  {
  }

  // ---------------------------------------------------------------------
  // The 24-byte record
  // ---------------------------------------------------------------------

  /** The bytes the kernel delivers for an event: the `repr(C)` layout, little-endian, no padding. */
  function Encode(e: InputEvent): (r: seq<Byte>)
    ensures |r| == EVENT_SIZE
  {
    WidthPowers();
    LittleEndianBytes(I64Bits(e.sec), 8) + LittleEndianBytes(I64Bits(e.usec), 8)
    + LittleEndianBytes(e.eventType, 2) + LittleEndianBytes(e.code, 2)
    + LittleEndianBytes(I32Bits(e.value), 4)
  }

  /**
   * Reinterpret one read as an event. Only a read of exactly one record
   * decodes; the type sits at bytes 16-17, the code at 18-19 and the value
   * at 20-23.
   */
  function Decode(buf: seq<Byte>): (r: Option<InputEvent>)
    ensures r.Some? <==> |buf| == EVENT_SIZE
    ensures r.Some? ==> r.value.eventType == buf[16] as int + 0x100 * buf[17] as int
    ensures r.Some? ==> r.value.code == buf[18] as int + 0x100 * buf[19] as int
    ensures r.Some? ==> I32Bits(r.value.value)
                        == buf[20] as int + 0x100 * buf[21] as int + 0x1_0000 * buf[22] as int
                           + 0x100_0000 * buf[23] as int
  {
    if |buf| != EVENT_SIZE then None
    else
      LittleEndian2(buf[16..18]);
      LittleEndian2(buf[18..20]);
      LittleEndian4(buf[20..24]);
      Some(DecodeFields(buf[0..8], buf[8..16], buf[16..18], buf[18..20], buf[20..24]))
  }

  /** The event held by the five byte groups of a record. */
  function DecodeFields(p0: seq<Byte>, p1: seq<Byte>, p2: seq<Byte>, p3: seq<Byte>, p4: seq<Byte>): InputEvent
    requires |p0| == 8 && |p1| == 8 && |p2| == 2 && |p3| == 2 && |p4| == 4
  {
    WidthPowers();
    InputEvent(I64FromBits(LittleEndian(p0)), I64FromBits(LittleEndian(p1)),
               LittleEndian(p2), LittleEndian(p3), I32FromBits(LittleEndian(p4)))
  }

  /** Slicing a concatenation of five fields at their boundaries gives the fields back. */
  lemma FieldSlices(p0: seq<Byte>, p1: seq<Byte>, p2: seq<Byte>, p3: seq<Byte>, p4: seq<Byte>)
    requires |p0| == 8 && |p1| == 8 && |p2| == 2 && |p3| == 2 && |p4| == 4
    ensures var b := p0 + p1 + p2 + p3 + p4;
      b[0..8] == p0 && b[8..16] == p1 && b[16..18] == p2 && b[18..20] == p3 && b[20..24] == p4
  {
  }

  /** The decoder recovers every field of the record the kernel wrote. */
  lemma DecodeEncode(e: InputEvent)
    ensures Decode(Encode(e)) == Some(e)
  {
    WidthPowers();
    var p0 := LittleEndianBytes(I64Bits(e.sec), 8);
    var p1 := LittleEndianBytes(I64Bits(e.usec), 8);
    var p2 := LittleEndianBytes(e.eventType, 2);
    var p3 := LittleEndianBytes(e.code, 2);
    var p4 := LittleEndianBytes(I32Bits(e.value), 4);
    var b := Encode(e);
    assert b == p0 + p1 + p2 + p3 + p4;
    FieldSlices(p0, p1, p2, p3, p4);
    assert Decode(b).value.sec == e.sec;
    assert Decode(b).value.usec == e.usec;
    assert Decode(b).value.eventType == e.eventType;
    assert Decode(b).value.code == e.code;
    assert Decode(b).value.value == e.value;
  }

  /** Every 24-byte read is the encoding of the event it decodes to: the layout is a bijection. */
  lemma EncodeDecode(buf: seq<Byte>)
    requires |buf| == EVENT_SIZE
    ensures Decode(buf).Some? && Encode(Decode(buf).value) == buf
  {
    var p0, p1, p2, p3, p4 := buf[0..8], buf[8..16], buf[16..18], buf[18..20], buf[20..24];
    FieldsRestored(p0, p1, p2, p3, p4);
    RecordSplits(buf);
  }

  /** A record is the concatenation of its five byte groups. */
  lemma RecordSplits(buf: seq<Byte>)
    requires |buf| == EVENT_SIZE
    ensures buf == buf[0..8] + buf[8..16] + buf[16..18] + buf[18..20] + buf[20..24]
  {
    assert buf[0..16] == buf[0..8] + buf[8..16];
    assert buf[0..18] == buf[0..16] + buf[16..18];
    assert buf[0..20] == buf[0..18] + buf[18..20];
    assert buf == buf[0..20] + buf[20..24];
  }

  /** Re-encoding the fields decoded from five byte groups gives the groups back. */
  lemma FieldsRestored(p0: seq<Byte>, p1: seq<Byte>, p2: seq<Byte>, p3: seq<Byte>, p4: seq<Byte>)
    requires |p0| == 8 && |p1| == 8 && |p2| == 2 && |p3| == 2 && |p4| == 4
    ensures Encode(DecodeFields(p0, p1, p2, p3, p4)) == p0 + p1 + p2 + p3 + p4
  {
    var e := DecodeFields(p0, p1, p2, p3, p4);
    FieldRestored64(p0);
    FieldRestored64(p1);
    WidthPowers();
    LittleEndianBytesInverse(p2);
    LittleEndianBytesInverse(p3);
    FieldRestored32(p4);
  }

  lemma FieldRestored64(p: seq<Byte>)
    requires |p| == 8
    ensures LittleEndianBytes(I64Bits(I64FromBits(LittleEndian(p))), 8) == p
  {
    WidthPowers();
    BitsInverse(0, LittleEndian(p));
    LittleEndianBytesInverse(p);
  }

  lemma FieldRestored32(p: seq<Byte>)
    requires |p| == 4
    ensures LittleEndianBytes(I32Bits(I32FromBits(LittleEndian(p))), 4) == p
  {
    WidthPowers();
    BitsInverse(LittleEndian(p), 0);
    LittleEndianBytesInverse(p);
  }
}
