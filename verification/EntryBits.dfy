/** The bit operations of LA9 and LA10 on 16-bit words are the arithmetic of PageTables. */
module EntryBits {
  import opened PageTables

  // ----- Testing a flag -----

  lemma ValidIsHigh(e: bv16)
    requires e & 0x8000 != 0
    ensures IsValid(e as int)
  {
  }

  lemma InvalidIsLow(e: bv16)
    requires e & 0x8000 == 0
    ensures !IsValid(e as int)
  {
  }

  /** `entry & (1 << 15)` */
  lemma TestingTheValidBit(e: bv16)
    ensures e & 0x8000 != 0 <==> IsValid(e as int)
  {
    if e & 0x8000 != 0 { ValidIsHigh(e); } else { InvalidIsLow(e); }
  }

  lemma ReferencedQuarters(e: bv16)
    requires e & 0x4000 != 0
    ensures HasReference(e as int)
  {
  }

  lemma UnreferencedQuarters(e: bv16)
    requires e & 0x4000 == 0
    ensures !HasReference(e as int)
  {
  }

  /** `entry & (1 << 14)` */
  lemma TestingTheReferenceBit(e: bv16)
    ensures e & 0x4000 != 0 <==> HasReference(e as int)
  {
    if e & 0x4000 != 0 { ReferencedQuarters(e); } else { UnreferencedQuarters(e); }
  }

  // ----- Changing a flag -----

  lemma AddingTheReferenceBit(e: bv16)
    requires e & 0x4000 == 0
    ensures (e | 0x4000) as int == e as int + REFERENCED
  {
  }

  /** `entry |= (1 << 14)` */
  lemma SettingTheReferenceBit(e: bv16)
    ensures (e | 0x4000) as int == SetReference(e as int)
  {
    TestingTheReferenceBit(e);
    if e & 0x4000 != 0 { assert e | 0x4000 == e; } else { AddingTheReferenceBit(e); }
  }

  lemma RemovingTheReferenceBit(e: bv16)
    requires e & 0x4000 != 0
    ensures (e & 0xBFFF) as int == e as int - REFERENCED
  {
  }

  /** `entry &= ~(1 << 14)` */
  lemma ClearingTheReferenceBit(e: bv16)
    ensures (e & 0xBFFF) as int == ClearReference(e as int)
  {
    TestingTheReferenceBit(e);
    if e & 0x4000 != 0 { RemovingTheReferenceBit(e); } else { assert e & 0xBFFF == e; }
  }

  /** `entry &= ~(1 << 15)` of a valid entry */
  lemma ClearingTheValidBit(e: bv16)
    requires e & 0x8000 != 0
    ensures (e & 0x7FFF) as int == e as int - VALID
  {
  }

  // ----- Frames -----

  /** `entry & 0x3FFF` */
  lemma MaskingTheFrame(e: bv16)
    ensures (e & 0x3FFF) as int == FrameOf(e as int, 0x4000)
  {
  }

  /** `entry & ~(1 << 15)` */
  lemma MaskingTheLowBits(e: bv16)
    ensures (e & 0x7FFF) as int == FrameOf(e as int, 0x8000)
  {
  }

  lemma PackingAFrame(frame: bv16)
    requires frame < 0x4000
    ensures (frame | 0x8000) as int == frame as int + VALID
  {
  }

  lemma PackingAReferencedFrame(frame: bv16)
    requires frame < 0x4000
    ensures (frame | 0xC000) as int == frame as int + VALID + REFERENCED
  {
  }

  lemma FramesAreSmall(frame: bv16)
    requires frame & 0xC000 == 0
    ensures frame as int < REFERENCED
  {
  }

  lemma Unpacking(frame: int, packed: int, marked: int)
    requires 0 <= frame < REFERENCED && packed == frame + VALID && marked == packed + REFERENCED
    ensures FrameOf(packed, 0x8000) == FrameOf(packed, 0x4000) == FrameOf(marked, 0x4000) == frame
  {
  }

  /** A frame that is packed into an entry, whether or not the entry is also marked as referenced,
      is the frame that is read out of it. */
  lemma PackedFramesComeBack(frame: bv16, packed: bv16, marked: bv16)
    requires frame < 0x4000 && packed == frame | 0x8000 && marked == packed | 0x4000
    ensures packed as int == frame as int + VALID && marked as int == frame as int + VALID + REFERENCED
    ensures FrameOf(packed as int, 0x8000) == FrameOf(packed as int, 0x4000) == frame as int
    ensures FrameOf(marked as int, 0x4000) == frame as int
  {
    assert marked == frame | 0xC000;
    PackingAFrame(frame);
    PackingAReferencedFrame(frame);
    assert frame & 0xC000 == 0;
    FramesAreSmall(frame);
    Unpacking(frame as int, packed as int, marked as int);
  }

  // ----- Histories -----

  lemma DoubledAsNumber(half: bv16)
    requires half < 0x8000
    ensures half as int == (half << 1) as int / 2
  {
  }

  lemma DoubledAndOneAsNumber(half: bv16)
    requires half < 0x8000
    ensures half as int == ((half << 1) | 1) as int / 2
  {
  }

  lemma HalfAndLastBit(h: bv16, half: bv16)
    requires half == h >> 1
    ensures half < 0x8000 && (h == half << 1 || h == (half << 1) | 1)
  {
  }

  lemma TopBit(half: bv16)
    requires half < 0x8000
    ensures (half | 0x8000) as int == half as int + VALID
  {
  }

  /** `history >> 1` */
  lemma ShiftingTheHistory(h: bv16, half: bv16)
    requires half == h >> 1
    ensures half as int == h as int / 2
  {
    HalfAndLastBit(h, half);
    if h == half << 1 { DoubledAsNumber(half); } else { DoubledAndOneAsNumber(half); }
  }

  lemma PushingAReference(h: bv16, half: bv16, pushed: bv16)
    requires half == h >> 1 && pushed == half | 0x8000
    ensures pushed as int == h as int / 2 + VALID
  {
    ShiftingTheHistory(h, half);
    HalfAndLastBit(h, half);
    TopBit(half);
  }

  lemma PushingNothing(h: bv16, half: bv16, pushed: bv16)
    requires half == h >> 1 && pushed == half | 0
    ensures pushed as int == h as int / 2
  {
    ShiftingTheHistory(h, half);
    assert pushed == half;
  }

  /** `(history >> 1) | (referenced ? 0x8000 : 0)` */
  lemma PushingABit(h: bv16, half: bv16, pushed: bv16, referenced: bool)
    requires half == h >> 1 && pushed == half | if referenced then 0x8000 else 0
    ensures pushed as int == h as int / 2 + if referenced then VALID else 0
  {
    if referenced { PushingAReference(h, half, pushed); } else { PushingNothing(h, half, pushed); }
  }
}
