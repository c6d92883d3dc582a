/**
 What the CRC comes to: the residue that every buffer leaves when its CRC is appended,
 and the check value of the standard digits.
 */
module Crc32Residue {
  import opened BitRegister
  import opened Crc32Table
  import opened Crc32

  // One byte fed by table entry x, which leads to the register next.
  lemma Fed(r: Word, b: bv8, v: Word, x: Word, next: Word)
    requires v == b as Word && x == (r ^ v) & 0xff && x < 256 && next == Table(x) ^ (r >> 8)
    ensures Feed(WORD, r, ByteBits(b)) == next
  {
    FeedByte(r, b, v);
  }

  /* The residue. */

  // The four bytes of a word, lowest first.
  function LittleEndian(w: Word): seq<bv8> {
    [ByteOf(w), ByteOf(w >> 8), ByteOf(w >> 16), ByteOf(w >> 24)]
  }

  function ByteOf(w: Word): bv8 {
    (w & 0xff) as bv8
  }

  lemma ByteBack(w: Word)
    ensures ByteOf(w) as Word == w & 0xff
  {}

  lemma Trail1(r: Word, w: Word)
    requires w == r ^ 0xffffffff
    ensures (r ^ (w & 0xff)) & 0xff == 0xff
  {}

  lemma Trail2(r: Word, w: Word, r1: Word)
    requires w == r ^ 0xffffffff && r1 == 0x2d02ef8d ^ (r >> 8)
    ensures (r1 ^ ((w >> 8) & 0xff)) & 0xff == 0x72 && 0xbe0b1010 ^ (r1 >> 8) == 0xbe2612ff ^ (r >> 16)
  {}

  lemma Trail3(r: Word, w: Word, r2: Word)
    requires w == r ^ 0xffffffff && r2 == 0xbe2612ff ^ (r >> 16)
    ensures (r2 ^ ((w >> 16) & 0xff)) & 0xff == 0 && 0 ^ (r2 >> 8) == 0x00be2612 ^ (r >> 24)
  {}

  lemma Trail4(r: Word, w: Word, r3: Word)
    requires w == r ^ 0xffffffff && r3 == 0x00be2612 ^ (r >> 24)
    ensures (r3 ^ ((w >> 24) & 0xff)) & 0xff == 0xed && 0xdebb9ec5 ^ (r3 >> 8) == 0xdebb20e3
  {}

  lemma TrailEntries()
    ensures Table(0xff) == 0x2d02ef8d && Table(0x72) == 0xbe0b1010 && Table(0) == 0 && Table(0xed) == 0xdebb9ec5
  {}

  lemma TrailByte1(r: Word, w: Word, b: bv8, r1: Word)
    requires w == r ^ 0xffffffff && b == ByteOf(w) && r1 == 0x2d02ef8d ^ (r >> 8)
    ensures Feed(WORD, r, ByteBits(b)) == r1
  {
    ByteBack(w);
    Trail1(r, w);
    TrailEntries();
    Fed(r, b, w & 0xff, 0xff, r1);
  }

  lemma TrailByte2(r: Word, w: Word, b: bv8, r1: Word, r2: Word)
    requires w == r ^ 0xffffffff && b == ByteOf(w >> 8) && r1 == 0x2d02ef8d ^ (r >> 8) && r2 == 0xbe2612ff ^ (r >> 16)
    ensures Feed(WORD, r1, ByteBits(b)) == r2
  {
    ByteBack(w >> 8);
    Trail2(r, w, r1);
    TrailEntries();
    Fed(r1, b, (w >> 8) & 0xff, 0x72, r2);
  }

  lemma TrailByte3(r: Word, w: Word, b: bv8, r2: Word, r3: Word)
    requires w == r ^ 0xffffffff && b == ByteOf(w >> 16) && r2 == 0xbe2612ff ^ (r >> 16) && r3 == 0x00be2612 ^ (r >> 24)
    ensures Feed(WORD, r2, ByteBits(b)) == r3
  {
    ByteBack(w >> 16);
    Trail3(r, w, r2);
    TrailEntries();
    Fed(r2, b, (w >> 16) & 0xff, 0, r3);
  }

  lemma TrailByte4(r: Word, w: Word, b: bv8, r3: Word, r4: Word)
    requires w == r ^ 0xffffffff && b == ByteOf(w >> 24) && r3 == 0x00be2612 ^ (r >> 24) && r4 == 0xdebb20e3
    ensures Feed(WORD, r3, ByteBits(b)) == r4
  {
    ByteBack(w >> 24);
    Trail4(r, w, r3);
    TrailEntries();
    Fed(r3, b, (w >> 24) & 0xff, 0xed, r4);
  }

  // Whatever the register, feeding its complement leaves the same in it.
  lemma TrailFed(r: Word, w: Word, r4: Word)
    requires w == r ^ 0xffffffff && r4 == 0xdebb20e3
    ensures Feed(WORD, r, Bits(ByteBits, LittleEndian(w))) == r4
  {
    var r1, r2, r3 := 0x2d02ef8d ^ (r >> 8), 0xbe2612ff ^ (r >> 16), 0x00be2612 ^ (r >> 24);
    var b0, b1, b2, b3 := ByteOf(w), ByteOf(w >> 8), ByteOf(w >> 16), ByteOf(w >> 24);
    TrailByte1(r, w, b0, r1);
    TrailByte2(r, w, b1, r1, r2);
    TrailByte3(r, w, b2, r2, r3);
    TrailByte4(r, w, b3, r3, r4);
    FedFour(WORD, ByteBits, r, r1, r2, r3, r4, b0, b1, b2, b3);
  }

  lemma InvertedIs(r: Word)
    ensures Invert(r) == r ^ 0xffffffff && Invert(Invert(r)) == r
  {}

  // A buffer followed by its own CRC has one and the same CRC, whatever the buffer and
  // whatever the CRC is started from.
  lemma Residue(c: Word, a: seq<bv8>)
    ensures SerialCrc(c, a + LittleEndian(SerialCrc(c, a))) == 0x2144df1c
  {
    var r := Feed(WORD, Invert(c), Bits(ByteBits, a));
    var w := SerialCrc(c, a);
    InvertedIs(r);
    BitsAppend(ByteBits, a, LittleEndian(w));
    FeedAppend(WORD, Invert(c), Bits(ByteBits, a), Bits(ByteBits, LittleEndian(w)));
    TrailFed(r, w, 0xdebb20e3);
    InvertedIs(0xdebb20e3);
  }

  /* The check value. */

  lemma Digit1()
    ensures Feed(WORD, 0xffffffff, ByteBits(49)) == 0x7c231048
  {
    assert Table(0xce) == 0x7cdcefb7;
    Fed(0xffffffff, 49, 49, 0xce, 0x7c231048);
  }

  lemma Digit2()
    ensures Feed(WORD, 0x7c231048, ByteBits(50)) == 0xb0acbb32
  {
    assert Table(0x7a) == 0xb0d09822;
    Fed(0x7c231048, 50, 50, 0x7a, 0xb0acbb32);
  }

  lemma Digit3()
    ensures Feed(WORD, 0xb0acbb32, ByteBits(51)) == 0x77b79c2d
  {
    assert Table(0x01) == 0x77073096;
    Fed(0xb0acbb32, 51, 51, 0x01, 0x77b79c2d);
  }

  lemma Digit4()
    ensures Feed(WORD, 0x77b79c2d, ByteBits(52)) == 0x641c1f5c
  {
    assert Table(0x19) == 0x646ba8c0;
    Fed(0x77b79c2d, 52, 52, 0x19, 0x641c1f5c);
  }

  lemma Digit5()
    ensures Feed(WORD, 0x641c1f5c, ByteBits(53)) == 0x340ac5e3
  {
    assert Table(0x69) == 0x346ed9fc;
    Fed(0x641c1f5c, 53, 53, 0x69, 0x340ac5e3);
  }

  lemma Digit6()
    ensures Feed(WORD, 0x340ac5e3, ByteBits(54)) == 0xf68d2c9e
  {
    assert Table(0xd5) == 0xf6b9265b;
    Fed(0x340ac5e3, 54, 54, 0xd5, 0xf68d2c9e);
  }

  lemma Digit7()
    ensures Feed(WORD, 0xf68d2c9e, ByteBits(55)) == 0xaffc9660
  {
    assert Table(0xa9) == 0xaf0a1b4c;
    Fed(0xf68d2c9e, 55, 55, 0xa9, 0xaffc9660);
  }

  lemma Digit8()
    ensures Feed(WORD, 0xaffc9660, ByteBits(56)) == 0x651f2550
  {
    assert Table(0x58) == 0x65b0d9c6;
    Fed(0xaffc9660, 56, 56, 0x58, 0x651f2550);
  }

  lemma Digit9()
    ensures Feed(WORD, 0x651f2550, ByteBits(57)) == 0x340bc6d9
  {
    assert Table(0x69) == 0x346ed9fc;
    Fed(0x651f2550, 57, 57, 0x69, 0x340bc6d9);
  }

  lemma Digits1To4()
    ensures Feed(WORD, 0xffffffff, Bits(ByteBits, [49, 50, 51, 52])) == 0x641c1f5c
  {
    Digit1();
    Digit2();
    Digit3();
    Digit4();
    FedFour(WORD, ByteBits, 0xffffffff, 0x7c231048, 0xb0acbb32, 0x77b79c2d, 0x641c1f5c, 49, 50, 51, 52);
  }

  lemma Digits5To8()
    ensures Feed(WORD, 0x641c1f5c, Bits(ByteBits, [53, 54, 55, 56])) == 0x651f2550
  {
    Digit5();
    Digit6();
    Digit7();
    Digit8();
    FedFour(WORD, ByteBits, 0x641c1f5c, 0x340ac5e3, 0xf68d2c9e, 0xaffc9660, 0x651f2550, 53, 54, 55, 56);
  }

  lemma AllDigits()
    ensures Feed(WORD, 0xffffffff, Bits(ByteBits, [49, 50, 51, 52] + [53, 54, 55, 56] + [57])) == 0x340bc6d9
  {
    Digits1To4();
    Digits5To8();
    Digit9();
    FedOne(WORD, ByteBits, 0x651f2550, 0x340bc6d9, 57);
    FedBoth(WORD, ByteBits, 0xffffffff, 0x641c1f5c, 0x651f2550, [49, 50, 51, 52], [53, 54, 55, 56]);
    FedBoth(WORD, ByteBits, 0xffffffff, 0x651f2550, 0x340bc6d9, [49, 50, 51, 52] + [53, 54, 55, 56], [57]);
  }

  // The CRC of the digits one to nine.
  lemma CheckValue(digits: seq<bv8>)
    requires digits == [49, 50, 51, 52] + [53, 54, 55, 56] + [57]
    ensures SerialCrc(0, digits) == 0xcbf43926
  {
    InvertedIs(0);
    AllDigits();
    InvertedIs(0x340bc6d9);
  }
}
