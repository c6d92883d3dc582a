/**
 The table-driven CRC-32 of gpt-utils/sparse_crc32.cpp, related to the bit-serial
 shift register that defines it (section 8.1.1.6.2 of ITU-T V.42), and the errors
 it is sure to notice.
 */
module Crc32 {
  import opened BitRegister
  import opened Crc32Table

  /* The register of the CRC: 32 bits shifted towards the low-order end. */

  function Xor(a: Word, b: Word): Word { a ^ b }

  function Half(v: Word): Word { v >> 1 }

  function Odd(v: Word): bool { v & 1 == 1 }

  function Unit(bit: bool): Word { if bit then 1 else 0 }

  function Feedback(bit: bool): Word { if bit then POLY else 0 }

  function Invert(v: Word): Word { v ^ 0xffffffff }

  const WORD: Ops<Word> := Ops(Xor, Half, Odd, Unit, Feedback, 0)

  // The bits of a byte as they go on the line, low-order bit first.
  function ByteBits(b: bv8): seq<bool> {
    LowBits(WORD, b as Word, 8)
  }

  // The CRC by definition: every bit of the buffer is clocked through the register,
  // which is inverted before and after.
  function SerialCrc(crcIn: Word, buf: seq<bv8>): Word {
    Check(WORD, Invert, crcIn, Bits(ByteBits, buf))
  }

  lemma GroupLaw(a: Word, b: Word, c: Word)
    ensures (a ^ b) ^ c == a ^ (b ^ c) && a ^ b == b ^ a && a ^ 0 == a
  {}

  lemma ShiftLaw(a: Word, b: Word)
    ensures (a ^ b) >> 1 == (a >> 1) ^ (b >> 1)
    ensures ((a ^ b) & 1 == 1) == ((a & 1 == 1) != (b & 1 == 1))
  {}

  lemma WordGroup(a: Word, b: Word, c: Word)
    ensures Group(WORD, a, b, c)
  {
    GroupLaw(a, b, c);
  }

  lemma WordShifts(a: Word, b: Word)
    ensures Shifts(WORD, a, b)
  {
    ShiftLaw(a, b);
  }

  lemma WordIsLinear()
    ensures Linear(WORD)
  {
    forall a, b, c ensures Group(WORD, a, b, c) { WordGroup(a, b, c); }
    forall a, b ensures Shifts(WORD, a, b) { WordShifts(a, b); }
    assert Units(WORD, true) && Units(WORD, false);
  }

  lemma Run8<R(!new)>(o: Ops<R>, clock: R -> R, r: R)
    requires forall r :: Clock(o, r) == clock(r)
    ensures Run(o, r, 8) == clock(clock(clock(clock(clock(clock(clock(clock(r))))))))
  {
    assert Run(o, r, 8) == Run(o, clock(clock(clock(clock(r)))), 4);
  }

  lemma TableIsRun(x: Word)
    requires x < 256
    ensures Table(x) == Run(WORD, x, 8)
  {
    forall r ensures Clock(WORD, r) == Shift(r) {}
    Run8(WORD, Shift, x);
    TableIsShift8(x);
  }

  lemma HalfN8<R>(o: Ops<R>, r: R)
    ensures HalfN(o, r, 8) == o.half(o.half(o.half(o.half(o.half(o.half(o.half(o.half(r))))))))
  {
    assert HalfN(o, r, 8) == HalfN(o, o.half(o.half(o.half(o.half(r)))), 4);
  }

  lemma Half8(v: Word)
    ensures Half(Half(Half(Half(Half(Half(Half(Half(v)))))))) == v >> 8
  {}

  lemma HalfNIsShift(v: Word)
    ensures HalfN(WORD, v, 8) == v >> 8
  {
    HalfN8(WORD, v);
    Half8(v);
  }

  lemma LowBits8<R>(o: Ops<R>, v: R)
    ensures LowBits(o, v, 8) ==
      [o.odd(v), o.odd(o.half(v)), o.odd(o.half(o.half(v))), o.odd(o.half(o.half(o.half(v)))),
       o.odd(o.half(o.half(o.half(o.half(v))))), o.odd(o.half(o.half(o.half(o.half(o.half(v)))))),
       o.odd(o.half(o.half(o.half(o.half(o.half(o.half(v))))))),
         o.odd(o.half(o.half(o.half(o.half(o.half(o.half(o.half(v))))))))]
  {
    assert LowBits(o, v, 8) ==
      [o.odd(v), o.odd(o.half(v)), o.odd(o.half(o.half(v))), o.odd(o.half(o.half(o.half(v))))] +
      LowBits(o, o.half(o.half(o.half(o.half(v)))), 4);
  }

  lemma LowByteClear(v: Word)
    requires v & 0xff == 0
    ensures !Odd(v) && !Odd(Half(v)) && !Odd(Half(Half(v))) && !Odd(Half(Half(Half(v))))
    ensures !Odd(Half(Half(Half(Half(v))))) && !Odd(Half(Half(Half(Half(Half(v))))))
    ensures !Odd(Half(Half(Half(Half(Half(Half(v))))))) && !Odd(Half(Half(Half(Half(Half(Half(Half(v))))))))
  {}

  lemma NoLowBits(hi: Word)
    requires hi & 0xff == 0
    ensures LowBits(WORD, hi, 8) == LowBits(WORD, 0, 8)
  {
    LowBits8(WORD, hi);
    LowBits8(WORD, 0);
    LowByteClear(hi);
    LowByteClear(0);
  }

  lemma ByteParts(r: Word, v: Word, x: Word)
    requires v >> 8 == 0 && x == r ^ v
    ensures (x & 0xff) ^ (x & 0xffffff00) == x
    ensures (x & 0xff) >> 8 == 0 && (x & 0xffffff00) & 0xff == 0
  {}

  lemma StepByParts(r: Word, v: Word, lo: Word, hi: Word)
    requires v >> 8 == 0 && lo >> 8 == 0 && hi & 0xff == 0 && Xor(lo, hi) == Xor(r, v)
    ensures Feed(WORD, r, LowBits(WORD, v, 8)) == Xor(Run(WORD, lo, 8), HalfN(WORD, r, 8))
  {
    WordIsLinear();
    HalfNIsShift(v);
    HalfNIsShift(lo);
    NoLowBits(hi);
    FeedByTable(WORD, r, v, lo, hi, 8);
  }

  // One turn of the source's loop is eight clocks of the register.
  lemma TableStep(r: Word, v: Word)
    requires v >> 8 == 0
    ensures (r ^ v) & 0xff < 256
    ensures Feed(WORD, r, LowBits(WORD, v, 8)) == Xor(Table((r ^ v) & 0xff), r >> 8)
  {
    var x := r ^ v;
    var lo, hi := x & 0xff, x & 0xffffff00;
    ByteParts(r, v, x);
    StepByParts(r, v, lo, hi);
    HalfNIsShift(r);
    TableIsRun(lo);
  }

  lemma ByteFits(b: bv8, v: Word)
    requires v == b as Word
    ensures v >> 8 == 0
  {}

  lemma FeedByte(r: Word, b: bv8, v: Word)
    requires v == b as Word
    ensures (r ^ v) & 0xff < 256
    ensures Feed(WORD, r, ByteBits(b)) == Table((r ^ v) & 0xff) ^ (r >> 8)
  {
    ByteFits(b, v);
    TableStep(r, v);
  }

  method Update(r: Word, b: bv8) returns (r': Word)
    ensures r' == Feed(WORD, r, ByteBits(b))
  {
    var v := b as Word;
    FeedByte(r, b, v);
    r' := Table((r ^ v) & 0xff) ^ (r >> 8);
  }

  method SparseCrc32(crcIn: Word, buf: seq<bv8>) returns (crc: Word)
    ensures crc == SerialCrc(crcIn, buf)
  {
    crc := Invert(crcIn);
    var p := 0;
    while p < |buf|
      invariant p <= |buf|
      invariant crc == Feed(WORD, Invert(crcIn), Bits(ByteBits, buf[..p]))
    {
      FeedOneMore(Invert(crcIn), buf, p);
      crc := Update(crc, buf[p]);
      p := p + 1;
    }
    assert buf[..p] == buf;
    return Invert(crc);
  }

  lemma FeedOneMore(r: Word, buf: seq<bv8>, p: nat)
    requires p < |buf|
    ensures Feed(WORD, r, Bits(ByteBits, buf[..p + 1])) ==
      Feed(WORD, Feed(WORD, r, Bits(ByteBits, buf[..p])), ByteBits(buf[p]))
  {
    assert buf[..p + 1] == buf[..p] + [buf[p]];
    BitsAppend(ByteBits, buf[..p], [buf[p]]);
    assert Bits(ByteBits, [buf[p]]) == ByteBits(buf[p]);
    FeedAppend(WORD, r, Bits(ByteBits, buf[..p]), ByteBits(buf[p]));
  }

  // The CRC of a buffer can be continued with the next one.
  lemma Chaining(crcIn: Word, a: seq<bv8>, b: seq<bv8>)
    ensures SerialCrc(SerialCrc(crcIn, a), b) == SerialCrc(crcIn, a + b)
  {
    InvertTwice();
    BitsAppend(ByteBits, a, b);
    CheckAppend(WORD, Invert, crcIn, Bits(ByteBits, a), Bits(ByteBits, b));
  }

  lemma InvertTwice()
    ensures forall r :: Invert(Invert(r)) == r
  {}

  /* Error detection. */

  // t can be halved k times without losing a bit.
  ghost predicate Halvable(t: Word, k: nat) {
    t != 0 && (k == 0 || (t & 1 == 0 && Halvable(t >> 1, k - 1)))
  }

  // The difference d has a bit that takes more than k clocks to leave the register.
  ghost predicate Reach(d: Word, k: nat) {
    exists t :: Halvable(t, k) && t <= d
  }

  lemma ClockHalves(d: Word, t: Word)
    requires t & 1 == 0 && t <= d
    ensures t >> 1 <= Clock(WORD, d)
  {}

  lemma ReachClock(d: Word, k: nat)
    requires k > 0 && Reach(d, k)
    ensures Reach(Clock(WORD, d), k - 1)
  {
    var t :| Halvable(t, k) && t <= d;
    ClockHalves(d, t);
    assert Halvable(t >> 1, k - 1);
  }

  lemma UnitsKeep(d: Word, t: Word, p: bool, q: bool)
    requires t & 1 == 0 && t <= d
    ensures t <= Xor(d, Xor(Unit(p), Unit(q)))
  {}

  lemma ReachUnits(d: Word, k: nat, p: bool, q: bool)
    requires k > 0 && Reach(d, k)
    ensures Reach(Xor(d, Xor(Unit(p), Unit(q))), k)
  {
    var t :| Halvable(t, k) && t <= d;
    UnitsKeep(d, t, p, q);
  }

  lemma ReachDiffers(x: Word, y: Word, k: nat)
    requires Reach(Xor(x, y), k)
    ensures x != y
  {
    assert x == y ==> Xor(x, y) == 0;
  }

  lemma XorTwice(a: Word)
    ensures a ^ a == 0
  {}

  lemma NothingClockedAway(d: Word, h: Word, f: Word)
    requires h == Half(d) && f == Feedback(Odd(d)) && Xor(h, f) == 0
    ensures d == 0
  {}

  lemma WordTwice(a: Word)
    ensures Twice(WORD, a)
  {
    XorTwice(a);
  }

  lemma ClockParts(d: Word, h: Word, f: Word)
    requires h == Half(d) && f == Feedback(Odd(d))
    ensures Clock(WORD, d) == Xor(h, f)
  {
    assert WORD.half(d) == h && WORD.feedback(WORD.odd(d)) == f && WORD.add(h, f) == Xor(h, f);
  }

  lemma ClockZero(d: Word)
    requires Clock(WORD, d) == 0
    ensures d == 0
  {
    ClockParts(d, Half(d), Feedback(Odd(d)));
    NothingClockedAway(d, Half(d), Feedback(Odd(d)));
  }

  lemma WordIsReversible()
    ensures Reversible(WORD)
  {
    forall a ensures Twice(WORD, a) { WordTwice(a); }
    forall d | Clock(WORD, d) == 0 ensures d == 0 { ClockZero(d); }
  }

  lemma FirstBit(r: Word, p: bool)
    ensures Reach(Xor(Step(WORD, r, p), Step(WORD, r, !p)), 31)
  {
    TopBit();
    WordIsLinear();
    WordIsReversible();
    StepFlipped(WORD, r, p);
    TopBitReaches(POLY);
  }

  lemma TopBitReaches(d: Word)
    requires 0x80000000 <= d && Halvable(0x80000000, 31)
    ensures Reach(d, 31)
  {}

  lemma TopBit()
    ensures Halvable(0x80000000, 31)
  {
    assert Halvable(0x2, 1);
    assert Halvable(0x8, 3);
    assert Halvable(0x20, 5);
    assert Halvable(0x80, 7);
    assert Halvable(0x200, 9);
    assert Halvable(0x800, 11);
    assert Halvable(0x2000, 13);
    assert Halvable(0x8000, 15);
    assert Halvable(0x20000, 17);
    assert Halvable(0x80000, 19);
    assert Halvable(0x200000, 21);
    assert Halvable(0x800000, 23);
    assert Halvable(0x2000000, 25);
    assert Halvable(0x8000000, 27);
    assert Halvable(0x20000000, 29);
  }

  lemma WordSeparates()
    ensures Separates(WORD, Reach, 32)
  {
    forall d, k: nat | k > 0 && Reach(d, k) ensures Reach(Clock(WORD, d), k - 1) { ReachClock(d, k); }
    forall d, k: nat, p, q | k > 0 && Reach(d, k) ensures Reach(Xor(d, Xor(Unit(p), Unit(q))), k) {
      ReachUnits(d, k, p, q);
    }
    forall x, y, k: nat | Reach(Xor(x, y), k) ensures x != y { ReachDiffers(x, y, k); }
    WordIsLinear();
    WordIsReversible();
    forall x, y, p | Step(WORD, x, p) == Step(WORD, y, p) ensures x == y { StepInjective(WORD, x, y, p); }
    forall r, p ensures Reach(Xor(Step(WORD, r, p), Step(WORD, r, !p)), 31) { FirstBit(r, p); }
  }

  lemma ByteBitsInjective(b: bv8, c: bv8)
    ensures |ByteBits(b)| == 8
    ensures ByteBits(b) == ByteBits(c) ==> b == c
  {
    LowBits8(WORD, b as Word);
    LowBits8(WORD, c as Word);
    if ByteBits(b) == ByteBits(c) {
      assert forall i :: 0 <= i < 8 ==> ByteBits(b)[i] == ByteBits(c)[i];
      SameBits(b, c, b as Word, c as Word);
    }
  }

  lemma SameBits(a: bv8, b: bv8, v: Word, w: Word)
    requires v == a as Word && w == b as Word
    requires Odd(v) == Odd(w) && Odd(Half(v)) == Odd(Half(w)) && Odd(Half(Half(v))) == Odd(Half(Half(w)))
    requires Odd(Half(Half(Half(v)))) == Odd(Half(Half(Half(w))))
    requires Odd(Half(Half(Half(Half(v))))) == Odd(Half(Half(Half(Half(w)))))
    requires Odd(Half(Half(Half(Half(Half(v)))))) == Odd(Half(Half(Half(Half(Half(w))))))
    requires Odd(Half(Half(Half(Half(Half(Half(v))))))) == Odd(Half(Half(Half(Half(Half(Half(w)))))))
    requires Odd(Half(Half(Half(Half(Half(Half(Half(v)))))))) == Odd(Half(Half(Half(Half(Half(Half(Half(w))))))))
    ensures a == b
  {}

  // A burst of errors no longer than the register is always noticed: buffers whose
  // bits differ, and only within 32 consecutive ones, have different CRCs.
  lemma BurstDetected(crcIn: Word, a: seq<bv8>, b: seq<bv8>, from: nat)
    requires |a| == |b| && a != b
    requires var u, w := Bits(ByteBits, a), Bits(ByteBits, b);
      |u| == |w| && forall i :: 0 <= i < |u| && !(from <= i < from + 32) ==> u[i] == w[i]
    ensures SerialCrc(crcIn, a) != SerialCrc(crcIn, b)
  {
    forall b, c ensures |ByteBits(b)| == 8 && (ByteBits(b) == ByteBits(c) ==> b == c) {
      ByteBitsInjective(b, c);
    }
    BitsInjective(ByteBits, a, b);
    WordIsLinear();
    WordSeparates();
    InvertTwice();
    BurstChangesCheck(WORD, Invert, Reach, 32, crcIn, Bits(ByteBits, a), Bits(ByteBits, b), from);
  }

  // The same for bytes: an error confined to four consecutive bytes is noticed.
  lemma WindowDetected(crcIn: Word, a: seq<bv8>, b: seq<bv8>, from: nat)
    requires |a| == |b| && a != b
    requires forall j :: 0 <= j < |a| && !(from <= j < from + 4) ==> a[j] == b[j]
    ensures SerialCrc(crcIn, a) != SerialCrc(crcIn, b)
  {
    forall b ensures |ByteBits(b)| == 8 {
      ByteBitsInjective(b, b);
    }
    forall i | 0 <= i < 8 * |a| && !(8 * from <= i < 8 * from + 32)
      ensures |Bits(ByteBits, a)| == |Bits(ByteBits, b)| == 8 * |a| && Bits(ByteBits, a)[i] == Bits(ByteBits, b)[i]
    {
      BitAt(ByteBits, a, i);
      BitAt(ByteBits, b, i);
    }
    BitAt(ByteBits, a, 0);
    BitAt(ByteBits, b, 0);
    BurstDetected(crcIn, a, b, 8 * from);
  }
}
