/**
 Feedback shift registers over any carrier: the part of the CRC argument that uses
 only the laws of the register's arithmetic and not what a register holds.
 */
module BitRegister {

  // The operations of a register: sum, shift by one, low bit, the word holding a
  // given low bit, and what is fed back when a given bit leaves.
  datatype Ops<!R> = Ops(add: (R, R) -> R, half: R -> R, odd: R -> bool, unit: bool -> R, feedback: bool -> R, zero: R)

  // One clock with nothing entering.
  function Clock<R>(o: Ops<R>, r: R): R {
    o.add(o.half(r), o.feedback(o.odd(r)))
  }

  // One clock while a message bit enters.
  function Step<R>(o: Ops<R>, r: R, bit: bool): R {
    Clock(o, o.add(r, o.unit(bit)))
  }

  function Feed<R>(o: Ops<R>, r: R, bits: seq<bool>): R
    decreases bits
  {
    if bits == [] then r else Feed(o, Step(o, r, bits[0]), bits[1..])
  }

  function Run<R>(o: Ops<R>, r: R, n: nat): R
    decreases n
  {
    if n == 0 then r else Run(o, Clock(o, r), n - 1)
  }

  function HalfN<R>(o: Ops<R>, r: R, n: nat): R
    decreases n
  {
    if n == 0 then r else HalfN(o, o.half(r), n - 1)
  }

  // The n low-order bits of v, lowest first.
  function LowBits<R>(o: Ops<R>, v: R, n: nat): (bits: seq<bool>)
    ensures |bits| == n
    decreases n
  {
    if n == 0 then [] else [o.odd(v)] + LowBits(o, o.half(v), n - 1)
  }

  /* The arithmetic is that of polynomials over the field of two elements. */

  ghost predicate Group<R>(o: Ops<R>, a: R, b: R, c: R) {
    o.add(a, b) == o.add(b, a) && o.add(o.add(a, b), c) == o.add(a, o.add(b, c)) && o.add(a, o.zero) == a
  }

  ghost predicate Shifts<R>(o: Ops<R>, a: R, b: R) {
    o.half(o.add(a, b)) == o.add(o.half(a), o.half(b)) && o.odd(o.add(a, b)) == (o.odd(a) != o.odd(b))
  }

  ghost predicate Units<R>(o: Ops<R>, bit: bool) {
    && o.half(o.unit(bit)) == o.zero && o.odd(o.unit(bit)) == bit
    && o.add(o.feedback(bit), o.feedback(bit)) == o.zero
  }

  ghost predicate Linear<R(!new)>(o: Ops<R>) {
    && (forall a, b, c :: Group(o, a, b, c))
    && (forall a, b :: Shifts(o, a, b))
    && (forall bit :: Units(o, bit))
    && o.feedback(false) == o.zero && o.half(o.zero) == o.zero
  }

  lemma Interchange<R(!new)>(o: Ops<R>, a: R, b: R, c: R, d: R)
    requires Linear(o)
    ensures o.add(o.add(a, b), o.add(c, d)) == o.add(o.add(a, c), o.add(b, d))
  {
    assert Group(o, a, b, o.add(c, d)) && Group(o, b, c, d) && Group(o, c, b, d) && Group(o, a, c, o.add(b, d));
  }

  lemma FeedbackSum<R(!new)>(o: Ops<R>, p: bool, q: bool)
    requires Linear(o)
    ensures o.feedback(p != q) == o.add(o.feedback(p), o.feedback(q))
  {
    assert Units(o, p) && Group(o, o.feedback(p), o.feedback(q), o.zero) &&
      Group(o, o.feedback(q), o.feedback(p), o.zero);
  }

  lemma ClockSum<R(!new)>(o: Ops<R>, r: R, v: R)
    requires Linear(o)
    ensures Clock(o, o.add(r, v)) == o.add(Clock(o, r), Clock(o, v))
  {
    assert Shifts(o, r, v);
    Interchange(o, o.half(r), o.half(v), o.feedback(o.odd(r)), o.feedback(o.odd(v)));
    FeedbackSum(o, o.odd(r), o.odd(v));
  }

  lemma ClockUnit<R(!new)>(o: Ops<R>, bit: bool)
    requires Linear(o)
    ensures Clock(o, o.unit(bit)) == o.feedback(bit)
  {
    assert Units(o, bit) && Group(o, o.feedback(bit), o.zero, o.zero);
  }

  // Of a word added to the register only the low bit takes part in the feedback.
  lemma ClockSplit<R(!new)>(o: Ops<R>, r: R, v: R)
    requires Linear(o)
    ensures Clock(o, o.add(r, v)) == o.add(Step(o, r, o.odd(v)), o.half(v))
  {
    var c, h, f := Clock(o, r), o.half(v), o.feedback(o.odd(v));
    ClockSum(o, r, v);
    ClockSum(o, r, o.unit(o.odd(v)));
    ClockUnit(o, o.odd(v));
    assert Group(o, h, f, c) && Group(o, c, f, h);
  }

  // Two registers stepped with bits p and q differ by the clocked difference.
  lemma StepDifference<R(!new)>(o: Ops<R>, x: R, y: R, p: bool, q: bool)
    requires Linear(o)
    ensures o.add(Step(o, x, p), Step(o, y, q)) == Clock(o, o.add(o.add(x, y), o.add(o.unit(p), o.unit(q))))
  {
    Interchange(o, x, y, o.unit(p), o.unit(q));
    ClockSum(o, o.add(x, o.unit(p)), o.add(y, o.unit(q)));
  }

  // What is added twice is nothing, two different units make a unit, and no difference
  // between two registers is clocked away at once.
  ghost predicate Twice<R>(o: Ops<R>, a: R) {
    o.add(a, a) == o.zero
  }

  ghost predicate Reversible<R(!new)>(o: Ops<R>) {
    && (forall a :: Twice(o, a))
    && o.add(o.unit(true), o.unit(false)) == o.unit(true) && o.add(o.unit(false), o.unit(true)) == o.unit(true)
    && forall d :: Clock(o, d) == o.zero ==> d == o.zero
  }

  lemma SumIsZero<R(!new)>(o: Ops<R>, x: R, y: R)
    requires Linear(o) && Reversible(o) && o.add(x, y) == o.zero
    ensures x == y
  {
    assert Twice(o, y) && Group(o, x, y, y) && Group(o, y, o.zero, o.zero) && Group(o, o.zero, y, y);
    assert Group(o, x, o.zero, o.zero);
  }

  // The same bit entering keeps different registers different, ...
  lemma StepInjective<R(!new)>(o: Ops<R>, x: R, y: R, bit: bool)
    requires Linear(o) && Reversible(o) && Step(o, x, bit) == Step(o, y, bit)
    ensures x == y
  {
    var u, d := o.unit(bit), o.add(x, y);
    StepDifference(o, x, y, bit, bit);
    assert Twice(o, Step(o, x, bit)) && Twice(o, u) && Group(o, d, o.zero, o.zero);
    SumIsZero(o, x, y);
  }

  // ... and different bits make one register differ by the feedback.
  lemma StepFlipped<R(!new)>(o: Ops<R>, r: R, bit: bool)
    requires Linear(o) && Reversible(o)
    ensures o.add(Step(o, r, bit), Step(o, r, !bit)) == o.feedback(true)
  {
    StepDifference(o, r, r, bit, !bit);
    assert Twice(o, r) && Group(o, o.zero, o.unit(true), o.zero) && Group(o, o.unit(true), o.zero, o.zero);
    ClockUnit(o, true);
  }

  // A check word: the register is complemented before and after the message.
  function Check<R>(o: Ops<R>, invert: R -> R, c: R, bits: seq<bool>): R {
    invert(Feed(o, invert(c), bits))
  }

  lemma CheckAppend<R(!new)>(o: Ops<R>, invert: R -> R, c: R, a: seq<bool>, b: seq<bool>)
    requires forall r :: invert(invert(r)) == r
    ensures Check(o, invert, Check(o, invert, c, a), b) == Check(o, invert, c, a + b)
  {
    FeedAppend(o, invert(c), a, b);
  }

  lemma {:induction false} FeedAppend<R>(o: Ops<R>, r: R, a: seq<bool>, b: seq<bool>)
    ensures Feed(o, r, a + b) == Feed(o, Feed(o, r, a), b)
    decreases a
  {
    if a == [] {
      assert a + b == b;
    } else {
      assert (a + b)[1..] == a[1..] + b;
      FeedAppend(o, Step(o, r, a[0]), a[1..], b);
    }
  }

  // Feeding the low bits of v one by one is the same as adding v at once and then
  // letting the register run.
  lemma {:induction false} FeedLowBits<R(!new)>(o: Ops<R>, r: R, v: R, n: nat)
    requires Linear(o)
    ensures Run(o, o.add(r, v), n) == o.add(Feed(o, r, LowBits(o, v, n)), HalfN(o, v, n))
    decreases n
  {
    if n > 0 {
      var bits := LowBits(o, v, n);
      assert bits[0] == o.odd(v) && bits[1..] == LowBits(o, o.half(v), n - 1);
      ClockSplit(o, r, v);
      FeedLowBits(o, Step(o, r, o.odd(v)), o.half(v), n - 1);
    }
  }

  lemma {:induction false} HalfNSum<R(!new)>(o: Ops<R>, a: R, b: R, n: nat)
    requires Linear(o)
    ensures HalfN(o, o.add(a, b), n) == o.add(HalfN(o, a, n), HalfN(o, b, n))
    ensures HalfN(o, o.zero, n) == o.zero
    decreases n
  {
    if n > 0 {
      assert Shifts(o, a, b);
      HalfNSum(o, o.half(a), o.half(b), n - 1);
    }
  }

  // A byte at a time: with r + v split into a low part and the rest, n clocks that
  // take in the n bits of v give the run of the low part plus the shifted register.
  lemma FeedByTable<R(!new)>(o: Ops<R>, r: R, v: R, lo: R, hi: R, n: nat)
    requires Linear(o)
    requires o.add(r, v) == o.add(lo, hi)
    requires HalfN(o, v, n) == o.zero && HalfN(o, lo, n) == o.zero
    requires LowBits(o, hi, n) == LowBits(o, o.zero, n)
    ensures Feed(o, r, LowBits(o, v, n)) == o.add(Run(o, lo, n), HalfN(o, r, n))
  {
    FeedLowBits(o, r, v, n);
    FeedLowBits(o, lo, hi, n);
    FeedLowBits(o, lo, o.zero, n);
    HalfNSum(o, r, v, n);
    HalfNSum(o, lo, hi, n);
    assert Group(o, HalfN(o, hi, n), o.zero, o.zero) && Group(o, HalfN(o, r, n), o.zero, o.zero);
    assert Group(o, lo, o.zero, o.zero);
    assert Group(o, Feed(o, r, LowBits(o, v, n)), o.zero, o.zero) &&
      Group(o, Feed(o, lo, LowBits(o, o.zero, n)), o.zero, o.zero);
  }

  // reach(d, k) says of a difference between two registers that it takes more than k
  // clocks to leave them. One differing message bit makes a difference that stays for
  // m - 1 clocks, and the same bits entering never make different registers equal.
  ghost predicate Separates<R(!new)>(o: Ops<R>, reach: (R, nat) -> bool, m: nat) {
    && (forall d, k: nat :: k > 0 && reach(d, k) ==> reach(Clock(o, d), k - 1))
    && (forall d, k: nat, p, q :: k > 0 && reach(d, k) ==> reach(o.add(d, o.add(o.unit(p), o.unit(q))), k))
    && (forall x, y, k: nat :: reach(o.add(x, y), k) ==> x != y)
    && (forall x, y, p :: x != y ==> Step(o, x, p) != Step(o, y, p))
    && m > 0 && (forall r, p :: reach(o.add(Step(o, r, p), Step(o, r, !p)), m - 1))
  }

  lemma {:induction false} StaysDifferent<R(!new)>(o: Ops<R>, reach: (R, nat) -> bool, m: nat, x: R, y: R, u: seq<bool>)
    requires Separates(o, reach, m) && x != y
    ensures Feed(o, x, u) != Feed(o, y, u)
    decreases u
  {
    if u != [] {
      StaysDifferent(o, reach, m, Step(o, x, u[0]), Step(o, y, u[0]), u[1..]);
    }
  }

  lemma {:induction false} StaysApart<R(!new)>(
      o: Ops<R>, reach: (R, nat) -> bool, m: nat, x: R, y: R, k: nat, u: seq<bool>, w: seq<bool>)
    requires Linear(o) && Separates(o, reach, m) && reach(o.add(x, y), k)
    requires |u| == |w| && forall i :: k <= i < |u| ==> u[i] == w[i]
    ensures Feed(o, x, u) != Feed(o, y, w)
    decreases u
  {
    if k == 0 {
      assert u == w;
      StaysDifferent(o, reach, m, x, y, u);
    } else if u != [] {
      StepDifference(o, x, y, u[0], w[0]);
      var d := o.add(o.add(x, y), o.add(o.unit(u[0]), o.unit(w[0])));
      assert reach(d, k) && reach(Clock(o, d), k - 1);
      StaysApart(o, reach, m, Step(o, x, u[0]), Step(o, y, w[0]), k - 1, u[1..], w[1..]);
    }
  }

  // Messages that differ, but only within a window of m bits, are told apart.
  lemma {:induction false} BurstTellsApart<R(!new)>(
      o: Ops<R>, reach: (R, nat) -> bool, m: nat, r: R, u: seq<bool>, w: seq<bool>, from: nat)
    requires Linear(o) && Separates(o, reach, m)
    requires |u| == |w| && u != w
    requires forall i :: 0 <= i < |u| && !(from <= i < from + m) ==> u[i] == w[i]
    ensures Feed(o, r, u) != Feed(o, r, w)
    decreases u
  {
    if u[0] == w[0] {
      assert u == [u[0]] + u[1..] && w == [w[0]] + w[1..];
      BurstTellsApart(o, reach, m, Step(o, r, u[0]), u[1..], w[1..], if from == 0 then 0 else from - 1);
    } else {
      assert w[0] == !u[0];
      StaysApart(o, reach, m, Step(o, r, u[0]), Step(o, r, w[0]), m - 1, u[1..], w[1..]);
    }
  }

  lemma BurstChangesCheck<R(!new)>(
      o: Ops<R>, invert: R -> R, reach: (R, nat) -> bool, m: nat, c: R, u: seq<bool>, w: seq<bool>, from: nat)
    requires Linear(o) && Separates(o, reach, m) && forall r :: invert(invert(r)) == r
    requires |u| == |w| && u != w
    requires forall i :: 0 <= i < |u| && !(from <= i < from + m) ==> u[i] == w[i]
    ensures Check(o, invert, c, u) != Check(o, invert, c, w)
  {
    BurstTellsApart(o, reach, m, invert(c), u, w, from);
    assert invert(Check(o, invert, c, u)) == Feed(o, invert(c), u);
  }

  /* Buffers as bits. */

  function Bits<B>(byteBits: B -> seq<bool>, buf: seq<B>): seq<bool> {
    if buf == [] then [] else byteBits(buf[0]) + Bits(byteBits, buf[1..])
  }

  lemma {:induction false} BitsAppend<B>(byteBits: B -> seq<bool>, a: seq<B>, b: seq<B>)
    ensures Bits(byteBits, a + b) == Bits(byteBits, a) + Bits(byteBits, b)
  {
    if a == [] {
      assert a + b == b;
    } else {
      assert (a + b)[1..] == a[1..] + b;
      BitsAppend(byteBits, a[1..], b);
    }
  }

  lemma {:induction false} BitAt<B(!new)>(byteBits: B -> seq<bool>, buf: seq<B>, i: nat)
    requires forall b :: |byteBits(b)| == 8
    requires i < 8 * |buf|
    ensures |Bits(byteBits, buf)| == 8 * |buf| && Bits(byteBits, buf)[i] == byteBits(buf[i / 8])[i % 8]
  {
    if |buf| > 1 {
      BitAt(byteBits, buf[1..], if i < 8 then 0 else i - 8);
    }
  }

  lemma {:induction false} BitsInjective<B(!new)>(byteBits: B -> seq<bool>, a: seq<B>, b: seq<B>)
    requires forall b :: |byteBits(b)| == 8
    requires forall b, c :: byteBits(b) == byteBits(c) ==> b == c
    requires |a| == |b| && a != b
    ensures Bits(byteBits, a) != Bits(byteBits, b)
  {
    var p, q := Bits(byteBits, a), Bits(byteBits, b);
    assert p[..8] == byteBits(a[0]) && q[..8] == byteBits(b[0]);
    if a[0] == b[0] {
      assert a == [a[0]] + a[1..] && b == [b[0]] + b[1..];
      BitsInjective(byteBits, a[1..], b[1..]);
      assert p[8..] == Bits(byteBits, a[1..]) && q[8..] == Bits(byteBits, b[1..]);
    }
  }

  /* Feeding known bytes. */

  lemma FedOne<R, B>(o: Ops<R>, byteBits: B -> seq<bool>, r: R, r1: R, b: B)
    requires Feed(o, r, byteBits(b)) == r1
    ensures Feed(o, r, Bits(byteBits, [b])) == r1
  {
    assert Bits(byteBits, [b]) == byteBits(b);
  }

  lemma FedBoth<R, B>(o: Ops<R>, byteBits: B -> seq<bool>, r: R, r1: R, r2: R, a: seq<B>, b: seq<B>)
    requires Feed(o, r, Bits(byteBits, a)) == r1 && Feed(o, r1, Bits(byteBits, b)) == r2
    ensures Feed(o, r, Bits(byteBits, a + b)) == r2
  {
    BitsAppend(byteBits, a, b);
    FeedAppend(o, r, Bits(byteBits, a), Bits(byteBits, b));
  }

  lemma FedTwo<R, B>(o: Ops<R>, byteBits: B -> seq<bool>, r: R, r1: R, r2: R, b0: B, b1: B)
    requires Feed(o, r, byteBits(b0)) == r1 && Feed(o, r1, byteBits(b1)) == r2
    ensures Feed(o, r, Bits(byteBits, [b0, b1])) == r2
  {
    FedOne(o, byteBits, r, r1, b0);
    FedOne(o, byteBits, r1, r2, b1);
    FedBoth(o, byteBits, r, r1, r2, [b0], [b1]);
    assert [b0] + [b1] == [b0, b1];
  }

  lemma FedFour<R, B>(o: Ops<R>, byteBits: B -> seq<bool>, r: R, r1: R, r2: R, r3: R, r4: R, b0: B, b1: B, b2: B, b3: B)
    requires Feed(o, r, byteBits(b0)) == r1 && Feed(o, r1, byteBits(b1)) == r2
    requires Feed(o, r2, byteBits(b2)) == r3 && Feed(o, r3, byteBits(b3)) == r4
    ensures Feed(o, r, Bits(byteBits, [b0, b1, b2, b3])) == r4
  {
    FedTwo(o, byteBits, r, r1, r2, b0, b1);
    FedTwo(o, byteBits, r2, r3, r4, b2, b3);
    FedBoth(o, byteBits, r, r2, r4, [b0, b1], [b2, b3]);
    assert [b0, b1] + [b2, b3] == [b0, b1, b2, b3];
  }
}
