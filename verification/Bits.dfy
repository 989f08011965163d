/** 32-bit words as numbers and as bits: what shifting does to the number, and what a single bit is. */
module Bits {
  import opened Remainders
  import opened Wrappers

  type uint4 = x: int | 0 <= x < TWO_32

  function Pow2(k: nat): (p: nat)
    ensures p > 0
  {
    if k == 0 then 1 else 2 * Pow2(k - 1)
  }

  lemma {:induction false} Pow2Adds(m: nat, n: nat)
    ensures Pow2(m) * Pow2(n) == Pow2(m + n)
  {
    if m > 0 {
      Pow2Adds(m - 1, n);
      assert Pow2(m) * Pow2(n) == 2 * (Pow2(m - 1) * Pow2(n));
    }
  }

  lemma WordSize()
    ensures Pow2(31) == 0x8000_0000 && Pow2(32) == TWO_32
  {
    assert Pow2(8) == 256;
    assert Pow2(16) == 65536;
    assert Pow2(24) == 16777216;
  }

  // ---- numbers and bit vectors

  function Value(v: bv32): uint4 {
    v as int
  }

  function ByteValue(v: bv8): (b: nat)
    ensures b < 256
  {
    v as int
  }

  function Word(p: bv8, q: bv8, r: bv8, s: bv8): bv32 {
    ((p as bv32) << 24) | ((q as bv32) << 16) | ((r as bv32) << 8) | (s as bv32)
  }

  lemma WordValue(p: bv8, q: bv8, r: bv8, s: bv8)
    ensures Value(Word(p, q, r, s)) == 16777216 * ByteValue(p) + 65536 * ByteValue(q) + 256 * ByteValue(r)
      + ByteValue(s)
  {
  }

  lemma ByteBack(x: int)
    requires 0 <= x < 256
    ensures ByteValue(x as bv8) == x
  {
  }

  lemma SameBits(x: uint4, v: bv32)
    requires Value(v) == x
    ensures x as bv32 == v
  {
  }

  /** A number is the value of its bits. */
  lemma ValueOfBits(x: uint4)
    ensures Value(x as bv32) == x
  {
    hide Value;
    hide ByteValue;
    hide Word;
    var a := x / 256;
    var b := a / 256;
    var c := b / 256;
    ByteBack(x % 256);
    ByteBack(a % 256);
    ByteBack(b % 256);
    ByteBack(c);
    WordValue(c as bv8, (b % 256) as bv8, (a % 256) as bv8, (x % 256) as bv8);
    SameBits(x, Word(c as bv8, (b % 256) as bv8, (a % 256) as bv8, (x % 256) as bv8));
  }

  function ByteHalf(v: bv8): bv8 {
    v >> 1
  }

  function ByteLow(v: bv8): bv8 {
    v & 1
  }

  /** A byte shifted right, with the lowest bit of the byte before it coming in at the top. */
  function ByteNext(before: bv8, v: bv8): bv8 {
    (v >> 1) | ((before & 1) << 7)
  }

  lemma ByteHalved(v: bv8)
    ensures ByteValue(v) == 2 * ByteValue(ByteHalf(v)) + ByteValue(ByteLow(v)) && ByteValue(ByteLow(v)) <= 1
  {
  }

  lemma ByteNextIs(before: bv8, v: bv8)
    ensures ByteValue(ByteNext(before, v)) == ByteValue(ByteHalf(v)) + 128 * ByteValue(ByteLow(before))
  {
  }

  function Half(v: bv32): bv32 {
    v >> 1
  }

  function Low(v: bv32): bv32 {
    v & 1
  }

  lemma BytesHalved(p: bv8, q: bv8, r: bv8, s: bv8)
    ensures Half(Word(p, q, r, s)) == Word(ByteHalf(p), ByteNext(p, q), ByteNext(q, r), ByteNext(r, s))
    ensures Low(Word(p, q, r, s)) == Word(0, 0, 0, ByteLow(s)) && ByteValue(0) == 0
  {
  }

  lemma WordHalved(p: bv8, q: bv8, r: bv8, s: bv8)
    ensures var v := Word(p, q, r, s); Value(v) == 2 * Value(Half(v)) + Value(Low(v)) && Value(Low(v)) <= 1
  {
    hide *;
    BytesHalved(p, q, r, s);
    WordValue(p, q, r, s);
    WordValue(ByteHalf(p), ByteNext(p, q), ByteNext(q, r), ByteNext(r, s));
    WordValue(0, 0, 0, ByteLow(s));
    ByteNextIs(p, q);
    ByteNextIs(q, r);
    ByteNextIs(r, s);
    ByteHalved(p);
    ByteHalved(q);
    ByteHalved(r);
    ByteHalved(s);
  }

  lemma IsWord(v: bv32)
    ensures v == Word((v >> 24) as bv8, ((v >> 16) & 0xff) as bv8, ((v >> 8) & 0xff) as bv8, (v & 0xff) as bv8)
  {
  }

  /** Shifting right by one halves the number; the lowest bit is its parity. */
  lemma Halved(v: bv32)
    ensures Value(v) == 2 * Value(v >> 1) + Value(v & 1) && Value(v & 1) <= 1
  {
    IsWord(v);
    WordHalved((v >> 24) as bv8, ((v >> 16) & 0xff) as bv8, ((v >> 8) & 0xff) as bv8, (v & 0xff) as bv8);
  }

  // ---- joining

  lemma HalvedIs(v: bv32)
    ensures Value(v) == 2 * Value(Half(v)) + Value(Low(v)) && Value(Low(v)) <= 1
  {
    Halved(v);
  }

  function Joint(v: bv32, w: bv32): bv32 {
    v | w
  }

  function Common(v: bv32, w: bv32): bv32 {
    v & w
  }

  lemma JointHalved(v: bv32, w: bv32)
    ensures Half(Joint(v, w)) == Joint(Half(v), Half(w))
  {
  }

  lemma JointLow(v: bv32, w: bv32)
    ensures Low(Joint(v, w)) == Joint(Low(v), Low(w))
  {
  }

  lemma CommonHalved(v: bv32, w: bv32)
    ensures Common(Half(v), Half(w)) == Half(Common(v, w))
  {
  }

  lemma CommonLow(v: bv32, w: bv32)
    ensures Common(Low(v), Low(w)) == Low(Common(v, w))
  {
  }

  lemma NoneHalved()
    ensures Half(0) == 0 && Low(0) == 0
  {
  }

  lemma LowJoint(v: bv32, w: bv32)
    requires Common(v, w) == 0 && v <= 1 && w <= 1
    ensures Value(Joint(v, w)) == Value(v) + Value(w)
  {
    assert (v == 0 || v == 1) && (w == 0 || w == 1);
  }

  lemma LowSmall(v: bv32)
    ensures Low(v) <= 1
  {
  }

  lemma NoneJoint(v: bv32, w: bv32)
    requires Value(v) == 0 && Value(w) == 0
    ensures Value(Joint(v, w)) == 0
  {
  }

  /** Words without a common bit are added without a carry. */
  lemma {:induction false} Apart(v: bv32, w: bv32, n: nat)
    requires Value(v) < Pow2(n) && Value(w) < Pow2(n) && Common(v, w) == 0
    ensures Value(Joint(v, w)) == Value(v) + Value(w)
    decreases n
  {
    hide Value;
    hide Joint;
    hide Half;
    hide Low;
    hide Common;
    if n > 0 {
      JointHalved(v, w);
      JointLow(v, w);
      CommonHalved(v, w);
      CommonLow(v, w);
      NoneHalved();
      LowSmall(v);
      LowSmall(w);
      LowJoint(Low(v), Low(w));
      HalvedIs(v);
      HalvedIs(w);
      HalvedIs(Joint(v, w));
      Apart(Half(v), Half(w), n - 1);
    } else {
      NoneJoint(v, w);
    }
  }

  // ---- shifting

  function ShiftRight(v: bv32, n: bv6): bv32
    requires n <= 32
  {
    v >> n
  }

  function ShiftLeft(v: bv32, n: bv6): bv32
    requires n <= 32
  {
    v << n
  }

  function Right(v: bv32, n: nat): bv32
    requires n <= 32
  {
    ShiftRight(v, n as bv6)
  }

  function Left(v: bv32, n: nat): bv32
    requires n <= 32
  {
    ShiftLeft(v, n as bv6)
  }

  function Twice(v: bv32): bv32 {
    v << 1
  }

  lemma OneMore(v: bv32, n: bv6)
    requires n < 32
    ensures ShiftRight(v, n + 1) == Half(ShiftRight(v, n)) && ShiftLeft(v, n + 1) == Twice(ShiftLeft(v, n))
  {
  }

  lemma NextShift(n: nat)
    requires n < 32
    ensures (n + 1) as bv6 == n as bv6 + 1 && n as bv6 < 32
  {
  }

  lemma OneMoreShift(v: bv32, n: nat)
    requires n < 32
    ensures Right(v, n + 1) == Half(Right(v, n)) && Left(v, n + 1) == Twice(Left(v, n))
  {
    hide ShiftRight;
    hide ShiftLeft;
    hide Half;
    hide Twice;
    NextShift(n);
    OneMore(v, n as bv6);
  }

  lemma NoShift(v: bv32)
    ensures Right(v, 0) == v && Left(v, 0) == v
  {
  }

  lemma HalvedTwice(x: nat, p: nat)
    requires p > 0
    ensures x / p / 2 == x / (2 * p)
  {
    var q := x / p / 2;
    assert x == p * (x / p) + x % p;
    assert x / p == 2 * q + x / p % 2;
    assert p * (x / p) == (2 * p) * q + p * (x / p % 2);
    QuotientIs(x, 2 * p, q, p * (x / p % 2) + x % p);
  }

  lemma QuotientIs(a: int, n: nat, q: int, r: nat)
    requires n > 0 && a == n * q + r && r < n
    ensures a / n == q
  {
    RemainderIs(a, n, q, r);
    AtLeastOne(n, a / n - q);
    assert n * (a / n - q) == n * (a / n) - n * q;
  }

  lemma {:induction false} ShiftedRight(v: bv32, n: nat)
    requires n <= 32
    ensures Value(Right(v, n)) == Value(v) / Pow2(n)
  {
    hide Value;
    hide Right;
    hide Half;
    hide Low;
    if n == 0 {
      NoShift(v);
    } else {
      ShiftedRight(v, n - 1);
      OneMoreShift(v, n - 1);
      HalvedIs(Right(v, n - 1));
      HalvedTwice(Value(v), Pow2(n - 1));
    }
  }

  function Rest(v: bv32): bv32 {
    v & 0x7fff_ffff
  }

  function Top(v: bv32): bv32 {
    v & 0x8000_0000
  }

  lemma TopApart(v: bv32)
    ensures v == Joint(Rest(v), Top(v)) && Common(Rest(v), Top(v)) == 0
    ensures Half(Twice(v)) == Rest(v) && Low(Twice(v)) == 0
  {
  }

  lemma TopValue(v: bv32)
    ensures Value(Top(v)) == 0 || Value(Top(v)) == 0x8000_0000
  {
    assert Top(v) == 0 || Top(v) == 0x8000_0000;
  }

  lemma NoneValue()
    ensures Value(0) == 0
  {
  }

  lemma Doubled(v: bv32)
    ensures Value(Twice(v)) == 2 * Value(v) % TWO_32
  {
    hide Value;
    hide Twice;
    hide Rest;
    hide Top;
    hide Joint;
    hide Half;
    hide Low;
    hide Common;
    TopApart(v);
    TopValue(v);
    NoneValue();
    HalvedIs(Twice(v));
    WordSize();
    Apart(Rest(v), Top(v), 32);
  }

  lemma TwiceModulo(a: nat)
    ensures 2 * (a % TWO_32) % TWO_32 == 2 * a % TWO_32
  {
  }

  lemma NextPower(x: nat, n: nat)
    ensures 2 * (x * Pow2(n) % TWO_32) % TWO_32 == x * Pow2(n + 1) % TWO_32
  {
    TwiceModulo(x * Pow2(n));
    assert 2 * (x * Pow2(n)) == x * Pow2(n + 1);
  }

  lemma {:induction false} ShiftedLeft(v: bv32, n: nat)
    requires n <= 32
    ensures Value(Left(v, n)) == Value(v) * Pow2(n) % TWO_32
  {
    hide Value;
    hide Left;
    hide Twice;
    if n == 0 {
      NoShift(v);
      assert Pow2(0) == 1;
    } else {
      hide Pow2;
      ShiftedLeft(v, n - 1);
      OneMoreShift(v, n - 1);
      Doubled(Left(v, n - 1));
      NextPower(Value(v), n - 1);
    }
  }

  lemma ShiftsApartBits(v: bv32, n: bv6)
    requires n <= 32
    ensures Common(ShiftLeft(v, n), ShiftRight(v, 32 - n)) == 0
  {
  }

  lemma {:induction false} RestShift(n: nat)
    requires n <= 32
    ensures (32 - n) as bv6 == 32 - n as bv6 && n as bv6 <= 32
  {
    if n > 0 {
      RestShift(n - 1);
      NextShift(n - 1);
      NextShift(32 - n);
    }
  }

  lemma ShiftsApart(v: bv32, n: nat)
    requires n <= 32
    ensures Common(Left(v, n), Right(v, 32 - n)) == 0
  {
    hide ShiftRight;
    hide ShiftLeft;
    hide Common;
    RestShift(n);
    ShiftsApartBits(v, n as bv6);
  }

  /** Rotating left: the bits that leave at the top come in at the bottom. */
  lemma Rotated(v: bv32, n: nat)
    requires n <= 32
    ensures Value(Joint(Left(v, n), Right(v, 32 - n))) == Value(v) * Pow2(n) % TWO_32 + Value(v) / Pow2(32 - n)
  {
    hide Value;
    hide Left;
    hide Right;
    hide Joint;
    hide Common;
    WordSize();
    ShiftedLeft(v, n);
    ShiftedRight(v, 32 - n);
    ShiftsApart(v, n);
    Apart(Left(v, n), Right(v, 32 - n), 32);
  }

  // ---- single bits

  /** Bit `i` of a number, the lowest one being bit 0. */
  predicate Bit(x: nat, i: nat) {
    x / Pow2(i) % 2 == 1
  }

  /** Bit `i` of a word. */
  predicate At(v: bv32, i: bv6)
    requires i < 32
  {
    (v >> i) & 1 == 1
  }

  lemma LowIs(v: bv32, i: bv6)
    requires i < 32
    ensures Value(Low(ShiftRight(v, i))) == 1 <==> At(v, i)
  {
    assert Low(ShiftRight(v, i)) == 0 || Low(ShiftRight(v, i)) == 1;
  }

  lemma BitIs(v: bv32, i: nat)
    requires i < 32
    ensures (i as bv6) < 32 && (Bit(Value(v), i) <==> At(v, i as bv6))
  {
    hide Value;
    hide Half;
    hide Low;
    hide ShiftRight;
    hide At;
    NextShift(i);
    LowIs(v, i as bv6);
    ShiftedRight(v, i);
    HalvedIs(Right(v, i));
  }

  lemma BitOf(x: uint4, i: nat)
    requires i < 32
    ensures (i as bv6) < 32 && (Bit(x, i) <==> At(x as bv32, i as bv6))
  {
    hide Value;
    hide At;
    hide Bit;
    ValueOfBits(x);
    BitIs(x as bv32, i);
  }

  function Differing(v: bv32, w: bv32): bv32 {
    v ^ w
  }

  function Opposite(v: bv32): bv32 {
    !v
  }

  lemma JointAt(v: bv32, w: bv32, i: bv6)
    requires i < 32
    ensures At(Joint(v, w), i) <==> At(v, i) || At(w, i)
  {
  }

  lemma CommonAt(v: bv32, w: bv32, i: bv6)
    requires i < 32
    ensures At(Common(v, w), i) <==> At(v, i) && At(w, i)
  {
  }

  lemma DifferingAt(v: bv32, w: bv32, i: bv6)
    requires i < 32
    ensures At(Differing(v, w), i) <==> At(v, i) != At(w, i)
  {
    assert At(v ^ w, i) <==> At(v, i) != At(w, i);
  }

  lemma OppositeAt(v: bv32, i: bv6)
    requires i < 32
    ensures At(Opposite(v), i) <==> !At(v, i)
  {
  }
}
