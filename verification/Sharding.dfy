/** From a shard key to a shard id: the MD5 strategy masks three bytes of the digest, the modulo strategy takes the
    remainder C++ computes. */
module Sharding {
  import opened Bits
  import opened Wrappers
  import opened Md5Block
  import opened Remainders
  import opened Sequences
  import Md5

  /** Bitwise and of two natural numbers. */
  function And(a: nat, b: nat): nat {
    if a == 0 || b == 0 then 0 else LowBit(a, b) + 2 * And(a / 2, b / 2)
  }

  function LowBit(a: nat, b: nat): nat {
    if a % 2 == 1 && b % 2 == 1 then 1 else 0
  }

  /** Bitwise and with a two's complement mask: for negative masks the complement's bits are removed. */
  function Mask(v: nat, mask: int): int {
    if mask >= 0 then And(v, mask) else v - And(v, -mask - 1)
  }

  ghost predicate PowerOfTwo(n: nat) {
    exists k: nat :: n == Pow2(k)
  }

  lemma {:induction false} AndBound(v: nat, m: nat)
    ensures And(v, m) <= m && And(v, m) <= v
  {
    if v != 0 && m != 0 {
      AndBound(v / 2, m / 2);
    }
  }

  lemma BitStep(x: nat, i: nat)
    requires i > 0
    ensures Bit(x, i) <==> Bit(x / 2, i - 1)
  {
    HalvedTwice(x, 1);
    QuotientTwice(x, Pow2(i - 1));
  }

  lemma QuotientTwice(x: nat, p: nat)
    requires p > 0
    ensures x / (2 * p) == x / 2 / p
  {
    var (h, q) := (x / 2, x / 2 / p);
    assert h == p * q + h % p;
    assert x == 2 * p * q + (x % 2 + 2 * (h % p)) by {
      assert 2 * (p * q) == 2 * p * q;
    }
    QuotientIs(x, 2 * p, q, x % 2 + 2 * (h % p));
  }

  /** And, bit by bit. */
  lemma {:induction false} AndBit(a: nat, b: nat, i: nat)
    ensures Bit(And(a, b), i) <==> Bit(a, i) && Bit(b, i)
    decreases i
  {
    AndHalf(a, b);
    if i > 0 {
      BitStep(a, i);
      BitStep(b, i);
      BitStep(And(a, b), i);
      AndBit(a / 2, b / 2, i - 1);
    }
  }

  lemma AndHalf(a: nat, b: nat)
    ensures And(a, b) / 2 == And(a / 2, b / 2) && And(a, b) % 2 == LowBit(a, b)
  {
  }

  /** A mask of two's complement: all bits of a negative one are those that its complement does not have. */
  lemma MaskBit(v: nat, mask: int, i: nat)
    ensures mask >= 0 ==> Mask(v, mask) >= 0 && (Bit(Mask(v, mask), i) <==> Bit(v, i) && Bit(mask, i))
    ensures mask < 0 ==> Mask(v, mask) >= 0 && (Bit(Mask(v, mask), i) <==> Bit(v, i) && !Bit(-mask - 1, i))
  {
    if mask >= 0 {
      AndBit(v, mask, i);
    } else {
      Without(v, -mask - 1, i);
    }
  }

  lemma {:induction false} Without(v: nat, m: nat, i: nat)
    ensures And(v, m) <= v
    ensures Bit(v - And(v, m), i) <==> Bit(v, i) && !Bit(m, i)
    decreases i
  {
    AndBound(v, m);
    WithoutHalf(v, m);
    if i > 0 {
      hide And;
      hide Bit;
      BitStep(v, i);
      BitStep(m, i);
      BitStep(v - And(v, m), i);
      Without(v / 2, m / 2, i - 1);
    } else {
      FirstBit(v);
      FirstBit(m);
      FirstBit(v - And(v, m));
    }
  }

  lemma FirstBit(x: nat)
    ensures Bit(x, 0) <==> x % 2 == 1
  {
    assert Pow2(0) == 1;
  }

  lemma WithoutHalf(v: nat, m: nat)
    ensures And(v, m) <= v && And(v / 2, m / 2) <= v / 2
    ensures var w := v - And(v, m);
      w / 2 == v / 2 - And(v / 2, m / 2) && (w % 2 == 1 <==> v % 2 == 1 && m % 2 != 1)
  {
    AndBound(v, m);
    AndBound(v / 2, m / 2);
    AndHalf(v, m);
  }

  /** Masking twice is masking once. */
  lemma {:induction false} AndIdempotent(v: nat, m: nat)
    ensures And(And(v, m), m) == And(v, m)
  {
    if v != 0 && m != 0 {
      var bit := LowBit(v, m);
      var r := And(v / 2, m / 2);
      assert (bit + 2 * r) % 2 == bit && (bit + 2 * r) / 2 == r;
      AndIdempotent(v / 2, m / 2);
    }
  }

  lemma {:induction false} LowBits(v: nat, k: nat)
    ensures And(v, Pow2(k) - 1) == v % Pow2(k)
  {
    if k > 0 {
      var p := Pow2(k - 1);
      assert (2 * p - 1) / 2 == p - 1;
      LowBits(v / 2, k - 1);
      HalfRemainder(v, p);
      if p == 1 {
        assert And(v / 2, 0) == 0;
      }
    }
  }

  lemma HalfRemainder(v: nat, p: nat)
    requires p > 0
    ensures v % (2 * p) == v % 2 + 2 * (v / 2 % p)
  {
    var h, q := v / 2, v / 2 / p;
    assert h == p * q + h % p;
    assert v == 2 * p * q + (v % 2 + 2 * (h % p)) by {
      assert 2 * (p * q) == 2 * p * q;
    }
    RemainderIs(v, 2 * p, q, v % 2 + 2 * (h % p));
  }

  predicate Keeps(n: nat, k: nat) {
    n > 0 && And(k, n - 1) == k
  }

  /** A count whose mask keeps every smaller number is a power of two. */
  lemma {:induction false} KeepsAllIsPower(n: nat)
    requires n > 0 && forall k: nat :: k < n ==> Keeps(n, k)
    ensures PowerOfTwo(n)
  {
    if n == 1 {
      assert Pow2(0) == 1;
    } else {
      assert Keeps(n, 1);
      assert LowBit(1, n - 1) == 1;
      var m := n / 2;
      forall k: nat | k < m ensures Keeps(m, k) {
        assert Keeps(n, 2 * k + 1);
        assert (2 * k + 1) / 2 == k && (n - 1) / 2 == m - 1;
      }
      KeepsAllIsPower(m);
      var k: nat :| m == Pow2(k);
      assert n == Pow2(k + 1);
    }
  }

  const VIRTUAL_SHARDS: nat := 0x100_0000

  /** Three bytes of the digest, the last one lowest. */
  function VirtualShardId(digest: seq<byte>): (v: nat)
    requires |digest| == 16
    ensures v < VIRTUAL_SHARDS
  {
    var low: int, middle: int, high: int := digest[15], digest[14], digest[13];
    low + 256 * middle + 65536 * high
  }

  /** It is the word that the last, the last but one and the last but two byte make, low-order byte first. */
  lemma VirtualShardBytes(digest: seq<byte>)
    requires |digest| == 16
    ensures DecodeWord([digest[15], digest[14], digest[13], 0]) == VirtualShardId(digest)
  {
  }

  function ConcreteShardId(v: nat, shardCount: int): int {
    Mask(v, shardCount - 1) + 1
  }

  /** Every id is in 1..shardCount, for every positive count, power of two or not. */
  lemma IdInRange(v: nat, shardCount: int)
    ensures 1 <= ConcreteShardId(v, shardCount) <= shardCount <==> shardCount >= 1
  {
    if shardCount >= 1 {
      AndBound(v, shardCount - 1);
    }
  }

  lemma PowerMask(v: nat, shardCount: nat)
    requires PowerOfTwo(shardCount)
    ensures shardCount > 0 && ConcreteShardId(v, shardCount) == v % shardCount + 1
  {
    hide And;
    var k: nat :| shardCount == Pow2(k);
    LowBits(v, k);
  }

  /** The mask is a remainder exactly for powers of two. */
  lemma MaskIsRemainder(shardCount: nat)
    requires 0 < shardCount <= VIRTUAL_SHARDS
    ensures (forall v: nat :: v < VIRTUAL_SHARDS ==> ConcreteShardId(v, shardCount) == v % shardCount + 1)
      <==> PowerOfTwo(shardCount)
  {
    hide And;
    if PowerOfTwo(shardCount) {
      forall v: nat ensures ConcreteShardId(v, shardCount) == v % shardCount + 1 {
        PowerMask(v, shardCount);
      }
    }
    if forall v: nat :: v < VIRTUAL_SHARDS ==> ConcreteShardId(v, shardCount) == v % shardCount + 1 {
      forall k: nat | k < shardCount ensures Keeps(shardCount, k) {
        assert ConcreteShardId(k, shardCount) == k % shardCount + 1;
      }
      KeepsAllIsPower(shardCount);
    }
  }

  ghost predicate Reachable(id: int, shardCount: nat) {
    exists v: nat :: v < VIRTUAL_SHARDS && ConcreteShardId(v, shardCount) == id
  }

  lemma ReachableIsKept(k: nat, shardCount: nat)
    requires 0 < shardCount && Reachable(k + 1, shardCount)
    ensures Keeps(shardCount, k)
  {
    var v: nat :| v < VIRTUAL_SHARDS && ConcreteShardId(v, shardCount) == k + 1;
    AndIdempotent(v, shardCount - 1);
  }

  lemma IdsReachable(shardCount: nat, id: int)
    requires 1 <= id <= shardCount <= VIRTUAL_SHARDS && PowerOfTwo(shardCount)
    ensures Reachable(id, shardCount)
  {
    hide And;
    PowerMask(id - 1, shardCount);
    RemainderIs(id - 1, shardCount, 0, id - 1);
    assert ConcreteShardId(id - 1, shardCount) == id;
  }

  ghost predicate AllReachable(shardCount: nat) {
    forall id :: 1 <= id <= shardCount ==> Reachable(id, shardCount)
  }

  lemma AllReachableIsPower(shardCount: nat)
    requires shardCount > 0 && AllReachable(shardCount)
    ensures PowerOfTwo(shardCount)
  {
    hide Reachable;
    forall k: nat | k < shardCount ensures Keeps(shardCount, k) {
      assert Reachable(k + 1, shardCount);
      ReachableIsKept(k, shardCount);
    }
    KeepsAllIsPower(shardCount);
  }

  /** Every shard can receive rows exactly when the count is a power of two; being even, which is all that
      setShardCount asks for, is not enough. */
  lemma AllShardsReachable(shardCount: nat)
    requires 0 < shardCount <= VIRTUAL_SHARDS
    ensures AllReachable(shardCount) <==> PowerOfTwo(shardCount)
  {
    hide Reachable;
    if PowerOfTwo(shardCount) {
      forall id | 1 <= id <= shardCount ensures Reachable(id, shardCount) {
        IdsReachable(shardCount, id);
      }
    }
    if AllReachable(shardCount) {
      AllReachableIsPower(shardCount);
    }
  }

  /** With six shards, an even number, the third never receives a row. */
  lemma ThirdOfSixUnused()
    ensures !Reachable(3, 6)
  {
    assert And(2, 5) == 2 * And(1, 2) && And(1, 2) == 2 * And(0, 1) && And(0, 1) == 0;
    forall v: nat ensures ConcreteShardId(v, 6) != 3 {
      AndIdempotent(v, 5);
    }
  }

  lemma OnePart<T>(part: seq<T>)
    ensures Flatten([part][..0]) == [] && Flatten([part]) == part
  {
    assert [part][..0] == [];
  }

  class MD5ShardingStrategy {
    var shardCount: int

    constructor ()
      ensures shardCount == 8
    {
      shardCount := 8;
    }

    method SetShardCount(shardCount: int) returns (r: Result<(), string>)
      modifies this
      ensures r.Ok? <==> shardCount % 2 == 0
      ensures this.shardCount == if r.Ok? then shardCount else old(this.shardCount)
    {
      if shardCount % 2 != 0 {
        return Err("shard count must be an event number");
      }
      this.shardCount := shardCount;
      r := Ok(());
    }

    /** The id depends on the digest of the key alone, and is in 1..shardCount for every positive count. */
    method GetShardId(shardKey: seq<byte>) returns (id: int)
      requires |shardKey| < TWO_32 && Md5.NoWrap(0, |shardKey|)
      ensures id == ConcreteShardId(VirtualShardId(Md5.Digest(Transform(Standard()), shardKey)), shardCount)
      ensures 1 <= id <= shardCount <==> shardCount >= 1
    {
      hide Transform;
      hide Flatten;
      OnePart(shardKey);
      var digest := Md5.DigestOf([shardKey]);
      var virtualShardId := VirtualShardId(digest);
      id := Mask(virtualShardId, shardCount - 1) + 1;
      IdInRange(virtualShardId, shardCount);
    }
  }

  /** The remainder of C++, which takes the sign of the dividend. */
  function TruncatedRemainder(a: int, n: int): int
    requires n != 0
  {
    var m := if n < 0 then -n else n;
    if a >= 0 then a % m else -(-a % m)
  }

  lemma TruncatedIs(a: int, n: int)
    requires n != 0
    ensures exists q: int :: a == q * n + TruncatedRemainder(a, n)
  {
    var m: int := if n < 0 then -n else n;
    var k: int := if a >= 0 then a / m else -(-a / m);
    assert a == k * m + TruncatedRemainder(a, n);
    if n < 0 {
      assert a == (-k) * n + TruncatedRemainder(a, n);
    }
  }

  class ModuloShardingStrategy {
    var shardCount: int

    constructor (shardCount: int)
      ensures this.shardCount == shardCount
    {
      this.shardCount := shardCount;
    }

    method SetShardCount(shardCount: int)
      modifies this
      ensures this.shardCount == shardCount
    {
      this.shardCount := shardCount;
    }

    /** For a positive count, the id is in 1..shardCount exactly when the key is not negative or a multiple of it. */
    method GetShardId(key: int) returns (id: int)
      requires shardCount != 0
      ensures key >= 0 && shardCount > 0 ==> id == key % shardCount + 1
      ensures 1 <= id <= shardCount <==> shardCount > 0 && (key >= 0 || key % shardCount == 0)
      ensures exists q: int :: key == q * shardCount + (id - 1)
      ensures -shardCount < id - 1 < shardCount || shardCount < id - 1 < -shardCount
      ensures id - 1 != 0 ==> (id - 1 < 0 <==> key < 0)
    {
      TruncatedIs(key, shardCount);
      id := TruncatedRemainder(key, shardCount) + 1;
      if shardCount > 0 && key < 0 {
        NegativeMultiple(key, shardCount);
      }
    }
  }

  lemma NegativeMultiple(a: int, n: int)
    requires n > 0
    ensures a % n == 0 <==> -a % n == 0
  {
    if a % n == 0 {
      assert a == n * (a / n);
      assert -a == n * -(a / n);
      RemainderIs(-a, n, -(a / n), 0);
    }
    if -a % n == 0 {
      assert -a == n * (-a / n);
      assert a == n * -(-a / n);
      RemainderIs(a, n, -(-a / n), 0);
    }
  }
}
