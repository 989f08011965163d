/** The block function of RFC 1321, section 3.4: the table form and the unrolled form. */
module Md5Block {
  import opened Bits
  import opened Wrappers

  type byte = x: int | 0 <= x < 256

  datatype Words = Words(a: uint4, b: uint4, c: uint4, d: uint4)

  type Ternary = (uint4, uint4, uint4) -> uint4

  /** The operations on words that the rounds are built from. */
  datatype WordOps = WordOps(f: Ternary, g: Ternary, h: Ternary, i: Ternary, rotateLeft: (uint4, nat) -> uint4,
                             add: (uint4, uint4) -> uint4)

  function F(x: uint4, y: uint4, z: uint4): uint4 {
    Value(BitsF(x as bv32, y as bv32, z as bv32))
  }

  function G(x: uint4, y: uint4, z: uint4): uint4 {
    Value(BitsG(x as bv32, y as bv32, z as bv32))
  }

  function H(x: uint4, y: uint4, z: uint4): uint4 {
    Value(BitsH(x as bv32, y as bv32, z as bv32))
  }

  function I(x: uint4, y: uint4, z: uint4): uint4 {
    Value(BitsI(x as bv32, y as bv32, z as bv32))
  }

  function BitsF(x: bv32, y: bv32, z: bv32): bv32 {
    (x & y) | (!x & z)
  }

  function BitsG(x: bv32, y: bv32, z: bv32): bv32 {
    (x & z) | (y & !z)
  }

  function BitsH(x: bv32, y: bv32, z: bv32): bv32 {
    Differing(Differing(x, y), z)
  }

  function BitsI(x: bv32, y: bv32, z: bv32): bv32 {
    y ^ (x | !z)
  }

  function RotateLeft(x: uint4, n: nat): uint4 {
    if n <= 32 then Value(Rotate(x as bv32, n)) else 0
  }

  function Rotate(v: bv32, n: nat): bv32
    requires n <= 32
  {
    (v << n) | (v >> (32 - n))
  }

  function Standard(): WordOps {
    WordOps(F, G, H, I, RotateLeft, Add)
  }

  function Add(x: uint4, y: uint4): uint4 {
    (x + y) % TWO_32
  }

  // ---- what the operations are for: F chooses by x, G by z, H is the parity, I flips y unless z is set and x is not

  lemma BitsFIs(u: bv32, v: bv32, w: bv32)
    ensures BitsF(u, v, w) == Joint(Common(u, v), Common(Opposite(u), w))
  {
  }

  lemma FBit(x: uint4, y: uint4, z: uint4, i: nat)
    requires i < 32
    ensures Bit(F(x, y, z), i) <==> if Bit(x, i) then Bit(y, i) else Bit(z, i)
  {
    hide Value;
    hide Bit;
    hide At;
    hide BitsF;
    hide Joint;
    hide Common;
    hide Opposite;
    var (u, v, w) := (x as bv32, y as bv32, z as bv32);
    BitsFIs(u, v, w);
    BitOf(x, i);
    BitOf(y, i);
    BitOf(z, i);
    BitIs(BitsF(u, v, w), i);
    JointAt(Common(u, v), Common(Opposite(u), w), i as bv6);
    CommonAt(u, v, i as bv6);
    CommonAt(Opposite(u), w, i as bv6);
    OppositeAt(u, i as bv6);
  }

  lemma BitsGIs(u: bv32, v: bv32, w: bv32)
    ensures BitsG(u, v, w) == Joint(Common(u, w), Common(v, Opposite(w)))
  {
  }

  lemma GBit(x: uint4, y: uint4, z: uint4, i: nat)
    requires i < 32
    ensures Bit(G(x, y, z), i) <==> if Bit(z, i) then Bit(x, i) else Bit(y, i)
  {
    hide Value;
    hide Bit;
    hide At;
    hide BitsG;
    hide Joint;
    hide Common;
    hide Opposite;
    var (u, v, w) := (x as bv32, y as bv32, z as bv32);
    BitsGIs(u, v, w);
    BitOf(x, i);
    BitOf(y, i);
    BitOf(z, i);
    BitIs(BitsG(u, v, w), i);
    JointAt(Common(u, w), Common(v, Opposite(w)), i as bv6);
    CommonAt(u, w, i as bv6);
    CommonAt(v, Opposite(w), i as bv6);
    OppositeAt(w, i as bv6);
  }

  lemma HBit(x: uint4, y: uint4, z: uint4, i: nat)
    requires i < 32
    ensures Bit(H(x, y, z), i) <==> (Bit(x, i) <==> (Bit(y, i) <==> Bit(z, i)))
  {
    hide Value;
    hide Bit;
    hide At;
    hide Differing;
    var (u, v, w) := (x as bv32, y as bv32, z as bv32);
    BitOf(x, i);
    BitOf(y, i);
    BitOf(z, i);
    BitIs(BitsH(u, v, w), i);
    DifferingAt(Differing(u, v), w, i as bv6);
    DifferingAt(u, v, i as bv6);
  }

  lemma BitsIIs(u: bv32, v: bv32, w: bv32)
    ensures BitsI(u, v, w) == Differing(v, Joint(u, Opposite(w)))
  {
  }

  lemma IBit(x: uint4, y: uint4, z: uint4, i: nat)
    requires i < 32
    ensures Bit(I(x, y, z), i) <==> if !Bit(x, i) && Bit(z, i) then Bit(y, i) else !Bit(y, i)
  {
    hide Value;
    hide Bit;
    hide At;
    hide BitsI;
    hide Differing;
    hide Joint;
    hide Opposite;
    var (u, v, w) := (x as bv32, y as bv32, z as bv32);
    BitsIIs(u, v, w);
    BitOf(x, i);
    BitOf(y, i);
    BitOf(z, i);
    BitIs(BitsI(u, v, w), i);
    DifferingAt(v, Joint(u, Opposite(w)), i as bv6);
    JointAt(u, Opposite(w), i as bv6);
    OppositeAt(w, i as bv6);
  }

  lemma RotateShifts(v: bv32, n: nat)
    requires n <= 32
    ensures Rotate(v, n) == Joint(Left(v, n), Right(v, 32 - n))
  {
  }

  /** The bits that leave at the top come in at the bottom. */
  lemma RotateIs(x: uint4, n: nat)
    requires n <= 32
    ensures RotateLeft(x, n) == x * Pow2(n) % TWO_32 + x / Pow2(32 - n)
  {
    hide Value;
    hide Rotate;
    hide Joint;
    hide Left;
    hide Right;
    hide Pow2;
    RotateShifts(x as bv32, n);
    ValueOfBits(x);
    Rotated(x as bv32, n);
  }

  // ---- the table form: operation i of 64

  /** The word of the block that operation `i` uses. */
  function K(i: nat): (k: nat)
    requires i < 64
    ensures k < 16
  {
    if i < 16 then i else if i < 32 then (1 + 5 * i) % 16 else if i < 48 then (5 + 3 * i) % 16 else (7 * i) % 16
  }

  /** By how much operation `i` rotates. */
  function S(i: nat): nat
    requires i < 64
  {
    var n := i % 4;
    if i < 16 then (if n == 0 then 7 else if n == 1 then 12 else if n == 2 then 17 else 22)
    else if i < 32 then (if n == 0 then 5 else if n == 1 then 9 else if n == 2 then 14 else 20)
    else if i < 48 then (if n == 0 then 4 else if n == 1 then 11 else if n == 2 then 16 else 23)
    else (if n == 0 then 6 else if n == 1 then 10 else if n == 2 then 15 else 21)
  }

  /** The additive constant of operation `i`: 2^32 times the absolute value of the sine of i + 1, by rounds. */
  function T(i: nat): uint4
    requires i < 64
  {
    if i < 16 then T1(i) else if i < 32 then T2(i) else if i < 48 then T3(i) else T4(i)
  }

  function T1(i: nat): uint4 {
    match i
    case 0 => 0xd76aa478
    case 1 => 0xe8c7b756
    case 2 => 0x242070db
    case 3 => 0xc1bdceee
    case 4 => 0xf57c0faf
    case 5 => 0x4787c62a
    case 6 => 0xa8304613
    case 7 => 0xfd469501
    case 8 => 0x698098d8
    case 9 => 0x8b44f7af
    case 10 => 0xffff5bb1
    case 11 => 0x895cd7be
    case 12 => 0x6b901122
    case 13 => 0xfd987193
    case 14 => 0xa679438e
    case _ => 0x49b40821
  }

  function T2(i: nat): uint4 {
    match i
    case 16 => 0xf61e2562
    case 17 => 0xc040b340
    case 18 => 0x265e5a51
    case 19 => 0xe9b6c7aa
    case 20 => 0xd62f105d
    case 21 => 0x2441453
    case 22 => 0xd8a1e681
    case 23 => 0xe7d3fbc8
    case 24 => 0x21e1cde6
    case 25 => 0xc33707d6
    case 26 => 0xf4d50d87
    case 27 => 0x455a14ed
    case 28 => 0xa9e3e905
    case 29 => 0xfcefa3f8
    case 30 => 0x676f02d9
    case _ => 0x8d2a4c8a
  }

  function T3(i: nat): uint4 {
    match i
    case 32 => 0xfffa3942
    case 33 => 0x8771f681
    case 34 => 0x6d9d6122
    case 35 => 0xfde5380c
    case 36 => 0xa4beea44
    case 37 => 0x4bdecfa9
    case 38 => 0xf6bb4b60
    case 39 => 0xbebfbc70
    case 40 => 0x289b7ec6
    case 41 => 0xeaa127fa
    case 42 => 0xd4ef3085
    case 43 => 0x4881d05
    case 44 => 0xd9d4d039
    case 45 => 0xe6db99e5
    case 46 => 0x1fa27cf8
    case _ => 0xc4ac5665
  }

  function T4(i: nat): uint4 {
    match i
    case 48 => 0xf4292244
    case 49 => 0x432aff97
    case 50 => 0xab9423a7
    case 51 => 0xfc93a039
    case 52 => 0x655b59c3
    case 53 => 0x8f0ccc92
    case 54 => 0xffeff47d
    case 55 => 0x85845dd1
    case 56 => 0x6fa87e4f
    case 57 => 0xfe2ce6e0
    case 58 => 0xa3014314
    case 59 => 0x4e0811a1
    case 60 => 0xf7537e82
    case 61 => 0xbd3af235
    case 62 => 0x2ad7d2bb
    case _ => 0xeb86d391
  }

  function Fun(ops: WordOps, i: nat, x: uint4, y: uint4, z: uint4): uint4 {
    if i < 16 then ops.f(x, y, z) else if i < 32 then ops.g(x, y, z) else if i < 48 then ops.h(x, y, z)
    else ops.i(x, y, z)
  }

  /** a = b + ((a + fun(b,c,d) + X[k] + T[i]) <<< s) */
  function Mix(ops: WordOps, i: nat, a: uint4, b: uint4, c: uint4, d: uint4, x: seq<uint4>): uint4
    requires i < 64 && |x| == 16
  {
    ops.add(ops.rotateLeft(ops.add(ops.add(ops.add(a, Fun(ops, i, b, c, d)), x[K(i)]), T(i)), S(i)), b)
  }

  /** Four operations: [ABCD] [DABC] [CDAB] [BCDA] */
  function Quad(ops: WordOps, x: seq<uint4>, w: Words, i: nat): Words
    requires i < 61 && |x| == 16
  {
    var a := Mix(ops, i, w.a, w.b, w.c, w.d, x);
    var d := Mix(ops, i + 1, w.d, a, w.b, w.c, x);
    var c := Mix(ops, i + 2, w.c, d, a, w.b, x);
    var b := Mix(ops, i + 3, w.b, c, d, a, x);
    Words(a, b, c, d)
  }

  function Fold(quad: (Words, nat) -> Words, w: Words, j: nat, n: nat): Words
    requires j <= n
    decreases n - j
  {
    if j == n then w else Fold(quad, quad(w, j), j + 1, n)
  }

  function QuadOf(ops: WordOps, x: seq<uint4>): (Words, nat) -> Words
    requires |x| == 16
  {
    (w: Words, j: nat) => if j < 16 then Quad(ops, x, w, 4 * j) else w
  }

  /** The groups of four from the `j`-th up to, not including, the `n`-th. */
  function Quads(ops: WordOps, x: seq<uint4>, w: Words, j: nat, n: nat): Words
    requires j <= n && |x| == 16
  {
    Fold(QuadOf(ops, x), w, j, n)
  }

  /** The groups can be split anywhere; `quad` is the group as a function of the words and its number. */
  lemma {:induction false} FoldSplit(quad: (Words, nat) -> Words, w: Words, j: nat, m: nat, n: nat)
    requires j <= m <= n
    ensures Fold(quad, w, j, n) == Fold(quad, Fold(quad, w, j, m), m, n)
    decreases m - j
  {
    if j < m {
      FoldSplit(quad, quad(w, j), j + 1, m, n);
    }
  }

  lemma TwoGroups(quad: (Words, nat) -> Words, w: Words, v: Words, r: Words, j: nat)
    requires quad(w, j) == v && quad(v, j + 1) == r
    ensures Fold(quad, w, j, j + 2) == r
  {
    assert Fold(quad, r, j + 2, j + 2) == r;
    assert Fold(quad, v, j + 1, j + 2) == r;
  }

  // ---- bytes and words, low-order byte first

  function EncodeWord(w: uint4): (r: seq<byte>)
    ensures |r| == 4
  {
    [w % 256, w / 256 % 256, w / 65536 % 256, w / 16777216 % 256]
  }

  function DecodeWord(s: seq<byte>): uint4
    requires |s| == 4
  {
    var s0: int, s1: int, s2: int, s3: int := s[0], s[1], s[2], s[3];
    s0 + 256 * s1 + 65536 * s2 + 16777216 * s3
  }

  function EncodeWords(ws: seq<uint4>): (r: seq<byte>)
    ensures |r| == 4 * |ws|
  {
    if ws == [] then [] else EncodeWord(ws[0]) + EncodeWords(ws[1..])
  }

  function DecodeWords(s: seq<byte>): (r: seq<uint4>)
    requires |s| % 4 == 0
    ensures |r| == |s| / 4
  {
    if s == [] then [] else [DecodeWord(s[..4])] + DecodeWords(s[4..])
  }

  lemma WordRoundTrip(w: uint4)
    ensures DecodeWord(EncodeWord(w)) == w
  {
  }

  /** decode undoes encode. */
  lemma {:induction false} WordsRoundTrip(ws: seq<uint4>)
    ensures DecodeWords(EncodeWords(ws)) == ws
  {
    if ws != [] {
      var s := EncodeWords(ws);
      assert s[..4] == EncodeWord(ws[0]) && s[4..] == EncodeWords(ws[1..]);
      WordRoundTrip(ws[0]);
      WordsRoundTrip(ws[1..]);
      assert ws == [ws[0]] + ws[1..];
    }
  }

  lemma {:induction false} DecodeWordsAt(s: seq<byte>, i: nat)
    requires |s| % 4 == 0 && i < |s| / 4
    ensures DecodeWords(s)[i] == DecodeWord(s[4 * i..4 * i + 4])
  {
    if i > 0 {
      DecodeWordsAt(s[4..], i - 1);
      assert s[4..][4 * (i - 1)..4 * (i - 1) + 4] == s[4 * i..4 * i + 4];
    }
  }

  lemma {:induction false} EncodeWordsSnoc(ws: seq<uint4>, w: uint4)
    ensures EncodeWords(ws + [w]) == EncodeWords(ws) + EncodeWord(w)
  {
    if ws == [] {
      assert ws + [w] == [w] && [w][1..] == [];
    } else {
      assert (ws + [w])[1..] == ws[1..] + [w];
      EncodeWordsSnoc(ws[1..], w);
    }
  }

  type Block = b: seq<byte> | |b| == 64 witness seq(64, i => 0)

  function AddWords(ops: WordOps, w: Words, r: Words): Words {
    Words(ops.add(w.a, r.a), ops.add(w.b, r.b), ops.add(w.c, r.c), ops.add(w.d, r.d))
  }

  /** What one block does to the state. */
  function Transform(ops: WordOps): (Words, Block) -> Words {
    (w: Words, block: Block) => AddWords(ops, w, Quads(ops, DecodeWords(block), w, 0, 16))
  }

  // ---- the unrolled form

  function FF(ops: WordOps, a: uint4, b: uint4, c: uint4, d: uint4, x: uint4, s: nat, ac: uint4): uint4 {
    ops.add(ops.rotateLeft(ops.add(ops.add(ops.add(a, ops.f(b, c, d)), x), ac), s), b)
  }

  function GG(ops: WordOps, a: uint4, b: uint4, c: uint4, d: uint4, x: uint4, s: nat, ac: uint4): uint4 {
    ops.add(ops.rotateLeft(ops.add(ops.add(ops.add(a, ops.g(b, c, d)), x), ac), s), b)
  }

  function HH(ops: WordOps, a: uint4, b: uint4, c: uint4, d: uint4, x: uint4, s: nat, ac: uint4): uint4 {
    ops.add(ops.rotateLeft(ops.add(ops.add(ops.add(a, ops.h(b, c, d)), x), ac), s), b)
  }

  function II(ops: WordOps, a: uint4, b: uint4, c: uint4, d: uint4, x: uint4, s: nat, ac: uint4): uint4 {
    ops.add(ops.rotateLeft(ops.add(ops.add(ops.add(a, ops.i(b, c, d)), x), ac), s), b)
  }

  method Round1First(ops: WordOps, x: seq<uint4>, w: Words) returns (r: Words)
    requires |x| == 16
    ensures r == Quads(ops, x, w, 0, 2)
  {
    hide Fold;
    var a, b, c, d := w.a, w.b, w.c, w.d;
    a := FF(ops, a, b, c, d, x[0], 7, 0xd76aa478);
    d := FF(ops, d, a, b, c, x[1], 12, 0xe8c7b756);
    c := FF(ops, c, d, a, b, x[2], 17, 0x242070db);
    b := FF(ops, b, c, d, a, x[3], 22, 0xc1bdceee);
    ghost var v := Words(a, b, c, d);
    assert v == Quad(ops, x, w, 0);
    a := FF(ops, a, b, c, d, x[4], 7, 0xf57c0faf);
    d := FF(ops, d, a, b, c, x[5], 12, 0x4787c62a);
    c := FF(ops, c, d, a, b, x[6], 17, 0xa8304613);
    b := FF(ops, b, c, d, a, x[7], 22, 0xfd469501);
    r := Words(a, b, c, d);
    assert r == Quad(ops, x, v, 4);
    TwoGroups(QuadOf(ops, x), w, v, r, 0);
  }

  method Round1Last(ops: WordOps, x: seq<uint4>, w: Words) returns (r: Words)
    requires |x| == 16
    ensures r == Quads(ops, x, w, 2, 4)
  {
    hide Fold;
    var a, b, c, d := w.a, w.b, w.c, w.d;
    a := FF(ops, a, b, c, d, x[8], 7, 0x698098d8);
    d := FF(ops, d, a, b, c, x[9], 12, 0x8b44f7af);
    c := FF(ops, c, d, a, b, x[10], 17, 0xffff5bb1);
    b := FF(ops, b, c, d, a, x[11], 22, 0x895cd7be);
    ghost var v := Words(a, b, c, d);
    assert v == Quad(ops, x, w, 8);
    a := FF(ops, a, b, c, d, x[12], 7, 0x6b901122);
    d := FF(ops, d, a, b, c, x[13], 12, 0xfd987193);
    c := FF(ops, c, d, a, b, x[14], 17, 0xa679438e);
    b := FF(ops, b, c, d, a, x[15], 22, 0x49b40821);
    r := Words(a, b, c, d);
    assert r == Quad(ops, x, v, 12);
    TwoGroups(QuadOf(ops, x), w, v, r, 2);
  }

  method Round2First(ops: WordOps, x: seq<uint4>, w: Words) returns (r: Words)
    requires |x| == 16
    ensures r == Quads(ops, x, w, 4, 6)
  {
    hide Fold;
    var a, b, c, d := w.a, w.b, w.c, w.d;
    a := GG(ops, a, b, c, d, x[1], 5, 0xf61e2562);
    d := GG(ops, d, a, b, c, x[6], 9, 0xc040b340);
    c := GG(ops, c, d, a, b, x[11], 14, 0x265e5a51);
    b := GG(ops, b, c, d, a, x[0], 20, 0xe9b6c7aa);
    ghost var v := Words(a, b, c, d);
    assert v == Quad(ops, x, w, 16);
    a := GG(ops, a, b, c, d, x[5], 5, 0xd62f105d);
    d := GG(ops, d, a, b, c, x[10], 9, 0x2441453);
    c := GG(ops, c, d, a, b, x[15], 14, 0xd8a1e681);
    b := GG(ops, b, c, d, a, x[4], 20, 0xe7d3fbc8);
    r := Words(a, b, c, d);
    assert r == Quad(ops, x, v, 20);
    TwoGroups(QuadOf(ops, x), w, v, r, 4);
  }

  method Round2Last(ops: WordOps, x: seq<uint4>, w: Words) returns (r: Words)
    requires |x| == 16
    ensures r == Quads(ops, x, w, 6, 8)
  {
    hide Fold;
    var a, b, c, d := w.a, w.b, w.c, w.d;
    a := GG(ops, a, b, c, d, x[9], 5, 0x21e1cde6);
    d := GG(ops, d, a, b, c, x[14], 9, 0xc33707d6);
    c := GG(ops, c, d, a, b, x[3], 14, 0xf4d50d87);
    b := GG(ops, b, c, d, a, x[8], 20, 0x455a14ed);
    ghost var v := Words(a, b, c, d);
    assert v == Quad(ops, x, w, 24);
    a := GG(ops, a, b, c, d, x[13], 5, 0xa9e3e905);
    d := GG(ops, d, a, b, c, x[2], 9, 0xfcefa3f8);
    c := GG(ops, c, d, a, b, x[7], 14, 0x676f02d9);
    b := GG(ops, b, c, d, a, x[12], 20, 0x8d2a4c8a);
    r := Words(a, b, c, d);
    assert r == Quad(ops, x, v, 28);
    TwoGroups(QuadOf(ops, x), w, v, r, 6);
  }

  method Round3First(ops: WordOps, x: seq<uint4>, w: Words) returns (r: Words)
    requires |x| == 16
    ensures r == Quads(ops, x, w, 8, 10)
  {
    hide Fold;
    var a, b, c, d := w.a, w.b, w.c, w.d;
    a := HH(ops, a, b, c, d, x[5], 4, 0xfffa3942);
    d := HH(ops, d, a, b, c, x[8], 11, 0x8771f681);
    c := HH(ops, c, d, a, b, x[11], 16, 0x6d9d6122);
    b := HH(ops, b, c, d, a, x[14], 23, 0xfde5380c);
    ghost var v := Words(a, b, c, d);
    assert v == Quad(ops, x, w, 32);
    a := HH(ops, a, b, c, d, x[1], 4, 0xa4beea44);
    d := HH(ops, d, a, b, c, x[4], 11, 0x4bdecfa9);
    c := HH(ops, c, d, a, b, x[7], 16, 0xf6bb4b60);
    b := HH(ops, b, c, d, a, x[10], 23, 0xbebfbc70);
    r := Words(a, b, c, d);
    assert r == Quad(ops, x, v, 36);
    TwoGroups(QuadOf(ops, x), w, v, r, 8);
  }

  lemma Group10(ops: WordOps, x: seq<uint4>, w: Words)
    requires |x| == 16
    ensures var a := HH(ops, w.a, w.b, w.c, w.d, x[13], 4, 0x289b7ec6);
      var d := HH(ops, w.d, a, w.b, w.c, x[0], 11, 0xeaa127fa);
      var c := HH(ops, w.c, d, a, w.b, x[3], 16, 0xd4ef3085);
      var b := HH(ops, w.b, c, d, a, x[6], 23, 0x4881d05);
      Quad(ops, x, w, 40) == Words(a, b, c, d)
  {
  }

  lemma Group11(ops: WordOps, x: seq<uint4>, w: Words)
    requires |x| == 16
    ensures var a := HH(ops, w.a, w.b, w.c, w.d, x[9], 4, 0xd9d4d039);
      var d := HH(ops, w.d, a, w.b, w.c, x[12], 11, 0xe6db99e5);
      var c := HH(ops, w.c, d, a, w.b, x[15], 16, 0x1fa27cf8);
      var b := HH(ops, w.b, c, d, a, x[2], 23, 0xc4ac5665);
      Quad(ops, x, w, 44) == Words(a, b, c, d)
  {
  }

  method Round3Last(ops: WordOps, x: seq<uint4>, w: Words) returns (r: Words)
    requires |x| == 16
    ensures r == Quads(ops, x, w, 10, 12)
  {
    hide Fold;
    hide Quad;
    hide HH;
    var a, b, c, d := w.a, w.b, w.c, w.d;
    a := HH(ops, a, b, c, d, x[13], 4, 0x289b7ec6);
    d := HH(ops, d, a, b, c, x[0], 11, 0xeaa127fa);
    c := HH(ops, c, d, a, b, x[3], 16, 0xd4ef3085);
    b := HH(ops, b, c, d, a, x[6], 23, 0x4881d05);
    ghost var v := Words(a, b, c, d);
    Group10(ops, x, w);
    a := HH(ops, a, b, c, d, x[9], 4, 0xd9d4d039);
    d := HH(ops, d, a, b, c, x[12], 11, 0xe6db99e5);
    c := HH(ops, c, d, a, b, x[15], 16, 0x1fa27cf8);
    b := HH(ops, b, c, d, a, x[2], 23, 0xc4ac5665);
    r := Words(a, b, c, d);
    Group11(ops, x, v);
    TwoGroups(QuadOf(ops, x), w, v, r, 10);
  }

  method Round4First(ops: WordOps, x: seq<uint4>, w: Words) returns (r: Words)
    requires |x| == 16
    ensures r == Quads(ops, x, w, 12, 14)
  {
    hide Fold;
    var a, b, c, d := w.a, w.b, w.c, w.d;
    a := II(ops, a, b, c, d, x[0], 6, 0xf4292244);
    d := II(ops, d, a, b, c, x[7], 10, 0x432aff97);
    c := II(ops, c, d, a, b, x[14], 15, 0xab9423a7);
    b := II(ops, b, c, d, a, x[5], 21, 0xfc93a039);
    ghost var v := Words(a, b, c, d);
    assert v == Quad(ops, x, w, 48);
    a := II(ops, a, b, c, d, x[12], 6, 0x655b59c3);
    d := II(ops, d, a, b, c, x[3], 10, 0x8f0ccc92);
    c := II(ops, c, d, a, b, x[10], 15, 0xffeff47d);
    b := II(ops, b, c, d, a, x[1], 21, 0x85845dd1);
    r := Words(a, b, c, d);
    assert r == Quad(ops, x, v, 52);
    TwoGroups(QuadOf(ops, x), w, v, r, 12);
  }

  lemma Group14(ops: WordOps, x: seq<uint4>, w: Words)
    requires |x| == 16
    ensures var a := II(ops, w.a, w.b, w.c, w.d, x[8], 6, 0x6fa87e4f);
      var d := II(ops, w.d, a, w.b, w.c, x[15], 10, 0xfe2ce6e0);
      var c := II(ops, w.c, d, a, w.b, x[6], 15, 0xa3014314);
      var b := II(ops, w.b, c, d, a, x[13], 21, 0x4e0811a1);
      Quad(ops, x, w, 56) == Words(a, b, c, d)
  {
  }

  lemma Group15(ops: WordOps, x: seq<uint4>, w: Words)
    requires |x| == 16
    ensures var a := II(ops, w.a, w.b, w.c, w.d, x[4], 6, 0xf7537e82);
      var d := II(ops, w.d, a, w.b, w.c, x[11], 10, 0xbd3af235);
      var c := II(ops, w.c, d, a, w.b, x[2], 15, 0x2ad7d2bb);
      var b := II(ops, w.b, c, d, a, x[9], 21, 0xeb86d391);
      Quad(ops, x, w, 60) == Words(a, b, c, d)
  {
  }

  method Round4Last(ops: WordOps, x: seq<uint4>, w: Words) returns (r: Words)
    requires |x| == 16
    ensures r == Quads(ops, x, w, 14, 16)
  {
    hide Fold;
    hide Quad;
    hide II;
    var a, b, c, d := w.a, w.b, w.c, w.d;
    a := II(ops, a, b, c, d, x[8], 6, 0x6fa87e4f);
    d := II(ops, d, a, b, c, x[15], 10, 0xfe2ce6e0);
    c := II(ops, c, d, a, b, x[6], 15, 0xa3014314);
    b := II(ops, b, c, d, a, x[13], 21, 0x4e0811a1);
    ghost var v := Words(a, b, c, d);
    Group14(ops, x, w);
    a := II(ops, a, b, c, d, x[4], 6, 0xf7537e82);
    d := II(ops, d, a, b, c, x[11], 10, 0xbd3af235);
    c := II(ops, c, d, a, b, x[2], 15, 0x2ad7d2bb);
    b := II(ops, b, c, d, a, x[9], 21, 0xeb86d391);
    r := Words(a, b, c, d);
    Group15(ops, x, v);
    TwoGroups(QuadOf(ops, x), w, v, r, 14);
  }

  /** All 64 operations, written out one after the other, are the table form's. */
  method Rounds(ops: WordOps, x: seq<uint4>, w: Words) returns (r: Words)
    requires |x| == 16
    ensures r == Quads(ops, x, w, 0, 16)
  {
    r := Round1First(ops, x, w);
    FoldSplit(QuadOf(ops, x), w, 0, 2, 4);
    r := Round1Last(ops, x, r);
    FoldSplit(QuadOf(ops, x), w, 0, 4, 6);
    r := Round2First(ops, x, r);
    FoldSplit(QuadOf(ops, x), w, 0, 6, 8);
    r := Round2Last(ops, x, r);
    FoldSplit(QuadOf(ops, x), w, 0, 8, 10);
    r := Round3First(ops, x, r);
    FoldSplit(QuadOf(ops, x), w, 0, 10, 12);
    r := Round3Last(ops, x, r);
    FoldSplit(QuadOf(ops, x), w, 0, 12, 14);
    r := Round4First(ops, x, r);
    FoldSplit(QuadOf(ops, x), w, 0, 14, 16);
    r := Round4Last(ops, x, r);
  }
}
