/** One digest of the test suite in RFC 1321 (appendix A.5), operation by operation: the alphabet. Every constant of
    the block function has its part in it. */
module Md5Known {
  import opened Bits
  import opened Md5
  import opened Md5Block
  import opened Wrappers

  // ---- words as bytes

  lemma FourWords(w: Words)
    ensures EncodeWords(AllWords(w)) == EncodeWord(w.a) + EncodeWord(w.b) + EncodeWord(w.c) + EncodeWord(w.d)
  {
    var s := AllWords(w);
    assert s[1..] == [w.b, w.c, w.d] && s[1..][1..] == [w.c, w.d] && s[1..][1..][1..] == [w.d];
    assert EncodeWords([w.d]) == EncodeWord(w.d) + EncodeWords([w.d][1..]);
    assert EncodeWords([w.c, w.d]) == EncodeWord(w.c) + EncodeWords([w.d]);
    assert EncodeWords([w.b, w.c, w.d]) == EncodeWord(w.b) + EncodeWords([w.c, w.d]);
  }

  lemma {:induction false} EncodeWordsAppend(s: seq<uint4>, t: seq<uint4>)
    ensures EncodeWords(s + t) == EncodeWords(s) + EncodeWords(t)
  {
    if s == [] {
      assert s + t == t;
    } else {
      assert (s + t)[1..] == s[1..] + t;
      EncodeWordsAppend(s[1..], t);
    }
  }

  lemma InitialWords()
    ensures EncodeWord(0x67452301) == [0x01, 0x23, 0x45, 0x67] && EncodeWord(0xefcdab89) == [0x89, 0xab, 0xcd, 0xef]
    ensures EncodeWord(0x98badcfe) == [0xfe, 0xdc, 0xba, 0x98] && EncodeWord(0x10325476) == [0x76, 0x54, 0x32, 0x10]
  {
  }

  /** The state starts as the bytes 01 23 45 67, 89 ab cd ef, fe dc ba 98 and 76 54 32 10. */
  lemma InitialBytes()
    ensures EncodeWords(AllWords(Initial())) == [
      0x01, 0x23, 0x45, 0x67, 0x89, 0xab, 0xcd, 0xef, 0xfe, 0xdc, 0xba, 0x98, 0x76, 0x54, 0x32, 0x10]
  {
    hide EncodeWords;
    hide EncodeWord;
    FourWords(Initial());
    InitialWords();
  }

  /** The order in which the four rounds use the words of a block: from where, and how far on each time. */
  lemma WordOrder(i: nat)
    requires i < 64
    ensures K(0) == 0 && K(16) == 1 && K(32) == 5 && K(48) == 0
    ensures 0 < i < 16 ==> K(i) == K(i - 1) + 1
    ensures 16 < i < 32 ==> K(i) == (K(i - 1) + 5) % 16
    ensures 32 < i < 48 ==> K(i) == (K(i - 1) + 3) % 16
    ensures 48 < i ==> K(i) == (K(i - 1) + 7) % 16
  {
    if 16 < i < 32 {
      Further(1 + 5 * (i - 1), 5);
    } else if 32 < i < 48 {
      Further(5 + 3 * (i - 1), 3);
    } else if 48 < i {
      Further(7 * (i - 1), 7);
    }
  }

  lemma Further(a: nat, s: nat)
    ensures (a % 16 + s) % 16 == (a + s) % 16
  {
  }

  // ---- the padded alphabet as words

  function First(): (s: seq<byte>)
    ensures |s| == 16
  {
    [0x61, 0x62, 0x63, 0x64, 0x65, 0x66, 0x67, 0x68, 0x69, 0x6a, 0x6b, 0x6c, 0x6d, 0x6e, 0x6f, 0x70]
  }

  function Last(): (s: seq<byte>)
    ensures |s| == 10
  {
    [0x71, 0x72, 0x73, 0x74, 0x75, 0x76, 0x77, 0x78, 0x79, 0x7a]
  }

  /** The letters from a to z. */
  function Alphabet(): seq<byte> {
    First() + Last()
  }

  function Row0(): Words {
    Words(0x64636261, 0x68676665, 0x6c6b6a69, 0x706f6e6d)
  }

  lemma Row0Bytes()
    ensures EncodeWords(AllWords(Row0())) == First()
  {
    hide EncodeWords;
    FourWords(Row0());
  }

  function Row1(): Words {
    Words(0x74737271, 0x78777675, 0x00807a79, 0x00000000)
  }

  lemma Row1Bytes()
    ensures EncodeWords(AllWords(Row1())) == Last() + ([0x80] + Zeros(5))
  {
    hide EncodeWords;
    FourWords(Row1());
  }

  function Row2(): Words {
    Words(0x00000000, 0x00000000, 0x00000000, 0x00000000)
  }

  lemma Row2Bytes()
    ensures EncodeWords(AllWords(Row2())) == Zeros(16)
  {
    hide EncodeWords;
    FourWords(Row2());
  }

  function Row3(): Words {
    Words(0x00000000, 0x00000000, 0x000000d0, 0x00000000)
  }

  lemma Row3Bytes()
    ensures EncodeWords(AllWords(Row3())) == Zeros(8) + LengthBytes(26)
  {
    hide EncodeWords;
    FourWords(Row3());
  }

  function X(): (x: seq<uint4>)
    ensures |x| == 16
  {
    AllWords(Row0()) + AllWords(Row1()) + AllWords(Row2()) + AllWords(Row3())
  }

  lemma AlphabetPadded()
    ensures Padded(Alphabet()) == EncodeWords(X())
  {
    hide EncodeWords;
    hide EncodeWord;
    hide Row0;
    hide Row1;
    hide Row2;
    hide Row3;
    hide AllWords;
    var (w0, w1, w2, w3) := (AllWords(Row0()), AllWords(Row1()), AllWords(Row2()), AllWords(Row3()));
    Row0Bytes();
    Row1Bytes();
    Row2Bytes();
    Row3Bytes();
    EncodeWordsAppend(w0 + w1 + w2, w3);
    EncodeWordsAppend(w0 + w1, w2);
    EncodeWordsAppend(w0, w1);
    assert Padding(26) == [0x80] + Zeros(5) + Zeros(16) + Zeros(8);
    hide First;
    hide Last;
    hide Padding;
    hide LengthBytes;
    Regrouped(First(), Last(), [0x80] + Zeros(5), Zeros(16), Zeros(8), LengthBytes(26));
  }

  lemma Regrouped(a: seq<byte>, b: seq<byte>, c: seq<byte>, d: seq<byte>, e: seq<byte>, f: seq<byte>)
    ensures (a + b) + (c + d + e) + f == a + (b + c) + d + (e + f)
  {
  }

  // ---- the operations

  lemma Operation(i: nat, x: seq<uint4>, a: uint4, b: uint4, c: uint4, d: uint4, v: uint4, r: uint4)
    requires i < 64 && |x| == 16
    requires (a + Fun(Standard(), i, b, c, d) + x[K(i)] + T(i)) % TWO_32 == v && RotateLeft(v, S(i)) == r
    ensures Mix(Standard(), i, a, b, c, d, x) == (r + b) % TWO_32
  {
    hide F;
    hide G;
    hide H;
    hide I;
    hide RotateLeft;
    hide T;
    hide K;
    hide S;
    var (f, t) := (Fun(Standard(), i, b, c, d), T(i));
    assert Standard().rotateLeft(v, S(i)) == r && Standard().add(r, b) == (r + b) % TWO_32;
    Sums(a, f, x[K(i)], t);
  }

  lemma Sums(a: uint4, f: uint4, x: uint4, t: uint4)
    ensures Standard().add(Standard().add(Standard().add(a, f), x), t) == (a + f + x + t) % TWO_32
  {
    ModuloTwice(a + f, x);
    ModuloTwice(a + f + x, t);
  }

  lemma ModuloTwice(p: nat, q: nat)
    ensures (p % TWO_32 + q) % TWO_32 == (p + q) % TWO_32
  {
  }

  /** The state after `j` groups of four operations. */
  function After(j: nat): Words {
    match j
    case 0 => Words(0x67452301, 0xefcdab89, 0x98badcfe, 0x10325476)
    case 1 => Words(0xd6d117a6, 0x4503b812, 0x227d8cf1, 0xaab1aaaa)
    case 2 => Words(0xfe15f787, 0xda9bbb0d, 0xb71122fc, 0xa811b278)
    case 3 => Words(0xae752899, 0x56cfa5cb, 0x7d4bd80b, 0x2bbe757f)
    case 4 => Words(0x1754a316, 0x608d6b7e, 0x00df74d5, 0x85567d90)
    case 5 => Words(0x2d8071cc, 0x4c2145b3, 0xedfe7e4b, 0x5dcee119)
    case 6 => Words(0x570c43e0, 0xc9f162d4, 0xc28ab49d, 0x977efd2a)
    case 7 => Words(0x25bfae3b, 0xe6d3b398, 0xf8c8365f, 0x89980104)
    case 8 => Words(0xf54d8710, 0xaeb35766, 0x2e69afc7, 0x927b72e2)
    case 9 => Words(0xb4bf680e, 0x06a5e211, 0x2361ed0a, 0x4c8ffa80)
    case 10 => Words(0xb9c0c733, 0x8d41bf99, 0x23a9451b, 0xf1e6dc7a)
    case 11 => Words(0xa3e88ead, 0x90a35af5, 0x66f6468d, 0x02c0b11c)
    case 12 => Words(0xb5d41f9c, 0x71d10367, 0x703d54d8, 0xa04b4904)
    case 13 => Words(0xfc32dd6e, 0x33edb197, 0xb35602cb, 0x65456b34)
    case 14 => Words(0xc1e942f1, 0x83877d1b, 0x23a68048, 0xd9bb987c)
    case 15 => Words(0x0077c208, 0x5e6bc930, 0xa3e2247f, 0x847fc2e7)
    case _ => Words(0x708ed9c2, 0x1116e6d8, 0xd38f1e7f, 0x2baf1354)
  }

  lemma Words0()
    ensures F(0xefcdab89, 0x98badcfe, 0x10325476) == 0x98badcfe && RotateLeft(0x3bce06d8, 7) == 0xe7036c1d
    ensures F(0xd6d117a6, 0xefcdab89, 0x98badcfe) == 0xceebcbd8 && RotateLeft(0x304d3e09, 12) == 0xd3e09304
    ensures F(0xaab1aaaa, 0xd6d117a6, 0xefcdab89) == 0xc7dd03a3 && RotateLeft(0xf123bbe5, 17) == 0x77cbe247
    ensures F(0x227d8cf1, 0xaab1aaaa, 0xd6d117a6) == 0xf6b19ba6 && RotateLeft(0x18ac848a, 22) == 0x22862b21
  {
  }

  lemma Group0()
    ensures Quad(Standard(), X(), After(0), 0) == After(1)
  {
    hide F;
    hide G;
    hide H;
    hide I;
    hide RotateLeft;
    hide Mix;
    Words0();
    Operation(0, X(), 0x67452301, 0xefcdab89, 0x98badcfe, 0x10325476, 0x3bce06d8, 0xe7036c1d);
    Operation(1, X(), 0x10325476, 0xd6d117a6, 0xefcdab89, 0x98badcfe, 0x304d3e09, 0xd3e09304);
    Operation(2, X(), 0x98badcfe, 0xaab1aaaa, 0xd6d117a6, 0xefcdab89, 0xf123bbe5, 0x77cbe247);
    Operation(3, X(), 0xefcdab89, 0x227d8cf1, 0xaab1aaaa, 0xd6d117a6, 0x18ac848a, 0x22862b21);
  }

  lemma Words1()
    ensures F(0x4503b812, 0x227d8cf1, 0xaab1aaaa) == 0xaab18ab8 && RotateLeft(0xeb72247e, 7) == 0xb9123f75
    ensures F(0xfe15f787, 0x4503b812, 0x227d8cf1) == 0x4469b872 && RotateLeft(0xaf1a9fbb, 12) == 0xa9fbbaf1
    ensures F(0xa811b278, 0xfe15f787, 0x4503b812) == 0xed13ba02 && RotateLeft(0xb842077f, 17) == 0x0eff7084
    ensures F(0xb71122fc, 0xa811b278, 0xfe15f787) == 0xe815f77b && RotateLeft(0x2a60448e, 22) == 0x238a9811
  {
  }

  lemma Group1()
    ensures Quad(Standard(), X(), After(1), 4) == After(2)
  {
    hide F;
    hide G;
    hide H;
    hide I;
    hide RotateLeft;
    hide Mix;
    Words1();
    Operation(4, X(), 0xd6d117a6, 0x4503b812, 0x227d8cf1, 0xaab1aaaa, 0xeb72247e, 0xb9123f75);
    Operation(5, X(), 0xaab1aaaa, 0xfe15f787, 0x4503b812, 0x227d8cf1, 0xaf1a9fbb, 0xa9fbbaf1);
    Operation(6, X(), 0x227d8cf1, 0xa811b278, 0xfe15f787, 0x4503b812, 0xb842077f, 0x0eff7084);
    Operation(7, X(), 0x4503b812, 0xb71122fc, 0xa811b278, 0xfe15f787, 0x2a60448e, 0x238a9811);
  }

  lemma Words2()
    ensures F(0xda9bbb0d, 0xb71122fc, 0xa811b278) == 0xb211227c && RotateLeft(0x19a7b2db, 7) == 0xd3d96d8c
    ensures F(0xae752899, 0xda9bbb0d, 0xb71122fc) == 0x9b112a6d && RotateLeft(0xce67d494, 12) == 0x7d494ce6
    ensures F(0x2bbe757f, 0xae752899, 0xda9bbb0d) == 0xfa35aa19 && RotateLeft(0xb14628c6, 17) == 0x518d628c
    ensures F(0x7d4bd80b, 0x2bbe757f, 0xae752899) == 0xab3e709b && RotateLeft(0x0f370366, 22) == 0xd983cdc0
  {
  }

  lemma Group2()
    ensures Quad(Standard(), X(), After(2), 8) == After(3)
  {
    hide F;
    hide G;
    hide H;
    hide I;
    hide RotateLeft;
    hide Mix;
    Words2();
    Operation(8, X(), 0xfe15f787, 0xda9bbb0d, 0xb71122fc, 0xa811b278, 0x19a7b2db, 0xd3d96d8c);
    Operation(9, X(), 0xa811b278, 0xae752899, 0xda9bbb0d, 0xb71122fc, 0xce67d494, 0x7d494ce6);
    Operation(10, X(), 0xb71122fc, 0x2bbe757f, 0xae752899, 0xda9bbb0d, 0xb14628c6, 0x518d628c);
    Operation(11, X(), 0xda9bbb0d, 0x7d4bd80b, 0x2bbe757f, 0xae752899, 0x0f370366, 0xd983cdc0);
  }

  lemma Words3()
    ensures F(0x56cfa5cb, 0x7d4bd80b, 0x2bbe757f) == 0x7d7bd03f && RotateLeft(0x978109fa, 7) == 0xc084fd4b
    ensures F(0x1754a316, 0x56cfa5cb, 0x7d4bd80b) == 0x7e4ff90b && RotateLeft(0xa7a6e01d, 12) == 0x6e01da7a
    ensures F(0x85567d90, 0x1754a316, 0x56cfa5cb) == 0x57dda15b && RotateLeft(0x7ba2bdc4, 17) == 0x7b88f745
    ensures F(0x00df74d5, 0x85567d90, 0x1754a316) == 0x1756f792 && RotateLeft(0xb7daa57e, 22) == 0x5fadf6a9
  {
  }

  lemma Group3()
    ensures Quad(Standard(), X(), After(3), 12) == After(4)
  {
    hide F;
    hide G;
    hide H;
    hide I;
    hide RotateLeft;
    hide Mix;
    Words3();
    Operation(12, X(), 0xae752899, 0x56cfa5cb, 0x7d4bd80b, 0x2bbe757f, 0x978109fa, 0xc084fd4b);
    Operation(13, X(), 0x2bbe757f, 0x1754a316, 0x56cfa5cb, 0x7d4bd80b, 0xa7a6e01d, 0x6e01da7a);
    Operation(14, X(), 0x7d4bd80b, 0x85567d90, 0x1754a316, 0x56cfa5cb, 0x7ba2bdc4, 0x7b88f745);
    Operation(15, X(), 0x56cfa5cb, 0x00df74d5, 0x85567d90, 0x1754a316, 0xb7daa57e, 0x5fadf6a9);
  }

  lemma Words4()
    ensures G(0x608d6b7e, 0x00df74d5, 0x85567d90) == 0x008d6955 && RotateLeft(0x76679832, 5) == 0xccf3064e
    ensures G(0x2d8071cc, 0x608d6b7e, 0x00df74d5) == 0x60807bee && RotateLeft(0xa6982737, 9) == 0x304e6f4d
    ensures G(0x5dcee119, 0x2d8071cc, 0x608d6b7e) == 0x4d8c7198 && RotateLeft(0x74ca40be, 14) == 0x902f9d32
    ensures G(0xedfe7e4b, 0x5dcee119, 0x2d8071cc) == 0x7dcef059 && RotateLeft(0x2c7685e2, 20) == 0x5e22c768
  {
  }

  lemma Group4()
    ensures Quad(Standard(), X(), After(4), 16) == After(5)
  {
    hide F;
    hide G;
    hide H;
    hide I;
    hide RotateLeft;
    hide Mix;
    Words4();
    Operation(16, X(), 0x1754a316, 0x608d6b7e, 0x00df74d5, 0x85567d90, 0x76679832, 0xccf3064e);
    Operation(17, X(), 0x85567d90, 0x2d8071cc, 0x608d6b7e, 0x00df74d5, 0xa6982737, 0x304e6f4d);
    Operation(18, X(), 0x00df74d5, 0x5dcee119, 0x2d8071cc, 0x608d6b7e, 0x74ca40be, 0x902f9d32);
    Operation(19, X(), 0x608d6b7e, 0xedfe7e4b, 0x5dcee119, 0x2d8071cc, 0x2c7685e2, 0x5e22c768);
  }

  lemma Words5()
    ensures G(0x4c2145b3, 0xedfe7e4b, 0x5dcee119) == 0xec305f53 && RotateLeft(0x685757f1, 5) == 0x0aeafe2d
    ensures G(0x570c43e0, 0x4c2145b3, 0xedfe7e4b) == 0x450d43f0 && RotateLeft(0xa520395c, 9) == 0x4072b94a
    ensures G(0x977efd2a, 0x570c43e0, 0x4c2145b3) == 0x172c4762 && RotateLeft(0xddccac2e, 14) == 0x2b0bb773
    ensures G(0xc28ab49d, 0x977efd2a, 0x570c43e0) == 0xc27abc8a && RotateLeft(0x6ae37076, 20) == 0x0766ae37
  {
  }

  lemma Group5()
    ensures Quad(Standard(), X(), After(5), 20) == After(6)
  {
    hide F;
    hide G;
    hide H;
    hide I;
    hide RotateLeft;
    hide Mix;
    Words5();
    Operation(20, X(), 0x2d8071cc, 0x4c2145b3, 0xedfe7e4b, 0x5dcee119, 0x685757f1, 0x0aeafe2d);
    Operation(21, X(), 0x5dcee119, 0x570c43e0, 0x4c2145b3, 0xedfe7e4b, 0xa520395c, 0x4072b94a);
    Operation(22, X(), 0xedfe7e4b, 0x977efd2a, 0x570c43e0, 0x4c2145b3, 0xddccac2e, 0x2b0bb773);
    Operation(23, X(), 0x4c2145b3, 0xc28ab49d, 0x977efd2a, 0x570c43e0, 0x6ae37076, 0x0766ae37);
  }

  lemma Words6()
    ensures G(0xc9f162d4, 0xc28ab49d, 0x977efd2a) == 0xc1f06095 && RotateLeft(0x3ade725b, 5) == 0x5bce4b67
    ensures G(0x25bfae3b, 0xc9f162d4, 0xc28ab49d) == 0x09fbe659 && RotateLeft(0x64b1ec29, 9) == 0x63d852c9
    ensures G(0x89980104, 0x25bfae3b, 0xc9f162d4) == 0xad9e8c2f && RotateLeft(0xd56dbcc0, 14) == 0x6f30355b
    ensures G(0xf8c8365f, 0x89980104, 0x25bfae3b) == 0xa888271f && RotateLeft(0xb7d39ee0, 20) == 0xee0b7d39
  {
  }

  lemma Group6()
    ensures Quad(Standard(), X(), After(6), 24) == After(7)
  {
    hide F;
    hide G;
    hide H;
    hide I;
    hide RotateLeft;
    hide Mix;
    Words6();
    Operation(24, X(), 0x570c43e0, 0xc9f162d4, 0xc28ab49d, 0x977efd2a, 0x3ade725b, 0x5bce4b67);
    Operation(25, X(), 0x977efd2a, 0x25bfae3b, 0xc9f162d4, 0xc28ab49d, 0x64b1ec29, 0x63d852c9);
    Operation(26, X(), 0xc28ab49d, 0x89980104, 0x25bfae3b, 0xc9f162d4, 0xd56dbcc0, 0x6f30355b);
    Operation(27, X(), 0xc9f162d4, 0xf8c8365f, 0x89980104, 0x25bfae3b, 0xb7d39ee0, 0xee0b7d39);
  }

  lemma Words7()
    ensures G(0xe6d3b398, 0xf8c8365f, 0x89980104) == 0xf0d0375b && RotateLeft(0xc073ce9b, 5) == 0x0e79d378
    ensures G(0xf54d8710, 0xe6d3b398, 0xf8c8365f) == 0xf65b8790 && RotateLeft(0xe94e96f5, 9) == 0x9d2debd2
    ensures G(0x927b72e2, 0xf54d8710, 0xe6d3b398) == 0x935f3680 && RotateLeft(0xf3966fb8, 14) == 0x9bee3ce5
    ensures G(0x2e69afc7, 0x927b72e2, 0xf54d8710) == 0x267bf7e2 && RotateLeft(0x9a79f804, 20) == 0x8049a79f
  {
  }

  lemma Group7()
    ensures Quad(Standard(), X(), After(7), 28) == After(8)
  {
    hide F;
    hide G;
    hide H;
    hide I;
    hide RotateLeft;
    hide Mix;
    Words7();
    Operation(28, X(), 0x25bfae3b, 0xe6d3b398, 0xf8c8365f, 0x89980104, 0xc073ce9b, 0x0e79d378);
    Operation(29, X(), 0x89980104, 0xf54d8710, 0xe6d3b398, 0xf8c8365f, 0xe94e96f5, 0x9d2debd2);
    Operation(30, X(), 0xf8c8365f, 0x927b72e2, 0xf54d8710, 0xe6d3b398, 0xf3966fb8, 0x9bee3ce5);
    Operation(31, X(), 0xe6d3b398, 0x2e69afc7, 0x927b72e2, 0xf54d8710, 0x9a79f804, 0x8049a79f);
  }

  lemma Words8()
    ensures H(0xaeb35766, 0x2e69afc7, 0x927b72e2) == 0x12a18a43 && RotateLeft(0x8060c10a, 4) == 0x060c10a8
    ensures H(0xb4bf680e, 0xaeb35766, 0x2e69afc7) == 0x346590af && RotateLeft(0x4e52fa12, 11) == 0x97d09272
    ensures H(0x4c8ffa80, 0xb4bf680e, 0xaeb35766) == 0x5683c5e8 && RotateLeft(0xf28ad6d1, 16) == 0xd6d1f28a
    ensures H(0x2361ed0a, 0x4c8ffa80, 0xb4bf680e) == 0xdb517f84 && RotateLeft(0x87ea0fc6, 23) == 0xe343f507
  {
  }

  lemma Group8()
    ensures Quad(Standard(), X(), After(8), 32) == After(9)
  {
    hide F;
    hide G;
    hide H;
    hide I;
    hide RotateLeft;
    hide Mix;
    Words8();
    Operation(32, X(), 0xf54d8710, 0xaeb35766, 0x2e69afc7, 0x927b72e2, 0x8060c10a, 0x060c10a8);
    Operation(33, X(), 0x927b72e2, 0xb4bf680e, 0xaeb35766, 0x2e69afc7, 0x4e52fa12, 0x97d09272);
    Operation(34, X(), 0x2e69afc7, 0x4c8ffa80, 0xb4bf680e, 0xaeb35766, 0xf28ad6d1, 0xd6d1f28a);
    Operation(35, X(), 0xaeb35766, 0x2361ed0a, 0x4c8ffa80, 0xb4bf680e, 0x87ea0fc6, 0xe343f507);
  }

  lemma Words9()
    ensures H(0x06a5e211, 0x2361ed0a, 0x4c8ffa80) == 0x694bf59b && RotateLeft(0x2b31ae52, 4) == 0xb31ae522
    ensures H(0xb9c0c733, 0x06a5e211, 0x2361ed0a) == 0x9c04c828 && RotateLeft(0xa8e704c2, 11) == 0x38261547
    ensures H(0xf1e6dc7a, 0xb9c0c733, 0x06a5e211) == 0x4e83f958 && RotateLeft(0x68a131c2, 16) == 0x31c268a1
    ensures H(0x23a9451b, 0xf1e6dc7a, 0xb9c0c733) == 0x6b8f5e52 && RotateLeft(0x30f4fcd3, 23) == 0x69987a7e
  {
  }

  lemma Group9()
    ensures Quad(Standard(), X(), After(9), 36) == After(10)
  {
    hide F;
    hide G;
    hide H;
    hide I;
    hide RotateLeft;
    hide Mix;
    Words9();
    Operation(36, X(), 0xb4bf680e, 0x06a5e211, 0x2361ed0a, 0x4c8ffa80, 0x2b31ae52, 0xb31ae522);
    Operation(37, X(), 0x4c8ffa80, 0xb9c0c733, 0x06a5e211, 0x2361ed0a, 0xa8e704c2, 0x38261547);
    Operation(38, X(), 0x2361ed0a, 0xf1e6dc7a, 0xb9c0c733, 0x06a5e211, 0x68a131c2, 0x31c268a1);
    Operation(39, X(), 0x06a5e211, 0x23a9451b, 0xf1e6dc7a, 0xb9c0c733, 0x30f4fcd3, 0x69987a7e);
  }

  lemma Words10()
    ensures H(0x8d41bf99, 0x23a9451b, 0xf1e6dc7a) == 0x5f0e26f8 && RotateLeft(0x416a6cf1, 4) == 0x16a6cf14
    ensures H(0xa3e88ead, 0x8d41bf99, 0x23a9451b) == 0x0d00742f && RotateLeft(0x4debdb04, 11) == 0x5ed8226f
    ensures H(0x02c0b11c, 0xa3e88ead, 0x8d41bf99) == 0x2c698028 && RotateLeft(0x95716435, 16) == 0x64359571
    ensures H(0x66f6468d, 0x02c0b11c, 0xa3e88ead) == 0xc7de793c && RotateLeft(0x5a28d053, 23) == 0x29ad1468
  {
  }

  lemma Group10()
    ensures Quad(Standard(), X(), After(10), 40) == After(11)
  {
    hide F;
    hide G;
    hide H;
    hide I;
    hide RotateLeft;
    hide Mix;
    Words10();
    Operation(40, X(), 0xb9c0c733, 0x8d41bf99, 0x23a9451b, 0xf1e6dc7a, 0x416a6cf1, 0x16a6cf14);
    Operation(41, X(), 0xf1e6dc7a, 0xa3e88ead, 0x8d41bf99, 0x23a9451b, 0x4debdb04, 0x5ed8226f);
    Operation(42, X(), 0x23a9451b, 0x02c0b11c, 0xa3e88ead, 0x8d41bf99, 0x95716435, 0x64359571);
    Operation(43, X(), 0x8d41bf99, 0x66f6468d, 0x02c0b11c, 0xa3e88ead, 0x5a28d053, 0x29ad1468);
  }

  lemma Words11()
    ensures H(0x90a35af5, 0x66f6468d, 0x02c0b11c) == 0xf495ad64 && RotateLeft(0x72530c4a, 4) == 0x2530c4a7
    ensures H(0xb5d41f9c, 0x90a35af5, 0x66f6468d) == 0x438103e4 && RotateLeft(0x2d1d4ee5, 11) == 0xea772968
    ensures H(0xa04b4904, 0xb5d41f9c, 0x90a35af5) == 0x853c0c6d && RotateLeft(0x0bd4cff2, 16) == 0xcff20bd4
    ensures H(0x703d54d8, 0xa04b4904, 0xb5d41f9c) == 0x65a20240 && RotateLeft(0x275d1e03, 23) == 0x0193ae8f
  {
  }

  lemma Group11()
    ensures Quad(Standard(), X(), After(11), 44) == After(12)
  {
    hide F;
    hide G;
    hide H;
    hide I;
    hide RotateLeft;
    hide Mix;
    Words11();
    Operation(44, X(), 0xa3e88ead, 0x90a35af5, 0x66f6468d, 0x02c0b11c, 0x72530c4a, 0x2530c4a7);
    Operation(45, X(), 0x02c0b11c, 0xb5d41f9c, 0x90a35af5, 0x66f6468d, 0x2d1d4ee5, 0xea772968);
    Operation(46, X(), 0x66f6468d, 0xa04b4904, 0xb5d41f9c, 0x90a35af5, 0x0bd4cff2, 0xcff20bd4);
    Operation(47, X(), 0x90a35af5, 0x703d54d8, 0xa04b4904, 0xb5d41f9c, 0x275d1e03, 0x0193ae8f);
  }

  lemma Words12()
    ensures I(0x71d10367, 0x703d54d8, 0xa04b4904) == 0x0fc8e327 && RotateLeft(0x1e298768, 6) == 0x8a61da07
    ensures I(0xfc32dd6e, 0x71d10367, 0x703d54d8) == 0x8e23fc08 && RotateLeft(0x719a44a3, 10) == 0x69128dc6
    ensures I(0x65456b34, 0xfc32dd6e, 0x71d10367) == 0x135d22d2 && RotateLeft(0x2f2e9c21, 15) == 0x4e109797
    ensures I(0xb35602cb, 0x65456b34, 0xfc32dd6e) == 0xd69a49ef && RotateLeft(0xbd766404, 21) == 0x8097aecc
  {
  }

  lemma Group12()
    ensures Quad(Standard(), X(), After(12), 48) == After(13)
  {
    hide F;
    hide G;
    hide H;
    hide I;
    hide RotateLeft;
    hide Mix;
    Words12();
    Operation(48, X(), 0xb5d41f9c, 0x71d10367, 0x703d54d8, 0xa04b4904, 0x1e298768, 0x8a61da07);
    Operation(49, X(), 0xa04b4904, 0xfc32dd6e, 0x71d10367, 0x703d54d8, 0x719a44a3, 0x69128dc6);
    Operation(50, X(), 0x703d54d8, 0x65456b34, 0xfc32dd6e, 0x71d10367, 0x2f2e9c21, 0x4e109797);
    Operation(51, X(), 0x71d10367, 0xb35602cb, 0x65456b34, 0xfc32dd6e, 0xbd766404, 0x8097aecc);
  }

  lemma Words13()
    ensures I(0x33edb197, 0xb35602cb, 0x65456b34) == 0x08a9b714 && RotateLeft(0x6a37ee45, 6) == 0x8dfb915a
    ensures I(0xc1e942f1, 0x33edb197, 0xb35602cb) == 0xfe044e62 && RotateLeft(0x62c5f495, 10) == 0x17d2558b
    ensures I(0xd9bb987c, 0xc1e942f1, 0x33edb197) == 0x1c529c8d && RotateLeft(0xcf9893d5, 15) == 0x49eae7cc
    ensures I(0x23a68048, 0xd9bb987c, 0xc1e942f1) == 0xe60d2532 && RotateLeft(0x07e69aff, 21) == 0x5fe0fcd3
  {
  }

  lemma Group13()
    ensures Quad(Standard(), X(), After(13), 52) == After(14)
  {
    hide F;
    hide G;
    hide H;
    hide I;
    hide RotateLeft;
    hide Mix;
    Words13();
    Operation(52, X(), 0xfc32dd6e, 0x33edb197, 0xb35602cb, 0x65456b34, 0x6a37ee45, 0x8dfb915a);
    Operation(53, X(), 0x65456b34, 0xc1e942f1, 0x33edb197, 0xb35602cb, 0x62c5f495, 0x17d2558b);
    Operation(54, X(), 0xb35602cb, 0xd9bb987c, 0xc1e942f1, 0x33edb197, 0xcf9893d5, 0x49eae7cc);
    Operation(55, X(), 0x33edb197, 0x23a68048, 0xd9bb987c, 0xc1e942f1, 0x07e69aff, 0x5fe0fcd3);
  }

  lemma Words14()
    ensures I(0x83877d1b, 0x23a68048, 0xd9bb987c) == 0x8461ffd3 && RotateLeft(0xb5f3c113, 6) == 0x7cf044ed
    ensures I(0x0077c208, 0x83877d1b, 0x23a68048) == 0x5ff882a4 && RotateLeft(0x37e10200, 10) == 0x840800df
    ensures I(0x847fc2e7, 0x0077c208, 0x83877d1b) == 0xfc0800ef && RotateLeft(0xc3303ec4, 15) == 0x1f626198
    ensures I(0xa3e2247f, 0x847fc2e7, 0x0077c208) == 0x7b95ff18 && RotateLeft(0x4d258dd4, 21) == 0xba89a4b1
  {
  }

  lemma Group14()
    ensures Quad(Standard(), X(), After(14), 56) == After(15)
  {
    hide F;
    hide G;
    hide H;
    hide I;
    hide RotateLeft;
    hide Mix;
    Words14();
    Operation(56, X(), 0xc1e942f1, 0x83877d1b, 0x23a68048, 0xd9bb987c, 0xb5f3c113, 0x7cf044ed);
    Operation(57, X(), 0xd9bb987c, 0x0077c208, 0x83877d1b, 0x23a68048, 0x37e10200, 0x840800df);
    Operation(58, X(), 0x23a68048, 0x847fc2e7, 0x0077c208, 0x83877d1b, 0xc3303ec4, 0x1f626198);
    Operation(59, X(), 0x83877d1b, 0xa3e2247f, 0x847fc2e7, 0x0077c208, 0x4d258dd4, 0xba89a4b1);
  }

  lemma Words15()
    ensures I(0x5e6bc930, 0xa3e2247f, 0x847fc2e7) == 0xdc09d947 && RotateLeft(0x48488c42, 6) == 0x12231092
    ensures I(0x708ed9c2, 0x5e6bc930, 0xa3e2247f) == 0x22f412f2 && RotateLeft(0x64aec80e, 10) == 0xbb203992
    ensures I(0x2baf1354, 0x708ed9c2, 0x5e6bc930) == 0xdb31ee1d && RotateLeft(0x16574fc0, 15) == 0xa7e00b2b
    ensures I(0xd38f1e7f, 0x2baf1354, 0x708ed9c2) == 0xf4502d2b && RotateLeft(0x3e42c9ec, 21) == 0x3d87c859
  {
  }

  lemma Group15()
    ensures Quad(Standard(), X(), After(15), 60) == After(16)
  {
    hide F;
    hide G;
    hide H;
    hide I;
    hide RotateLeft;
    hide Mix;
    Words15();
    Operation(60, X(), 0x0077c208, 0x5e6bc930, 0xa3e2247f, 0x847fc2e7, 0x48488c42, 0x12231092);
    Operation(61, X(), 0x847fc2e7, 0x708ed9c2, 0x5e6bc930, 0xa3e2247f, 0x64aec80e, 0xbb203992);
    Operation(62, X(), 0xa3e2247f, 0x2baf1354, 0x708ed9c2, 0x5e6bc930, 0x16574fc0, 0xa7e00b2b);
    Operation(63, X(), 0x5e6bc930, 0xd38f1e7f, 0x2baf1354, 0x708ed9c2, 0x3e42c9ec, 0x3d87c859);
  }

  lemma Group(j: nat)
    requires j < 16
    ensures Quad(Standard(), X(), After(j), 4 * j) == After(j + 1)
  {
    hide *;
    match j
    case 0 => Group0();
    case 1 => Group1();
    case 2 => Group2();
    case 3 => Group3();
    case 4 => Group4();
    case 5 => Group5();
    case 6 => Group6();
    case 7 => Group7();
    case 8 => Group8();
    case 9 => Group9();
    case 10 => Group10();
    case 11 => Group11();
    case 12 => Group12();
    case 13 => Group13();
    case 14 => Group14();
    case _ => Group15();
  }

  lemma {:induction false} Remaining(j: nat)
    requires j <= 16
    ensures Quads(Standard(), X(), After(j), j, 16) == After(16)
    decreases 16 - j
  {
    hide Quad;
    hide After;
    hide X;
    if j < 16 {
      Group(j);
      Remaining(j + 1);
    }
  }

  lemma AlphabetTransformed(block: Block)
    requires DecodeWords(block) == X()
    ensures Transform(Standard())(Initial(), block) == Words(0xd7d3fcc3, 0x00e49261, 0x6c49fb7d, 0x3be167ca)
  {
    hide Quads;
    hide DecodeWords;
    hide X;
    Remaining(0);
  }

  /** The digest of the alphabet. */
  lemma AlphabetDigest()
    ensures Digest(Transform(Standard()), Alphabet()) == [
      0xc3, 0xfc, 0xd3, 0xd7, 0x61, 0x92, 0xe4, 0x00, 0x7d, 0xfb, 0x49, 0x6c, 0xca, 0x67, 0xe1, 0x3b]
  {
    hide Padded;
    hide Transform;
    hide X;
    hide EncodeWords;
    hide EncodeWord;
    hide DecodeWords;
    var m := Padded(Alphabet());
    AlphabetPadded();
    WordsRoundTrip(X());
    AlphabetTransformed(m);
    OneBlock(Transform(Standard()), Initial(), m);
    DigestBytes();
  }

  lemma OneBlock(f: BlockFunction, w: Words, block: Block)
    ensures Digested(f, w, block) == f(w, block)
  {
    assert block[..64] == block && block[64..] == [];
  }

  lemma DigestBytes()
    ensures EncodeWords(AllWords(Words(0xd7d3fcc3, 0x00e49261, 0x6c49fb7d, 0x3be167ca))) == [
      0xc3, 0xfc, 0xd3, 0xd7, 0x61, 0x92, 0xe4, 0x00, 0x7d, 0xfb, 0x49, 0x6c, 0xca, 0x67, 0xe1, 0x3b]
  {
    hide EncodeWords;
    FourWords(Words(0xd7d3fcc3, 0x00e49261, 0x6c49fb7d, 0x3be167ca));
  }
}
