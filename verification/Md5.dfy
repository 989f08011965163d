/** Streaming MD5 (RFC 1321, sections 3.1 to 3.5): any split of a message into updates gives the digest of the whole. */
module Md5 {
  import opened Bits
  import opened Md5Block
  import opened Sequences
  import opened Wrappers

  type BlockFunction = (Words, Block) -> Words

  const TWO_64: nat := 0x1_0000_0000_0000_0000

  function Initial(): Words {
    Words(0x67452301, 0xefcdab89, 0x98badcfe, 0x10325476)
  }

  function AllWords(w: Words): seq<uint4> {
    [w.a, w.b, w.c, w.d]
  }

  /** How many bytes of `m` belong to complete blocks. */
  function Whole(m: seq<byte>): (n: nat)
    ensures n <= |m| < n + 64 && n % 64 == 0
  {
    |m| - |m| % 64
  }

  /** The state after all blocks of `m`. */
  function Digested(block: BlockFunction, w: Words, m: seq<byte>): Words
    requires |m| % 64 == 0
    decreases |m|
  {
    if m == [] then w else Digested(block, block(w, m[..64]), m[64..])
  }

  lemma {:induction false} DigestedSplit(f: BlockFunction, w: Words, m: seq<byte>, n: seq<byte>)
    requires |m| % 64 == 0 && |n| % 64 == 0
    ensures Digested(f, w, m + n) == Digested(f, Digested(f, w, m), n)
    decreases |m|
  {
    if m == [] {
      assert m + n == n;
    } else {
      assert (m + n)[..64] == m[..64] && (m + n)[64..] == m[64..] + n;
      DigestedSplit(f, f(w, m[..64]), m[64..], n);
    }
  }

  /** One more block at the end. */
  lemma DigestedBlock(f: BlockFunction, w: Words, m: seq<byte>, block: Block)
    requires |m| % 64 == 0
    ensures Digested(f, w, m + block) == f(Digested(f, w, m), block)
  {
    DigestedSplit(f, w, m, block);
    assert block[..64] == block && block[64..] == [];
    assert Digested(f, f(Digested(f, w, m), block), []) == f(Digested(f, w, m), block);
  }

  function Zeros(n: nat): (r: seq<byte>)
    ensures |r| == n
  {
    seq(n, i => 0)
  }

  /** Section 3.1: a one bit, then zeros until 56 bytes of a block are used. */
  function Padding(n: nat): (r: seq<byte>)
    ensures 1 <= |r| <= 64 && (n + |r|) % 64 == 56
  {
    [0x80] + Zeros(if n % 64 < 56 then 55 - n % 64 else 119 - n % 64)
  }

  /** Section 3.2: the length in bits, modulo 2^64, low-order word and low-order byte first. */
  function LengthBytes(n: nat): (r: seq<byte>)
    ensures |r| == 8
  {
    var bits := 8 * n % TWO_64;
    EncodeWord(bits % TWO_32) + EncodeWord(bits / TWO_32)
  }

  lemma PaddingIs(n: nat, i: nat)
    requires i < |Padding(n)|
    ensures Padding(n)[i] == if i == 0 then 0x80 else 0
  {
  }

  /** Read as two words, low-order word first, the last eight bytes are the length in bits modulo 2^64. */
  lemma LengthIs(n: nat)
    ensures var s := LengthBytes(n); 
      DecodeWord(s[..4]) + TWO_32 * DecodeWord(s[4..]) == 8 * n % 0x1_0000_0000_0000_0000
  {
    hide EncodeWord;
    hide DecodeWord;
    var bits := 8 * n % TWO_64;
    var s := LengthBytes(n);
    assert s[..4] == EncodeWord(bits % TWO_32) && s[4..] == EncodeWord(bits / TWO_32);
    WordRoundTrip(bits % TWO_32);
    WordRoundTrip(bits / TWO_32);
  }

  lemma EightMore(k: nat)
    requires k % 64 == 56
    ensures (k + 8) % 64 == 0
  {
  }

  function Padded(m: seq<byte>): (r: seq<byte>)
    ensures |r| % 64 == 0 && m <= r
  {
    EightMore(|m| + |Padding(|m|)|);
    m + Padding(|m|) + LengthBytes(|m|)
  }

  /** The message digest of `m`. */
  function Digest(f: BlockFunction, m: seq<byte>): (r: seq<byte>)
    ensures |r| == 16
  {
    EncodeWords(AllWords(Digested(f, Initial(), Padded(m))))
  }

  // ---- the 32-bit arithmetic of the byte counter

  /** The two counter words are the length in bits modulo 2^64. */
  predicate Counts(low: int, high: int, n: nat) {
    0 <= low < TWO_32 && 0 <= high < TWO_32 && low + TWO_32 * high == 8 * n % TWO_64
  }

  lemma CountIndex(low: int, high: int, n: nat)
    requires Counts(low, high, n)
    ensures low / 8 % 64 == n % 64
  {
    var q := 8 * n / TWO_64;
    var z := 0x80_0000_0000_0000 * q + 0x80_0000 * high;
    assert low == 8 * (n - 64 * z);
    SameRemainder(n - 64 * z, z);
  }

  lemma SameRemainder(k: int, z: int)
    ensures (k + 64 * z) % 64 == k % 64
  {
  }

  /** `j` blocks in `n` bytes: all of them when less than a block is left. */
  lemma Blocks(n: nat, j: nat)
    requires 64 * j <= n
    ensures 64 * j <= n - n % 64
    ensures n < 64 * j + 64 ==> 64 * j == n - n % 64
  {
  }

  lemma TailIs(index: nat, length: nat)
    requires index < 64 && 64 - index <= length
    ensures (length - (64 - index)) % 64 == (length + index) % 64
  {
    SameRemainder(length - (64 - index), 1);
  }

  /** The new counter words, with the carry detected by the wrap-around of the low word. */
  lemma CountAdds(low: int, high: int, n: nat, length: nat, low': int, high': int)
    requires Counts(low, high, n) && length < TWO_32
    requires var shifted := 8 * length % TWO_32;
      && low' == (low + shifted) % TWO_32
      && high' == ((if low' < shifted then (high + 1) % TWO_32 else high) + length / 0x2000_0000) % TWO_32
    ensures Counts(low', high', n + length)
  {
    var shifted := 8 * length % TWO_32;
    var top := length / 0x2000_0000;
    assert 8 * length == shifted + TWO_32 * top;
    var carry := if low + shifted >= TWO_32 then 1 else 0;
    assert low' == low + shifted - TWO_32 * carry;
    assert low' < shifted <==> carry == 1;
    var wrapped := (high + carry + top) / TWO_32;
    assert high' == (high + carry + top) % TWO_32 by { HighWord(high, carry, top); }
    assert high' == high + carry + top - TWO_32 * wrapped;
    var q := 8 * n / TWO_64;
    assert low' + TWO_32 * high' == 8 * (n + length) - TWO_64 * (q + wrapped);
    ModIs(8 * (n + length), q + wrapped, low' + TWO_32 * high');
  }

  lemma HighWord(high: int, carry: int, top: int)
    requires 0 <= high < TWO_32 && 0 <= carry <= 1 && 0 <= top < 8
    ensures ((if carry == 1 then (high + 1) % TWO_32 else high) + top) % TWO_32 == (high + carry + top) % TWO_32
  {
  }

  lemma ModIs(a: int, q: int, r: int)
    requires a == TWO_64 * q + r && 0 <= r < TWO_64
    ensures a % TWO_64 == r
  {
  }

  /** Where the last partial block of an update starts, when `index` bytes are buffered. */
  function TailStart(index: nat, length: nat): nat
    requires index < 64
  {
    if length < 64 - index then 0 else length - (length + index) % 64
  }

  /** update() is safe exactly when this does not wrap; it is what a caller can check beforehand. */
  predicate NoWrap(index: nat, length: nat)
    requires index < 64
  {
    TailStart(index, length) + 64 < TWO_32
  }

  /** At the tail the loop's 32-bit guard is false, as it should be, if and only if nothing wraps: for the lengths
      just under 2^32 that violate NoWrap it is true, and the loop runs on past the end of the input. */
  lemma GuardEnds(index: nat, length: nat)
    requires index < 64 && 64 - index <= length < TWO_32
    ensures !((TailStart(index, length) + 64) % TWO_32 <= length) <==> NoWrap(index, length)
  {
  }

  class MD5 {
    const ops: WordOps
    var finalized: bool
    const buffer: array<byte>
    const count: array<uint4>
    const state: array<uint4>
    const digest: array<byte>
    ghost var fed: seq<byte>

    ghost predicate Shape()
      reads this
    {
      && buffer.Length == 64 && count.Length == 2 && state.Length == 4 && digest.Length == 16
      && count != state && buffer != digest
    }

    function Current(): Words
      requires Shape()
      reads this, state
    {
      Words(state[0], state[1], state[2], state[3])
    }

    /** The state has absorbed all complete blocks, the buffer holds the rest, and the counter is the length. */
    ghost predicate Valid()
      reads this, buffer, count, state, digest
    {
      && Shape()
      && (!finalized ==>
            && Counts(count[0], count[1], |fed|)
            && Current() == Digested(Transform(ops), Initial(), fed[..Whole(fed)])
            && buffer[..|fed| % 64] == fed[Whole(fed)..])
      && (finalized ==> digest[..] == Digest(Transform(ops), fed))
    }

    constructor ()
      ensures ops == Standard() && Valid() && !finalized && fed == []
      ensures fresh(buffer) && fresh(count) && fresh(state) && fresh(digest)
    {
      ops := Standard();
      finalized := false;
      buffer := new byte[64];
      count := new uint4[2];
      state := new uint4[4];
      digest := new byte[16];
      fed := [];
      new;
      count[0], count[1] := 0, 0;
      state[0], state[1], state[2], state[3] := 0x67452301, 0xefcdab89, 0x98badcfe, 0x10325476;
    }

    /** Applies the block function to one block. */
    method TransformBlock(block: Block)
      requires Shape()
      modifies state
      ensures Current() == Transform(ops)(old(Current()), block)
    {
      hide Quads;
      hide DecodeWords;
      var w := Words(state[0], state[1], state[2], state[3]);
      var x := Decode(block);
      var r := Rounds(ops, x, w);
      state[0], state[1] := ops.add(w.a, r.a), ops.add(w.b, r.b);
      state[2], state[3] := ops.add(w.c, r.c), ops.add(w.d, r.d);
    }

    /** Bytes to words. */
    static method Decode(input: seq<byte>) returns (output: seq<uint4>)
      requires |input| % 4 == 0
      ensures output == DecodeWords(input)
    {
      output := [];
      var j := 0;
      while j < |input|
        invariant j <= |input| && j % 4 == 0 && |output| == j / 4
        invariant forall i :: 0 <= i < |output| ==> output[i] == DecodeWords(input)[i]
      {
        DecodeWordsAt(input, j / 4);
        output := output + [DecodeWord(input[j..j + 4])];
        j := j + 4;
      }
    }

    /** Words to bytes. */
    static method Encode(input: seq<uint4>) returns (output: seq<byte>)
      ensures output == EncodeWords(input)
    {
      output := [];
      for i := 0 to |input|
        invariant output == EncodeWords(input[..i])
      {
        assert input[..i + 1] == input[..i] + [input[i]];
        EncodeWordsSnoc(input[..i], input[i]);
        output := output + EncodeWord(input[i]);
      }
      assert input[..|input|] == input;
    }

    /** Copies `bytes` into the buffer from `index` on. */
    method Fill(index: nat, bytes: seq<byte>)
      requires Shape() && index + |bytes| <= 64
      modifies buffer
      ensures buffer[..index + |bytes|] == old(buffer[..index]) + bytes
    {
      for i := 0 to |bytes|
        invariant buffer[..index] == old(buffer[..index])
        invariant buffer[index..index + i] == bytes[..i]
      {
        buffer[index + i] := bytes[i];
      }
      assert buffer[..index + |bytes|] == buffer[..index] + buffer[index..index + |bytes|];
    }

    method UpdateCount(length: nat)
      requires Shape() && length < TWO_32
      modifies count
      ensures forall n: nat :: Counts(old(count[0]), old(count[1]), n) ==> Counts(count[0], count[1], n + length)
    {
      var shifted := 8 * length % TWO_32;
      count[0] := (count[0] + shifted) % TWO_32;
      if count[0] < shifted {
        count[1] := (count[1] + 1) % TWO_32;
      }
      count[1] := (count[1] + length / 0x2000_0000) % TWO_32;
      forall n: nat | Counts(old(count[0]), old(count[1]), n) ensures Counts(count[0], count[1], n + length) {
        CountAdds(old(count[0]), old(count[1]), n, length, count[0], count[1]);
      }
    }

    /** Transforms the complete blocks of `input` from `i` on. */
    method TransformAll(input: seq<byte>, start: nat) returns (i: nat)
      requires Shape() && start <= |input| < TWO_32 && |input| - (|input| - start) % 64 + 64 < TWO_32
      modifies state
      ensures i == |input| - (|input| - start) % 64
      ensures Current() == Digested(Transform(ops), old(Current()), input[start..i])
    {
      hide Transform;
      i := start;
      ghost var j := 0;
      assert input[start..start] == [];
      while (i + 64) % TWO_32 <= |input|
        invariant start <= i <= |input| && i == start + 64 * j
        invariant Current() == Digested(Transform(ops), old(Current()), input[start..i])
        decreases |input| - i
      {
        Blocks(|input| - start, j);
        DigestedBlock(Transform(ops), old(Current()), input[start..i], input[i..i + 64]);
        assert input[start..i] + input[i..i + 64] == input[start..i + 64];
        TransformBlock(input[i..i + 64]);
        i := (i + 64) % TWO_32;
        j := j + 1;
      }
      Blocks(|input| - start, j);
    }

    /** Completes the buffered block and transforms all complete blocks; what remains of the input starts at `i`. */
    method Absorb(input: seq<byte>, index: nat) returns (i: nat)
      requires Shape() && |input| < TWO_32 && index == |fed| % 64 && 64 - index <= |input| && NoWrap(index, |input|)
      requires Current() == Digested(Transform(ops), Initial(), fed[..Whole(fed)])
      requires buffer[..index] == fed[Whole(fed)..]
      modifies buffer, state
      ensures i <= |input| && |fed + input| % 64 == |input| - i && (fed + input)[Whole(fed + input)..] == input[i..]
      ensures Current() == Digested(Transform(ops), Initial(), (fed + input)[..Whole(fed + input)])
    {
      hide Transform;
      hide Digested;
      var firstPart := 64 - index;
      ghost var filled := fed[Whole(fed)..] + input[..firstPart];
      Fill(index, input[..firstPart]);
      assert buffer[..64] == buffer[..];
      TransformBlock(buffer[..]);
      DigestedBlock(Transform(ops), Initial(), fed[..Whole(fed)], filled);
      TailIs(index, |input|);
      i := TransformAll(input, firstPart);
      Rebuilt(fed, input, firstPart, i);
      DigestedSplit(Transform(ops), Initial(), fed[..Whole(fed)] + filled, input[firstPart..i]);
    }

    /** Buffers what no complete block holds. */
    method Keep(index: nat, rest: seq<byte>, ghost all: seq<byte>)
      requires Shape() && !finalized && index + |rest| == |all| % 64 && buffer[..index] + rest == all[Whole(all)..]
      requires Counts(count[0], count[1], |all|) && Current() == Digested(Transform(ops), Initial(), all[..Whole(all)])
      modifies this`fed, buffer
      ensures Valid() && !finalized && fed == all
    {
      hide Transform;
      hide Digested;
      hide Counts;
      hide Digest;
      Fill(index, rest);
      fed := all;
    }

    method Update(input: seq<byte>)
      requires Valid() && !finalized && |input| < TWO_32 && NoWrap(|fed| % 64, |input|)
      modifies this`fed, buffer, count, state
      ensures Valid() && !finalized && fed == old(fed) + input
    {
      hide Transform;
      hide Digested;
      hide Counts;
      hide Digest;
      hide NoWrap;
      hide Whole;
      ghost var all := fed + input;
      var length := |input|;
      CountIndex(count[0], count[1], |fed|);
      var index := count[0] / 8 % 64;
      UpdateCount(length);
      var i := 0;
      if length >= 64 - index {
        i := Absorb(input, index);
        index := 0;
      } else {
        Kept(fed, input);
      }
      RestBuffered(index, buffer[..index], input[i..], all);
      Keep(index, input[i..], all);
    }

    /** What is buffered and the rest of the input are what no complete block holds. */
    static lemma RestBuffered(index: nat, buffered: seq<byte>, rest: seq<byte>, all: seq<byte>)
      requires |buffered| == index
      requires (index == 0 && all[Whole(all)..] == rest) || all[Whole(all)..] == buffered + rest
      ensures buffered + rest == all[Whole(all)..] && index + |rest| == |all| % 64 < 64
    {
    }

    static lemma Rebuilt(fed: seq<byte>, input: seq<byte>, firstPart: nat, i: nat)
      requires firstPart == 64 - |fed| % 64 && firstPart <= i <= |input| && i == |input| - (|input| - firstPart) % 64
      ensures var all := fed + input;
        && (i - firstPart) % 64 == 0 && (Whole(fed) + 64) % 64 == 0
        && all[..Whole(all)] == fed[..Whole(fed)] + (fed[Whole(fed)..] + input[..firstPart]) + input[firstPart..i]
        && all[Whole(all)..] == input[i..] && |all| % 64 == |input| - i
    {
      var all := fed + input;
      WholeIs(|fed|, |input|, firstPart);
      assert Whole(all) == |fed| + i;
      assert fed[..Whole(fed)] + (fed[Whole(fed)..] + input[..firstPart]) + input[firstPart..i] == fed + input[..i];
    }

    static lemma WholeIs(fed: nat, length: nat, firstPart: nat)
      requires firstPart == 64 - fed % 64 && firstPart <= length
      ensures (fed + length) % 64 == (length - firstPart) % 64
    {
      SameRemainder(length - firstPart, fed / 64 + 1);
    }

    static lemma Kept(fed: seq<byte>, input: seq<byte>)
      requires |input| < 64 - |fed| % 64
      ensures var all := fed + input;
        && Whole(all) == Whole(fed) && all[..Whole(all)] == fed[..Whole(fed)]
        && all[Whole(all)..] == fed[Whole(fed)..] + input && |all| % 64 == |fed| % 64 + |input|
    {
      var all := fed + input;
      assert |all| % 64 == |fed| % 64 + |input|;
    }

    method WriteDigest(words: seq<byte>)
      requires Shape() && |words| == 16
      modifies digest
      ensures digest[..] == words
    {
      for i := 0 to 16
        invariant digest[..i] == words[..i]
      {
        digest[i] := words[i];
      }
    }

    method FinalizeDigest()
      requires Valid()
      modifies this, buffer, count, state, digest
      ensures Valid() && finalized && fed == old(fed) && digest[..] == Digest(Transform(ops), fed)
    {
      hide Transform;
      hide Digested;
      hide Counts;
      hide EncodeWords;
      if finalized {
        return;
      }
      ghost var m := fed;
      var bits := Encode([count[0], count[1]]);
      CountIndex(count[0], count[1], |m|);
      var index := count[0] / 8 % 64;
      var padLen := if index < 56 then 56 - index else 120 - index;
      var padding := [0x80] + Zeros(padLen - 1);
      assert padding == Padding(|m|);
      BitsAre(count[0], count[1], |m|);
      assert bits == LengthBytes(|m|);
      Update(padding);
      Update(bits);
      assert fed == Padded(m);
      assert fed[..Whole(fed)] == fed;
      var words := Encode(state[..]);
      assert state[..] == AllWords(Current());
      WriteDigest(words);
      forall i | 0 <= i < 64 { buffer[i] := 0; }
      count[0], count[1] := 0, 0;
      fed := m;
      finalized := true;
    }

    static lemma BitsAre(low: uint4, high: uint4, n: nat)
      requires Counts(low, high, n)
      ensures EncodeWords([low, high]) == LengthBytes(n)
    {
      assert [low, high][1..] == [high] && [high][1..] == [];
      assert 8 * n % TWO_64 % TWO_32 == low && 8 * n % TWO_64 / TWO_32 == high;
    }
  }

  /** Feeding the parts one by one gives the digest of their concatenation, however the message was split. */
  method DigestOf(parts: seq<seq<byte>>) returns (d: seq<byte>)
    requires forall i :: 0 <= i < |parts| ==> |parts[i]| < TWO_32 && NoWrap(|Flatten(parts[..i])| % 64, |parts[i]|)
    ensures d == Digest(Transform(Standard()), Flatten(parts))
  {
    var md5 := new MD5();
    for i := 0 to |parts|
      invariant md5.Valid() && !md5.finalized && md5.fed == Flatten(parts[..i])
      invariant fresh(md5) && fresh(md5.buffer) && fresh(md5.count) && fresh(md5.state) && fresh(md5.digest)
    {
      assert parts[..i + 1][..i] == parts[..i];
      md5.Update(parts[i]);
    }
    assert parts[..|parts|] == parts;
    md5.FinalizeDigest();
    d := md5.digest[..];
  }
}
