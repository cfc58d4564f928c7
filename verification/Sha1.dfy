/** utils/sha1.cpp against section 6.1 of FIPS 180-4. */
module Sha1 {
  import opened Bytes
  import opened HashPadding
  import opened Words

  // ----- the standard

  function Ch(x: word, y: word, z: word): word { (x & y) ^ (!x & z) }
  function Parity(x: word, y: word, z: word): word { x ^ y ^ z }
  function Maj(x: word, y: word, z: word): word { (x & y) ^ (x & z) ^ (y & z) }

  function F(t: nat, x: word, y: word, z: word): word {
    if t < 20 then Ch(x, y, z) else if 40 <= t < 60 then Maj(x, y, z) else Parity(x, y, z)
  }

  function K(t: nat): word {
    if t < 20 then 0x5a827999 else if t < 40 then 0x6ed9eba1 else if t < 60 then 0x8f1bbcdc else 0xca62c1d6
  }

  const INITIAL: seq<word> := [0x67452301, 0xefcdab89, 0x98badcfe, 0x10325476, 0xc3d2e1f0]

  /** The message schedule. */
  function W(block: seq<byte>, t: nat): word
    requires |block| == CHUNK
  {
    if t < 16 then BigWordAt(block, t)
    else Rotl(Xor4(W(block, t - 3), W(block, t - 8), W(block, t - 14), W(block, t - 16)), 1)
  }

  function Xor4(x: word, y: word, z: word, u: word): word { x ^ y ^ z ^ u }

  datatype Regs = Regs(a: word, b: word, c: word, d: word, e: word)

  function Round(r: Regs, t: nat, w: word): Regs {
    var temp := Plus5(Rotl(r.a, 5), F(t, r.b, r.c, r.d), r.e, K(t), w);
    Regs(temp, r.a, Rotl(r.b, 30), r.c, r.d)
  }

  function Load(H: seq<word>): Regs
    requires |H| == 5
  {
    Regs(H[0], H[1], H[2], H[3], H[4])
  }

  function Rounds(H: seq<word>, block: seq<byte>, t: nat): Regs
    requires |H| == 5 && |block| == CHUNK
  {
    if t == 0 then Load(H) else Round(Rounds(H, block, t - 1), t - 1, W(block, t - 1))
  }

  function Add(H: seq<word>, r: Regs): (s: seq<word>)
    requires |H| == 5
    ensures |s| == 5
  {
    [Plus(H[0], r.a), Plus(H[1], r.b), Plus(H[2], r.c), Plus(H[3], r.d), Plus(H[4], r.e)]
  }

  /** The hash value after the first n blocks of the padded message. */
  function HashValue(message: seq<byte>, n: nat): (H: seq<word>)
    requires n * CHUNK <= |Padded(message, false)|
    ensures |H| == 5
  {
    if n == 0 then INITIAL
    else
      var H := HashValue(message, n - 1);
      Add(H, Rounds(H, Block(message, false, n - 1), 80))
  }

  function Digest(message: seq<byte>): seq<byte> {
    BigMemory(HashValue(message, |Padded(message, false)| / CHUNK))
  }

  // ----- the forms the constructor uses

  function ChooseOr(b: word, c: word, d: word): word { (b & c) | (!b & d) }
  function MajorityOr(b: word, c: word, d: word): word { (b & c) | (b & d) | (c & d) }

  /** With OR in place of XOR the choice and the majority are the same functions. */
  lemma OrFormsAgree(b: word, c: word, d: word)
    ensures ChooseOr(b, c, d) == Ch(b, c, d)
    ensures MajorityOr(b, c, d) == Maj(b, c, d)
  {
    ChooseForms(b, c, d);
    MajorityForms(b, c, d);
  }

  lemma ChooseForms(b: word, c: word, d: word)
    ensures (b & c) | (!b & d) == (b & c) ^ (!b & d)
  {
  }

  lemma MajorityForms(b: word, c: word, d: word)
    ensures (b & c) | (b & d) | (c & d) == (b & c) ^ (b & d) ^ (c & d)
  {
  }

  // ----- the constructor

  method Schedule(words: array<byte>) returns (w: array<word>)
    requires words.Length == CHUNK
    ensures w.Length == 80 && fresh(w)
    ensures forall t :: 0 <= t < 80 ==> w[t] == W(words[..], t)
  {
    hide W, LittleWord, Swap, Rotl, Xor4;
    ghost var block := words[..];
    w := new word[80](_ => 0);
    for i := 0 to 16
      invariant forall t :: 0 <= t < i ==> w[t] == W(block, t)
    {
      assert words[4 * i..4 * i + 4] == block[4 * i..4 * i + 4];
      LoadsWord(block, i);
      w[i] := Swap(LittleWord(words[4 * i..4 * i + 4]));
    }
    for i := 16 to 80
      invariant forall t :: 0 <= t < i ==> w[t] == W(block, t)
    {
      ComputesWord(block, i);
      w[i] := Rotl(Xor4(w[i - 3], w[i - 8], w[i - 14], w[i - 16]), 1);
    }
  }

  lemma LoadsWord(block: seq<byte>, i: nat)
    requires |block| == CHUNK && i < 16
    ensures Swap(LittleWord(block[4 * i..4 * i + 4])) == W(block, i)
  {
    SwapLoads(block[4 * i..4 * i + 4]);
  }

  lemma ComputesWord(block: seq<byte>, i: nat)
    requires |block| == CHUNK && 16 <= i < 80
    ensures W(block, i) == Rotl(Xor4(W(block, i - 3), W(block, i - 8), W(block, i - 14), W(block, i - 16)), 1)
  {
    hide Rotl, Xor4, BigWordAt;
  }

  /** The 80 rounds, in five registers; `k` holds the constant and then the new value of `a`. */
  method RunRounds(H: array<word>, w: array<word>, ghost block: seq<byte>) returns (r: Regs)
    requires H.Length == 5 && w.Length == 80 && |block| == CHUNK
    requires forall t :: 0 <= t < 80 ==> w[t] == W(block, t)
    ensures r == Rounds(H[..], block, 80)
  {
    hide W, Ch, Parity, Maj, ChooseOr, MajorityOr, Rotl, Plus5;
    var a, b, c, d, e := H[0], H[1], H[2], H[3], H[4];
    var f: word, k: word;
    for i := 0 to 80
      invariant Regs(a, b, c, d, e) == Rounds(H[..], block, i)
    {
      OrFormsAgree(b, c, d);
      if i < 20 {
        f := ChooseOr(b, c, d);
        k := 0x5a827999;
      } else if i < 40 {
        f := Parity(b, c, d);
        k := 0x6ed9eba1;
      } else if i < 60 {
        f := MajorityOr(b, c, d);
        k := 0x8f1bbcdc;
      } else {
        f := Parity(b, c, d);
        k := 0xca62c1d6;
      }
      assert f == F(i, b, c, d) && k == K(i);
      k := Plus5(Rotl(a, 5), f, e, k, w[i]);
      e := d;
      d := c;
      c := Rotl(b, 30);
      b := a;
      a := k;
    }
    r := Regs(a, b, c, d, e);
  }

  method AddInto(H: array<word>, r: Regs)
    requires H.Length == 5
    modifies H
    ensures H[..] == Add(old(H[..]), r)
  {
    hide Plus;
    var rs := [r.a, r.b, r.c, r.d, r.e];
    for i := 0 to 5
      invariant forall k :: 0 <= k < 5 ==> H[k] == if k < i then Plus(old(H[k]), rs[k]) else old(H[k])
    {
      H[i] := Plus(H[i], rs[i]);
    }
  }

  /** One pass of the chunk loop behind the padding. */
  method ProcessWords(H: array<word>, words: array<byte>)
    requires H.Length == 5 && words.Length == CHUNK
    modifies H
    ensures H[..] == Add(old(H[..]), Rounds(old(H[..]), words[..], 80))
  {
    hide W, Rounds, Plus;
    var w := Schedule(words);
    var r := RunRounds(H, w, words[..]);
    AddInto(H, r);
  }

  /** The whole constructor and getDigest: the digest of the standard, for every message for which the
      32-bit chunk count is right; see ChunkCountExact. */
  method SHA1(input: seq<byte>) returns (digest: seq<byte>)
    requires |input| < UINT - 72
    ensures digest == Digest(input)
  {
    hide Padded, Block, Rounds, Add, SwapAll, LittleMemory, BigMemory, NumChunks, SizeLeft, Trail;
    NothingTaken(|input|);
    ChunkCountExact(input, false);
    var H := new word[5](i requires 0 <= i < 5 => INITIAL[i]);
    assert H[..] == INITIAL;
    var words := new byte[64](_ => 0);
    var size2: nat, trail: byte := |input|, 0x80;
    var numChunks := NumChunks(|input|);
    for chunkIndex := 0 to numChunks
      invariant size2 == SizeLeft(|input|, chunkIndex) && trail == Trail(|input|, chunkIndex)
      invariant H[..] == HashValue(input, chunkIndex)
    {
      size2, trail := FillChunk(words, input, chunkIndex, size2, trail, false);
      ProcessWords(H, words);
    }
    ghost var value := H[..];
    SwapEach(H);
    SwappedMemory(value);
    digest := LittleMemory(H[..]);
  }

  method SwapEach(H: array<word>)
    requires H.Length == 5
    modifies H
    ensures H[..] == SwapAll(old(H[..]))
  {
    hide Swap;
    for i := 0 to 5
      invariant forall k :: 0 <= k < 5 ==> H[k] == if k < i then Swap(old(H[k])) else old(H[k])
    {
      H[i] := Swap(H[i]);
    }
  }
}
