/** utils/sha256.cpp against section 6.2 of FIPS 180-4. */
module Sha256 {
  import opened Bytes
  import opened HashPadding
  import opened Words

  // ----- the standard

  function Ch(x: word, y: word, z: word): word { (x & y) ^ (!x & z) }
  function Maj(x: word, y: word, z: word): word { (x & y) ^ (x & z) ^ (y & z) }
  function BigSigma0(x: word): word { Rotr(x, 2) ^ Rotr(x, 13) ^ Rotr(x, 22) }
  function BigSigma1(x: word): word { Rotr(x, 6) ^ Rotr(x, 11) ^ Rotr(x, 25) }
  function SmallSigma0(x: word): word { Rotr(x, 7) ^ Rotr(x, 18) ^ (x >> 3) }
  function SmallSigma1(x: word): word { Rotr(x, 17) ^ Rotr(x, 19) ^ (x >> 10) }

  const CONSTANTS: seq<seq<word>> := [
    [0x428a2f98, 0x71374491, 0xb5c0fbcf, 0xe9b5dba5, 0x3956c25b, 0x59f111f1, 0x923f82a4, 0xab1c5ed5],
    [0xd807aa98, 0x12835b01, 0x243185be, 0x550c7dc3, 0x72be5d74, 0x80deb1fe, 0x9bdc06a7, 0xc19bf174],
    [0xe49b69c1, 0xefbe4786, 0x0fc19dc6, 0x240ca1cc, 0x2de92c6f, 0x4a7484aa, 0x5cb0a9dc, 0x76f988da],
    [0x983e5152, 0xa831c66d, 0xb00327c8, 0xbf597fc7, 0xc6e00bf3, 0xd5a79147, 0x06ca6351, 0x14292967],
    [0x27b70a85, 0x2e1b2138, 0x4d2c6dfc, 0x53380d13, 0x650a7354, 0x766a0abb, 0x81c2c92e, 0x92722c85],
    [0xa2bfe8a1, 0xa81a664b, 0xc24b8b70, 0xc76c51a3, 0xd192e819, 0xd6990624, 0xf40e3585, 0x106aa070],
    [0x19a4c116, 0x1e376c08, 0x2748774c, 0x34b0bcb5, 0x391c0cb3, 0x4ed8aa4a, 0x5b9cca4f, 0x682e6ff3],
    [0x748f82ee, 0x78a5636f, 0x84c87814, 0x8cc70208, 0x90befffa, 0xa4506ceb, 0xbef9a3f7, 0xc67178f2]]

  function K(t: nat): word
    requires t < 64
  {
    CONSTANTS[t / 8][t % 8]
  }

  const INITIAL: seq<word> := [
    0x6a09e667, 0xbb67ae85, 0x3c6ef372, 0xa54ff53a, 0x510e527f, 0x9b05688c, 0x1f83d9ab, 0x5be0cd19]

  /** The message schedule. */
  function W(block: seq<byte>, t: nat): word
    requires |block| == CHUNK
  {
    if t < 16 then BigWordAt(block, t)
    else Plus4(SmallSigma1(W(block, t - 2)), W(block, t - 7), SmallSigma0(W(block, t - 15)), W(block, t - 16))
  }

  datatype Regs = Regs(a: word, b: word, c: word, d: word, e: word, f: word, g: word, h: word)

  function Round(r: Regs, k: word, w: word): Regs {
    var t1 := Plus5(r.h, BigSigma1(r.e), Ch(r.e, r.f, r.g), k, w);
    var t2 := Plus(BigSigma0(r.a), Maj(r.a, r.b, r.c));
    Regs(Plus(t1, t2), r.a, r.b, r.c, Plus(r.d, t1), r.e, r.f, r.g)
  }

  function Load(H: seq<word>): Regs
    requires |H| == 8
  {
    Regs(H[0], H[1], H[2], H[3], H[4], H[5], H[6], H[7])
  }

  function Rounds(H: seq<word>, block: seq<byte>, t: nat): Regs
    requires |H| == 8 && |block| == CHUNK && t <= 64
  {
    if t == 0 then Load(H) else Round(Rounds(H, block, t - 1), K(t - 1), W(block, t - 1))
  }

  function Add(H: seq<word>, r: Regs): (s: seq<word>)
    requires |H| == 8
    ensures |s| == 8
  {
    [Plus(H[0], r.a), Plus(H[1], r.b), Plus(H[2], r.c), Plus(H[3], r.d),
     Plus(H[4], r.e), Plus(H[5], r.f), Plus(H[6], r.g), Plus(H[7], r.h)]
  }

  /** The hash value after the first n blocks of the padded message. */
  function HashValue(message: seq<byte>, n: nat): (H: seq<word>)
    requires n * CHUNK <= |Padded(message, false)|
    ensures |H| == 8
  {
    if n == 0 then INITIAL
    else
      var H := HashValue(message, n - 1);
      Add(H, Rounds(H, Block(message, false, n - 1), 64))
  }

  function Digest(message: seq<byte>): seq<byte> {
    BigMemory(HashValue(message, |Padded(message, false)| / CHUNK))
  }

  // ----- the constructor

  /** The message schedule: sixteen swapped words of the chunk and forty-eight computed ones. */
  method Schedule(words: array<byte>) returns (w: array<word>)
    requires words.Length == CHUNK
    ensures w.Length == 64 && fresh(w)
    ensures forall t :: 0 <= t < 64 ==> w[t] == W(words[..], t)
  {
    hide W, LittleWord, Swap, SmallSigma0, SmallSigma1, Plus4;
    ghost var block := words[..];
    w := new word[64](_ => 0);
    for i := 0 to 16
      invariant forall t :: 0 <= t < i ==> w[t] == W(block, t)
    {
      assert words[4 * i..4 * i + 4] == block[4 * i..4 * i + 4];
      LoadsWord(block, i);
      w[i] := Swap(LittleWord(words[4 * i..4 * i + 4]));
    }
    for i := 16 to 64
      invariant forall t :: 0 <= t < i ==> w[t] == W(block, t)
    {
      var s0 := SmallSigma0(w[i - 15]);
      var s1 := SmallSigma1(w[i - 2]);
      ComputesWord(block, i);
      w[i] := Plus4(w[i - 16], s0, w[i - 7], s1);
    }
  }

  /** The 64 rounds, in eight registers. */
  method RunRounds(H: array<word>, w: array<word>, ghost block: seq<byte>) returns (r: Regs)
    requires H.Length == 8 && w.Length == 64 && |block| == CHUNK
    requires forall t :: 0 <= t < 64 ==> w[t] == W(block, t)
    ensures r == Rounds(H[..], block, 64)
  {
    hide BigSigma0, BigSigma1, Ch, Maj, W, K, Plus, Plus5;
    var a, b, c, d, e, f, g, h := H[0], H[1], H[2], H[3], H[4], H[5], H[6], H[7];
    for i := 0 to 64
      invariant Regs(a, b, c, d, e, f, g, h) == Rounds(H[..], block, i)
    {
      var s1 := BigSigma1(e);
      var ch := Ch(e, f, g);
      var t1 := Plus5(h, s1, ch, K(i), w[i]);
      var s0 := BigSigma0(a);
      var maj := Maj(a, b, c);
      var t2 := Plus(s0, maj);
      h := g;
      g := f;
      f := e;
      e := Plus(d, t1);
      d := c;
      c := b;
      b := a;
      a := Plus(t1, t2);
    }
    r := Regs(a, b, c, d, e, f, g, h);
  }

  /** One pass of the chunk loop behind the padding. */
  method ProcessWords(H: array<word>, words: array<byte>)
    requires H.Length == 8 && words.Length == CHUNK
    modifies H
    ensures H[..] == Add(old(H[..]), Rounds(old(H[..]), words[..], 64))
  {
    hide W, Rounds, Plus;
    var w := Schedule(words);
    var r := RunRounds(H, w, words[..]);
    AddInto(H, r);
  }

  method AddInto(H: array<word>, r: Regs)
    requires H.Length == 8
    modifies H
    ensures H[..] == Add(old(H[..]), r)
  {
    hide Plus;
    var rs := [r.a, r.b, r.c, r.d, r.e, r.f, r.g, r.h];
    for i := 0 to 8
      invariant forall k :: 0 <= k < 8 ==> H[k] == if k < i then Plus(old(H[k]), rs[k]) else old(H[k])
    {
      H[i] := Plus(H[i], rs[i]);
    }
  }

  lemma LoadsWord(block: seq<byte>, i: nat)
    requires |block| == CHUNK && i < 16
    ensures Swap(LittleWord(block[4 * i..4 * i + 4])) == W(block, i)
  {
    SwapLoads(block[4 * i..4 * i + 4]);
  }

  lemma ComputesWord(block: seq<byte>, i: nat)
    requires |block| == CHUNK && 16 <= i < 64
    ensures W(block, i)
            == Plus4(W(block, i - 16), SmallSigma0(W(block, i - 15)), W(block, i - 7), SmallSigma1(W(block, i - 2)))
  {
    hide Plus4, SmallSigma0, SmallSigma1, BigWordAt;
    SumOrder(W(block, i - 16), SmallSigma0(W(block, i - 15)), W(block, i - 7), SmallSigma1(W(block, i - 2)));
  }

  lemma SumOrder(w16: word, s0: word, w7: word, s1: word)
    ensures Plus4(w16, s0, w7, s1) == Plus4(s1, w7, s0, w16)
  {
  }

  /** The whole constructor and getDigest: the digest of the standard, for every message for which the
      32-bit chunk count is right; see ChunkCountExact. */
  method SHA256(input: seq<byte>) returns (digest: seq<byte>)
    requires |input| < UINT - 72
    ensures digest == Digest(input)
  {
    hide Padded, Block, Rounds, Add, SwapAll, LittleMemory, BigMemory, NumChunks, SizeLeft, Trail;
    NothingTaken(|input|);
    ChunkCountExact(input, false);
    var H := new word[8](i requires 0 <= i < 8 => INITIAL[i]);
    assert H[..] == INITIAL;
    var words := new byte[64](_ => 0);
    var size2: nat, trail: byte := |input|, 0x80;
    var numChunks := NumChunks(|input|);
    for chunkIndex := 0 to numChunks
      invariant size2 == SizeLeft(|input|, chunkIndex) && trail == Trail(|input|, chunkIndex)
      invariant H[..] == HashValue(input, chunkIndex)
    {
      size2, trail := FillChunk(words, input, chunkIndex, size2, trail, false);
      ProcessWords(H, words);
    }
    ghost var value := H[..];
    SwapEach(H);
    SwappedMemory(value);
    digest := LittleMemory(H[..]);
  }

  method SwapEach(H: array<word>)
    requires H.Length == 8
    modifies H
    ensures H[..] == SwapAll(old(H[..]))
  {
    hide Swap;
    for i := 0 to 8
      invariant forall k :: 0 <= k < 8 ==> H[k] == if k < i then Swap(old(H[k])) else old(H[k])
    {
      H[i] := Swap(H[i]);
    }
  }
}
