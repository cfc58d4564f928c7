/** utils/md5.cpp against sections 3.1 to 3.5 of RFC 1321. */
module Md5 {
  import opened Bytes
  import opened HashPadding
  import opened Words

  // ----- the standard

  function F(x: word, y: word, z: word): word { (x & y) | (!x & z) }
  function G(x: word, y: word, z: word): word { (x & z) | (y & !z) }
  function HH(x: word, y: word, z: word): word { x ^ y ^ z }
  function I(x: word, y: word, z: word): word { y ^ (x | !z) }

  /** The function of the round that operation i belongs to. */
  function RoundFunction(i: nat, x: word, y: word, z: word): word {
    if i < 16 then F(x, y, z) else if i < 32 then G(x, y, z) else if i < 48 then HH(x, y, z) else I(x, y, z)
  }

  /** The block words of the operations of rounds 2 to 4, as the RFC lists them. */
  const ROUND2: seq<nat> := [1, 6, 11, 0, 5, 10, 15, 4, 9, 14, 3, 8, 13, 2, 7, 12]
  const ROUND3: seq<nat> := [5, 8, 11, 14, 1, 4, 7, 10, 13, 0, 3, 6, 9, 12, 15, 2]
  const ROUND4: seq<nat> := [0, 7, 14, 5, 12, 3, 10, 1, 8, 15, 6, 13, 4, 11, 2, 9]

  lemma SixteenCases(k: nat)
    requires k < 16
    ensures k == 0 || k == 1 || k == 2 || k == 3 || k == 4 || k == 5 || k == 6 || k == 7
            || k == 8 || k == 9 || k == 10 || k == 11 || k == 12 || k == 13 || k == 14 || k == 15
  {
  }

  /** The shift amounts of a round repeat every four operations. */
  const SHIFTS: seq<seq<amount>> := [[7, 12, 17, 22], [5, 9, 14, 20], [4, 11, 16, 23], [6, 10, 15, 21]]

  const SINES: seq<seq<word>> := [
    [0xd76aa478, 0xe8c7b756, 0x242070db, 0xc1bdceee, 0xf57c0faf, 0x4787c62a, 0xa8304613, 0xfd469501],
    [0x698098d8, 0x8b44f7af, 0xffff5bb1, 0x895cd7be, 0x6b901122, 0xfd987193, 0xa679438e, 0x49b40821],
    [0xf61e2562, 0xc040b340, 0x265e5a51, 0xe9b6c7aa, 0xd62f105d, 0x02441453, 0xd8a1e681, 0xe7d3fbc8],
    [0x21e1cde6, 0xc33707d6, 0xf4d50d87, 0x455a14ed, 0xa9e3e905, 0xfcefa3f8, 0x676f02d9, 0x8d2a4c8a],
    [0xfffa3942, 0x8771f681, 0x6d9d6122, 0xfde5380c, 0xa4beea44, 0x4bdecfa9, 0xf6bb4b60, 0xbebfbc70],
    [0x289b7ec6, 0xeaa127fa, 0xd4ef3085, 0x04881d05, 0xd9d4d039, 0xe6db99e5, 0x1fa27cf8, 0xc4ac5665],
    [0xf4292244, 0x432aff97, 0xab9423a7, 0xfc93a039, 0x655b59c3, 0x8f0ccc92, 0xffeff47d, 0x85845dd1],
    [0x6fa87e4f, 0xfe2ce6e0, 0xa3014314, 0x4e0811a1, 0xf7537e82, 0xbd3af235, 0x2ad7d2bb, 0xeb86d391]]

  const INITIAL: seq<word> := [0x67452301, 0xefcdab89, 0x98badcfe, 0x10325476]

  function WordIndex(i: nat): (g: nat)
    requires i < 64
    ensures g < 16
  {
    if i < 16 then i
    else
      SixteenCases(i % 16);
      if i < 32 then ROUND2[i - 16] else if i < 48 then ROUND3[i - 32] else ROUND4[i - 48]
  }

  function Shift(i: nat): (n: amount)
    requires i < 64
    ensures n <= 32
  {
    SHIFTS[i / 16][i % 4]
  }

  function Sine(i: nat): word
    requires i < 64
  {
    SINES[i / 8][i % 8]
  }

  /** The register that operation i changes: A, D, C, B and again from A. */
  function Target(i: nat): (r: nat)
    ensures r < 4
  {
    (4 - i % 4) % 4
  }

  /** The operation a = b + ((a + F(b,c,d) + X[k] + T[i]) <<< s), with its registers in the place of
      A, B, C and D that the RFC writes them in. */
  function Operation(R: seq<word>, block: seq<byte>, i: nat): (r: seq<word>)
    requires |R| == 4 && |block| == CHUNK && i < 64
    ensures |r| == 4
  {
    var a := Target(i);
    var b, c, d := (a + 1) % 4, (a + 2) % 4, (a + 3) % 4;
    var sum := Plus4(R[a], RoundFunction(i, R[b], R[c], R[d]), LittleWordAt(block, WordIndex(i)), Sine(i));
    R[a := Plus(R[b], Rotl(sum, Shift(i)))]
  }

  /** A, B, C and D after n operations on a block. */
  function Operations(H: seq<word>, block: seq<byte>, n: nat): (R: seq<word>)
    requires |H| == 4 && |block| == CHUNK && n <= 64
    ensures |R| == 4
  {
    if n == 0 then H else Operation(Operations(H, block, n - 1), block, n - 1)
  }

  function Add(H: seq<word>, R: seq<word>): (s: seq<word>)
    requires |H| == 4 && |R| == 4
    ensures |s| == 4
  {
    [Plus(H[0], R[0]), Plus(H[1], R[1]), Plus(H[2], R[2]), Plus(H[3], R[3])]
  }

  /** A, B, C and D after the first n blocks of the padded message. */
  function HashValue(message: seq<byte>, n: nat): (H: seq<word>)
    requires n * CHUNK <= |Padded(message, true)|
    ensures |H| == 4
  {
    if n == 0 then INITIAL
    else
      var H := HashValue(message, n - 1);
      Add(H, Operations(H, Block(message, true, n - 1), 64))
  }

  function Digest(message: seq<byte>): seq<byte> {
    LittleMemory(HashValue(message, |Padded(message, true)| / CHUNK))
  }

  // ----- the forms the constructor uses

  /** The computed word index. */
  function ComputedIndex(i: nat): nat {
    if i < 16 then i else if i < 32 then (5 * i + 1) % 16 else if i < 48 then (3 * i + 5) % 16 else (7 * i) % 16
  }

  lemma ComputedIndexIsListed(i: nat)
    requires i < 64
    ensures ComputedIndex(i) == WordIndex(i)
  {
    if 16 <= i < 32 { SecondOrder(i - 16); }
    if 32 <= i < 48 { ThirdOrder(i - 32); }
    if 48 <= i { FourthOrder(i - 48); }
  }

  lemma SecondOrder(k: nat)
    requires k < 16
    ensures ROUND2[k] == (5 * (16 + k) + 1) % 16
  {
    SixteenCases(k);
  }

  lemma ThirdOrder(k: nat)
    requires k < 16
    ensures ROUND3[k] == (3 * (32 + k) + 5) % 16
  {
    SixteenCases(k);
  }

  lemma FourthOrder(k: nat)
    requires k < 16
    ensures ROUND4[k] == (7 * (48 + k)) % 16
  {
    SixteenCases(k);
  }

  function SecondForm(b: word, c: word, d: word): word { (d & b) | (!d & c) }

  lemma SecondFormIsG(b: word, c: word, d: word)
    ensures SecondForm(b, c, d) == G(b, c, d)
  {
  }

  // ----- the constructor

  datatype Regs = Regs(a: word, b: word, c: word, d: word)

  /** The registers in the order in which operation i uses them. */
  function Turned(R: seq<word>, i: nat): Regs
    requires |R| == 4
  {
    var a := Target(i);
    Regs(R[a], R[(a + 1) % 4], R[(a + 2) % 4], R[(a + 3) % 4])
  }

  lemma TargetTurns(i: nat)
    ensures Target(i + 1) == (Target(i) + 3) % 4
  {
  }

  /** Rotating four registers by one place in each step does what naming them in rotated places does. */
  lemma RotationIsRenaming(R: seq<word>, block: seq<byte>, i: nat)
    requires |R| == 4 && |block| == CHUNK && i < 64
    ensures var r := Turned(R, i);
            var sum := Plus4(r.a, RoundFunction(i, r.b, r.c, r.d), LittleWordAt(block, WordIndex(i)), Sine(i));
            Turned(Operation(R, block, i), i + 1) == Regs(r.d, Plus(r.b, Rotl(sum, Shift(i))), r.b, r.c)
  {
    hide Plus, Plus4, RoundFunction, LittleWordAt, WordIndex, Sine, Shift, Rotl, Target;
    TargetTurns(i);
  }

  /** The 64 steps, in four registers that are rotated by each step. */
  method RunSteps(H: array<word>, words: array<byte>) returns (r: Regs)
    requires H.Length == 4 && words.Length == CHUNK
    ensures r == Turned(Operations(H[..], words[..], 64), 64)
  {
    hide F, G, HH, I, SecondForm, Plus, Plus4, Rotl, LittleWord;
    hide WordIndex, ComputedIndex, Sine, Shift, Operation, Turned;
    ghost var block := words[..];
    StartsInOrder(H[..]);
    var a, b, c, d := H[0], H[1], H[2], H[3];
    var f: word, g: nat;
    for i := 0 to 64
      invariant Regs(a, b, c, d) == Turned(Operations(H[..], block, i), i)
    {
      ghost var R := Operations(H[..], block, i);
      RotationIsRenaming(R, block, i);
      ComputedIndexIsListed(i);
      SecondFormIsG(b, c, d);
      g := ComputedIndex(i);
      if i < 16 {
        f := F(b, c, d);
      } else if i < 32 {
        f := SecondForm(b, c, d);
      } else if i < 48 {
        f := HH(b, c, d);
      } else {
        f := I(b, c, d);
      }
      assert words[4 * g..4 * g + 4] == block[4 * g..4 * g + 4];
      var tmp := d;
      d := c;
      c := b;
      b := Plus(b, Rotl(Plus4(a, f, LittleWord(words[4 * g..4 * g + 4]), Sine(i)), Shift(i)));
      a := tmp;
    }
    r := Regs(a, b, c, d);
  }

  lemma StartsInOrder(H: seq<word>)
    requires |H| == 4
    ensures Turned(H, 0) == Regs(H[0], H[1], H[2], H[3])
    ensures Turned(H, 64) == Regs(H[0], H[1], H[2], H[3])
  {
  }

  method AddInto(H: array<word>, R: seq<word>)
    requires H.Length == 4 && |R| == 4
    modifies H
    ensures H[..] == Add(old(H[..]), R)
  {
    hide Plus;
    for i := 0 to 4
      invariant forall k :: 0 <= k < 4 ==> H[k] == if k < i then Plus(old(H[k]), R[k]) else old(H[k])
    {
      H[i] := Plus(H[i], R[i]);
    }
  }

  /** One pass of the chunk loop behind the padding. */
  method ProcessWords(H: array<word>, words: array<byte>)
    requires H.Length == 4 && words.Length == CHUNK
    modifies H
    ensures H[..] == Add(old(H[..]), Operations(old(H[..]), words[..], 64))
  {
    hide Operations, Plus, Turned;
    ghost var R := Operations(H[..], words[..], 64);
    var r := RunSteps(H, words);
    StartsInOrder(R);
    assert [r.a, r.b, r.c, r.d] == R;
    AddInto(H, [r.a, r.b, r.c, r.d]);
  }

  /** The whole constructor and getDigest: the digest of the RFC, for every message for which the 32-bit
      chunk count is right; see ChunkCountExact. */
  method MD5(input: seq<byte>) returns (digest: seq<byte>)
    requires |input| < UINT - 72
    ensures digest == Digest(input)
  {
    hide Padded, Block, Operations, Add, LittleMemory, NumChunks, SizeLeft, Trail;
    NothingTaken(|input|);
    ChunkCountExact(input, true);
    var H := new word[4](i requires 0 <= i < 4 => INITIAL[i]);
    assert H[..] == INITIAL;
    var words := new byte[64](_ => 0);
    var size2: nat, trail: byte := |input|, 0x80;
    var numChunks := NumChunks(|input|);
    for chunkIndex := 0 to numChunks
      invariant size2 == SizeLeft(|input|, chunkIndex) && trail == Trail(|input|, chunkIndex)
      invariant H[..] == HashValue(input, chunkIndex)
    {
      size2, trail := FillChunk(words, input, chunkIndex, size2, trail, true);
      ProcessWords(H, words);
    }
    digest := LittleMemory(H[..]);
  }
}
