/** 32-bit words, their bytes in memory, and rotations. The machine is little-endian. */
module Words {
  import opened Bytes

  type word = bv32

  /** How far a word is rotated. */
  type amount = bv6

  /** Addition modulo 2^32, as unsigned int adds. */
  function Plus(x: word, y: word): word { x + y }

  function Plus4(x: word, y: word, z: word, u: word): word { x + y + z + u }

  function Plus5(x: word, y: word, z: word, u: word, v: word): word { x + y + z + u + v }

  function Rotl(x: word, n: amount): word
    requires n <= 32
  {
    (x << n) | (x >> (32 - n))
  }

  function Rotr(x: word, n: amount): word
    requires n <= 32
  {
    (x >> n) | (x << (32 - n))
  }

  /** The word of four bytes, most significant first. */
  function BigWord(b: seq<byte>): word
    requires |b| == 4
  {
    ((b[0] as word) << 24) | ((b[1] as word) << 16) | ((b[2] as word) << 8) | (b[3] as word)
  }

  /** The word a little-endian machine loads from four bytes. */
  function LittleWord(b: seq<byte>): word
    requires |b| == 4
  {
    ((b[3] as word) << 24) | ((b[2] as word) << 16) | ((b[1] as word) << 8) | (b[0] as word)
  }

  /** Word t of a block. */
  function BigWordAt(block: seq<byte>, t: nat): word
    requires 4 * t + 4 <= |block|
  {
    BigWord(block[4 * t..4 * t + 4])
  }

  function LittleWordAt(block: seq<byte>, t: nat): word
    requires 4 * t + 4 <= |block|
  {
    LittleWord(block[4 * t..4 * t + 4])
  }

  /** MOVEBE: the byte swap. */
  function Swap(x: word): word {
    ((x & 0xff000000) >> 24) | ((x & 0xff) << 24) | ((x & 0xff0000) >> 8) | ((x & 0xff00) << 8)
  }

  lemma SwapLoads(b: seq<byte>)
    requires |b| == 4
    ensures Swap(LittleWord(b)) == BigWord(b)
  {
  }

  function BigBytes(x: word): (b: seq<byte>)
    ensures |b| == 4
  {
    [(x >> 24) as byte, ((x >> 16) & 0xFF) as byte, ((x >> 8) & 0xFF) as byte, (x & 0xFF) as byte]
  }

  function LittleBytes(x: word): (b: seq<byte>)
    ensures |b| == 4
  {
    [(x & 0xFF) as byte, ((x >> 8) & 0xFF) as byte, ((x >> 16) & 0xFF) as byte, (x >> 24) as byte]
  }

  lemma SwapStores(x: word)
    ensures LittleBytes(Swap(x)) == BigBytes(x)
  {
  }

  /** Words as they lie in memory. */
  function LittleMemory(ws: seq<word>): (b: seq<byte>)
    ensures |b| == 4 * |ws|
  {
    if ws == [] then [] else LittleBytes(ws[0]) + LittleMemory(ws[1..])
  }

  function BigMemory(ws: seq<word>): (b: seq<byte>)
    ensures |b| == 4 * |ws|
  {
    if ws == [] then [] else BigBytes(ws[0]) + BigMemory(ws[1..])
  }

  function SwapAll(ws: seq<word>): (r: seq<word>)
    ensures |r| == |ws| && forall i :: 0 <= i < |ws| ==> r[i] == Swap(ws[i])
  {
    seq(|ws|, i requires 0 <= i < |ws| => Swap(ws[i]))
  }

  /** Swapped words lie in memory most significant byte first. */
  lemma {:induction false} SwappedMemory(ws: seq<word>)
    ensures LittleMemory(SwapAll(ws)) == BigMemory(ws)
  {
    if ws != [] {
      SwapStores(ws[0]);
      SwappedMemory(ws[1..]);
      assert SwapAll(ws)[1..] == SwapAll(ws[1..]);
    }
  }
}
