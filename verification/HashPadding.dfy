/** How utils/sha1.cpp, utils/sha256.cpp and utils/md5.cpp cut a message into 64-byte chunks, against
    the padding of section 5.1.1 of FIPS 180-4 and sections 3.1 and 3.2 of RFC 1321. */
module HashPadding {
  import opened Arith
  import opened Bytes

  const CHUNK: nat := 64

  function Zeros(n: nat): (s: seq<byte>)
    ensures |s| == n && forall i :: 0 <= i < n ==> s[i] == 0
  {
    seq(n, _ => 0)
  }

  /** The least number of zero bytes that makes message, marker, zeros and length fill whole chunks. */
  function ZeroCount(size: nat): (k: nat)
    ensures (size + 1 + k + 8) % CHUNK == 0 && k < CHUNK
  {
    var r := (size + 9) % CHUNK;
    var q := (size + 9) / CHUNK;
    assert size + 9 == q * CHUNK + r;
    if r == 0 then 0
    else assert size + 9 + (CHUNK - r) == (q + 1) * CHUNK; CHUNK - r
  }

  /** The length of the message in bits: eight bytes, most significant first or last. */
  function LengthBytes(size: nat, littleEndian: bool): (s: seq<byte>)
    ensures |s| == 8
  {
    if littleEndian then LittleEndian(8 * size, 8) else BigEndian(8 * size, 8)
  }

  function Padded(message: seq<byte>, littleEndian: bool): (p: seq<byte>)
    ensures |p| % CHUNK == 0
  {
    message + [0x80] + Zeros(ZeroCount(|message|)) + LengthBytes(|message|, littleEndian)
  }

  /** Sections 5.1.1 of FIPS 180-4 and 3.1 and 3.2 of RFC 1321: the message, a one bit, the fewest zeros, and
      the length of the message in bits, which the last eight bytes give back. */
  lemma PaddingReads(m: seq<byte>, littleEndian: bool)
    requires |m| < 0x2000_0000_0000_0000
    ensures var p := Padded(m, littleEndian);
            && |p| % 64 == 0 && |m| + 9 <= |p| < |m| + 9 + 64
            && m <= p && p[|m|] == 0x80 && (forall i :: |m| < i < |p| - 8 ==> p[i] == 0)
            && (if littleEndian then FromLittleEndian(p[|p| - 8..]) else FromBigEndian(p[|p| - 8..])) == 8 * |m|
  {
    hide LengthBytes;
    var p, length := Padded(m, littleEndian), LengthBytes(|m|, littleEndian);
    LengthReads(|m|, littleEndian);
    assert p[|p| - 8..] == length;
  }

  lemma LengthReads(size: nat, littleEndian: bool)
    requires size < 0x2000_0000_0000_0000
    ensures var s := LengthBytes(size, littleEndian);
            (if littleEndian then FromLittleEndian(s) else FromBigEndian(s)) == 8 * size
  {
    assert Pow256(2) == 0x1_0000;
    assert Pow256(4) == Pow256(2) * 0x1_0000;
    assert Pow256(6) == Pow256(4) * 0x1_0000;
    assert Pow256(8) == Pow256(6) * 0x1_0000;
    if littleEndian { LittleEndianRoundTrip(8 * size, 8); } else { BigEndianRoundTrip(8 * size, 8); }
  }

  /** Chunk c of the padded message. */
  function Block(message: seq<byte>, littleEndian: bool, c: nat): (b: seq<byte>)
    requires (c + 1) * CHUNK <= |Padded(message, littleEndian)|
    ensures |b| == CHUNK
  {
    Padded(message, littleEndian)[c * CHUNK..(c + 1) * CHUNK]
  }

  // ----- how many chunks

  const UINT: nat := 0x1_0000_0000

  /** (size+1+8+63) >> 6 in 32-bit arithmetic. */
  function NumChunks(size: nat): nat { (size + 1 + 8 + 63) % UINT / 64 }

  lemma ChunkCount(size: nat)
    ensures size + 9 + ZeroCount(size) == (size + 72) / 64 * CHUNK
  {
    var total := size + 9 + ZeroCount(size);
    var q := total / CHUNK;
    assert total == q * CHUNK;
    assert size + 72 == q * 64 + (63 - ZeroCount(size));
    DivModUnique(size + 72, 64, q, 63 - ZeroCount(size));
  }

  /** The loop runs once per chunk of the padded message if and only if the 32-bit sum does not wrap. */
  lemma ChunkCountExact(message: seq<byte>, littleEndian: bool)
    requires |message| < UINT
    ensures NumChunks(|message|) * CHUNK == |Padded(message, littleEndian)| <==> |message| < UINT - 72
  {
    var size := |message|;
    ChunkCount(size);
    if size + 72 < UINT {
      DivModUnique(size + 72, UINT, 0, size + 72);
    } else {
      DivModUnique(size + 72, UINT, 1, size + 72 - UINT);
    }
  }

  // ----- filling one chunk

  /** What the chunk loop remembers between chunks: the bytes not consumed and the marker byte still to
      be written. */
  function SizeLeft(size: nat, c: nat): nat { if c * CHUNK <= size then size - c * CHUNK else 0 }

  function Trail(size: nat, c: nat): byte { if c * CHUNK <= size then 0x80 else 0 }

  lemma NothingTaken(size: nat)
    ensures SizeLeft(size, 0) == size && Trail(size, 0) == 0x80
  {
  }

  /** The padded message, byte by byte. */
  lemma PaddedAt(m: seq<byte>, littleEndian: bool, i: nat)
    requires i < |Padded(m, littleEndian)|
    ensures var p := Padded(m, littleEndian);
            p[i] == if i < |m| then m[i] else if i == |m| then 0x80
                    else if i < |p| - 8 then 0 else LengthBytes(|m|, littleEndian)[i - (|p| - 8)]
  {
    hide LengthBytes;
  }

  /** The 64-bit length, written over the last eight bytes. */
  method WriteLength(words: array<byte>, size: nat, littleEndian: bool)
    requires words.Length == CHUNK
    modifies words
    ensures words[..56] == old(words[..56]) && words[56..] == LengthBytes(size, littleEndian)
  {
    var sizeInBits: nat := 8 * size;
    if littleEndian {
      var bytes := LittleEndian(sizeInBits, 8);
      forall i | 56 <= i < 64 { words[i] := bytes[i - 56]; }
    } else {
      assert BigEndian(sizeInBits, 8) + words[64..] == BigEndian(sizeInBits, 8);
      for i := 0 to 8
        invariant words[..56] == old(words[..56])
        invariant BigEndian(sizeInBits, 8 - i) + words[64 - i..] == BigEndian(8 * size, 8)
      {
        ghost var done := words[64 - i..];
        words[63 - i] := (sizeInBits % 256) as byte;
        assert words[63 - i..] == [(sizeInBits % 256) as byte] + done;
        sizeInBits := sizeInBits / 256;
      }
      assert BigEndian(sizeInBits, 0) + words[56..] == words[56..];
    }
  }

  /** The body of the chunk loop up to the byte swap: copy, clear, marker, and the length at the end of
      the last chunk. */
  method FillChunk(words: array<byte>, input: seq<byte>, chunkIndex: nat, size2: nat, trail: byte, littleEndian: bool)
    returns (sizeLeft: nat, trailLeft: byte)
    requires words.Length == CHUNK && |input| < UINT - 72
    requires chunkIndex < NumChunks(|input|)
    requires size2 == SizeLeft(|input|, chunkIndex) && trail == Trail(|input|, chunkIndex)
    modifies words
    ensures (chunkIndex + 1) * CHUNK <= |Padded(input, littleEndian)|
    ensures words[..] == Block(input, littleEndian, chunkIndex)
    ensures sizeLeft == SizeLeft(|input|, chunkIndex + 1) && trailLeft == Trail(|input|, chunkIndex + 1)
  {
    hide LengthBytes;
    ChunkCountExact(input, littleEndian);
    var frameIndexForSize := NumChunks(|input|) - 1;
    var base := chunkIndex * CHUNK;
    var size3;
    trailLeft := trail;
    if size2 >= 64 {
      size3 := 64;
      forall i | 0 <= i < 64 { words[i] := input[base + i]; }
    } else {
      size3 := size2;
      forall i | 0 <= i < size3 { words[i] := input[base + i]; }
      forall i | size3 <= i < 64 { words[i] := 0; }
      words[size3] := trail;
      trailLeft := 0;
    }
    ghost var filled := words[..];
    FilledIsBlock(input, littleEndian, chunkIndex, filled);
    if chunkIndex == frameIndexForSize {
      WriteLength(words, |input|, littleEndian);
      assert words[..56] + words[56..] == words[..];
    }
    sizeLeft := size2 - size3;
  }

  /** What the message, the marker and zeros make of a chunk; the last one still lacks the length. */
  lemma FilledIsBlock(m: seq<byte>, littleEndian: bool, c: nat, filled: seq<byte>)
    requires |m| < UINT - 72 && c < NumChunks(|m|) && |filled| == CHUNK
    requires forall i :: 0 <= i < CHUNK ==>
               filled[i] == if c * CHUNK + i < |m| then m[c * CHUNK + i] else if c * CHUNK + i == |m| then 0x80 else 0
    ensures (c + 1) * CHUNK <= |Padded(m, littleEndian)|
    ensures Block(m, littleEndian, c)
            == if c == NumChunks(|m|) - 1 then filled[..56] + LengthBytes(|m|, littleEndian) else filled
  {
    hide LengthBytes, NumChunks;
    ChunkCountExact(m, littleEndian);
    var base, p, last := c * CHUNK, Padded(m, littleEndian), c == NumChunks(|m|) - 1;
    forall i | 0 <= i < CHUNK
      ensures p[base + i] == if last && 56 <= i then LengthBytes(|m|, littleEndian)[i - 56] else filled[i]
    {
      PaddedAt(m, littleEndian, base + i);
    }
  }
}
