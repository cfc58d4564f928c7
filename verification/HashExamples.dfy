/** What the worked examples of the hashes share: a message given as four-byte parts, and its padding. */
module HashExamples {
  import opened Bytes
  import opened Common
  import opened HashPadding
  import opened Words

  predicate Parts(parts: seq<seq<byte>>) { forall i :: 0 <= i < |parts| ==> |parts[i]| == 4 }

  lemma {:induction false} PartAt(parts: seq<seq<byte>>, t: nat)
    requires Parts(parts) && t < |parts|
    ensures |Flatten(parts)| == 4 * |parts| && Flatten(parts)[4 * t..4 * t + 4] == parts[t]
  {
    var rest := parts[1..];
    if t > 0 {
      PartAt(rest, t - 1);
      assert Flatten(parts)[4 * t..4 * t + 4] == Flatten(rest)[4 * (t - 1)..4 * (t - 1) + 4];
    } else {
      PartsSize(rest);
    }
  }

  lemma {:induction false} PartsSize(parts: seq<seq<byte>>)
    requires Parts(parts)
    ensures |Flatten(parts)| == 4 * |parts|
  {
    if parts != [] { PartsSize(parts[1..]); }
  }

  const NOTHING: seq<byte> := [0, 0, 0, 0]

  /** Marker, zeros and length behind a message of whole parts. */
  function Tail(zeros: nat, length: seq<byte>): (r: seq<seq<byte>>)
    requires |length| == 8
    ensures Parts(r)
  {
    [[0x80, 0, 0, 0]] + seq(zeros, _ => NOTHING) + [length[..4], length[4..]]
  }

  lemma {:induction false} ZeroParts(n: nat)
    ensures Flatten(seq(n, _ => NOTHING)) == Zeros(4 * n)
  {
    var parts := seq(n, _ => NOTHING);
    if n > 0 {
      ZeroParts(n - 1);
      assert parts[1..] == seq(n - 1, _ => NOTHING);
      assert NOTHING + Zeros(4 * (n - 1)) == Zeros(4 * n);
    }
  }

  lemma FlattenTwo(a: seq<byte>, b: seq<byte>)
    ensures Flatten([a, b]) == a + b
  {
    assert [a, b][1..] == [b] && [b][1..] == [];
    assert Flatten([b]) == b + Flatten([]) == b;
  }

  lemma TailIs(zeros: nat, length: seq<byte>)
    requires |length| == 8
    ensures Flatten(Tail(zeros, length)) == [0x80] + Zeros(4 * zeros + 3) + length
  {
    var first, middle, last := [[0x80, 0, 0, 0]], seq(zeros, _ => NOTHING), [length[..4], length[4..]];
    FlattenConcat(first + middle, last);
    FlattenConcat(first, middle);
    ZeroParts(zeros);
    FlattenTwo(length[..4], length[4..]);
    assert first[1..] == [] && Flatten(first) == [0x80, 0, 0, 0];
    assert [0x80, 0, 0, 0] + Zeros(4 * zeros) == [0x80] + Zeros(4 * zeros + 3);
    assert length[..4] + length[4..] == length;
  }

  /** The padded message, in parts. */
  lemma PaddedParts(parts: seq<seq<byte>>, littleEndian: bool, zeros: nat, length: seq<byte>)
    requires Parts(parts) && length == LengthBytes(4 * |parts|, littleEndian)
    requires ZeroCount(4 * |parts|) == 4 * zeros + 3
    ensures Padded(Flatten(parts), littleEndian) == Flatten(parts + Tail(zeros, length))
  {
    hide LengthBytes, ZeroCount;
    PartsSize(parts);
    FlattenConcat(parts, Tail(zeros, length));
    TailIs(zeros, length);
    Regroup(Flatten(parts), [0x80] + Zeros(4 * zeros + 3), length);
    Regroup(Flatten(parts), [0x80], Zeros(4 * zeros + 3));
  }

  /** A part of a block is a part of the padded message. */
  lemma PartOfBlock(message: seq<byte>, littleEndian: bool, parts: seq<seq<byte>>, c: nat, t: nat)
    requires Parts(parts) && Padded(message, littleEndian) == Flatten(parts) && 16 * c + 16 <= |parts| && t < 16
    ensures (c + 1) * CHUNK <= |Padded(message, littleEndian)|
    ensures Block(message, littleEndian, c)[4 * t..4 * t + 4] == parts[16 * c + t]
  {
    hide Padded, Flatten, Parts, Block;
    PartAt(parts, 16 * c + t);
    BlockIs(message, littleEndian, c);
    SliceOfSlice(Padded(message, littleEndian), 64 * c, 4 * t);
  }

  lemma BlockIs(message: seq<byte>, littleEndian: bool, c: nat)
    requires 64 * c + 64 <= |Padded(message, littleEndian)|
    ensures (c + 1) * CHUNK <= |Padded(message, littleEndian)|
    ensures Block(message, littleEndian, c) == Padded(message, littleEndian)[64 * c..64 * c + 64]
  {
    hide Padded;
  }

  lemma SliceOfSlice(p: seq<byte>, i: nat, j: nat)
    requires i + 64 <= |p| && j + 4 <= 64
    ensures p[i..i + 64][j..j + 4] == p[i + j..i + j + 4]
  {
    var part, same := p[i..i + 64][j..j + 4], p[i + j..i + j + 4];
    assert part[0] == same[0] && part[1] == same[1] && part[2] == same[2] && part[3] == same[3];
  }

  lemma ItemOfRow(parts: seq<seq<byte>>, i: nat, row: seq<seq<byte>>, j: nat)
    requires i + 8 <= |parts| && parts[i..i + 8] == row && j < 8
    ensures parts[i + j] == row[j]
  {
  }

  /** Eight parts are eight words, most significant byte first. */
  predicate BigRow(parts: seq<seq<byte>>, ws: seq<word>) {
    && |parts| == 8 && |ws| == 8 && Parts(parts)
    && BigWord(parts[0]) == ws[0] && BigWord(parts[1]) == ws[1] && BigWord(parts[2]) == ws[2]
    && BigWord(parts[3]) == ws[3] && BigWord(parts[4]) == ws[4] && BigWord(parts[5]) == ws[5]
    && BigWord(parts[6]) == ws[6] && BigWord(parts[7]) == ws[7]
  }

  lemma BigRowAt(parts: seq<seq<byte>>, ws: seq<word>, j: nat)
    requires BigRow(parts, ws) && j < 8
    ensures |parts| == 8 && |ws| == 8 && |parts[j]| == 4 && BigWord(parts[j]) == ws[j]
  {
    hide BigWord;
  }

  lemma BigWordOfBlock(message: seq<byte>, parts: seq<seq<byte>>, c: nat, t: nat)
    requires Parts(parts) && Padded(message, false) == Flatten(parts) && 16 * c + 16 <= |parts| && t < 16
    ensures (c + 1) * CHUNK <= |Padded(message, false)| && |parts[16 * c + t]| == 4
    ensures BigWordAt(Block(message, false, c), t) == BigWord(parts[16 * c + t])
  {
    hide Padded, BigWord, Block;
    PartOfBlock(message, false, parts, c, t);
  }

  lemma BigItemOfBlock(message: seq<byte>, parts: seq<seq<byte>>, c: nat, k: nat, row: seq<seq<byte>>, ws: seq<word>,
                       j: nat)
    requires Parts(parts) && Padded(message, false) == Flatten(parts) && 16 * c + 16 <= |parts| && k < 2 && j < 8
    requires parts[16 * c + 8 * k..16 * c + 8 * k + 8] == row && BigRow(row, ws)
    ensures (c + 1) * CHUNK <= |Padded(message, false)| && |ws| == 8
    ensures BigWordAt(Block(message, false, c), 8 * k + j) == ws[j]
  {
    hide Padded, BigWord, BigWordAt, BigRow, Block, Parts, Flatten;
    ItemOfRow(parts, 16 * c + 8 * k, row, j);
    BigRowAt(row, ws, j);
    BigWordOfBlock(message, parts, c, 8 * k + j);
  }

  lemma BigRowOfBlock(message: seq<byte>, parts: seq<seq<byte>>, c: nat, k: nat, row: seq<seq<byte>>, ws: seq<word>)
    requires Parts(parts) && Padded(message, false) == Flatten(parts) && 16 * c + 16 <= |parts| && k < 2
    requires parts[16 * c + 8 * k..16 * c + 8 * k + 8] == row && BigRow(row, ws)
    ensures (c + 1) * CHUNK <= |Padded(message, false)| && |ws| == 8
    ensures forall j :: 0 <= j < 8 ==> BigWordAt(Block(message, false, c), 8 * k + j) == ws[j]
  {
    hide Padded, BigWordAt, BigRow, Block, Parts, Flatten;
    BigItemOfBlock(message, parts, c, k, row, ws, 0);
    forall j | 0 <= j < 8 ensures BigWordAt(Block(message, false, c), 8 * k + j) == ws[j] {
      BigItemOfBlock(message, parts, c, k, row, ws, j);
    }
  }

  /** Eight parts are eight words, least significant byte first. */
  predicate LittleRow(parts: seq<seq<byte>>, ws: seq<word>) {
    && |parts| == 8 && |ws| == 8 && Parts(parts)
    && LittleWord(parts[0]) == ws[0] && LittleWord(parts[1]) == ws[1] && LittleWord(parts[2]) == ws[2]
    && LittleWord(parts[3]) == ws[3] && LittleWord(parts[4]) == ws[4] && LittleWord(parts[5]) == ws[5]
    && LittleWord(parts[6]) == ws[6] && LittleWord(parts[7]) == ws[7]
  }

  lemma LittleRowAt(parts: seq<seq<byte>>, ws: seq<word>, j: nat)
    requires LittleRow(parts, ws) && j < 8
    ensures |parts| == 8 && |ws| == 8 && |parts[j]| == 4 && LittleWord(parts[j]) == ws[j]
  {
    hide LittleWord;
  }

  lemma LittleWordOfBlock(message: seq<byte>, parts: seq<seq<byte>>, c: nat, t: nat)
    requires Parts(parts) && Padded(message, true) == Flatten(parts) && 16 * c + 16 <= |parts| && t < 16
    ensures (c + 1) * CHUNK <= |Padded(message, true)| && |parts[16 * c + t]| == 4
    ensures LittleWordAt(Block(message, true, c), t) == LittleWord(parts[16 * c + t])
  {
    hide Padded, LittleWord, Block;
    PartOfBlock(message, true, parts, c, t);
  }

  lemma LittleItemOfBlock(message: seq<byte>, parts: seq<seq<byte>>, c: nat, k: nat, row: seq<seq<byte>>, ws: seq<word>,
                       j: nat)
    requires Parts(parts) && Padded(message, true) == Flatten(parts) && 16 * c + 16 <= |parts| && k < 2 && j < 8
    requires parts[16 * c + 8 * k..16 * c + 8 * k + 8] == row && LittleRow(row, ws)
    ensures (c + 1) * CHUNK <= |Padded(message, true)| && |ws| == 8
    ensures LittleWordAt(Block(message, true, c), 8 * k + j) == ws[j]
  {
    hide Padded, LittleWord, LittleWordAt, LittleRow, Block, Parts, Flatten;
    ItemOfRow(parts, 16 * c + 8 * k, row, j);
    LittleRowAt(row, ws, j);
    LittleWordOfBlock(message, parts, c, 8 * k + j);
  }

  lemma LittleRowOfBlock(message: seq<byte>, parts: seq<seq<byte>>, c: nat, k: nat, row: seq<seq<byte>>, ws: seq<word>)
    requires Parts(parts) && Padded(message, true) == Flatten(parts) && 16 * c + 16 <= |parts| && k < 2
    requires parts[16 * c + 8 * k..16 * c + 8 * k + 8] == row && LittleRow(row, ws)
    ensures (c + 1) * CHUNK <= |Padded(message, true)| && |ws| == 8
    ensures forall j :: 0 <= j < 8 ==> LittleWordAt(Block(message, true, c), 8 * k + j) == ws[j]
  {
    hide Padded, LittleWordAt, LittleRow, Block, Parts, Flatten;
    LittleItemOfBlock(message, parts, c, k, row, ws, 0);
    forall j | 0 <= j < 8 ensures LittleWordAt(Block(message, true, c), 8 * k + j) == ws[j] {
      LittleItemOfBlock(message, parts, c, k, row, ws, j);
    }
  }

  // ----- lengths as bytes

  lemma BigEndianOf(n: nat, k: nat, q: nat, b: byte)
    requires k > 0 && n == 256 * q + b as nat
    ensures BigEndian(n, k) == BigEndian(q, k - 1) + [b]
  {
    hide BigEndian;
    ByteOfValue(b);
    Quotient(n, q, b as nat);
    BigEndianCons(n, k);
  }

  lemma Quotient(n: nat, q: nat, r: nat)
    requires n == 256 * q + r && r < 256
    ensures n / 256 == q && n % 256 == r
  {
  }

  lemma BigEndianCons(n: nat, k: nat)
    requires k > 0
    ensures BigEndian(n, k) == BigEndian(n / 256, k - 1) + [(n % 256) as byte]
  {
  }

  lemma {:induction false} BigEndianZero(k: nat)
    ensures BigEndian(0, k) == Zeros(k)
  {
    if k > 0 {
      BigEndianZero(k - 1);
      assert Zeros(k - 1) + [0] == Zeros(k);
    }
  }

  lemma LittleEndianOf(n: nat, k: nat, q: nat, b: byte)
    requires k > 0 && n == 256 * q + b as nat
    ensures LittleEndian(n, k) == [b] + LittleEndian(q, k - 1)
  {
    hide LittleEndian;
    ByteOfValue(b);
    Quotient(n, q, b as nat);
    LittleEndianCons(n, k);
  }

  lemma LittleEndianCons(n: nat, k: nat)
    requires k > 0
    ensures LittleEndian(n, k) == [(n % 256) as byte] + LittleEndian(n / 256, k - 1)
  {
  }

  lemma {:induction false} LittleEndianZero(k: nat)
    ensures LittleEndian(0, k) == Zeros(k)
  {
    if k > 0 {
      LittleEndianZero(k - 1);
      assert [0] + Zeros(k - 1) == Zeros(k);
    }
  }

  // ----- words as bytes

  lemma {:induction false} MemoryIs(ws: seq<word>, parts: seq<seq<byte>>)
    requires |parts| == |ws| && forall i :: 0 <= i < |ws| ==> BigBytes(ws[i]) == parts[i]
    ensures BigMemory(ws) == Flatten(parts)
  {
    hide BigBytes;
    if ws != [] {
      assert forall i :: 0 <= i < |ws| - 1 ==> ws[1..][i] == ws[i + 1] && parts[1..][i] == parts[i + 1];
      MemoryIs(ws[1..], parts[1..]);
    }
  }

  lemma {:induction false} LittleMemoryIs(ws: seq<word>, parts: seq<seq<byte>>)
    requires |parts| == |ws| && forall i :: 0 <= i < |ws| ==> LittleBytes(ws[i]) == parts[i]
    ensures LittleMemory(ws) == Flatten(parts)
  {
    hide LittleBytes;
    if ws != [] {
      assert forall i :: 0 <= i < |ws| - 1 ==> ws[1..][i] == ws[i + 1] && parts[1..][i] == parts[i + 1];
      LittleMemoryIs(ws[1..], parts[1..]);
    }
  }
}
