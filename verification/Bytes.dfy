/** Bytes and numbers written as bytes. */
module Bytes {

  type byte = bv8
  type nibble = bv4

  function BigEndian(n: nat, k: nat): (s: seq<byte>)
    ensures |s| == k
  {
    if k == 0 then [] else BigEndian(n / 256, k - 1) + [(n % 256) as byte]
  }

  function FromBigEndian(s: seq<byte>): nat {
    if s == [] then 0 else FromBigEndian(s[..|s| - 1]) * 256 + s[|s| - 1] as nat
  }

  function Pow256(k: nat): nat { if k == 0 then 1 else 256 * Pow256(k - 1) }

  lemma {:induction false} BigEndianRoundTrip(n: nat, k: nat)
    requires n < Pow256(k)
    ensures FromBigEndian(BigEndian(n, k)) == n
  {
    if k > 0 {
      BigEndianRoundTrip(n / 256, k - 1);
      BigEndianUnfolds(n, k);
    }
  }

  lemma BigEndianUnfolds(n: nat, k: nat)
    requires k > 0
    ensures FromBigEndian(BigEndian(n, k)) == FromBigEndian(BigEndian(n / 256, k - 1)) * 256 + n % 256
  {
    var s := BigEndian(n, k);
    assert s[..k - 1] == BigEndian(n / 256, k - 1);
    ByteValue(n % 256);
  }

  lemma ByteValue(x: nat)
    requires x < 256
    ensures (x as byte) as nat == x
  {
    var high, low := (x / 16) as nibble, (x % 16) as nibble;
    NibbleValue(x / 16);
    NibbleValue(x % 16);
    NibblesJoin(high, low);
    ByteOfValue(((high as byte) << 4) | (low as byte));
  }

  lemma NibbleValue(x: nat)
    requires x < 16
    ensures (x as nibble) as nat == x
  {
  }

  lemma NibblesJoin(high: nibble, low: nibble)
    ensures (((high as byte) << 4) | (low as byte)) as nat == (high as nat) * 16 + (low as nat)
  {
  }

  lemma ByteOfValue(b: byte)
    ensures (b as nat) as byte == b
  {
  }

  function FromLittleEndian(s: seq<byte>): nat {
    if s == [] then 0 else s[0] as nat + 256 * FromLittleEndian(s[1..])
  }

  lemma {:induction false} LittleEndianRoundTrip(n: nat, k: nat)
    requires n < Pow256(k)
    ensures FromLittleEndian(LittleEndian(n, k)) == n
  {
    if k > 0 {
      LittleEndianRoundTrip(n / 256, k - 1);
      ByteValue(n % 256);
      assert LittleEndian(n, k)[1..] == LittleEndian(n / 256, k - 1);
    }
  }

  function LittleEndian(n: nat, k: nat): (s: seq<byte>)
    ensures |s| == k
  {
    if k == 0 then [] else [(n % 256) as byte] + LittleEndian(n / 256, k - 1)
  }
}
