/** WebSocket frames as sections 5.2 and 5.3 of RFC 6455 lay them out: an encoder and an independent
    decoder. The bit fields are those of WSHeader in websocket/WSProtocolParser.h. */
module WsFrames {
  import opened Bytes
  import opened Common

  const WS_CONTINUE: byte := 0x00
  const WS_TEXT: byte := 0x01
  const WS_BINARY: byte := 0x02
  const WS_CLOSE: byte := 0x08
  const WS_PING: byte := 0x09
  const WS_PONG: byte := 0x0A

  function Opcode(b0: byte): byte { b0 & 0x0F }
  function Reserved(b0: byte): byte { (b0 >> 4) & 0x07 }
  predicate Fin(b0: byte) { b0 & 0x80 != 0 }
  predicate Masked(b1: byte) { b1 & 0x80 != 0 }
  function Len7(b1: byte): nat { (b1 & 0x7F) as nat }

  /** Masking and unmasking are the same operation (section 5.3). */
  function Mask(payload: seq<byte>, key: seq<byte>): (r: seq<byte>)
    requires |key| == 4
    ensures |r| == |payload|
  {
    seq(|payload|, i requires 0 <= i < |payload| => payload[i] ^ key[i % 4])
  }

  lemma MaskTwice(payload: seq<byte>, key: seq<byte>)
    requires |key| == 4
    ensures Mask(Mask(payload, key), key) == payload
  {
    forall i | 0 <= i < |payload| ensures Mask(Mask(payload, key), key)[i] == payload[i] {
      XorTwice(payload[i], key[i % 4]);
    }
  }

  lemma XorTwice(a: byte, b: byte)
    ensures (a ^ b) ^ b == a
  {
  }

  // ----- frames

  datatype Frame = Frame(fin: bool, rsv: byte, opcode: byte, mask: Option<seq<byte>>, payload: seq<byte>)

  const MAX_LENGTH: nat := 0x8000_0000_0000_0000

  predicate WellFormed(f: Frame) {
    && f.rsv < 8 && f.opcode < 16
    && (f.mask.Some? ==> |f.mask.value| == 4)
    && |f.payload| < MAX_LENGTH
  }

  function FirstByte(f: Frame): byte { (if f.fin then 0x80 else 0) | (f.rsv << 4) | f.opcode }

  /** The seven-bit length field and the number of extended length bytes: the shortest form. */
  function LengthField(n: nat): nat { if n < 126 then n else if n < 0x1_0000 then 126 else 127 }

  function Extra(len7: nat): nat { if len7 == 126 then 2 else if len7 == 127 then 8 else 0 }

  function SecondByte(masked: bool, n: nat): byte {
    (if masked then 0x80 else 0) | (LengthField(n) as byte)
  }

  function MaskBytes(f: Frame): seq<byte> { if f.mask.Some? then f.mask.value else [] }

  function Body(f: Frame): seq<byte>
    requires WellFormed(f)
  {
    if f.mask.Some? then Mask(f.payload, f.mask.value) else f.payload
  }

  function Prefix(f: Frame): seq<byte> {
    [FirstByte(f), SecondByte(f.mask.Some?, |f.payload|)] + BigEndian(|f.payload|, Extra(LengthField(|f.payload|)))
  }

  function Encode(f: Frame): seq<byte>
    requires WellFormed(f)
  {
    Prefix(f) + MaskBytes(f) + Body(f)
  }

  /** A frame read from the front of s, the length form it used, and the bytes behind it. */
  datatype Decoded = Decoded(frame: Frame, extra: nat, rest: seq<byte>)

  function Decode(s: seq<byte>): Option<Decoded> {
    if |s| < 2 then None
    else
      var extra := Extra(Len7(s[1]));
      var masked := Masked(s[1]);
      var hs := 2 + extra + (if masked then 4 else 0);
      if |s| < hs then None
      else
        var n := if extra == 0 then Len7(s[1]) else FromBigEndian(s[2..2 + extra]);
        if |s| < hs + n then None
        else
          var body := s[hs..hs + n];
          var frame := Frame(Fin(s[0]), Reserved(s[0]), Opcode(s[0]),
                             if masked then Some(s[hs - 4..hs]) else None,
                             if masked then Mask(body, s[hs - 4..hs]) else body);
          Some(Decoded(frame, extra, s[hs + n..]))
  }

  /** A frame and the number of extended length bytes it was written with. */
  datatype Received = Received(frame: Frame, extra: nat)

  function DecodeAll(s: seq<byte>): Option<seq<Received>>
    decreases |s|
  {
    if s == [] then Some([])
    else match Decode(s)
      case None => None
      case Some(d) =>
        if |d.rest| >= |s| then None
        else match DecodeAll(d.rest)
          case None => None
          case Some(fs) => Some([Received(d.frame, d.extra)] + fs)
  }

  // ----- reading back what was written

  lemma FirstByteFields(f: Frame)
    requires WellFormed(f)
    ensures Fin(FirstByte(f)) == f.fin && Reserved(FirstByte(f)) == f.rsv && Opcode(FirstByte(f)) == f.opcode
  {
  }

  lemma SecondByteFields(masked: bool, n: nat)
    ensures Masked(SecondByte(masked, n)) == masked && Len7(SecondByte(masked, n)) == LengthField(n)
  {
    ByteValue(LengthField(n));
    MaskBit(LengthField(n) as byte);
  }

  lemma MaskBit(x: byte)
    requires (x as nat) < 128
    ensures (0x80 | x) & 0x7F == x && (0 | x) & 0x7F == x
    ensures (0x80 | x) & 0x80 != 0 && (0 | x) & 0x80 == 0
  {
  }

  lemma LengthReads(n: nat)
    requires n < MAX_LENGTH
    ensures var extra := Extra(LengthField(n));
            extra == 0 || FromBigEndian(BigEndian(n, extra)) == n
  {
    var extra := Extra(LengthField(n));
    assert Pow256(2) == 0x1_0000;
    assert Pow256(4) == Pow256(2) * 0x1_0000;
    assert Pow256(6) == Pow256(4) * 0x1_0000;
    assert Pow256(8) == Pow256(6) * 0x1_0000;
    if extra != 0 { BigEndianRoundTrip(n, extra); }
  }

  /** Where the fields of an encoded frame lie in a longer stream. */
  lemma EncodedParts(f: Frame, rest: seq<byte>)
    requires WellFormed(f)
    ensures var s := Encode(f) + rest;
            var extra := Extra(LengthField(|f.payload|));
            var hs := 2 + extra + |MaskBytes(f)|;
            && |s| == hs + |f.payload| + |rest|
            && s[0] == FirstByte(f) && s[1] == SecondByte(f.mask.Some?, |f.payload|)
            && s[2..2 + extra] == BigEndian(|f.payload|, extra)
            && s[2 + extra..hs] == MaskBytes(f)
            && s[hs..hs + |f.payload|] == Body(f)
            && s[hs + |f.payload|..] == rest
  {
    hide BigEndian, FirstByte, SecondByte, Mask;
    var p, m, b := Prefix(f), MaskBytes(f), Body(f);
    var s := Encode(f) + rest;
    assert s == p + (m + (b + rest));
    assert s[..|p|] == p;
    assert s[|p|..] == m + (b + rest);
    assert s[2..|p|] == p[2..];
  }

  /** The decoder inverts the encoder on every frame, whatever follows it, and finds the shortest
      length form. */
  lemma DecodeEncode(f: Frame, rest: seq<byte>)
    requires WellFormed(f)
    ensures Decode(Encode(f) + rest) == Some(Decoded(f, Needed(|f.payload|), rest))
  {
    hide BigEndian, FromBigEndian, Encode, FirstByte, SecondByte, Fin, Reserved, Opcode, Masked, Len7, Mask;
    FirstByteFields(f);
    SecondByteFields(f.mask.Some?, |f.payload|);
    LengthReads(|f.payload|);
    EncodedParts(f, rest);
    if f.mask.Some? { MaskTwice(f.payload, f.mask.value); }
  }

  function EncodeAll(fs: seq<Frame>): seq<byte>
    requires forall i :: 0 <= i < |fs| ==> WellFormed(fs[i])
  {
    if fs == [] then [] else Encode(fs[0]) + EncodeAll(fs[1..])
  }

  /** How many extended length bytes a payload of n bytes needs: none, two or eight. */
  function Needed(n: nat): nat { if n < 126 then 0 else if n < 0x1_0000 then 2 else 8 }

  function Shortest(fs: seq<Frame>): (rs: seq<Received>)
    ensures |rs| == |fs|
  {
    seq(|fs|, i requires 0 <= i < |fs| => Received(fs[i], Needed(|fs[i].payload|)))
  }

  lemma ShortestCons(fs: seq<Frame>)
    requires fs != []
    ensures Shortest(fs) == [Received(fs[0], Needed(|fs[0].payload|))] + Shortest(fs[1..])
  {
  }

  /** A stream of frames reads back as exactly those frames, each in its shortest form. */
  lemma {:induction false} DecodeAllEncodeAll(fs: seq<Frame>)
    requires forall i :: 0 <= i < |fs| ==> WellFormed(fs[i])
    ensures DecodeAll(EncodeAll(fs)) == Some(Shortest(fs))
  {
    if fs != [] {
      hide Decode, Encode;
      DecodeEncode(fs[0], EncodeAll(fs[1..]));
      EncodedParts(fs[0], EncodeAll(fs[1..]));
      DecodeAllEncodeAll(fs[1..]);
      ShortestCons(fs);
    }
  }

  // ----- the examples of section 5.7

  const HELLO: seq<byte> := [0x48, 0x65, 0x6c, 0x6c, 0x6f]
  const KEY: seq<byte> := [0x37, 0xfa, 0x21, 0x3d]

  lemma UnmaskedExamples()
    ensures Encode(Frame(true, 0, WS_TEXT, None, HELLO)) == [0x81, 0x05, 0x48, 0x65, 0x6c, 0x6c, 0x6f]
    ensures Encode(Frame(true, 0, WS_PING, None, HELLO)) == [0x89, 0x05, 0x48, 0x65, 0x6c, 0x6c, 0x6f]
    ensures Encode(Frame(false, 0, WS_TEXT, None, HELLO[..3])) == [0x01, 0x03, 0x48, 0x65, 0x6c]
    ensures Encode(Frame(true, 0, WS_CONTINUE, None, HELLO[3..])) == [0x80, 0x02, 0x6c, 0x6f]
  {
    assert BigEndian(5, 0) == [] && BigEndian(3, 0) == [] && BigEndian(2, 0) == [];
  }

  lemma MaskedExamples()
    ensures Encode(Frame(true, 0, WS_TEXT, Some(KEY), HELLO))
            == [0x81, 0x85, 0x37, 0xfa, 0x21, 0x3d, 0x7f, 0x9f, 0x4d, 0x51, 0x58]
    ensures Encode(Frame(true, 0, WS_PONG, Some(KEY), HELLO))
            == [0x8a, 0x85, 0x37, 0xfa, 0x21, 0x3d, 0x7f, 0x9f, 0x4d, 0x51, 0x58]
  {
    assert BigEndian(5, 0) == [];
    assert Mask(HELLO, KEY) == [0x7f, 0x9f, 0x4d, 0x51, 0x58];
  }

  lemma LongExamples(payload: seq<byte>)
    ensures |payload| == 256 ==> Prefix(Frame(true, 0, WS_BINARY, None, payload)) == [0x82, 0x7e, 0x01, 0x00]
    ensures |payload| == 65536 ==>
              Prefix(Frame(true, 0, WS_BINARY, None, payload)) == [0x82, 0x7f, 0, 0, 0, 0, 0, 0x01, 0, 0]
  {
    hide BigEndian;
    BigEndianTwo(256, 1, 0);
    BigEndian65536();
  }

  lemma BigEndian65536()
    ensures BigEndian(65536, 8) == [0, 0, 0, 0, 0, 0x01, 0, 0]
  {
    assert BigEndian(65536, 8) == BigEndian(256, 7) + [0] == BigEndian(1, 6) + [0] + [0];
    BigEndianOne(6);
  }

  lemma BigEndianTwo(n: nat, high: nat, low: nat)
    requires n == 256 * high + low && high < 256 && low < 256
    ensures BigEndian(n, 2) == [high as byte, low as byte]
  {
    hide BigEndian;
    LastByte(n, 2, high, low);
    LastByte(high, 1, 0, high);
    assert BigEndian(0, 0) == [];
  }

  lemma LastByte(n: nat, k: nat, high: nat, low: nat)
    requires k > 0 && n == 256 * high + low && low < 256
    ensures BigEndian(n, k) == BigEndian(high, k - 1) + [low as byte]
  {
    TwoDigits(n, high, low);
  }

  lemma TwoDigits(n: nat, high: nat, low: nat)
    requires n == 256 * high + low && low < 256
    ensures n / 256 == high && n % 256 == low
  {
  }

  lemma {:induction false} BigEndianOne(k: nat)
    requires k > 0
    ensures BigEndian(1, k) == seq(k - 1, _ => 0) + [1]
  {
    BigEndianNone(k - 1);
  }

  lemma {:induction false} BigEndianNone(k: nat)
    ensures BigEndian(0, k) == seq(k, _ => 0)
  {
    if k > 0 { BigEndianNone(k - 1); }
  }
}
