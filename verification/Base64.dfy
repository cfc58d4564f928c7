/** utils/Base64.cpp against section 4 of RFC 4648. */
module Base64 {
  import opened Bytes
  import opened Words

  const DIGITS := "ABCDEFGHIJKLMNOP" + "QRSTUVWXYZabcdef" + "ghijklmnopqrstuv" + "wxyz0123456789+/"

  type sextet = bv6

  // ----- the standard

  /** The alphabet of the standard. */
  function Letter(v: sextet): char {
    var n := v as int;
    if n < 26 then 'A' + n as char
    else if n < 52 then 'a' + (n - 26) as char
    else if n < 62 then '0' + (n - 52) as char
    else if n == 62 then '+' else '/'
  }

  function Value(c: char): sextet {
    if 'A' <= c <= 'Z' then (c - 'A') as int as sextet
    else if 'a' <= c <= 'z' then ((c - 'a') as int + 26) as sextet
    else if '0' <= c <= '9' then ((c - '0') as int + 52) as sextet
    else if c == '+' then 62 else 63
  }

  function First(a: byte): sextet { (a >> 2) as sextet }
  function Second(a: byte, b: byte): sextet { ((a & 0x03) << 4) as sextet | (b >> 4) as sextet }
  function Third(b: byte, c: byte): sextet { ((b & 0x0F) << 2) as sextet | (c >> 6) as sextet }
  function Fourth(c: byte): sextet { (c & 0x3F) as sextet }

  /** The encoder of the standard: groups of three bytes, and zero bits behind the last byte. */
  function Standard(data: seq<byte>): string {
    if |data| == 0 then ""
    else if |data| == 1 then [Letter(First(data[0])), Letter(Second(data[0], 0)), '=', '=']
    else if |data| == 2 then
      [Letter(First(data[0])), Letter(Second(data[0], data[1])), Letter(Third(data[1], 0)), '=']
    else
      [Letter(First(data[0])), Letter(Second(data[0], data[1])), Letter(Third(data[1], data[2])),
       Letter(Fourth(data[2]))] + Standard(data[3..])
  }

  function Join1(p: sextet, q: sextet): byte { ((p as byte) << 2) | ((q as byte) >> 4) }
  function Join2(q: sextet, r: sextet): byte { ((q as byte) << 4) | ((r as byte) >> 2) }
  function Join3(r: sextet, t: sextet): byte { ((r as byte) << 6) | (t as byte) }

  /** A decoder that drops pad bits whatever they are. */
  function Decode(s: string): seq<byte> {
    if |s| < 4 then []
    else
      var p, q, r, t := Value(s[0]), Value(s[1]), Value(s[2]), Value(s[3]);
      var a, b, c := Join1(p, q), Join2(q, r), Join3(r, t);
      (if s[2] == '=' then [a] else if s[3] == '=' then [a, b] else [a, b, c]) + Decode(s[4..])
  }

  // ----- the encoder

  /** digits[(tmp >> shift) & 0x3F] */
  function DigitAt(tmp: word, shift: nat): char
    requires shift <= 26
  {
    DIGITS[((tmp >> shift) & 0x3F) as sextet as nat]
  }

  /** Every turn loads four bytes, so up to three bytes behind the input are read. */
  predicate Readable(memory: seq<byte>, size: nat) {
    size == 0 || size + (if size % 3 == 0 then 1 else if size % 3 == 1 then 3 else 2) <= |memory|
  }

  /** What the turns from index i on append. */
  function Encoded(memory: seq<byte>, size: nat, i: nat): string
    requires i <= size && i % 3 == 0 && Readable(memory, size)
    decreases size - i
  {
    if i == size then ""
    else if size - i == 1 then
      [Letter(First(memory[i])), Letter(Second(memory[i], memory[i + 1])), '=', '=']
    else if size - i == 2 then
      [Letter(First(memory[i])), Letter(Second(memory[i], memory[i + 1])), Letter(Third(memory[i + 1], memory[i + 2])),
       '=']
    else
      [Letter(First(memory[i])), Letter(Second(memory[i], memory[i + 1])), Letter(Third(memory[i + 1], memory[i + 2])),
       Letter(Fourth(memory[i + 2]))] + Encoded(memory, size, i + 3)
  }

  lemma SixteenCases(k: nat)
    requires k < 16
    ensures k == 0 || k == 1 || k == 2 || k == 3 || k == 4 || k == 5 || k == 6 || k == 7
            || k == 8 || k == 9 || k == 10 || k == 11 || k == 12 || k == 13 || k == 14 || k == 15
  {
  }

  lemma TableIsAlphabet(v: sextet)
    ensures |DIGITS| == 64 && DIGITS[v as nat] == Letter(v)
  {
    var n := v as nat;
    SixteenCases(n % 16);
    assert n == 16 * (n / 16) + n % 16;
    if n < 16 {
      assert DIGITS[n] == "ABCDEFGHIJKLMNOP"[n % 16];
    } else if n < 32 {
      assert DIGITS[n] == "QRSTUVWXYZabcdef"[n % 16];
    } else if n < 48 {
      assert DIGITS[n] == "ghijklmnopqrstuv"[n % 16];
    } else {
      assert DIGITS[n] == "wxyz0123456789+/"[n % 16];
    }
  }

  lemma Sextets(a: byte, b: byte, c: byte, d: byte)
    ensures var tmp := BigWord([a, b, c, d]);
            && (tmp >> 26) & 0x3F == First(a) as word
            && (tmp >> 20) & 0x3F == Second(a, b) as word
            && (tmp >> 14) & 0x3F == Third(b, c) as word
            && (tmp >> 8) & 0x3F == Fourth(c) as word
  {
  }

  lemma DigitsOfWord(a: byte, b: byte, c: byte, d: byte)
    ensures var tmp := BigWord([a, b, c, d]);
            && DigitAt(tmp, 26) == Letter(First(a)) && DigitAt(tmp, 20) == Letter(Second(a, b))
            && DigitAt(tmp, 14) == Letter(Third(b, c)) && DigitAt(tmp, 8) == Letter(Fourth(c))
  {
    hide BigWord, First, Second, Third, Fourth, Letter;
    Sextets(a, b, c, d);
    WidenNarrow(First(a)); WidenNarrow(Second(a, b)); WidenNarrow(Third(b, c)); WidenNarrow(Fourth(c));
    TableIsAlphabet(First(a));
    TableIsAlphabet(Second(a, b));
    TableIsAlphabet(Third(b, c));
    TableIsAlphabet(Fourth(c));
  }

  lemma WidenNarrow(v: sextet)
    ensures (v as word) < 64 && (v as word) as sextet == v
  {
  }

  /** One load and the characters made of it. */
  lemma LoadsGroup(memory: seq<byte>, i: nat)
    requires i + 4 <= |memory|
    ensures var tmp := Swap(LittleWord(memory[i..i + 4]));
            && DigitAt(tmp, 26) == Letter(First(memory[i]))
            && DigitAt(tmp, 20) == Letter(Second(memory[i], memory[i + 1]))
            && DigitAt(tmp, 14) == Letter(Third(memory[i + 1], memory[i + 2]))
            && DigitAt(tmp, 8) == Letter(Fourth(memory[i + 2]))
  {
    hide DigitAt, BigWord, LittleWord, Swap, Letter, First, Second, Third, Fourth;
    SwapLoads(memory[i..i + 4]);
    assert memory[i..i + 4] == [memory[i], memory[i + 1], memory[i + 2], memory[i + 3]];
    DigitsOfWord(memory[i], memory[i + 1], memory[i + 2], memory[i + 3]);
  }

  /** How the loop ends a text: the index is a multiple of three until the last turn. */
  lemma LastTurn(size: nat, i: nat)
    requires i < size && i % 3 == 0
    ensures size - i == 1 ==> size % 3 == 1
    ensures size - i == 2 ==> size % 3 == 2
    ensures (i + 3) % 3 == 0
  {
  }

  /** What a turn loads is enough for the four characters of the group, or for those it writes. */
  method Load(memory: seq<byte>, size: nat, i: nat) returns (tmp: word)
    requires i < size && i % 3 == 0 && Readable(memory, size)
    ensures i + 4 <= |memory|
    ensures DigitAt(tmp, 26) == Letter(First(memory[i])) && DigitAt(tmp, 20) == Letter(Second(memory[i], memory[i + 1]))
    ensures DigitAt(tmp, 14) == Letter(Third(memory[i + 1], memory[i + 2]))
    ensures DigitAt(tmp, 8) == Letter(Fourth(memory[i + 2]))
  {
    hide DigitAt, LittleWord, Swap, Letter, First, Second, Third, Fourth;
    LastTurn(size, i);
    LoadsGroup(memory, i);
    tmp := Swap(LittleWord(memory[i..i + 4]));
  }

  method Encode(memory: seq<byte>, size: nat) returns (str: string)
    requires Readable(memory, size)
    ensures str == Encoded(memory, size, 0)
  {
    hide DigitAt, Letter, First, Second, Third, Fourth;
    str := "";
    var i := 0;
    while i < size
      invariant i <= size && (i % 3 == 0 || i == size)
      invariant if i % 3 == 0 then str + Encoded(memory, size, i) == Encoded(memory, size, 0)
                else str == Encoded(memory, size, 0)
    {
      LastTurn(size, i);
      var tmp := Load(memory, size, i);
      ghost var before := str;
      if size - i == 1 {
        str := str + [DigitAt(tmp, 26)];
        str := str + [DigitAt(tmp, 20)];
        str := str + "==";
        Append4(before, DigitAt(tmp, 26), DigitAt(tmp, 20), '=', '=', "");
        i := i + 1;
      } else if size - i == 2 {
        str := str + [DigitAt(tmp, 26)];
        str := str + [DigitAt(tmp, 20)];
        str := str + [DigitAt(tmp, 14)];
        str := str + "=";
        Append4(before, DigitAt(tmp, 26), DigitAt(tmp, 20), DigitAt(tmp, 14), '=', "");
        i := i + 2;
      } else {
        str := str + [DigitAt(tmp, 26)];
        str := str + [DigitAt(tmp, 20)];
        str := str + [DigitAt(tmp, 14)];
        str := str + [DigitAt(tmp, 8)];
        Append4(before, DigitAt(tmp, 26), DigitAt(tmp, 20), DigitAt(tmp, 14), DigitAt(tmp, 8),
                Encoded(memory, size, i + 3));
        i := i + 3;
      }
    }
  }

  lemma Append4(s: string, c0: char, c1: char, c2: char, c3: char, rest: string)
    ensures s + [c0] + [c1] + [c2] + [c3] + rest == s + ([c0, c1, c2, c3] + rest)
    ensures s + [c0] + [c1] + [c2, c3] == s + [c0, c1, c2, c3]
    ensures [c0, c1, c2, c3] + [] == [c0, c1, c2, c3] && forall t: string :: t + [] == t
  {
  }

  // ----- what the encoder promises

  lemma LetterRoundTrip(v: sextet)
    ensures Value(Letter(v)) == v && Letter(v) != '='
  {
    assert (v as int) as sextet == v;
  }

  lemma GroupDecodes(a: byte, b: byte, c: byte)
    ensures Join1(First(a), Second(a, b)) == a
    ensures Join2(Second(a, b), Third(b, c)) == b
    ensures Join3(Third(b, c), Fourth(c)) == c
  {
  }

  /** A group of four characters decodes to the one, two or three bytes it was made of. */
  lemma DecodeGroup(a: byte, b: byte, c: byte, rest: string)
    ensures Decode([Letter(First(a)), Letter(Second(a, b)), '=', '=']) == [a]
    ensures Decode([Letter(First(a)), Letter(Second(a, b)), Letter(Third(b, c)), '=']) == [a, b]
    ensures Decode([Letter(First(a)), Letter(Second(a, b)), Letter(Third(b, c)), Letter(Fourth(c))] + rest)
            == [a, b, c] + Decode(rest)
  {
    hide Letter, Value, First, Second, Third, Fourth, Join1, Join2, Join3;
    GroupDecodes(a, b, c);
    LetterRoundTrip(First(a)); LetterRoundTrip(Second(a, b)); LetterRoundTrip(Third(b, c)); LetterRoundTrip(Fourth(c));
    var one := [Letter(First(a)), Letter(Second(a, b)), '=', '='];
    var two := [Letter(First(a)), Letter(Second(a, b)), Letter(Third(b, c)), '='];
    var three := [Letter(First(a)), Letter(Second(a, b)), Letter(Third(b, c)), Letter(Fourth(c))];
    assert one[4..] == "" && two[4..] == "" && (three + rest)[4..] == rest;
  }

  /** Whatever bytes follow the input, the text decodes to the input and has four characters for every
      started group of three bytes. */
  lemma {:induction false} EncodedDecodes(memory: seq<byte>, size: nat, i: nat)
    requires i <= size && i % 3 == 0 && Readable(memory, size)
    ensures Decode(Encoded(memory, size, i)) == memory[i..size]
    ensures |Encoded(memory, size, i)| == (size - i + 2) / 3 * 4
    decreases size - i
  {
    hide Letter, First, Second, Third, Fourth, Decode;
    if i < size {
      LastTurn(size, i);
      DecodeGroup(memory[i], memory[i + 1], memory[i + 2], if size - i > 2 then Encoded(memory, size, i + 3) else "");
      if size - i > 2 {
        EncodedDecodes(memory, size, i + 3);
        TakeThree(memory, i, size);
      } else {
        assert memory[i..size] == if size - i == 1 then [memory[i]] else [memory[i], memory[i + 1]];
      }
      StartedGroups(size - i);
    } else {
      DecodesNothing();
    }
  }

  lemma StartedGroups(n: nat)
    requires n > 0
    ensures (n + 2) / 3 == if n > 2 then (n - 3 + 2) / 3 + 1 else 1
  {
  }

  lemma TakeThree(memory: seq<byte>, i: nat, size: nat)
    requires i + 3 <= size <= |memory|
    ensures memory[i..size] == [memory[i], memory[i + 1], memory[i + 2]] + memory[i + 3..size]
  {
  }

  lemma DecodesNothing()
    ensures Decode("") == []
  {
  }

  /** The bits behind the last byte that end up in the text. */
  predicate PadBitsZero(memory: seq<byte>, size: nat)
    requires Readable(memory, size)
  {
    if size % 3 == 0 then true
    else if size % 3 == 1 then memory[size] & 0xF0 == 0
    else memory[size] & 0xC0 == 0
  }

  lemma PadBits(a: byte, b: byte)
    ensures Second(a, b) == Second(a, 0) <==> b & 0xF0 == 0
    ensures Third(a, b) == Third(a, 0) <==> b & 0xC0 == 0
  {
  }

  /** Exact condition: the text is the one of the standard if and only if the length is a multiple of
      three or the two or four bits that follow the input are zero. */
  lemma {:induction false} StandardExactly(memory: seq<byte>, size: nat, i: nat)
    requires i <= size && i % 3 == 0 && Readable(memory, size)
    ensures Encoded(memory, size, i) == Standard(memory[i..size]) <==> i == size || PadBitsZero(memory, size)
    decreases size - i
  {
    hide Letter, Value, First, Second, Third, Fourth, PadBitsZero;
    var data := memory[i..size];
    if i < size { WhichPadBits(memory, size, i); }
    if size - i == 1 {
      PadBits(memory[i], memory[i + 1]);
      LetterRoundTrip(Second(memory[i], memory[i + 1])); LetterRoundTrip(Second(memory[i], 0));
    } else if size - i == 2 {
      PadBits(memory[i + 1], memory[i + 2]);
      LetterRoundTrip(Third(memory[i + 1], memory[i + 2])); LetterRoundTrip(Third(memory[i + 1], 0));
    } else if size - i > 2 {
      StandardExactly(memory, size, i + 3);
      assert data[3..] == memory[i + 3..size];
      SameFront(Letter(First(data[0])), Letter(Second(data[0], data[1])), Letter(Third(data[1], data[2])),
                Letter(Fourth(data[2])), Encoded(memory, size, i + 3), Standard(data[3..]));
    }
  }

  lemma WhichPadBits(memory: seq<byte>, size: nat, i: nat)
    requires i < size && i % 3 == 0 && Readable(memory, size)
    ensures size - i == 1 ==> (PadBitsZero(memory, size) <==> memory[size] & 0xF0 == 0)
    ensures size - i == 2 ==> (PadBitsZero(memory, size) <==> memory[size] & 0xC0 == 0)
    ensures size - i == 3 ==> PadBitsZero(memory, size)
  {
  }

  lemma SameFront(p: char, q: char, r: char, t: char, x: string, y: string)
    ensures [p, q, r, t] + x == [p, q, r, t] + y <==> x == y
  {
    assert ([p, q, r, t] + x)[4..] == x && ([p, q, r, t] + y)[4..] == y;
  }

  // ----- known answers

  /** The examples of section 10 of RFC 4648, and the two last letters of its alphabet. */
  lemma Examples()
    ensures Standard([0x66]) == "Zg==" && Standard([0x66, 0x6F]) == "Zm8="
    ensures Standard([0x66, 0x6F, 0x6F]) == "Zm9v" && Standard([0x66, 0x6F, 0x6F, 0x62]) == "Zm9vYg=="
    ensures Standard([0x66, 0x6F, 0x6F, 0x62, 0x61]) == "Zm9vYmE="
    ensures Standard([0x66, 0x6F, 0x6F, 0x62, 0x61, 0x72]) == "Zm9vYmFy"
    ensures Standard([0xFB, 0xF0]) == "+/A="
  {
    hide Letter, First, Second, Third, Fourth, Standard;
    SextetsOfFoobar();
    LettersOfFoobar();
    Grouped(0x66, 0x6F, 0x6F);
    Grouped(0x62, 0x61, 0x72);
    Grouped(0xFB, 0xF0, 0);
    FirstGroup(0x66, 0x6F, 0x6F, [0x62], "Yg==");
    FirstGroup(0x66, 0x6F, 0x6F, [0x62, 0x61], "YmE=");
    FirstGroup(0x66, 0x6F, 0x6F, [0x62, 0x61, 0x72], "YmFy");
    var foo: seq<byte> := [0x66, 0x6F, 0x6F];
    assert foo + [0x62] == [0x66, 0x6F, 0x6F, 0x62];
    assert foo + [0x62, 0x61] == [0x66, 0x6F, 0x6F, 0x62, 0x61];
    assert foo + [0x62, 0x61, 0x72] == [0x66, 0x6F, 0x6F, 0x62, 0x61, 0x72];
    assert "Zm9v" + "Yg==" == "Zm9vYg==" && "Zm9v" + "YmE=" == "Zm9vYmE=" && "Zm9v" + "YmFy" == "Zm9vYmFy";
  }

  lemma FirstGroup(a: byte, b: byte, c: byte, more: seq<byte>, text: string)
    requires Standard(more) == text
    ensures Standard([a, b, c] + more)
            == [Letter(First(a)), Letter(Second(a, b)), Letter(Third(b, c)), Letter(Fourth(c))] + text
  {
  }

  lemma Grouped(a: byte, b: byte, c: byte)
    ensures Standard([a]) == [Letter(First(a)), Letter(Second(a, 0)), '=', '=']
    ensures Standard([a, b]) == [Letter(First(a)), Letter(Second(a, b)), Letter(Third(b, 0)), '=']
    ensures Standard([a, b, c]) == [Letter(First(a)), Letter(Second(a, b)), Letter(Third(b, c)), Letter(Fourth(c))]
  {
  }

  lemma SextetsOfFoobar()
    ensures First(0x66) == 25 && Second(0x66, 0) == 32 && Second(0x66, 0x6F) == 38 && Third(0x6F, 0) == 60
    ensures Third(0x6F, 0x6F) == 61 && Fourth(0x6F) == 47
    ensures First(0x62) == 24 && Second(0x62, 0) == 32 && Second(0x62, 0x61) == 38 && Third(0x61, 0) == 4
    ensures Third(0x61, 0x72) == 5 && Fourth(0x72) == 50
    ensures First(0xFB) == 62 && Second(0xFB, 0xF0) == 63 && Third(0xF0, 0) == 0
  {
  }

  lemma LettersOfFoobar()
    ensures Letter(25) == 'Z' && Letter(32) == 'g' && Letter(38) == 'm' && Letter(60) == '8' && Letter(61) == '9'
    ensures Letter(47) == 'v' && Letter(24) == 'Y' && Letter(4) == 'E' && Letter(5) == 'F' && Letter(50) == 'y'
    ensures Letter(62) == '+' && Letter(63) == '/' && Letter(0) == 'A'
  {
  }
}
