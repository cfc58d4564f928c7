/** A worked example of MD5: the last message of the test suite in section A.5 of RFC 1321. It uses every
    constant, every rotation, the padding and the step from one block to the next. */
module Md5Example {
  import opened Bytes
  import opened Common
  import opened HashExamples
  import opened HashPadding
  import opened Words
  import opened Md5

  // The padded message in four-byte parts, eight a row. The first twenty are eight times "1234567890".
  function P0(): seq<seq<byte>> {
    [[0x31, 0x32, 0x33, 0x34], [0x35, 0x36, 0x37, 0x38], [0x39, 0x30, 0x31, 0x32], [0x33, 0x34, 0x35, 0x36],
     [0x37, 0x38, 0x39, 0x30], [0x31, 0x32, 0x33, 0x34], [0x35, 0x36, 0x37, 0x38], [0x39, 0x30, 0x31, 0x32]]
  }
  function P1(): seq<seq<byte>> {
    [[0x33, 0x34, 0x35, 0x36], [0x37, 0x38, 0x39, 0x30], [0x31, 0x32, 0x33, 0x34], [0x35, 0x36, 0x37, 0x38],
     [0x39, 0x30, 0x31, 0x32], [0x33, 0x34, 0x35, 0x36], [0x37, 0x38, 0x39, 0x30], [0x31, 0x32, 0x33, 0x34]]
  }
  function P2(): seq<seq<byte>> {
    [[0x35, 0x36, 0x37, 0x38], [0x39, 0x30, 0x31, 0x32], [0x33, 0x34, 0x35, 0x36], [0x37, 0x38, 0x39, 0x30],
     [0x80, 0x00, 0x00, 0x00], [0x00, 0x00, 0x00, 0x00], [0x00, 0x00, 0x00, 0x00], [0x00, 0x00, 0x00, 0x00]]
  }
  function P3(): seq<seq<byte>> {
    [[0x00, 0x00, 0x00, 0x00], [0x00, 0x00, 0x00, 0x00], [0x00, 0x00, 0x00, 0x00], [0x00, 0x00, 0x00, 0x00],
     [0x00, 0x00, 0x00, 0x00], [0x00, 0x00, 0x00, 0x00], [0x80, 0x02, 0x00, 0x00], [0x00, 0x00, 0x00, 0x00]]
  }

  // The words of the two blocks, eight a row.
  function X0(): seq<word> {
    [0x34333231, 0x38373635, 0x32313039, 0x36353433, 0x30393837, 0x34333231, 0x38373635, 0x32313039]
  }
  function X1(): seq<word> {
    [0x36353433, 0x30393837, 0x34333231, 0x38373635, 0x32313039, 0x36353433, 0x30393837, 0x34333231]
  }
  function X2(): seq<word> {
    [0x38373635, 0x32313039, 0x36353433, 0x30393837, 0x00000080, 0x00000000, 0x00000000, 0x00000000]
  }
  function X3(): seq<word> {
    [0x00000000, 0x00000000, 0x00000000, 0x00000000, 0x00000000, 0x00000000, 0x00000280, 0x00000000]
  }

  // The same words in the order in which the operations use them.
  function U0(): seq<word> {
    [0x34333231, 0x38373635, 0x32313039, 0x36353433, 0x30393837, 0x34333231, 0x38373635, 0x32313039]
  }
  function U1(): seq<word> {
    [0x36353433, 0x30393837, 0x34333231, 0x38373635, 0x32313039, 0x36353433, 0x30393837, 0x34333231]
  }
  function U2(): seq<word> {
    [0x38373635, 0x38373635, 0x38373635, 0x34333231, 0x34333231, 0x34333231, 0x34333231, 0x30393837]
  }
  function U3(): seq<word> {
    [0x30393837, 0x30393837, 0x36353433, 0x36353433, 0x36353433, 0x32313039, 0x32313039, 0x32313039]
  }
  function U4(): seq<word> {
    [0x34333231, 0x36353433, 0x38373635, 0x30393837, 0x38373635, 0x30393837, 0x32313039, 0x34333231]
  }
  function U5(): seq<word> {
    [0x36353433, 0x34333231, 0x36353433, 0x38373635, 0x30393837, 0x32313039, 0x34333231, 0x32313039]
  }
  function U6(): seq<word> {
    [0x34333231, 0x32313039, 0x30393837, 0x34333231, 0x32313039, 0x36353433, 0x34333231, 0x38373635]
  }
  function U7(): seq<word> {
    [0x36353433, 0x34333231, 0x38373635, 0x36353433, 0x30393837, 0x38373635, 0x32313039, 0x30393837]
  }
  function U8(): seq<word> {
    [0x38373635, 0x32313039, 0x36353433, 0x30393837, 0x00000080, 0x00000000, 0x00000000, 0x00000000]
  }
  function U9(): seq<word> {
    [0x00000000, 0x00000000, 0x00000000, 0x00000000, 0x00000000, 0x00000000, 0x00000280, 0x00000000]
  }
  function U10(): seq<word> {
    [0x32313039, 0x00000000, 0x00000000, 0x38373635, 0x00000000, 0x00000000, 0x00000000, 0x00000080]
  }
  function U11(): seq<word> {
    [0x00000000, 0x00000280, 0x30393837, 0x00000000, 0x00000000, 0x36353433, 0x00000000, 0x00000000]
  }
  function U12(): seq<word> {
    [0x00000000, 0x00000000, 0x00000000, 0x00000280, 0x32313039, 0x00000080, 0x00000000, 0x00000000]
  }
  function U13(): seq<word> {
    [0x00000000, 0x38373635, 0x30393837, 0x00000000, 0x00000000, 0x00000000, 0x00000000, 0x36353433]
  }
  function U14(): seq<word> {
    [0x38373635, 0x00000000, 0x00000280, 0x00000000, 0x00000000, 0x30393837, 0x00000000, 0x32313039]
  }
  function U15(): seq<word> {
    [0x00000000, 0x00000000, 0x00000000, 0x00000000, 0x00000080, 0x00000000, 0x36353433, 0x00000000]
  }

  // What every operation makes of its register, eight operations a row; V0 and V9 hold in their last four
  // places what the two blocks start from, in the order A, D, C, B.
  function V0(): seq<word> {
    [0x00000000, 0x00000000, 0x00000000, 0x00000000, 0x67452301, 0x10325476, 0x98badcfe, 0xefcdab89]
  }
  function V1(): seq<word> {
    [0xbeb8ff8e, 0x7d989d89, 0xf8cdf95d, 0x862797b0, 0x8c17de9f, 0xc0f32d81, 0xe99fec1b, 0xc57e78c1]
  }
  function V2(): seq<word> {
    [0x7c0aceb7, 0x8869d2d8, 0x5186a8ba, 0xa5f36f8d, 0x5157e49e, 0xffac907e, 0x27e983a0, 0xaf506a03]
  }
  function V3(): seq<word> {
    [0x8d18e0e8, 0x07de0df2, 0xef223167, 0x04280170, 0x78929ee0, 0x375c6c2c, 0xb18aca50, 0xad400a91]
  }
  function V4(): seq<word> {
    [0xbb45f43f, 0xd61f8a0f, 0x98ade6b5, 0xb70e35a9, 0xf8bcfbb0, 0xd760ed39, 0x99a0f1b8, 0x1bf25662]
  }
  function V5(): seq<word> {
    [0x3dbd76ca, 0xfd056171, 0xc7ed7c30, 0xe0162f49, 0x3b32c408, 0x7338d8b7, 0x9ef871ad, 0x1d4d6f72]
  }
  function V6(): seq<word> {
    [0xc661460a, 0xd2bf04c9, 0xd6d5b879, 0x89e3c4d7, 0x697032ec, 0xfa597bfc, 0xefc2c171, 0xdb4197da]
  }
  function V7(): seq<word> {
    [0x57b91aca, 0x210c9ebc, 0x21efbd88, 0xcaa25b01, 0x633d3f7c, 0x1a4d3beb, 0xccaa1524, 0x7713f5df]
  }
  function V8(): seq<word> {
    [0x8448b430, 0x71c93463, 0x7e294727, 0x660a801d, 0x614868eb, 0xa09f38a7, 0x5133129b, 0xb4d33102]
  }
  function V9(): seq<word> {
    [0x00000000, 0x00000000, 0x00000000, 0x00000000, 0xc88d8bec, 0xb0d18d1d, 0xe9edef99, 0xa4a0dc8b]
  }
  function V10(): seq<word> {
    [0x353af7cf, 0x3a4f735a, 0x63356537, 0x45e88f2c, 0x3527497e, 0xab92660e, 0x948347ae, 0x377c7d0a]
  }
  function V11(): seq<word> {
    [0xcc912f27, 0x6945a3d5, 0xae23894d, 0xb9ede40c, 0xdb4ff71c, 0x9b6b4960, 0x04396a39, 0x58b12eab]
  }
  function V12(): seq<word> {
    [0x52c00cae, 0xaad2a216, 0xa476af6f, 0x50f8de8c, 0x0d6e6d91, 0x17d64195, 0xd5b7a850, 0x043cb080]
  }
  function V13(): seq<word> {
    [0x74f9377e, 0x01f2addd, 0xe775c8ca, 0xcb00b96e, 0x8761f38e, 0x7a516116, 0x061bc867, 0x67092c33]
  }
  function V14(): seq<word> {
    [0x91044d5d, 0x610954eb, 0xc0175fa8, 0x2ee1e3fe, 0xae26ed7d, 0x71d8ecea, 0xff4a94dc, 0xdbd1bff6]
  }
  function V15(): seq<word> {
    [0x9c350028, 0x97e5da92, 0xfacaaf06, 0x56b3692f, 0x71123afa, 0xdc9c8ddb, 0xe6a8a386, 0x1df7010a]
  }
  function V16(): seq<word> {
    [0xd29007e7, 0x7241a77e, 0xd3248109, 0xc8797828, 0x7a504abd, 0x211cc65d, 0xa290d6ce, 0x9b31b114]
  }
  function V17(): seq<word> {
    [0x723fd22d, 0xd21d6a3b, 0x3d79cf74, 0x4dc4f33d, 0xda67616b, 0xc9e47a04, 0x44ec5a13, 0xb12906a0]
  }

  function Hash1(): seq<word> { [0xc88d8bec, 0xa4a0dc8b, 0xe9edef99, 0xb0d18d1d] }
  function Hash2(): seq<word> { [0xa2f4ed57, 0x55c9e32b, 0x2eda49ac, 0x7ab60721] }

  function DigestParts(): seq<seq<byte>> {
    [[0x57, 0xed, 0xf4, 0xa2], [0x2b, 0xe3, 0xc9, 0x55], [0xac, 0x49, 0xda, 0x2e], [0x21, 0x07, 0xb6, 0x7a]]
  }

  // ----- eight operations at once

  // The rotations of the four rounds, written out.
  function Turn1(j: nat, x: word): word {
    if j == 0 then (x << 7) | (x >> 25) else if j == 1 then (x << 12) | (x >> 20)
    else if j == 2 then (x << 17) | (x >> 15) else (x << 22) | (x >> 10)
  }

  function Turn2(j: nat, x: word): word {
    if j == 0 then (x << 5) | (x >> 27) else if j == 1 then (x << 9) | (x >> 23)
    else if j == 2 then (x << 14) | (x >> 18) else (x << 20) | (x >> 12)
  }

  function Turn3(j: nat, x: word): word {
    if j == 0 then (x << 4) | (x >> 28) else if j == 1 then (x << 11) | (x >> 21)
    else if j == 2 then (x << 16) | (x >> 16) else (x << 23) | (x >> 9)
  }

  function Turn4(j: nat, x: word): word {
    if j == 0 then (x << 6) | (x >> 26) else if j == 1 then (x << 10) | (x >> 22)
    else if j == 2 then (x << 15) | (x >> 17) else (x << 21) | (x >> 11)
  }

  function Turn(i: nat, x: word): word {
    if i < 16 then Turn1(i % 4, x) else if i < 32 then Turn2(i % 4, x)
    else if i < 48 then Turn3(i % 4, x) else Turn4(i % 4, x)
  }

  lemma TurnIs(i: nat, x: word)
    requires i < 64
    ensures Turn(i, x) == Rotl(x, Shift(i))
  {
    ShiftIs(i);
    var j := i % 4;
    assert Rotl(x, 7) == (x << 7) | (x >> 25) && Rotl(x, 12) == (x << 12) | (x >> 20);
    assert Rotl(x, 17) == (x << 17) | (x >> 15) && Rotl(x, 22) == (x << 22) | (x >> 10);
    assert Rotl(x, 5) == (x << 5) | (x >> 27) && Rotl(x, 9) == (x << 9) | (x >> 23);
    assert Rotl(x, 14) == (x << 14) | (x >> 18) && Rotl(x, 20) == (x << 20) | (x >> 12);
    assert Rotl(x, 4) == (x << 4) | (x >> 28) && Rotl(x, 11) == (x << 11) | (x >> 21);
    assert Rotl(x, 16) == (x << 16) | (x >> 16) && Rotl(x, 23) == (x << 23) | (x >> 9);
    assert Rotl(x, 6) == (x << 6) | (x >> 26) && Rotl(x, 10) == (x << 10) | (x >> 22);
    assert Rotl(x, 15) == (x << 15) | (x >> 17) && Rotl(x, 21) == (x << 21) | (x >> 11);
  }

  lemma ShiftIs(i: nat)
    requires i < 64
    ensures Shift(i) == SHIFTS[i / 16][i % 4]
  {
  }

  function Step(i: nat, a: word, b: word, c: word, d: word, x: word, t: word): word {
    Plus(b, Turn(i, Plus4(a, RoundFunction(i, b, c, d), x, t)))
  }

  /** The registers A, B, C and D behind a row. */
  function Behind(v: seq<word>): (R: seq<word>)
    requires |v| == 8
    ensures |R| == 4
  {
    [v[4], v[7], v[6], v[5]]
  }

  /** The first four operations of the row v, from operation t on, behind the row pv. */
  predicate FirstFour(t: nat, pv: seq<word>, xs: seq<word>, ts: seq<word>, v: seq<word>) {
    && t <= 56 && |pv| == 8 && |xs| == 8 && |ts| == 8 && |v| == 8
    && v[0] == Step(t + 0, pv[4], pv[7], pv[6], pv[5], xs[0], ts[0])
    && v[1] == Step(t + 1, pv[5], v[0], pv[7], pv[6], xs[1], ts[1])
    && v[2] == Step(t + 2, pv[6], v[1], v[0], pv[7], xs[2], ts[2])
    && v[3] == Step(t + 3, pv[7], v[2], v[1], v[0], xs[3], ts[3])
  }

  /** And the last four. */
  predicate LastFour(t: nat, pv: seq<word>, xs: seq<word>, ts: seq<word>, v: seq<word>) {
    && t <= 56 && |pv| == 8 && |xs| == 8 && |ts| == 8 && |v| == 8
    && v[4] == Step(t + 4, v[0], v[3], v[2], v[1], xs[4], ts[4])
    && v[5] == Step(t + 5, v[1], v[4], v[3], v[2], xs[5], ts[5])
    && v[6] == Step(t + 6, v[2], v[5], v[4], v[3], xs[6], ts[6])
    && v[7] == Step(t + 7, v[3], v[6], v[5], v[4], xs[7], ts[7])
  }

  /** The words of a row of operations, in the order of their use. */
  predicate UsedIs(t: nat, ws: seq<word>, xs: seq<word>) {
    && t <= 56 && |ws| == 16 && |xs| == 8
    && ws[WordIndex(t + 0)] == xs[0]
    && ws[WordIndex(t + 1)] == xs[1]
    && ws[WordIndex(t + 2)] == xs[2]
    && ws[WordIndex(t + 3)] == xs[3]
    && ws[WordIndex(t + 4)] == xs[4]
    && ws[WordIndex(t + 5)] == xs[5]
    && ws[WordIndex(t + 6)] == xs[6]
    && ws[WordIndex(t + 7)] == xs[7]
  }

  lemma OneOperation(H: seq<word>, block: seq<byte>, i: nat, R: seq<word>, x: word)
    requires |H| == 4 && |block| == CHUNK && i < 64 && Operations(H, block, i) == R
    requires LittleWordAt(block, WordIndex(i)) == x
    ensures |R| == 4 && var a := Target(i);
            Operations(H, block, i + 1)
            == R[a := Step(i, R[a], R[(a + 1) % 4], R[(a + 2) % 4], R[(a + 3) % 4], x, Sine(i))]
  {
    hide Plus, Plus4, Rotl, RoundFunction, LittleWordAt, WordIndex, Sine, Shift, Turn;
    var a := Target(i);
    TurnIs(i, Plus4(R[a], RoundFunction(i, R[(a + 1) % 4], R[(a + 2) % 4], R[(a + 3) % 4]), x, Sine(i)));
  }

  lemma TargetIs(i: nat)
    ensures Target(i) == if i % 4 == 0 then 0 else 4 - i % 4
  {
  }

  lemma ChangesA(H: seq<word>, block: seq<byte>, i: nat, a: word, b: word, c: word, d: word, x: word)
    requires |H| == 4 && |block| == CHUNK && i < 64 && i % 4 == 0 && Operations(H, block, i) == [a, b, c, d]
    requires LittleWordAt(block, WordIndex(i)) == x
    ensures Operations(H, block, i + 1) == [Step(i, a, b, c, d, x, Sine(i)), b, c, d]
  {
    hide Target, Operations, Step, LittleWordAt, WordIndex, Sine;
    TargetIs(i);
    OneOperation(H, block, i, [a, b, c, d], x);
  }

  lemma ChangesD(H: seq<word>, block: seq<byte>, i: nat, a: word, b: word, c: word, d: word, x: word)
    requires |H| == 4 && |block| == CHUNK && i < 64 && i % 4 == 1 && Operations(H, block, i) == [a, b, c, d]
    requires LittleWordAt(block, WordIndex(i)) == x
    ensures Operations(H, block, i + 1) == [a, b, c, Step(i, d, a, b, c, x, Sine(i))]
  {
    hide Target, Operations, Step, LittleWordAt, WordIndex, Sine;
    TargetIs(i);
    OneOperation(H, block, i, [a, b, c, d], x);
  }

  lemma ChangesC(H: seq<word>, block: seq<byte>, i: nat, a: word, b: word, c: word, d: word, x: word)
    requires |H| == 4 && |block| == CHUNK && i < 64 && i % 4 == 2 && Operations(H, block, i) == [a, b, c, d]
    requires LittleWordAt(block, WordIndex(i)) == x
    ensures Operations(H, block, i + 1) == [a, b, Step(i, c, d, a, b, x, Sine(i)), d]
  {
    hide Target, Operations, Step, LittleWordAt, WordIndex, Sine;
    TargetIs(i);
    OneOperation(H, block, i, [a, b, c, d], x);
  }

  lemma ChangesB(H: seq<word>, block: seq<byte>, i: nat, a: word, b: word, c: word, d: word, x: word)
    requires |H| == 4 && |block| == CHUNK && i < 64 && i % 4 == 3 && Operations(H, block, i) == [a, b, c, d]
    requires LittleWordAt(block, WordIndex(i)) == x
    ensures Operations(H, block, i + 1) == [a, Step(i, b, c, d, a, x, Sine(i)), c, d]
  {
    hide Target, Operations, Step, LittleWordAt, WordIndex, Sine;
    TargetIs(i);
    OneOperation(H, block, i, [a, b, c, d], x);
  }

  lemma SineAt(k: nat, j: nat)
    requires k < 8 && j < 8
    ensures |SINES[k]| == 8 && Sine(8 * k + j) == SINES[k][j]
  {
    assert (8 * k + j) / 8 == k && (8 * k + j) % 8 == j;
  }

  predicate WordsOf(block: seq<byte>, ws: seq<word>)
    requires |block| == CHUNK
  {
    |ws| == 16 && forall t :: 0 <= t < 16 ==> LittleWordAt(block, t) == ws[t]
  }

  lemma FourOperations(H: seq<word>, block: seq<byte>, i: nat, R: seq<word>, xs: seq<word>, ts: seq<word>, v: seq<word>)
    requires |H| == 4 && |block| == CHUNK && i <= 60 && i % 4 == 0 && |R| == 4 && |xs| == 4 && |ts| == 4 && |v| == 4
    requires Operations(H, block, i) == R
    requires forall j :: 0 <= j < 4 ==> xs[j] == LittleWordAt(block, WordIndex(i + j)) && ts[j] == Sine(i + j)
    requires v[0] == Step(i, R[0], R[1], R[2], R[3], xs[0], ts[0])
    requires v[1] == Step(i + 1, R[3], v[0], R[1], R[2], xs[1], ts[1])
    requires v[2] == Step(i + 2, R[2], v[1], v[0], R[1], xs[2], ts[2])
    requires v[3] == Step(i + 3, R[1], v[2], v[1], v[0], xs[3], ts[3])
    ensures Operations(H, block, i + 4) == [v[0], v[3], v[2], v[1]]
  {
    hide Step, Operations, LittleWordAt, WordIndex, Sine;
    assert R == [R[0], R[1], R[2], R[3]];
    assert ts[0] == Sine(i + 0) && xs[0] == LittleWordAt(block, WordIndex(i + 0));
    ChangesA(H, block, i, R[0], R[1], R[2], R[3], xs[0]);
    ChangesD(H, block, i + 1, v[0], R[1], R[2], R[3], xs[1]);
    ChangesC(H, block, i + 2, v[0], R[1], R[2], v[1], xs[2]);
    ChangesB(H, block, i + 3, v[0], R[1], v[2], v[1], xs[3]);
  }

  lemma SinesAt(k: nat)
    requires k < 8
    ensures |SINES[k]| == 8 && forall j :: 0 <= j < 8 ==> SINES[k][j] == Sine(8 * k + j)
  {
    forall j | 0 <= j < 8 ensures SINES[k][j] == Sine(8 * k + j) { SineAt(k, j); }
  }

  lemma UsedAt(block: seq<byte>, t: nat, ws: seq<word>, xs: seq<word>)
    requires |block| == CHUNK && WordsOf(block, ws) && UsedIs(t, ws, xs)
    ensures t <= 56 && |xs| == 8 && forall j :: 0 <= j < 8 ==> xs[j] == LittleWordAt(block, WordIndex(t + j))
  {
    hide LittleWordAt, WordIndex;
  }

  lemma EightOperations(H: seq<word>, block: seq<byte>, k: nat, ws: seq<word>, xs: seq<word>,
                        pv: seq<word>, v: seq<word>)
    requires |H| == 4 && |block| == CHUNK && k < 8 && WordsOf(block, ws) && UsedIs(8 * k, ws, xs)
    requires FirstFour(8 * k, pv, xs, SINES[k], v) && LastFour(8 * k, pv, xs, SINES[k], v)
    requires Operations(H, block, 8 * k) == Behind(pv)
    ensures Operations(H, block, 8 * k + 8) == Behind(v)
  {
    hide Step, Operations, LittleWordAt, WordIndex, Sine, UsedIs, FirstFour, LastFour, WordsOf;
    UsedAt(block, 8 * k, ws, xs);
    SinesAt(k);
    RowOfOperations(H, block, 8 * k, xs, SINES[k], pv, v);
  }

  lemma RowOfOperations(H: seq<word>, block: seq<byte>, i: nat, xs: seq<word>, ts: seq<word>,
                        pv: seq<word>, v: seq<word>)
    requires |H| == 4 && |block| == CHUNK && i <= 56 && i % 4 == 0 && |xs| == 8 && |ts| == 8
    requires forall j :: 0 <= j < 8 ==> xs[j] == LittleWordAt(block, WordIndex(i + j)) && ts[j] == Sine(i + j)
    requires FirstFour(i, pv, xs, ts, v) && LastFour(i, pv, xs, ts, v) && Operations(H, block, i) == Behind(pv)
    ensures Operations(H, block, i + 8) == Behind(v)
  {
    hide Step, Operations, LittleWordAt, WordIndex, Sine;
    var first, last := [v[0], v[1], v[2], v[3]], [v[4], v[5], v[6], v[7]];
    FourOperations(H, block, i, [pv[4], pv[7], pv[6], pv[5]], xs[..4], ts[..4], first);
    FourOperations(H, block, i + 4, [v[0], v[3], v[2], v[1]], xs[4..], ts[4..], last);
  }

  lemma WordsOfBlock(c: nat, p: seq<seq<byte>>, q: seq<seq<byte>>, x: seq<word>, y: seq<word>)
    requires c < 2 && |AllParts()| == 32
    requires AllParts()[16 * c..16 * c + 8] == p && AllParts()[16 * c + 8..16 * c + 16] == q
    requires LittleRow(p, x) && LittleRow(q, y)
    ensures (c + 1) * CHUNK <= |Padded(Message(), true)| && WordsOf(Block(Message(), true, c), x + y)
  {
    hide AllParts, Message, Padded, LittleWordAt, LittleRow, Block, P0, P1, P2, P3;
    Padding();
    LittleRowOfBlock(Message(), AllParts(), c, 0, p, x);
    LittleRowOfBlock(Message(), AllParts(), c, 1, q, y);
    var block := Block(Message(), true, c);
    forall t | 0 <= t < 16 ensures LittleWordAt(block, t) == (x + y)[t] {
      if t < 8 {
        assert LittleWordAt(block, 8 * 0 + t) == x[t];
      } else {
        assert LittleWordAt(block, 8 * 1 + (t - 8)) == y[t - 8];
      }
    }
  }

  // ----- the values

  lemma Words0()
    ensures LittleRow(P0(), X0())
  {
  }

  lemma Words1()
    ensures LittleRow(P1(), X1())
  {
  }

  lemma Words2()
    ensures LittleRow(P2(), X2())
  {
  }

  lemma Words3()
    ensures LittleRow(P3(), X3())
  {
  }

  lemma Used0()
    ensures UsedIs(0, X0() + X1(), U0())
  {
  }

  lemma Used1()
    ensures UsedIs(8, X0() + X1(), U1())
  {
  }

  lemma Used2()
    ensures UsedIs(16, X0() + X1(), U2())
  {
  }

  lemma Used3()
    ensures UsedIs(24, X0() + X1(), U3())
  {
  }

  lemma Used4()
    ensures UsedIs(32, X0() + X1(), U4())
  {
  }

  lemma Used5()
    ensures UsedIs(40, X0() + X1(), U5())
  {
  }

  lemma Used6()
    ensures UsedIs(48, X0() + X1(), U6())
  {
  }

  lemma Used7()
    ensures UsedIs(56, X0() + X1(), U7())
  {
  }

  lemma Used8()
    ensures UsedIs(0, X2() + X3(), U8())
  {
  }

  lemma Used9()
    ensures UsedIs(8, X2() + X3(), U9())
  {
  }

  lemma Used10()
    ensures UsedIs(16, X2() + X3(), U10())
  {
  }

  lemma Used11()
    ensures UsedIs(24, X2() + X3(), U11())
  {
  }

  lemma Used12()
    ensures UsedIs(32, X2() + X3(), U12())
  {
  }

  lemma Used13()
    ensures UsedIs(40, X2() + X3(), U13())
  {
  }

  lemma Used14()
    ensures UsedIs(48, X2() + X3(), U14())
  {
  }

  lemma Used15()
    ensures UsedIs(56, X2() + X3(), U15())
  {
  }

  lemma First0()
    ensures FirstFour(0, V0(), U0(), SINES[0], V1())
  {
  }

  lemma Last0()
    ensures LastFour(0, V0(), U0(), SINES[0], V1())
  {
  }

  lemma First1()
    ensures FirstFour(8, V1(), U1(), SINES[1], V2())
  {
  }

  lemma Last1()
    ensures LastFour(8, V1(), U1(), SINES[1], V2())
  {
  }

  lemma First2()
    ensures FirstFour(16, V2(), U2(), SINES[2], V3())
  {
  }

  lemma Last2()
    ensures LastFour(16, V2(), U2(), SINES[2], V3())
  {
  }

  lemma First3()
    ensures FirstFour(24, V3(), U3(), SINES[3], V4())
  {
  }

  lemma Last3()
    ensures LastFour(24, V3(), U3(), SINES[3], V4())
  {
  }

  lemma First4()
    ensures FirstFour(32, V4(), U4(), SINES[4], V5())
  {
  }

  lemma Last4()
    ensures LastFour(32, V4(), U4(), SINES[4], V5())
  {
  }

  lemma First5()
    ensures FirstFour(40, V5(), U5(), SINES[5], V6())
  {
  }

  lemma Last5()
    ensures LastFour(40, V5(), U5(), SINES[5], V6())
  {
  }

  lemma First6()
    ensures FirstFour(48, V6(), U6(), SINES[6], V7())
  {
  }

  lemma Last6()
    ensures LastFour(48, V6(), U6(), SINES[6], V7())
  {
  }

  lemma First7()
    ensures FirstFour(56, V7(), U7(), SINES[7], V8())
  {
  }

  lemma Last7()
    ensures LastFour(56, V7(), U7(), SINES[7], V8())
  {
  }

  lemma First8()
    ensures FirstFour(0, V9(), U8(), SINES[0], V10())
  {
  }

  lemma Last8()
    ensures LastFour(0, V9(), U8(), SINES[0], V10())
  {
  }

  lemma First9()
    ensures FirstFour(8, V10(), U9(), SINES[1], V11())
  {
  }

  lemma Last9()
    ensures LastFour(8, V10(), U9(), SINES[1], V11())
  {
  }

  lemma First10()
    ensures FirstFour(16, V11(), U10(), SINES[2], V12())
  {
  }

  lemma Last10()
    ensures LastFour(16, V11(), U10(), SINES[2], V12())
  {
  }

  lemma First11()
    ensures FirstFour(24, V12(), U11(), SINES[3], V13())
  {
  }

  lemma Last11()
    ensures LastFour(24, V12(), U11(), SINES[3], V13())
  {
  }

  lemma First12()
    ensures FirstFour(32, V13(), U12(), SINES[4], V14())
  {
  }

  lemma Last12()
    ensures LastFour(32, V13(), U12(), SINES[4], V14())
  {
  }

  lemma First13()
    ensures FirstFour(40, V14(), U13(), SINES[5], V15())
  {
  }

  lemma Last13()
    ensures LastFour(40, V14(), U13(), SINES[5], V15())
  {
  }

  lemma First14()
    ensures FirstFour(48, V15(), U14(), SINES[6], V16())
  {
  }

  lemma Last14()
    ensures LastFour(48, V15(), U14(), SINES[6], V16())
  {
  }

  lemma First15()
    ensures FirstFour(56, V16(), U15(), SINES[7], V17())
  {
  }

  lemma Last15()
    ensures LastFour(56, V16(), U15(), SINES[7], V17())
  {
  }

  function Regs1(): seq<word> { Behind(V8()) }
  function Regs2(): seq<word> { Behind(V17()) }

  lemma Sums()
    ensures INITIAL == Behind(V0()) && Hash1() == Behind(V9()) && |INITIAL| == 4 && |Hash1()| == 4
    ensures |Regs1()| == 4 && |Regs2()| == 4 && Add(INITIAL, Regs1()) == Hash1() && Add(Hash1(), Regs2()) == Hash2()
  {
  }

  lemma LastBytes()
    ensures LittleMemory(Hash2()) == Flatten(DigestParts())
  {
    assert LittleBytes(Hash2()[0]) == DigestParts()[0];
    assert LittleBytes(Hash2()[1]) == DigestParts()[1];
    assert LittleBytes(Hash2()[2]) == DigestParts()[2];
    assert LittleBytes(Hash2()[3]) == DigestParts()[3];
    LittleMemoryIs(Hash2(), DigestParts());
  }

  // ----- the digest

  lemma OperationsStart(H: seq<word>, block: seq<byte>)
    requires |H| == 4 && |block| == CHUNK
    ensures Operations(H, block, 0) == H
  {
  }

  function AllParts(): seq<seq<byte>> { P0() + P1() + P2() + P3() }

  function Message(): seq<byte> { Flatten(AllParts()[..20]) }

  lemma PartRows()
    ensures |AllParts()| == 32 && Parts(AllParts())
    ensures AllParts()[0..8] == P0() && AllParts()[8..16] == P1()
    ensures AllParts()[16..24] == P2() && AllParts()[24..32] == P3()
  {
  }

  lemma LengthIs()
    ensures LengthBytes(80, true) == [0x80, 0x02, 0, 0, 0, 0, 0, 0]
  {
    hide LittleEndian;
    LittleEndianOf(640, 8, 2, 0x80);
    LittleEndianOf(2, 7, 0, 0x02);
    LittleEndianZero(6);
  }

  lemma TailMatches()
    ensures |AllParts()| == 32 && AllParts()[20..] == Tail(9, [0x80, 0x02, 0, 0, 0, 0, 0, 0])
  {
    var t, parts := Tail(9, [0x80, 0x02, 0, 0, 0, 0, 0, 0]), AllParts();
    assert parts[20] == [0x80, 0, 0, 0] && parts[30] == [0x80, 0x02, 0, 0] && parts[31] == [0, 0, 0, 0];
    assert t[10] == [0x80, 0x02, 0, 0] && t[11] == [0, 0, 0, 0];
    forall i | 0 <= i < 12 ensures parts[20 + i] == t[i] {
      if 1 <= i < 10 { assert parts[20 + i] == NOTHING; }
    }
  }

  lemma Padding()
    ensures Parts(AllParts()) && |AllParts()| == 32 && Padded(Message(), true) == Flatten(AllParts())
  {
    PartRows();
    LengthIs();
    TailMatches();
    hide P0, P1, P2, P3, AllParts, Padded, Flatten, LengthBytes, Tail;
    assert ZeroCount(80) == 39;
    PaddedParts(AllParts()[..20], true, 9, [0x80, 0x02, 0, 0, 0, 0, 0, 0]);
    assert AllParts()[..20] + AllParts()[20..] == AllParts();
  }

  /** What the operations make of the hash value H on block c. */
  predicate OperationsAre(c: nat, H: seq<word>, R: seq<word>) {
    && (c + 1) * CHUNK <= |Padded(Message(), true)| && |H| == 4 && |R| == 4
    && Operations(H, Block(Message(), true, c), 64) == R
  }

  lemma RegsAre()
    ensures |V8()| == 8 && |V17()| == 8 && Regs1() == Behind(V8()) && Regs2() == Behind(V17())
  {
  }

  lemma OperationsAreSo(c: nat, H: seq<word>, R: seq<word>)
    requires (c + 1) * CHUNK <= |Padded(Message(), true)| && |H| == 4 && |R| == 4
    requires Operations(H, Block(Message(), true, c), 64) == R
    ensures OperationsAre(c, H, R)
  {
  }

  lemma FirstOperations()
    ensures OperationsAre(0, INITIAL, Regs1())
  {
    PartRows();
    hide *;
    Sums();
    Words0(); Words1(); WordsOfBlock(0, P0(), P1(), X0(), X1());
    var block, ws := Block(Message(), true, 0), X0() + X1();
    OperationsStart(INITIAL, block);
    Used0(); First0(); Last0(); EightOperations(INITIAL, block, 0, ws, U0(), V0(), V1());
    Used1(); First1(); Last1(); EightOperations(INITIAL, block, 1, ws, U1(), V1(), V2());
    Used2(); First2(); Last2(); EightOperations(INITIAL, block, 2, ws, U2(), V2(), V3());
    Used3(); First3(); Last3(); EightOperations(INITIAL, block, 3, ws, U3(), V3(), V4());
    Used4(); First4(); Last4(); EightOperations(INITIAL, block, 4, ws, U4(), V4(), V5());
    Used5(); First5(); Last5(); EightOperations(INITIAL, block, 5, ws, U5(), V5(), V6());
    Used6(); First6(); Last6(); EightOperations(INITIAL, block, 6, ws, U6(), V6(), V7());
    Used7(); First7(); Last7(); EightOperations(INITIAL, block, 7, ws, U7(), V7(), V8());
    RegsAre();
    OperationsAreSo(0, INITIAL, Regs1());
  }

  lemma SecondOperations()
    ensures OperationsAre(1, Hash1(), Regs2())
  {
    PartRows();
    hide *;
    Sums();
    Words2(); Words3(); WordsOfBlock(1, P2(), P3(), X2(), X3());
    var block, ws := Block(Message(), true, 1), X2() + X3();
    OperationsStart(Hash1(), block);
    Used8(); First8(); Last8(); EightOperations(Hash1(), block, 0, ws, U8(), V9(), V10());
    Used9(); First9(); Last9(); EightOperations(Hash1(), block, 1, ws, U9(), V10(), V11());
    Used10(); First10(); Last10(); EightOperations(Hash1(), block, 2, ws, U10(), V11(), V12());
    Used11(); First11(); Last11(); EightOperations(Hash1(), block, 3, ws, U11(), V12(), V13());
    Used12(); First12(); Last12(); EightOperations(Hash1(), block, 4, ws, U12(), V13(), V14());
    Used13(); First13(); Last13(); EightOperations(Hash1(), block, 5, ws, U13(), V14(), V15());
    Used14(); First14(); Last14(); EightOperations(Hash1(), block, 6, ws, U14(), V15(), V16());
    Used15(); First15(); Last15(); EightOperations(Hash1(), block, 7, ws, U15(), V16(), V17());
    RegsAre();
    OperationsAreSo(1, Hash1(), Regs2());
  }

  lemma OneBlock(c: nat, H: seq<word>, R: seq<word>)
    requires OperationsAre(c, H, R) && HashValue(Message(), c) == H
    ensures (c + 1) * CHUNK <= |Padded(Message(), true)| && |R| == 4 && |H| == 4
    ensures HashValue(Message(), c + 1) == Add(H, R)
  {
    hide Padded, Operations, Block, Message, Add;
  }

  lemma HashStart()
    ensures HashValue(Message(), 0) == INITIAL
  {
    hide Padded, Message;
  }

  lemma Blocks()
    ensures |Padded(Message(), true)| == 2 * CHUNK && HashValue(Message(), 2) == Hash2()
  {
    PaddedSize();
    hide *;
    Sums();
    HashStart();
    FirstOperations();
    OneBlock(0, INITIAL, Regs1());
    SecondOperations();
    OneBlock(1, Hash1(), Regs2());
  }

  lemma PaddedSize()
    ensures |Padded(Message(), true)| == 2 * CHUNK
  {
    hide AllParts, Message, Padded, Flatten, Parts;
    Padding();
    PartsSize(AllParts());
  }

  /** The digest of the example: 57edf4a22be3c955ac49da2e2107b67a. */
  lemma Example()
    ensures Digest(Message()) == Flatten(DigestParts())
  {
    hide Padded, HashValue, Message, Flatten, DigestParts, Hash2, LittleMemory;
    Blocks();
    LastBytes();
  }
}
