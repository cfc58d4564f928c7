/** A worked example of SHA-256: the two-block message TEST2_1 of section 8.5 of RFC 6234. It uses every
    constant, every rotation, the padding and the step from one block to the next. */
module Sha256Example {
  import opened Bytes
  import opened Common
  import opened HashExamples
  import opened HashPadding
  import opened Words
  import opened Sha256

  // The padded message in four-byte parts, eight a row. The first fourteen are the message
  // "abcdbcdecdefdefgefghfghighijhijkijkljklmklmnlmnomnopnopq".
  function P0(): seq<seq<byte>> {
    [[0x61, 0x62, 0x63, 0x64], [0x62, 0x63, 0x64, 0x65], [0x63, 0x64, 0x65, 0x66], [0x64, 0x65, 0x66, 0x67],
     [0x65, 0x66, 0x67, 0x68], [0x66, 0x67, 0x68, 0x69], [0x67, 0x68, 0x69, 0x6a], [0x68, 0x69, 0x6a, 0x6b]]
  }
  function P1(): seq<seq<byte>> {
    [[0x69, 0x6a, 0x6b, 0x6c], [0x6a, 0x6b, 0x6c, 0x6d], [0x6b, 0x6c, 0x6d, 0x6e], [0x6c, 0x6d, 0x6e, 0x6f],
     [0x6d, 0x6e, 0x6f, 0x70], [0x6e, 0x6f, 0x70, 0x71], [0x80, 0x00, 0x00, 0x00], [0x00, 0x00, 0x00, 0x00]]
  }
  function P2(): seq<seq<byte>> {
    [[0x00, 0x00, 0x00, 0x00], [0x00, 0x00, 0x00, 0x00], [0x00, 0x00, 0x00, 0x00], [0x00, 0x00, 0x00, 0x00],
     [0x00, 0x00, 0x00, 0x00], [0x00, 0x00, 0x00, 0x00], [0x00, 0x00, 0x00, 0x00], [0x00, 0x00, 0x00, 0x00]]
  }
  function P3(): seq<seq<byte>> {
    [[0x00, 0x00, 0x00, 0x00], [0x00, 0x00, 0x00, 0x00], [0x00, 0x00, 0x00, 0x00], [0x00, 0x00, 0x00, 0x00],
     [0x00, 0x00, 0x00, 0x00], [0x00, 0x00, 0x00, 0x00], [0x00, 0x00, 0x00, 0x00], [0x00, 0x00, 0x01, 0xc0]]
  }

  // The message schedules of the two blocks, eight words a row.
  function S0(): seq<word> {
    [0x61626364, 0x62636465, 0x63646566, 0x64656667, 0x65666768, 0x66676869, 0x6768696a, 0x68696a6b]
  }
  function S1(): seq<word> {
    [0x696a6b6c, 0x6a6b6c6d, 0x6b6c6d6e, 0x6c6d6e6f, 0x6d6e6f70, 0x6e6f7071, 0x80000000, 0x00000000]
  }
  function S2(): seq<word> {
    [0xeb8012ad, 0xa7c3ae92, 0x76e93ba2, 0xba42e743, 0x92a92204, 0xd847e75e, 0x9e160036, 0xb280a7cb]
  }
  function S3(): seq<word> {
    [0xddeb1516, 0xf36586f4, 0x969cd048, 0xe959d99d, 0x6accc0ec, 0xf54cb098, 0x2af1b2da, 0xee59c4c9]
  }
  function S4(): seq<word> {
    [0xa835e16a, 0x1dff4429, 0xd6e15959, 0xc397cd6e, 0x6f1801ca, 0x21574205, 0x35ff7a84, 0x9743ee78]
  }
  function S5(): seq<word> {
    [0xe44183e7, 0x0d09f00d, 0x9c89af54, 0x042d5bef, 0x71f134d0, 0x0f94f463, 0x7e49dc63, 0x6f65c997]
  }
  function S6(): seq<word> {
    [0x0b706583, 0x179312ca, 0x503054e9, 0xba125c39, 0x7e9392c9, 0xd5cbaa1e, 0x78e0585d, 0xf6e7611c]
  }
  function S7(): seq<word> {
    [0x8ac830ce, 0x8b47a303, 0xfd6e627f, 0x8c6e2c6a, 0x4001adf1, 0x1a3dd097, 0xa9df6f62, 0x6aa60a39]
  }
  function S8(): seq<word> {
    [0x00000000, 0x00000000, 0x00000000, 0x00000000, 0x00000000, 0x00000000, 0x00000000, 0x00000000]
  }
  function S9(): seq<word> {
    [0x00000000, 0x00000000, 0x00000000, 0x00000000, 0x00000000, 0x00000000, 0x00000000, 0x000001c0]
  }
  function S10(): seq<word> {
    [0x00000000, 0x00d80000, 0x00000000, 0x00003677, 0x00000000, 0x1df5600d, 0x000001c0, 0x1c00501c]
  }
  function S11(): seq<word> {
    [0x01b00000, 0x220a8d94, 0x0000a365, 0x177017e7, 0x63d38035, 0x090ab713, 0x4c7539ca, 0x0f19a8c9]
  }
  function S12(): seq<word> {
    [0x5df4b0c4, 0xe257036a, 0xc97bb6f1, 0xc5b46f4d, 0xf8253c4e, 0xa558d189, 0x78696285, 0xed07117f]
  }
  function S13(): seq<word> {
    [0x107358f6, 0x390ae496, 0x565010a2, 0xc51d7d44, 0x9e74c972, 0x6614b561, 0x30fc129d, 0x9ac684a8]
  }
  function S14(): seq<word> {
    [0x2b658dbd, 0xe290f793, 0x9eebb24c, 0x9713b5de, 0x41061ab7, 0xe022e23b, 0x0772079e, 0x7de22d9c]
  }
  function S15(): seq<word> {
    [0xc8b83778, 0x75a79849, 0xd93dbddb, 0x0a036c9d, 0xcb4f6ac6, 0x823f97e2, 0xea2f2a7a, 0xb9018b52]
  }

  // Registers a and e behind every round, eight rounds a row; A0 and E0, and A9 and E9, hold in their last
  // four places what the two blocks start from.
  function A0(): seq<word> {
    [0x00000000, 0x00000000, 0x00000000, 0x00000000, 0xa54ff53a, 0x3c6ef372, 0xbb67ae85, 0x6a09e667]
  }
  function A1(): seq<word> {
    [0x5d6aebb1, 0x2f2d5fcf, 0x97651825, 0x4a8d64d5, 0xf921c212, 0x55c8ef48, 0x485835b7, 0xd237e6db]
  }
  function A2(): seq<word> {
    [0x359f2bce, 0x3a474b2b, 0xb8e2b4cb, 0x1762215c, 0x101a4861, 0xd68e6457, 0xdd16cbb3, 0xc3486194]
  }
  function A3(): seq<word> {
    [0xb9dcacb1, 0x046a193e, 0xf402f058, 0x2139187b, 0xd70ac17d, 0x1b2b66b8, 0xae2e2d4f, 0x59fce6b9]
  }
  function A4(): seq<word> {
    [0x4a885065, 0x573221da, 0x128661da, 0x73f858af, 0x74bcf468, 0xdf7151a0, 0xeb43f3ed, 0x5581ab07]
  }
  function A5(): seq<word> {
    [0x9fc905c8, 0x9ce5a62f, 0x1df8e885, 0x0786dce8, 0x2c55d3a6, 0xa985b4be, 0x91ac9d5d, 0x7e4d30b8]
  }
  function A6(): seq<word> {
    [0x7e056794, 0x508a16ab, 0xb62c7013, 0x167361de, 0xde71e2f2, 0x18f0d19d, 0x165be9cd, 0x13d82741]
  }
  function A7(): seq<word> {
    [0x017b9d99, 0x543c99a1, 0x758ca97a, 0x81c1cde0, 0xb8d55619, 0x1d6de87a, 0xf907b313, 0x9e57c4a0]
  }
  function A8(): seq<word> {
    [0x71629856, 0x7c015a2c, 0x921fccb6, 0xe18f259a, 0xbcfce922, 0xf6f443f8, 0x86126910, 0x1bdc6f6f]
  }
  function A9(): seq<word> {
    [0x00000000, 0x00000000, 0x00000000, 0x00000000, 0x624cde5c, 0x3363376a, 0x417a1795, 0x85e655d6]
  }
  function A10(): seq<word> {
    [0x7c20c838, 0x7c3c0f86, 0xfd1eebdc, 0xf268faa9, 0x185a5d79, 0x3eeb6c06, 0x89bba3f1, 0xbf9a93a0]
  }
  function A11(): seq<word> {
    [0x2c096744, 0x2d964e86, 0x5b35025b, 0x5eb4ec40, 0x35ee996d, 0xd74080fa, 0x0cea5cbc, 0x16a8cc79]
  }
  function A12(): seq<word> {
    [0xf16f634e, 0x23dcb6c2, 0xdcff40fd, 0x76f1a2bc, 0x20aad899, 0xd44dc81a, 0xf13ae55b, 0xa4195b91]
  }
  function A13(): seq<word> {
    [0x4984fa79, 0xaa6cb982, 0x9450fbbc, 0x0d936bab, 0xd958b529, 0x1cfa5eb0, 0x02ef3a5f, 0xb0eab1c5]
  }
  function A14(): seq<word> {
    [0x0bfba73c, 0x4bd1df96, 0x9907f1b6, 0xecde4e0d, 0x2f11c939, 0xd949682b, 0xadca7a96, 0x221b8a5a]
  }
  function A15(): seq<word> {
    [0x12d97845, 0x2c794876, 0x8300fca2, 0xf2ad6322, 0x0f154e11, 0x104a7db4, 0x0b3303a7, 0xd7354d5b]
  }
  function A16(): seq<word> {
    [0xb736d7a6, 0x2748e5ec, 0xd8aabcf9, 0x1a6bcf6a, 0x4eca6fa0, 0xec02560a, 0xd9f0c115, 0x92952710]
  }
  function A17(): seq<word> {
    [0x20d4d0e4, 0x4348eb1f, 0x286fe5f0, 0x1c4cddd9, 0xa9f181dd, 0xb25cef29, 0x908c2123, 0x9ea7148b]
  }

  function E0(): seq<word> {
    [0x00000000, 0x00000000, 0x00000000, 0x00000000, 0x5be0cd19, 0x1f83d9ab, 0x9b05688c, 0x510e527f]
  }
  function E1(): seq<word> {
    [0xfa2a4606, 0x4eb1cfce, 0x62d5c49e, 0x6494841b, 0x05c4f88a, 0x7ff91c94, 0x39a5b2ca, 0xa401d211]
  }
  function E2(): seq<word> {
    [0xc09ffec4, 0x9037b3b8, 0x443ed29e, 0xee1c97a8, 0x839a0fc9, 0x9243f8af, 0x9162aded, 0x1496a54f]
  }
  function E3(): seq<word> {
    [0xd4f64250, 0x885370b6, 0x6f433549, 0x7c304206, 0x7cc6b262, 0xd560b028, 0xf074fc95, 0xa2c7d51d]
  }
  function E4(): seq<word> {
    [0x763597fb, 0x36e74eb4, 0x1162d575, 0xe77c797f, 0x72abaecd, 0x7629c961, 0x0635d880, 0xdf980085]
  }
  function E5(): seq<word> {
    [0xa94d2af1, 0x6ef3b6bd, 0x2a9e048e, 0xde2a21d1, 0xb067c1af, 0xf72bf353, 0x68d8d590, 0x9f5b9b6d]
  }
  function E6(): seq<word> {
    [0x423b26c0, 0x45459d97, 0x80a92a00, 0x41dd3844, 0xff61c636, 0x6b88472c, 0xa483f080, 0xa7802a4d]
  }
  function E7(): seq<word> {
    [0xaeb10b60, 0x16f134b6, 0x100cf2ea, 0x5c47eb7b, 0x1c806a61, 0x3443bed4, 0x61a41711, 0xeec13548]
  }
  function E8(): seq<word> {
    [0x2f6c8c4e, 0xcb9d3dd0, 0x43d8a034, 0x51e15869, 0x962d8621, 0xacc75916, 0x2fc08f85, 0x25d2430a]
  }
  function E9(): seq<word> {
    [0x00000000, 0x00000000, 0x00000000, 0x00000000, 0xf20e533a, 0xcc4b32c1, 0xcac5f811, 0x76e09589]
  }
  function E10(): seq<word> {
    [0x4670ae6e, 0x8c51be64, 0xaf71b9ea, 0xe20362ef, 0x8dff3001, 0xfe20cda6, 0x0a34df03, 0x059abdd1]
  }
  function E11(): seq<word> {
    [0xabfa465b, 0xaa27ed82, 0x10e77723, 0xe11b4548, 0x5c24e2a2, 0x68aa893f, 0x60356548, 0x0fcb1f6f]
  }
  function E12(): seq<word> {
    [0x8b21cdc1, 0xca9182d3, 0x69bf7b95, 0x0dc84bb1, 0xcc4769f2, 0x5bace62d, 0x966aa287, 0xeddbd6ed]
  }
  function E13(): seq<word> {
    [0xa530d939, 0x0b5eeea4, 0x09166dda, 0x6e495d4b, 0xc2fa99b1, 0x6c49db9f, 0x5da10665, 0xf6d93952]
  }
  function E14(): seq<word> {
    [0x8b99e3a9, 0x905e44ac, 0x66c3043d, 0x5dc119e6, 0xfed4ce1d, 0x32d99008, 0xc6cce4ff, 0x0b82c5eb]
  }
  function E15(): seq<word> {
    [0xe4213ca2, 0xff6759ba, 0xe0e3457c, 0xcc48c7f3, 0x6f9517cb, 0x5348e8f6, 0xbbe1c39a, 0xaad55b6b]
  }
  function E16(): seq<word> {
    [0x68f25260, 0xd4b58576, 0x27844711, 0xff5e99d0, 0x989ed071, 0x7151df8e, 0x624150c4, 0x226806d6]
  }
  function E17(): seq<word> {
    [0x4e515a4d, 0xc21eddf9, 0x54076664, 0xf487a853, 0x27ccb387, 0x2aa1bb13, 0x9a392956, 0x2c5c4ed0]
  }

  function Hash1(): seq<word> {
    [0x85e655d6, 0x417a1795, 0x3363376a, 0x624cde5c, 0x76e09589, 0xcac5f811, 0xcc4b32c1, 0xf20e533a]
  }
  function Hash2(): seq<word> {
    [0x248d6a61, 0xd20638b8, 0xe5c02693, 0x0c3e6039, 0xa33ce459, 0x64ff2167, 0xf6ecedd4, 0x19db06c1]
  }

  function DigestParts(): seq<seq<byte>> {
    [[0x24, 0x8d, 0x6a, 0x61], [0xd2, 0x06, 0x38, 0xb8], [0xe5, 0xc0, 0x26, 0x93], [0x0c, 0x3e, 0x60, 0x39],
     [0xa3, 0x3c, 0xe4, 0x59], [0x64, 0xff, 0x21, 0x67], [0xf6, 0xec, 0xed, 0xd4], [0x19, 0xdb, 0x06, 0xc1]]
  }

  // ----- the functions of the standard with their rotations written out

  function Big0(x: word): word { ((x >> 2) | (x << 30)) ^ ((x >> 13) | (x << 19)) ^ ((x >> 22) | (x << 10)) }
  function Big1(x: word): word { ((x >> 6) | (x << 26)) ^ ((x >> 11) | (x << 21)) ^ ((x >> 25) | (x << 7)) }
  function Small0(x: word): word { ((x >> 7) | (x << 25)) ^ ((x >> 18) | (x << 14)) ^ (x >> 3) }
  function Small1(x: word): word { ((x >> 17) | (x << 15)) ^ ((x >> 19) | (x << 13)) ^ (x >> 10) }

  lemma Rotations(x: word)
    ensures Rotr(x, 2) == (x >> 2) | (x << 30)
    ensures Rotr(x, 6) == (x >> 6) | (x << 26)
    ensures Rotr(x, 7) == (x >> 7) | (x << 25)
    ensures Rotr(x, 11) == (x >> 11) | (x << 21)
    ensures Rotr(x, 13) == (x >> 13) | (x << 19)
    ensures Rotr(x, 17) == (x >> 17) | (x << 15)
    ensures Rotr(x, 18) == (x >> 18) | (x << 14)
    ensures Rotr(x, 19) == (x >> 19) | (x << 13)
    ensures Rotr(x, 22) == (x >> 22) | (x << 10)
    ensures Rotr(x, 25) == (x >> 25) | (x << 7)
  {
  }

  lemma SigmasAre(x: word)
    ensures BigSigma0(x) == Big0(x) && BigSigma1(x) == Big1(x)
    ensures SmallSigma0(x) == Small0(x) && SmallSigma1(x) == Small1(x)
  {
    AsXor3(x);
    Rotations(x);
    hide Rotr, Xor3, BigSigma0, BigSigma1, SmallSigma0, SmallSigma1, Big0, Big1, Small0, Small1;
  }

  function Xor3(x: word, y: word, z: word): word { x ^ y ^ z }

  lemma AsXor3(x: word)
    ensures BigSigma0(x) == Xor3(Rotr(x, 2), Rotr(x, 13), Rotr(x, 22))
    ensures BigSigma1(x) == Xor3(Rotr(x, 6), Rotr(x, 11), Rotr(x, 25))
    ensures SmallSigma0(x) == Xor3(Rotr(x, 7), Rotr(x, 18), x >> 3)
    ensures SmallSigma1(x) == Xor3(Rotr(x, 17), Rotr(x, 19), x >> 10)
    ensures Big0(x) == Xor3((x >> 2) | (x << 30), (x >> 13) | (x << 19), (x >> 22) | (x << 10))
    ensures Big1(x) == Xor3((x >> 6) | (x << 26), (x >> 11) | (x << 21), (x >> 25) | (x << 7))
    ensures Small0(x) == Xor3((x >> 7) | (x << 25), (x >> 18) | (x << 14), x >> 3)
    ensures Small1(x) == Xor3((x >> 17) | (x << 15), (x >> 19) | (x << 13), x >> 10)
  {
    hide Rotr;
  }

  function Step(r: Regs, k: word, w: word): Regs {
    var t1 := Plus5(r.h, Big1(r.e), Ch(r.e, r.f, r.g), k, w);
    var t2 := Plus(Big0(r.a), Maj(r.a, r.b, r.c));
    Regs(Plus(t1, t2), r.a, r.b, r.c, Plus(r.d, t1), r.e, r.f, r.g)
  }

  lemma StepIsRound(r: Regs, k: word, w: word)
    ensures Step(r, k, w) == Round(r, k, w)
  {
    hide Plus, Plus5, Ch, Maj, BigSigma0, BigSigma1, Big0, Big1;
    SigmasAre(r.a);
    SigmasAre(r.e);
  }

  function Next(w2: word, w7: word, w15: word, w16: word): word { Plus4(Small1(w2), w7, Small0(w15), w16) }

  lemma NextWord(block: seq<byte>, t: nat)
    requires |block| == CHUNK && t >= 16
    ensures W(block, t) == Next(W(block, t - 2), W(block, t - 7), W(block, t - 15), W(block, t - 16))
  {
    hide BigWordAt, SmallSigma0, SmallSigma1, Small0, Small1, Plus4;
    SigmasAre(W(block, t - 2));
    SigmasAre(W(block, t - 15));
  }

  // ----- eight steps at once

  /** The registers behind a row. */
  function Behind(a: seq<word>, e: seq<word>): Regs
    requires |a| == 8 && |e| == 8
  {
    Regs(a[7], a[6], a[5], a[4], e[7], e[6], e[5], e[4])
  }

  /** The first four rounds of the row (a, e) that follows the row (pa, pe). */
  predicate FirstFour(pa: seq<word>, pe: seq<word>, ks: seq<word>, ws: seq<word>, a: seq<word>, e: seq<word>) {
    && |pa| == 8 && |pe| == 8 && |ks| == 8 && |ws| == 8 && |a| == 8 && |e| == 8
    && Step(Regs(pa[7], pa[6], pa[5], pa[4], pe[7], pe[6], pe[5], pe[4]), ks[0], ws[0])
       == Regs(a[0], pa[7], pa[6], pa[5], e[0], pe[7], pe[6], pe[5])
    && Step(Regs(a[0], pa[7], pa[6], pa[5], e[0], pe[7], pe[6], pe[5]), ks[1], ws[1])
       == Regs(a[1], a[0], pa[7], pa[6], e[1], e[0], pe[7], pe[6])
    && Step(Regs(a[1], a[0], pa[7], pa[6], e[1], e[0], pe[7], pe[6]), ks[2], ws[2])
       == Regs(a[2], a[1], a[0], pa[7], e[2], e[1], e[0], pe[7])
    && Step(Regs(a[2], a[1], a[0], pa[7], e[2], e[1], e[0], pe[7]), ks[3], ws[3])
       == Regs(a[3], a[2], a[1], a[0], e[3], e[2], e[1], e[0])
  }

  /** And the last four. */
  predicate LastFour(pa: seq<word>, pe: seq<word>, ks: seq<word>, ws: seq<word>, a: seq<word>, e: seq<word>) {
    && |pa| == 8 && |pe| == 8 && |ks| == 8 && |ws| == 8 && |a| == 8 && |e| == 8
    && Step(Regs(a[3], a[2], a[1], a[0], e[3], e[2], e[1], e[0]), ks[4], ws[4])
       == Regs(a[4], a[3], a[2], a[1], e[4], e[3], e[2], e[1])
    && Step(Regs(a[4], a[3], a[2], a[1], e[4], e[3], e[2], e[1]), ks[5], ws[5])
       == Regs(a[5], a[4], a[3], a[2], e[5], e[4], e[3], e[2])
    && Step(Regs(a[5], a[4], a[3], a[2], e[5], e[4], e[3], e[2]), ks[6], ws[6])
       == Regs(a[6], a[5], a[4], a[3], e[6], e[5], e[4], e[3])
    && Step(Regs(a[6], a[5], a[4], a[3], e[6], e[5], e[4], e[3]), ks[7], ws[7])
       == Regs(a[7], a[6], a[5], a[4], e[7], e[6], e[5], e[4])
  }

  predicate RowIs(block: seq<byte>, k: nat, ws: seq<word>)
    requires |block| == CHUNK
  {
    |ws| == 8 && forall j :: 0 <= j < 8 ==> W(block, 8 * k + j) == ws[j]
  }

  lemma OneRound(H: seq<word>, block: seq<byte>, t: nat, k: word, w: word)
    requires |H| == 8 && |block| == CHUNK && t < 64 && K(t) == k && W(block, t) == w
    ensures Rounds(H, block, t + 1) == Step(Rounds(H, block, t), k, w)
  {
    hide Round, W, K, Step;
    StepIsRound(Rounds(H, block, t), k, w);
  }

  lemma RowOfConstants(k: nat, j: nat)
    requires k < 8 && j < 8
    ensures |CONSTANTS[k]| == 8 && K(8 * k + j) == CONSTANTS[k][j]
  {
    assert (8 * k + j) / 8 == k && (8 * k + j) % 8 == j;
  }

  lemma RowOfSchedule(block: seq<byte>, k: nat, ws: seq<word>, j: nat)
    requires |block| == CHUNK && RowIs(block, k, ws) && j < 8
    ensures |ws| == 8 && W(block, 8 * k + j) == ws[j]
  {
  }

  lemma EightRounds(H: seq<word>, block: seq<byte>, k: nat, ws: seq<word>,
                    pa: seq<word>, pe: seq<word>, a: seq<word>, e: seq<word>)
    requires |H| == 8 && |block| == CHUNK && k < 8 && RowIs(block, k, ws)
    requires FirstFour(pa, pe, CONSTANTS[k], ws, a, e) && LastFour(pa, pe, CONSTANTS[k], ws, a, e)
    requires Rounds(H, block, 8 * k) == Behind(pa, pe)
    ensures Rounds(H, block, 8 * k + 8) == Behind(a, e)
  {
    hide Step, Rounds, RowIs, K, W;
    var ks := CONSTANTS[k];
    forall j | 0 <= j < 8
      ensures |ws| == 8 && Rounds(H, block, 8 * k + j + 1) == Step(Rounds(H, block, 8 * k + j), ks[j], ws[j])
    {
      RowOfConstants(k, j);
      RowOfSchedule(block, k, ws, j);
      OneRound(H, block, 8 * k + j, ks[j], ws[j]);
    }
  }

  /** A row of the schedule out of the two rows before it. */
  predicate Follows(a: seq<word>, b: seq<word>, c: seq<word>) {
    && |a| == 8 && |b| == 8 && |c| == 8
    && c[0] == Next(b[6], b[1], a[1], a[0]) && c[1] == Next(b[7], b[2], a[2], a[1])
    && c[2] == Next(c[0], b[3], a[3], a[2]) && c[3] == Next(c[1], b[4], a[4], a[3])
    && c[4] == Next(c[2], b[5], a[5], a[4]) && c[5] == Next(c[3], b[6], a[6], a[5])
    && c[6] == Next(c[4], b[7], a[7], a[6]) && c[7] == Next(c[5], c[0], b[0], a[7])
  }

  lemma NextRow(block: seq<byte>, k: nat, a: seq<word>, b: seq<word>, c: seq<word>)
    requires |block| == CHUNK && 2 <= k && RowIs(block, k - 2, a) && RowIs(block, k - 1, b) && Follows(a, b, c)
    ensures RowIs(block, k, c)
  {
    hide Next, W;
    var t := 8 * k;
    assert forall j :: 0 <= j < 8 ==> W(block, 8 * (k - 2) + j) == a[j] && W(block, 8 * (k - 1) + j) == b[j];
    NextWord(block, t + 0);
    NextWord(block, t + 1);
    NextWord(block, t + 2);
    NextWord(block, t + 3);
    NextWord(block, t + 4);
    NextWord(block, t + 5);
    NextWord(block, t + 6);
    NextWord(block, t + 7);
  }

  lemma FirstRow(c: nat, k: nat, parts: seq<seq<byte>>, ws: seq<word>)
    requires c < 2 && k < 2 && |AllParts()| == 32 && AllParts()[16 * c + 8 * k..16 * c + 8 * k + 8] == parts
    requires BigRow(parts, ws)
    ensures (c + 1) * CHUNK <= |Padded(Message(), false)| && RowIs(Block(Message(), false, c), k, ws)
  {
    hide AllParts, Message, Padded, BigWordAt, BigRow, Block, P0, P1, P2, P3;
    Padding();
    BigRowOfBlock(Message(), AllParts(), c, k, parts, ws);
    var block := Block(Message(), false, c);
    forall j | 0 <= j < 8 ensures W(block, 8 * k + j) == ws[j] {
      assert W(block, 8 * k + j) == BigWordAt(block, 8 * k + j);
    }
  }

  // ----- the values

  lemma Words0()
    ensures BigRow(P0(), S0())
  {
  }

  lemma Words1()
    ensures BigRow(P1(), S1())
  {
  }

  lemma Words2()
    ensures BigRow(P2(), S8())
  {
  }

  lemma Words3()
    ensures BigRow(P3(), S9())
  {
  }

  lemma Schedule2()
    ensures Follows(S0(), S1(), S2())
  {
  }

  lemma Schedule3()
    ensures Follows(S1(), S2(), S3())
  {
  }

  lemma Schedule4()
    ensures Follows(S2(), S3(), S4())
  {
  }

  lemma Schedule5()
    ensures Follows(S3(), S4(), S5())
  {
  }

  lemma Schedule6()
    ensures Follows(S4(), S5(), S6())
  {
  }

  lemma Schedule7()
    ensures Follows(S5(), S6(), S7())
  {
  }

  lemma Schedule10()
    ensures Follows(S8(), S9(), S10())
  {
    assert Next(0, 0, 0, 0) == 0;
  }

  lemma Schedule11()
    ensures Follows(S9(), S10(), S11())
  {
  }

  lemma Schedule12()
    ensures Follows(S10(), S11(), S12())
  {
  }

  lemma Schedule13()
    ensures Follows(S11(), S12(), S13())
  {
  }

  lemma Schedule14()
    ensures Follows(S12(), S13(), S14())
  {
  }

  lemma Schedule15()
    ensures Follows(S13(), S14(), S15())
  {
  }

  lemma First0()
    ensures FirstFour(A0(), E0(), CONSTANTS[0], S0(), A1(), E1())
  {
  }

  lemma Last0()
    ensures LastFour(A0(), E0(), CONSTANTS[0], S0(), A1(), E1())
  {
  }

  lemma First1()
    ensures FirstFour(A1(), E1(), CONSTANTS[1], S1(), A2(), E2())
  {
  }

  lemma Last1()
    ensures LastFour(A1(), E1(), CONSTANTS[1], S1(), A2(), E2())
  {
  }

  lemma First2()
    ensures FirstFour(A2(), E2(), CONSTANTS[2], S2(), A3(), E3())
  {
  }

  lemma Last2()
    ensures LastFour(A2(), E2(), CONSTANTS[2], S2(), A3(), E3())
  {
    var ks := CONSTANTS[2];
    assert ks[4] == 0x2de92c6f && ks[5] == 0x4a7484aa && ks[6] == 0x5cb0a9dc && ks[7] == 0x76f988da;
  }

  lemma First3()
    ensures FirstFour(A3(), E3(), CONSTANTS[3], S3(), A4(), E4())
  {
  }

  lemma Last3()
    ensures LastFour(A3(), E3(), CONSTANTS[3], S3(), A4(), E4())
  {
  }

  lemma First4()
    ensures FirstFour(A4(), E4(), CONSTANTS[4], S4(), A5(), E5())
  {
  }

  lemma Last4()
    ensures LastFour(A4(), E4(), CONSTANTS[4], S4(), A5(), E5())
  {
  }

  lemma First5()
    ensures FirstFour(A5(), E5(), CONSTANTS[5], S5(), A6(), E6())
  {
  }

  lemma Last5()
    ensures LastFour(A5(), E5(), CONSTANTS[5], S5(), A6(), E6())
  {
  }

  lemma First6()
    ensures FirstFour(A6(), E6(), CONSTANTS[6], S6(), A7(), E7())
  {
  }

  lemma Last6()
    ensures LastFour(A6(), E6(), CONSTANTS[6], S6(), A7(), E7())
  {
  }

  lemma First7()
    ensures FirstFour(A7(), E7(), CONSTANTS[7], S7(), A8(), E8())
  {
  }

  lemma Last7()
    ensures LastFour(A7(), E7(), CONSTANTS[7], S7(), A8(), E8())
  {
  }

  lemma First8()
    ensures FirstFour(A9(), E9(), CONSTANTS[0], S8(), A10(), E10())
  {
  }

  lemma Last8()
    ensures LastFour(A9(), E9(), CONSTANTS[0], S8(), A10(), E10())
  {
  }

  lemma First9()
    ensures FirstFour(A10(), E10(), CONSTANTS[1], S9(), A11(), E11())
  {
  }

  lemma Last9()
    ensures LastFour(A10(), E10(), CONSTANTS[1], S9(), A11(), E11())
  {
  }

  lemma First10()
    ensures FirstFour(A11(), E11(), CONSTANTS[2], S10(), A12(), E12())
  {
  }

  lemma Last10()
    ensures LastFour(A11(), E11(), CONSTANTS[2], S10(), A12(), E12())
  {
    var ks := CONSTANTS[2];
    assert ks[4] == 0x2de92c6f && ks[5] == 0x4a7484aa && ks[6] == 0x5cb0a9dc && ks[7] == 0x76f988da;
  }

  lemma First11()
    ensures FirstFour(A12(), E12(), CONSTANTS[3], S11(), A13(), E13())
  {
  }

  lemma Last11()
    ensures LastFour(A12(), E12(), CONSTANTS[3], S11(), A13(), E13())
  {
  }

  lemma First12()
    ensures FirstFour(A13(), E13(), CONSTANTS[4], S12(), A14(), E14())
  {
  }

  lemma Last12()
    ensures LastFour(A13(), E13(), CONSTANTS[4], S12(), A14(), E14())
  {
  }

  lemma First13()
    ensures FirstFour(A14(), E14(), CONSTANTS[5], S13(), A15(), E15())
  {
  }

  lemma Last13()
    ensures LastFour(A14(), E14(), CONSTANTS[5], S13(), A15(), E15())
  {
  }

  lemma First14()
    ensures FirstFour(A15(), E15(), CONSTANTS[6], S14(), A16(), E16())
  {
  }

  lemma Last14()
    ensures LastFour(A15(), E15(), CONSTANTS[6], S14(), A16(), E16())
  {
  }

  lemma First15()
    ensures FirstFour(A16(), E16(), CONSTANTS[7], S15(), A17(), E17())
  {
  }

  lemma Last15()
    ensures LastFour(A16(), E16(), CONSTANTS[7], S15(), A17(), E17())
  {
  }

  lemma Sums()
    ensures |INITIAL| == 8 && |Hash1()| == 8 && Load(INITIAL) == Behind(A0(), E0())
    ensures Load(Hash1()) == Behind(A9(), E9())
    ensures Add(INITIAL, Regs1()) == Hash1() && Add(Hash1(), Regs2()) == Hash2()
  {
  }

  lemma LastBytes()
    ensures BigMemory(Hash2()) == Flatten(DigestParts())
  {
    assert BigBytes(Hash2()[0]) == DigestParts()[0];
    assert BigBytes(Hash2()[1]) == DigestParts()[1];
    assert BigBytes(Hash2()[2]) == DigestParts()[2];
    assert BigBytes(Hash2()[3]) == DigestParts()[3];
    assert BigBytes(Hash2()[4]) == DigestParts()[4];
    assert BigBytes(Hash2()[5]) == DigestParts()[5];
    assert BigBytes(Hash2()[6]) == DigestParts()[6];
    assert BigBytes(Hash2()[7]) == DigestParts()[7];
    MemoryIs(Hash2(), DigestParts());
  }

  // ----- the digest

  lemma RoundsStart(H: seq<word>, block: seq<byte>)
    requires |H| == 8 && |block| == CHUNK
    ensures Rounds(H, block, 0) == Load(H)
  {
  }

  function AllParts(): seq<seq<byte>> { P0() + P1() + P2() + P3() }

  function Message(): seq<byte> { Flatten(AllParts()[..14]) }

  lemma PartRows()
    ensures |AllParts()| == 32 && Parts(AllParts())
    ensures AllParts()[0..8] == P0() && AllParts()[8..16] == P1()
    ensures AllParts()[16..24] == P2() && AllParts()[24..32] == P3()
  {
  }

  lemma LengthIs()
    ensures LengthBytes(56, false) == [0, 0, 0, 0, 0, 0, 0x01, 0xc0]
  {
    hide BigEndian;
    BigEndianOf(448, 8, 1, 0xc0);
    BigEndianOf(1, 7, 0, 0x01);
    BigEndianZero(6);
  }

  lemma TailMatches()
    ensures |AllParts()| == 32 && AllParts()[14..] == Tail(15, [0, 0, 0, 0, 0, 0, 0x01, 0xc0])
  {
    var t, parts := Tail(15, [0, 0, 0, 0, 0, 0, 0x01, 0xc0]), AllParts();
    assert parts[14] == [0x80, 0, 0, 0] && parts[30] == [0, 0, 0, 0] && parts[31] == [0, 0, 0x01, 0xc0];
    assert t[16] == [0, 0, 0, 0] && t[17] == [0, 0, 0x01, 0xc0];
    forall i | 0 <= i < 18 ensures parts[14 + i] == t[i] {
      if 1 <= i < 16 { assert parts[14 + i] == NOTHING; }
    }
  }

  lemma Padding()
    ensures Parts(AllParts()) && |AllParts()| == 32 && Padded(Message(), false) == Flatten(AllParts())
  {
    PartRows();
    LengthIs();
    TailMatches();
    hide P0, P1, P2, P3, AllParts, Padded, Flatten, LengthBytes, Tail;
    assert ZeroCount(56) == 63;
    PaddedParts(AllParts()[..14], false, 15, [0, 0, 0, 0, 0, 0, 0x01, 0xc0]);
    assert AllParts()[..14] + AllParts()[14..] == AllParts();
  }

  function Regs1(): Regs { Behind(A8(), E8()) }
  function Regs2(): Regs { Behind(A17(), E17()) }

  /** What the rounds make of the hash value H on block c. */
  predicate RoundsAre(c: nat, H: seq<word>, r: Regs) {
    (c + 1) * CHUNK <= |Padded(Message(), false)| && |H| == 8 && Rounds(H, Block(Message(), false, c), 64) == r
  }

  lemma RegsAre()
    ensures Regs1() == Behind(A8(), E8()) && Regs2() == Behind(A17(), E17())
  {
  }

  lemma RoundsAreSo(c: nat, H: seq<word>, r: Regs)
    requires (c + 1) * CHUNK <= |Padded(Message(), false)| && |H| == 8
    requires Rounds(H, Block(Message(), false, c), 64) == r
    ensures RoundsAre(c, H, r)
  {
  }

  lemma FirstSchedule()
    ensures 1 * CHUNK <= |Padded(Message(), false)|
    ensures var block := Block(Message(), false, 0);
            && RowIs(block, 0, S0()) && RowIs(block, 1, S1())
            && RowIs(block, 2, S2()) && RowIs(block, 3, S3())
            && RowIs(block, 4, S4()) && RowIs(block, 5, S5())
            && RowIs(block, 6, S6()) && RowIs(block, 7, S7())
  {
    PartRows();
    hide *;
    Words0(); FirstRow(0, 0, P0(), S0());
    Words1(); FirstRow(0, 1, P1(), S1());
    var block := Block(Message(), false, 0);
    Schedule2(); NextRow(block, 2, S0(), S1(), S2());
    Schedule3(); NextRow(block, 3, S1(), S2(), S3());
    Schedule4(); NextRow(block, 4, S2(), S3(), S4());
    Schedule5(); NextRow(block, 5, S3(), S4(), S5());
    Schedule6(); NextRow(block, 6, S4(), S5(), S6());
    Schedule7(); NextRow(block, 7, S5(), S6(), S7());
  }

  lemma FirstRounds()
    ensures RoundsAre(0, INITIAL, Regs1())
  {
    hide *;
    FirstSchedule();
    Sums();
    var block := Block(Message(), false, 0);
    RoundsStart(INITIAL, block);
    First0(); Last0(); EightRounds(INITIAL, block, 0, S0(), A0(), E0(), A1(), E1());
    First1(); Last1(); EightRounds(INITIAL, block, 1, S1(), A1(), E1(), A2(), E2());
    First2(); Last2(); EightRounds(INITIAL, block, 2, S2(), A2(), E2(), A3(), E3());
    First3(); Last3(); EightRounds(INITIAL, block, 3, S3(), A3(), E3(), A4(), E4());
    First4(); Last4(); EightRounds(INITIAL, block, 4, S4(), A4(), E4(), A5(), E5());
    First5(); Last5(); EightRounds(INITIAL, block, 5, S5(), A5(), E5(), A6(), E6());
    First6(); Last6(); EightRounds(INITIAL, block, 6, S6(), A6(), E6(), A7(), E7());
    First7(); Last7(); EightRounds(INITIAL, block, 7, S7(), A7(), E7(), A8(), E8());
    RegsAre();
    RoundsAreSo(0, INITIAL, Regs1());
  }

  lemma SecondSchedule()
    ensures 2 * CHUNK <= |Padded(Message(), false)|
    ensures var block := Block(Message(), false, 1);
            && RowIs(block, 0, S8()) && RowIs(block, 1, S9())
            && RowIs(block, 2, S10()) && RowIs(block, 3, S11())
            && RowIs(block, 4, S12()) && RowIs(block, 5, S13())
            && RowIs(block, 6, S14()) && RowIs(block, 7, S15())
  {
    PartRows();
    hide *;
    Words2(); FirstRow(1, 0, P2(), S8());
    Words3(); FirstRow(1, 1, P3(), S9());
    var block := Block(Message(), false, 1);
    Schedule10(); NextRow(block, 2, S8(), S9(), S10());
    Schedule11(); NextRow(block, 3, S9(), S10(), S11());
    Schedule12(); NextRow(block, 4, S10(), S11(), S12());
    Schedule13(); NextRow(block, 5, S11(), S12(), S13());
    Schedule14(); NextRow(block, 6, S12(), S13(), S14());
    Schedule15(); NextRow(block, 7, S13(), S14(), S15());
  }

  lemma SecondRounds()
    ensures RoundsAre(1, Hash1(), Regs2())
  {
    hide *;
    SecondSchedule();
    Sums();
    var block := Block(Message(), false, 1);
    RoundsStart(Hash1(), block);
    First8(); Last8(); EightRounds(Hash1(), block, 0, S8(), A9(), E9(), A10(), E10());
    First9(); Last9(); EightRounds(Hash1(), block, 1, S9(), A10(), E10(), A11(), E11());
    First10(); Last10(); EightRounds(Hash1(), block, 2, S10(), A11(), E11(), A12(), E12());
    First11(); Last11(); EightRounds(Hash1(), block, 3, S11(), A12(), E12(), A13(), E13());
    First12(); Last12(); EightRounds(Hash1(), block, 4, S12(), A13(), E13(), A14(), E14());
    First13(); Last13(); EightRounds(Hash1(), block, 5, S13(), A14(), E14(), A15(), E15());
    First14(); Last14(); EightRounds(Hash1(), block, 6, S14(), A15(), E15(), A16(), E16());
    First15(); Last15(); EightRounds(Hash1(), block, 7, S15(), A16(), E16(), A17(), E17());
    RegsAre();
    RoundsAreSo(1, Hash1(), Regs2());
  }

  lemma OneBlock(c: nat, H: seq<word>, r: Regs)
    requires RoundsAre(c, H, r) && HashValue(Message(), c) == H
    ensures (c + 1) * CHUNK <= |Padded(Message(), false)| && HashValue(Message(), c + 1) == Add(H, r)
  {
    hide Padded, Rounds, Block, Message, Add;
  }

  lemma HashStart()
    ensures HashValue(Message(), 0) == INITIAL
  {
    hide Padded, Message;
  }

  lemma Blocks()
    ensures |Padded(Message(), false)| == 2 * CHUNK && HashValue(Message(), 2) == Hash2()
  {
    PaddedSize();
    hide *;
    Sums();
    HashStart();
    FirstRounds();
    OneBlock(0, INITIAL, Regs1());
    SecondRounds();
    OneBlock(1, Hash1(), Regs2());
  }

  lemma PaddedSize()
    ensures |Padded(Message(), false)| == 2 * CHUNK
  {
    hide AllParts, Message, Padded, Flatten, Parts;
    Padding();
    PartsSize(AllParts());
  }

  /** The digest of the example: 248d6a61 d20638b8 e5c02693 0c3e6039 a33ce459 64ff2167 f6ecedd4 19db06c1. */
  lemma Example()
    ensures Digest(Message()) == Flatten(DigestParts())
  {
    hide Padded, HashValue, Message, Flatten, DigestParts, Hash2, BigMemory;
    Blocks();
    LastBytes();
  }
}
