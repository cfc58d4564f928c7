/** A worked example of SHA-1: the two-block message TEST2_1 of section 8.5 of RFC 6234. It uses every
    constant, every rotation, the padding and the step from one block to the next. */
module Sha1Example {
  import opened Bytes
  import opened Common
  import opened HashExamples
  import opened HashPadding
  import opened Words
  import opened Sha1

  // The padded message in four-byte parts, eight a row. The first fourteen are the message
  // "abcdbcdecdefdefgefghfghighijhijkijkljklmklmnlmnomnopnopq".
  function P0(): seq<seq<byte>> {
    [[0x61, 0x62, 0x63, 0x64], [0x62, 0x63, 0x64, 0x65], [0x63, 0x64, 0x65, 0x66], [0x64, 0x65, 0x66, 0x67],
     [0x65, 0x66, 0x67, 0x68], [0x66, 0x67, 0x68, 0x69], [0x67, 0x68, 0x69, 0x6a], [0x68, 0x69, 0x6a, 0x6b]]
  }
  function P1(): seq<seq<byte>> {
    [[0x69, 0x6a, 0x6b, 0x6c], [0x6a, 0x6b, 0x6c, 0x6d], [0x6b, 0x6c, 0x6d, 0x6e], [0x6c, 0x6d, 0x6e, 0x6f],
     [0x6d, 0x6e, 0x6f, 0x70], [0x6e, 0x6f, 0x70, 0x71], [0x80, 0x00, 0x00, 0x00], [0x00, 0x00, 0x00, 0x00]]
  }
  function P2(): seq<seq<byte>> {
    [[0x00, 0x00, 0x00, 0x00], [0x00, 0x00, 0x00, 0x00], [0x00, 0x00, 0x00, 0x00], [0x00, 0x00, 0x00, 0x00],
     [0x00, 0x00, 0x00, 0x00], [0x00, 0x00, 0x00, 0x00], [0x00, 0x00, 0x00, 0x00], [0x00, 0x00, 0x00, 0x00]]
  }
  function P3(): seq<seq<byte>> {
    [[0x00, 0x00, 0x00, 0x00], [0x00, 0x00, 0x00, 0x00], [0x00, 0x00, 0x00, 0x00], [0x00, 0x00, 0x00, 0x00],
     [0x00, 0x00, 0x00, 0x00], [0x00, 0x00, 0x00, 0x00], [0x00, 0x00, 0x00, 0x00], [0x00, 0x00, 0x01, 0xc0]]
  }

  // The message schedules of the two blocks, eight words a row.
  function S0(): seq<word> {
    [0x61626364, 0x62636465, 0x63646566, 0x64656667, 0x65666768, 0x66676869, 0x6768696a, 0x68696a6b]
  }
  function S1(): seq<word> {
    [0x696a6b6c, 0x6a6b6c6d, 0x6b6c6d6e, 0x6c6d6e6f, 0x6d6e6f70, 0x6e6f7071, 0x80000000, 0x00000000]
  }
  function S2(): seq<word> {
    [0x0a063a3e, 0xd8dadcdf, 0xdadcdec0, 0xc8d2b4be, 0x6f757b5b, 0x757b5967, 0x8da16d70, 0xdaeefaba]
  }
  function S3(): seq<word> {
    [0xfaf6cab6, 0xa6fb675a, 0x0c604cc8, 0x604cc02c, 0x49c0e6e2, 0x2ee8cbbc, 0xcfd72ec4, 0x97e9810e]
  }
  function S4(): seq<word> {
    [0x0989cbe8, 0xf24843fe, 0x5c40d0ba, 0xa8d9cc3b, 0xb2b9666e, 0xba7b71b7, 0x20b28a72, 0xb28af500]
  }
  function S5(): seq<word> {
    [0x8ac87842, 0x289addf4, 0x56d51f21, 0xd96b7fd2, 0x3868e778, 0xab5e4848, 0x7f0e2118, 0xde87a111]
  }
  function S6(): seq<word> {
    [0xe8be56b0, 0x1a0ae652, 0xcd5611c8, 0x46ef29dc, 0x60d3da6d, 0xddf3ba6e, 0x2737f5e9, 0x4888a710]
  }
  function S7(): seq<word> {
    [0xd2a1177b, 0x9999633b, 0xd6c69d03, 0xccf6127b, 0x7c58fe6d, 0xfdd99c68, 0xf8e32074, 0xe0ba3c7d]
  }
  function S8(): seq<word> {
    [0x152198d6, 0x7b3f1982, 0x37f2d5b7, 0x8596323e, 0x810790d6, 0xbea0a942, 0x11c7e1b1, 0x6158d101]
  }
  function S9(): seq<word> {
    [0x5fcd77d9, 0x7f2f12e6, 0xf868cfb1, 0xd6e997e9, 0xf526b852, 0xb7578dcc, 0x55d99df4, 0x1ff69958]
  }
  function S10(): seq<word> {
    [0x00000000, 0x00000000, 0x00000000, 0x00000000, 0x00000000, 0x00000000, 0x00000000, 0x00000000]
  }
  function S11(): seq<word> {
    [0x00000000, 0x00000000, 0x00000000, 0x00000000, 0x00000000, 0x00000000, 0x00000000, 0x000001c0]
  }
  function S12(): seq<word> {
    [0x00000000, 0x00000000, 0x00000380, 0x00000000, 0x00000000, 0x00000700, 0x00000000, 0x00000380]
  }
  function S13(): seq<word> {
    [0x00000e00, 0x00000000, 0x00000000, 0x00001c00, 0x00000000, 0x00000d80, 0x00003800, 0x00000480]
  }
  function S14(): seq<word> {
    [0x00000000, 0x00007000, 0x00000e00, 0x00003600, 0x0000e000, 0x00000e00, 0x00000000, 0x0001ce00]
  }
  function S15(): seq<word> {
    [0x00000000, 0x0000d800, 0x00038000, 0x00004f00, 0x00000000, 0x00070e00, 0x0000ee00, 0x00037500]
  }
  function S16(): seq<word> {
    [0x000e0000, 0x0000e000, 0x00003600, 0x001cee00, 0x00000000, 0x000df000, 0x00380000, 0x0004c600]
  }
  function S17(): seq<word> {
    [0x0000e000, 0x0070ee00, 0x000ee000, 0x00369e00, 0x00e00000, 0x000ed600, 0x0000e000, 0x01cea600]
  }
  function S18(): seq<word> {
    [0x00000000, 0x00d80000, 0x0380e000, 0x004f0000, 0x00000000, 0x070e0000, 0x00ee0000, 0x03751c00]
  }
  function S19(): seq<word> {
    [0x0e000000, 0x00e0e000, 0x00363800, 0x1cee9000, 0x00000000, 0x0df09000, 0x3800e000, 0x04c77400]
  }

  // Register a behind every round, and the same rotated by thirty, eight rounds a row; A0 and C0, and A11
  // and C11, hold in their last places what the two blocks start from.
  function A0(): seq<word> {
    [0x00000000, 0x00000000, 0x00000000, 0x00000000, 0x00000000, 0x00000000, 0xefcdab89, 0x67452301]
  }
  function A1(): seq<word> {
    [0x0116fc17, 0xebf3b452, 0x5109913a, 0x2c4f6eac, 0x33f4ae5b, 0x96b85189, 0xdb04cb58, 0x45833f0f]
  }
  function A2(): seq<word> {
    [0xc565c35e, 0x6350afda, 0x8993ea77, 0xe19ecaa2, 0x8603481e, 0x32f94a85, 0xb2e7a8be, 0x42637e39]
  }
  function A3(): seq<word> {
    [0x6b068048, 0x426b9c35, 0x944b1bd1, 0x6c445652, 0x95836da5, 0x09511177, 0xe2b92dc4, 0xfd224575]
  }
  function A4(): seq<word> {
    [0xeeb82d9a, 0x5a142c1a, 0x2972f7c7, 0xd526a644, 0xe1122421, 0x05b457b2, 0xa9c84bec, 0x52e31f60]
  }
  function A5(): seq<word> {
    [0x5af3242c, 0x31c756a9, 0xe9ac987c, 0xab7c32ee, 0x5933fc99, 0x43f87ae9, 0x24957f22, 0xadeb7478]
  }
  function A6(): seq<word> {
    [0xd70e5010, 0x79bcfb08, 0xf9bcb8de, 0x633e9561, 0x98c1ea64, 0xc6ea241e, 0xa2ad4f02, 0xc8a69090]
  }
  function A7(): seq<word> {
    [0x88341600, 0x7e846f58, 0x86e358ba, 0x8d2e76c8, 0xce892e10, 0xedea95b1, 0x36d1230a, 0x776c3910]
  }
  function A8(): seq<word> {
    [0xa681b723, 0xac0a794f, 0xf03d3782, 0x9ef775c3, 0x36254b13, 0x4080d4dc, 0x2bfaf7a8, 0x513f9ca0]
  }
  function A9(): seq<word> {
    [0xe5895c81, 0x1037d2d5, 0x14a82da9, 0x6d17c9fd, 0x2c7b07bd, 0xfdf6efff, 0x112b96e3, 0x84065712]
  }
  function A10(): seq<word> {
    [0xab89fb71, 0xc5210e35, 0x352d9f4b, 0x1a0e0e0a, 0xd0d47349, 0xad38620d, 0xd3ad7c25, 0x8ce34517]
  }
  function A11(): seq<word> {
    [0x00000000, 0x00000000, 0x00000000, 0x00000000, 0x00000000, 0x00000000, 0xc37b27ae, 0xf4286818]
  }
  function A12(): seq<word> {
    [0x2df257e9, 0x4d3dc58f, 0xc352bb05, 0xeef743c6, 0x41e34277, 0x5443915c, 0xe7fa0377, 0xc6946813]
  }
  function A13(): seq<word> {
    [0xfdde1de1, 0xb8538aca, 0x6ba94f63, 0x43a2792f, 0xfecd7bbf, 0xa2604ca8, 0x258b0baa, 0xd9772360]
  }
  function A14(): seq<word> {
    [0x5507db6e, 0xa51b58bc, 0xc2eb709f, 0xd8992153, 0x37482f5f, 0xee8700bd, 0x9ad594b9, 0x8fbaa5b9]
  }
  function A15(): seq<word> {
    [0x88fb5867, 0xeec50521, 0x50bce434, 0x5c416daf, 0x2429be5f, 0x0a2fb108, 0x17986223, 0x8a4af384]
  }
  function A16(): seq<word> {
    [0x6b629993, 0xf15f04f3, 0x295cc25b, 0x696da404, 0xcef5ae12, 0x87d5b80c, 0x84e2a5f2, 0x03bb6310]
  }
  function A17(): seq<word> {
    [0xc2d8f75f, 0xbfb25768, 0x28589152, 0xec1d3d61, 0x3caed7af, 0xc3d033ea, 0x7316056a, 0x46f93b68]
  }
  function A18(): seq<word> {
    [0xdc8e7f26, 0x850d411c, 0x7e4672c0, 0x89fbd41d, 0x1797e228, 0x431d65bc, 0x2bdbb8cb, 0x6da72e7f]
  }
  function A19(): seq<word> {
    [0xa8495a9b, 0xe785655a, 0x5b086c42, 0xa65818f7, 0x7aab101b, 0x93614c9c, 0xf66d9bf4, 0xd504902b]
  }
  function A20(): seq<word> {
    [0x60a9da62, 0x8b687819, 0x083e90c3, 0xf6226bbf, 0x76c0563b, 0x989dd165, 0x8b2c7573, 0xae1b8e7b]
  }
  function A21(): seq<word> {
    [0xca1840de, 0x16f3babb, 0xd28d83ad, 0x6bc02dfe, 0xd3a6e275, 0xda955482, 0x58c0aac0, 0x906fd62c]
  }

  function C0(): seq<word> {
    [0x00000000, 0x00000000, 0x00000000, 0xc3d2e1f0, 0x10325476, 0x98badcfe, 0x7bf36ae2, 0x59d148c0]
  }
  function C1(): seq<word> {
    [0xc045bf05, 0xbafced14, 0x9442644e, 0x0b13dbab, 0xccfd2b96, 0x65ae1462, 0x36c132d6, 0xd160cfc3]
  }
  function C2(): seq<word> {
    [0xb15970d7, 0x98d42bf6, 0xe264fa9d, 0xb867b2a8, 0xa180d207, 0x4cbe52a1, 0xacb9ea2f, 0x5098df8e]
  }
  function C3(): seq<word> {
    [0x1ac1a012, 0x509ae70d, 0x6512c6f4, 0x9b111594, 0x6560db69, 0xc254445d, 0x38ae4b71, 0x7f48915d]
  }
  function C4(): seq<word> {
    [0xbbae0b66, 0x96850b06, 0xca5cbdf1, 0x3549a991, 0x78448908, 0x816d15ec, 0x2a7212fb, 0x14b8c7d8]
  }
  function C5(): seq<word> {
    [0x16bcc90b, 0x4c71d5aa, 0x3a6b261f, 0xaadf0cbb, 0x564cff26, 0x50fe1eba, 0x89255fc8, 0x2b7add1e]
  }
  function C6(): seq<word> {
    [0x35c39404, 0x1e6f3ec2, 0xbe6f2e37, 0x58cfa558, 0x26307a99, 0xb1ba8907, 0xa8ab53c0, 0x3229a424]
  }
  function C7(): seq<word> {
    [0x220d0580, 0x1fa11bd6, 0xa1b8d62e, 0x234b9db2, 0x33a24b84, 0x7b7aa56c, 0x8db448c2, 0x1ddb0e44]
  }
  function C8(): seq<word> {
    [0xe9a06dc8, 0xeb029e53, 0xbc0f4de0, 0xe7bddd70, 0xcd8952c4, 0x10203537, 0x0afebdea, 0x144fe728]
  }
  function C9(): seq<word> {
    [0x79625720, 0x440df4b5, 0x452a0b6a, 0x5b45f27f, 0x4b1ec1ef, 0xff7dbbff, 0xc44ae5b8, 0xa10195c4]
  }
  function C10(): seq<word> {
    [0x6ae27edc, 0x7148438d, 0xcd4b67d2, 0x86838382, 0x74351cd2, 0x6b4e1883, 0x74eb5f09, 0xe338d145]
  }
  function C11(): seq<word> {
    [0x00000000, 0x00000000, 0x00000000, 0x4a566572, 0x84677148, 0x0408f581, 0xb0dec9eb, 0x3d0a1a06]
  }
  function C12(): seq<word> {
    [0x4b7c95fa, 0xd34f7163, 0x70d4aec1, 0xbbbdd0f1, 0xd078d09d, 0x1510e457, 0xf9fe80dd, 0xf1a51a04]
  }
  function C13(): seq<word> {
    [0x7f778778, 0xae14e2b2, 0xdaea53d8, 0xd0e89e4b, 0xffb35eef, 0x2898132a, 0x8962c2ea, 0x365dc8d8]
  }
  function C14(): seq<word> {
    [0x9541f6db, 0x2946d62f, 0xf0badc27, 0xf6264854, 0xcdd20bd7, 0x7ba1c02f, 0x66b5652e, 0x63eea96e]
  }
  function C15(): seq<word> {
    [0xe23ed619, 0x7bb14148, 0x142f390d, 0xd7105b6b, 0xc90a6f97, 0x028bec42, 0xc5e61888, 0x2292bce1]
  }
  function C16(): seq<word> {
    [0xdad8a664, 0xfc57c13c, 0xca573096, 0x1a5b6901, 0xb3bd6b84, 0x21f56e03, 0xa138a97c, 0x00eed8c4]
  }
  function C17(): seq<word> {
    [0xf0b63dd7, 0x2fec95da, 0x8a162454, 0x7b074f58, 0xcf2bb5eb, 0xb0f40cfa, 0x9cc5815a, 0x11be4eda]
  }
  function C18(): seq<word> {
    [0xb7239fc9, 0x21435047, 0x1f919cb0, 0x627ef507, 0x05e5f88a, 0x10c7596f, 0xcaf6ee32, 0xdb69cb9f]
  }
  function C19(): seq<word> {
    [0xea1256a6, 0xb9e15956, 0x96c21b10, 0xe996063d, 0xdeaac406, 0x24d85327, 0x3d9b66fd, 0xf541240a]
  }
  function C20(): seq<word> {
    [0x982a7698, 0x62da1e06, 0xc20fa430, 0xfd889aef, 0xddb0158e, 0x66277459, 0xe2cb1d5c, 0xeb86e39e]
  }
  function C21(): seq<word> {
    [0xb2861037, 0xc5bceeae, 0x74a360eb, 0x9af00b7f, 0x74e9b89d, 0xb6a55520, 0x16302ab0, 0x241bf58b]
  }

  function Hash1(): seq<word> { [0xf4286818, 0xc37b27ae, 0x0408f581, 0x84677148, 0x4a566572] }
  function Hash2(): seq<word> { [0x84983e44, 0x1c3bd26e, 0xbaae4aa1, 0xf95129e5, 0xe54670f1] }

  function DigestParts(): seq<seq<byte>> {
    [[0x84, 0x98, 0x3e, 0x44], [0x1c, 0x3b, 0xd2, 0x6e], [0xba, 0xae, 0x4a, 0xa1], [0xf9, 0x51, 0x29, 0xe5],
     [0xe5, 0x46, 0x70, 0xf1]]
  }

  // ----- the functions of the standard with their rotations written out

  function Five(x: word): word { (x << 5) | (x >> 27) }
  function Thirty(x: word): word { (x << 30) | (x >> 2) }
  function One(x: word): word { (x << 1) | (x >> 31) }

  lemma Rotations(x: word)
    ensures Rotl(x, 5) == Five(x) && Rotl(x, 30) == Thirty(x) && Rotl(x, 1) == One(x)
  {
  }

  function Step(r: Regs, t: nat, w: word): Regs {
    Regs(Plus5(Five(r.a), F(t, r.b, r.c, r.d), r.e, K(t), w), r.a, Thirty(r.b), r.c, r.d)
  }

  lemma StepIsRound(r: Regs, t: nat, w: word)
    ensures Step(r, t, w) == Round(r, t, w)
  {
    hide Plus5, F, K, Five, Thirty;
    Rotations(r.a);
    Rotations(r.b);
  }

  function Next(w3: word, w8: word, w14: word, w16: word): word { One(Xor4(w3, w8, w14, w16)) }

  lemma NextWord(block: seq<byte>, t: nat)
    requires |block| == CHUNK && t >= 16
    ensures W(block, t) == Next(W(block, t - 3), W(block, t - 8), W(block, t - 14), W(block, t - 16))
  {
    hide BigWordAt, Xor4, One;
    Rotations(Xor4(W(block, t - 3), W(block, t - 8), W(block, t - 14), W(block, t - 16)));
  }

  // ----- eight steps at once

  /** The registers behind a row. */
  function Behind(a: seq<word>, c: seq<word>): Regs
    requires |a| == 8 && |c| == 8
  {
    Regs(a[7], a[6], c[5], c[4], c[3])
  }

  /** The first four rounds of the row (a, c) that follows the row (pa, pc). */
  predicate FirstFour(t: nat, pa: seq<word>, pc: seq<word>, ws: seq<word>, a: seq<word>, c: seq<word>) {
    && |pa| == 8 && |pc| == 8 && |ws| == 8 && |a| == 8 && |c| == 8
    && Step(Regs(pa[7], pa[6], pc[5], pc[4], pc[3]), t + 0, ws[0])
       == Regs(a[0], pa[7], pc[6], pc[5], pc[4])
    && Step(Regs(a[0], pa[7], pc[6], pc[5], pc[4]), t + 1, ws[1])
       == Regs(a[1], a[0], pc[7], pc[6], pc[5])
    && Step(Regs(a[1], a[0], pc[7], pc[6], pc[5]), t + 2, ws[2])
       == Regs(a[2], a[1], c[0], pc[7], pc[6])
    && Step(Regs(a[2], a[1], c[0], pc[7], pc[6]), t + 3, ws[3])
       == Regs(a[3], a[2], c[1], c[0], pc[7])
  }

  /** And the last four. */
  predicate LastFour(t: nat, pa: seq<word>, pc: seq<word>, ws: seq<word>, a: seq<word>, c: seq<word>) {
    && |pa| == 8 && |pc| == 8 && |ws| == 8 && |a| == 8 && |c| == 8
    && Step(Regs(a[3], a[2], c[1], c[0], pc[7]), t + 4, ws[4])
       == Regs(a[4], a[3], c[2], c[1], c[0])
    && Step(Regs(a[4], a[3], c[2], c[1], c[0]), t + 5, ws[5])
       == Regs(a[5], a[4], c[3], c[2], c[1])
    && Step(Regs(a[5], a[4], c[3], c[2], c[1]), t + 6, ws[6])
       == Regs(a[6], a[5], c[4], c[3], c[2])
    && Step(Regs(a[6], a[5], c[4], c[3], c[2]), t + 7, ws[7])
       == Regs(a[7], a[6], c[5], c[4], c[3])
  }

  predicate RowIs(block: seq<byte>, k: nat, ws: seq<word>)
    requires |block| == CHUNK
  {
    |ws| == 8 && forall j :: 0 <= j < 8 ==> W(block, 8 * k + j) == ws[j]
  }

  lemma OneRound(H: seq<word>, block: seq<byte>, t: nat, w: word)
    requires |H| == 5 && |block| == CHUNK && W(block, t) == w
    ensures Rounds(H, block, t + 1) == Step(Rounds(H, block, t), t, w)
  {
    hide Round, W, Step;
    StepIsRound(Rounds(H, block, t), t, w);
  }

  lemma RowOfSchedule(block: seq<byte>, k: nat, ws: seq<word>, j: nat)
    requires |block| == CHUNK && RowIs(block, k, ws) && j < 8
    ensures |ws| == 8 && W(block, 8 * k + j) == ws[j]
  {
  }

  lemma EightRounds(H: seq<word>, block: seq<byte>, k: nat, ws: seq<word>,
                    pa: seq<word>, pc: seq<word>, a: seq<word>, c: seq<word>)
    requires |H| == 5 && |block| == CHUNK && RowIs(block, k, ws)
    requires FirstFour(8 * k, pa, pc, ws, a, c) && LastFour(8 * k, pa, pc, ws, a, c)
    requires Rounds(H, block, 8 * k) == Behind(pa, pc)
    ensures Rounds(H, block, 8 * k + 8) == Behind(a, c)
  {
    hide Step, Rounds, RowIs, W;
    forall j | 0 <= j < 8
      ensures |ws| == 8 && Rounds(H, block, 8 * k + j + 1) == Step(Rounds(H, block, 8 * k + j), 8 * k + j, ws[j])
    {
      RowOfSchedule(block, k, ws, j);
      OneRound(H, block, 8 * k + j, ws[j]);
    }
  }

  /** A row of the schedule out of the two rows before it. */
  predicate Follows(a: seq<word>, b: seq<word>, c: seq<word>) {
    && |a| == 8 && |b| == 8 && |c| == 8
    && c[0] == Next(b[5], b[0], a[2], a[0]) && c[1] == Next(b[6], b[1], a[3], a[1])
    && c[2] == Next(b[7], b[2], a[4], a[2]) && c[3] == Next(c[0], b[3], a[5], a[3])
    && c[4] == Next(c[1], b[4], a[6], a[4]) && c[5] == Next(c[2], b[5], a[7], a[5])
    && c[6] == Next(c[3], b[6], b[0], a[6]) && c[7] == Next(c[4], b[7], b[1], a[7])
  }

  lemma NextRow(block: seq<byte>, k: nat, a: seq<word>, b: seq<word>, c: seq<word>)
    requires |block| == CHUNK && 2 <= k && RowIs(block, k - 2, a) && RowIs(block, k - 1, b) && Follows(a, b, c)
    ensures RowIs(block, k, c)
  {
    hide Next, W;
    var t := 8 * k;
    assert forall j :: 0 <= j < 8 ==> W(block, 8 * (k - 2) + j) == a[j] && W(block, 8 * (k - 1) + j) == b[j];
    NextWord(block, t + 0);
    NextWord(block, t + 1);
    NextWord(block, t + 2);
    NextWord(block, t + 3);
    NextWord(block, t + 4);
    NextWord(block, t + 5);
    NextWord(block, t + 6);
    NextWord(block, t + 7);
  }

  lemma FirstRow(c: nat, k: nat, parts: seq<seq<byte>>, ws: seq<word>)
    requires c < 2 && k < 2 && |AllParts()| == 32 && AllParts()[16 * c + 8 * k..16 * c + 8 * k + 8] == parts
    requires BigRow(parts, ws)
    ensures (c + 1) * CHUNK <= |Padded(Message(), false)| && RowIs(Block(Message(), false, c), k, ws)
  {
    hide AllParts, Message, Padded, BigWordAt, BigRow, Block, P0, P1, P2, P3;
    Padding();
    BigRowOfBlock(Message(), AllParts(), c, k, parts, ws);
    var block := Block(Message(), false, c);
    forall j | 0 <= j < 8 ensures W(block, 8 * k + j) == ws[j] {
      assert W(block, 8 * k + j) == BigWordAt(block, 8 * k + j);
    }
  }

  // ----- the values

  lemma Words0()
    ensures BigRow(P0(), S0())
  {
  }

  lemma Words1()
    ensures BigRow(P1(), S1())
  {
  }

  lemma Words2()
    ensures BigRow(P2(), S10())
  {
  }

  lemma Words3()
    ensures BigRow(P3(), S11())
  {
  }

  lemma Schedule2()
    ensures Follows(S0(), S1(), S2())
  {
  }

  lemma Schedule3()
    ensures Follows(S1(), S2(), S3())
  {
  }

  lemma Schedule4()
    ensures Follows(S2(), S3(), S4())
  {
  }

  lemma Schedule5()
    ensures Follows(S3(), S4(), S5())
  {
  }

  lemma Schedule6()
    ensures Follows(S4(), S5(), S6())
  {
  }

  lemma Schedule7()
    ensures Follows(S5(), S6(), S7())
  {
  }

  lemma Schedule8()
    ensures Follows(S6(), S7(), S8())
  {
  }

  lemma Schedule9()
    ensures Follows(S7(), S8(), S9())
  {
  }

  lemma Schedule12()
    ensures Follows(S10(), S11(), S12())
  {
  }

  lemma Schedule13()
    ensures Follows(S11(), S12(), S13())
  {
  }

  lemma Schedule14()
    ensures Follows(S12(), S13(), S14())
  {
  }

  lemma Schedule15()
    ensures Follows(S13(), S14(), S15())
  {
  }

  lemma Schedule16()
    ensures Follows(S14(), S15(), S16())
  {
  }

  lemma Schedule17()
    ensures Follows(S15(), S16(), S17())
  {
  }

  lemma Schedule18()
    ensures Follows(S16(), S17(), S18())
  {
  }

  lemma Schedule19()
    ensures Follows(S17(), S18(), S19())
  {
  }

  lemma First0()
    ensures FirstFour(0, A0(), C0(), S0(), A1(), C1())
  {
  }

  lemma Last0()
    ensures LastFour(0, A0(), C0(), S0(), A1(), C1())
  {
  }

  lemma First1()
    ensures FirstFour(8, A1(), C1(), S1(), A2(), C2())
  {
  }

  lemma Last1()
    ensures LastFour(8, A1(), C1(), S1(), A2(), C2())
  {
  }

  lemma First2()
    ensures FirstFour(16, A2(), C2(), S2(), A3(), C3())
  {
  }

  lemma Last2()
    ensures LastFour(16, A2(), C2(), S2(), A3(), C3())
  {
  }

  lemma First3()
    ensures FirstFour(24, A3(), C3(), S3(), A4(), C4())
  {
  }

  lemma Last3()
    ensures LastFour(24, A3(), C3(), S3(), A4(), C4())
  {
  }

  lemma First4()
    ensures FirstFour(32, A4(), C4(), S4(), A5(), C5())
  {
  }

  lemma Last4()
    ensures LastFour(32, A4(), C4(), S4(), A5(), C5())
  {
  }

  lemma First5()
    ensures FirstFour(40, A5(), C5(), S5(), A6(), C6())
  {
  }

  lemma Last5()
    ensures LastFour(40, A5(), C5(), S5(), A6(), C6())
  {
  }

  lemma First6()
    ensures FirstFour(48, A6(), C6(), S6(), A7(), C7())
  {
  }

  lemma Last6()
    ensures LastFour(48, A6(), C6(), S6(), A7(), C7())
  {
  }

  lemma First7()
    ensures FirstFour(56, A7(), C7(), S7(), A8(), C8())
  {
  }

  lemma Last7()
    ensures LastFour(56, A7(), C7(), S7(), A8(), C8())
  {
  }

  lemma First8()
    ensures FirstFour(64, A8(), C8(), S8(), A9(), C9())
  {
  }

  lemma Last8()
    ensures LastFour(64, A8(), C8(), S8(), A9(), C9())
  {
  }

  lemma First9()
    ensures FirstFour(72, A9(), C9(), S9(), A10(), C10())
  {
  }

  lemma Last9()
    ensures LastFour(72, A9(), C9(), S9(), A10(), C10())
  {
  }

  lemma First10()
    ensures FirstFour(0, A11(), C11(), S10(), A12(), C12())
  {
  }

  lemma Last10()
    ensures LastFour(0, A11(), C11(), S10(), A12(), C12())
  {
  }

  lemma First11()
    ensures FirstFour(8, A12(), C12(), S11(), A13(), C13())
  {
  }

  lemma Last11()
    ensures LastFour(8, A12(), C12(), S11(), A13(), C13())
  {
  }

  lemma First12()
    ensures FirstFour(16, A13(), C13(), S12(), A14(), C14())
  {
  }

  lemma Last12()
    ensures LastFour(16, A13(), C13(), S12(), A14(), C14())
  {
  }

  lemma First13()
    ensures FirstFour(24, A14(), C14(), S13(), A15(), C15())
  {
  }

  lemma Last13()
    ensures LastFour(24, A14(), C14(), S13(), A15(), C15())
  {
  }

  lemma First14()
    ensures FirstFour(32, A15(), C15(), S14(), A16(), C16())
  {
  }

  lemma Last14()
    ensures LastFour(32, A15(), C15(), S14(), A16(), C16())
  {
  }

  lemma First15()
    ensures FirstFour(40, A16(), C16(), S15(), A17(), C17())
  {
  }

  lemma Last15()
    ensures LastFour(40, A16(), C16(), S15(), A17(), C17())
  {
  }

  lemma First16()
    ensures FirstFour(48, A17(), C17(), S16(), A18(), C18())
  {
  }

  lemma Last16()
    ensures LastFour(48, A17(), C17(), S16(), A18(), C18())
  {
  }

  lemma First17()
    ensures FirstFour(56, A18(), C18(), S17(), A19(), C19())
  {
  }

  lemma Last17()
    ensures LastFour(56, A18(), C18(), S17(), A19(), C19())
  {
  }

  lemma First18()
    ensures FirstFour(64, A19(), C19(), S18(), A20(), C20())
  {
  }

  lemma Last18()
    ensures LastFour(64, A19(), C19(), S18(), A20(), C20())
  {
  }

  lemma First19()
    ensures FirstFour(72, A20(), C20(), S19(), A21(), C21())
  {
  }

  lemma Last19()
    ensures LastFour(72, A20(), C20(), S19(), A21(), C21())
  {
  }

  lemma Sums()
    ensures |INITIAL| == 5 && |Hash1()| == 5 && Load(INITIAL) == Behind(A0(), C0())
    ensures Load(Hash1()) == Behind(A11(), C11())
    ensures Add(INITIAL, Regs1()) == Hash1() && Add(Hash1(), Regs2()) == Hash2()
  {
  }

  lemma LastBytes()
    ensures BigMemory(Hash2()) == Flatten(DigestParts())
  {
    assert BigBytes(Hash2()[0]) == DigestParts()[0];
    assert BigBytes(Hash2()[1]) == DigestParts()[1];
    assert BigBytes(Hash2()[2]) == DigestParts()[2];
    assert BigBytes(Hash2()[3]) == DigestParts()[3];
    assert BigBytes(Hash2()[4]) == DigestParts()[4];
    MemoryIs(Hash2(), DigestParts());
  }

  // ----- the digest

  lemma RoundsStart(H: seq<word>, block: seq<byte>)
    requires |H| == 5 && |block| == CHUNK
    ensures Rounds(H, block, 0) == Load(H)
  {
  }

  function AllParts(): seq<seq<byte>> { P0() + P1() + P2() + P3() }

  function Message(): seq<byte> { Flatten(AllParts()[..14]) }

  lemma PartRows()
    ensures |AllParts()| == 32 && Parts(AllParts())
    ensures AllParts()[0..8] == P0() && AllParts()[8..16] == P1()
    ensures AllParts()[16..24] == P2() && AllParts()[24..32] == P3()
  {
  }

  lemma LengthIs()
    ensures LengthBytes(56, false) == [0, 0, 0, 0, 0, 0, 0x01, 0xc0]
  {
    hide BigEndian;
    BigEndianOf(448, 8, 1, 0xc0);
    BigEndianOf(1, 7, 0, 0x01);
    BigEndianZero(6);
  }

  lemma TailMatches()
    ensures |AllParts()| == 32 && AllParts()[14..] == Tail(15, [0, 0, 0, 0, 0, 0, 0x01, 0xc0])
  {
    var t, parts := Tail(15, [0, 0, 0, 0, 0, 0, 0x01, 0xc0]), AllParts();
    assert parts[14] == [0x80, 0, 0, 0] && parts[30] == [0, 0, 0, 0] && parts[31] == [0, 0, 0x01, 0xc0];
    assert t[16] == [0, 0, 0, 0] && t[17] == [0, 0, 0x01, 0xc0];
    forall i | 0 <= i < 18 ensures parts[14 + i] == t[i] {
      if 1 <= i < 16 { assert parts[14 + i] == NOTHING; }
    }
  }

  lemma Padding()
    ensures Parts(AllParts()) && |AllParts()| == 32 && Padded(Message(), false) == Flatten(AllParts())
  {
    PartRows();
    LengthIs();
    TailMatches();
    hide P0, P1, P2, P3, AllParts, Padded, Flatten, LengthBytes, Tail;
    assert ZeroCount(56) == 63;
    PaddedParts(AllParts()[..14], false, 15, [0, 0, 0, 0, 0, 0, 0x01, 0xc0]);
    assert AllParts()[..14] + AllParts()[14..] == AllParts();
  }

  function Regs1(): Regs { Behind(A10(), C10()) }
  function Regs2(): Regs { Behind(A21(), C21()) }

  /** What the rounds make of the hash value H on block c. */
  predicate RoundsAre(c: nat, H: seq<word>, r: Regs) {
    (c + 1) * CHUNK <= |Padded(Message(), false)| && |H| == 5 && Rounds(H, Block(Message(), false, c), 80) == r
  }

  lemma RegsAre()
    ensures Regs1() == Behind(A10(), C10()) && Regs2() == Behind(A21(), C21())
  {
  }

  lemma RoundsAreSo(c: nat, H: seq<word>, r: Regs)
    requires (c + 1) * CHUNK <= |Padded(Message(), false)| && |H| == 5
    requires Rounds(H, Block(Message(), false, c), 80) == r
    ensures RoundsAre(c, H, r)
  {
  }

  lemma FirstSchedule()
    ensures 1 * CHUNK <= |Padded(Message(), false)|
    ensures var block := Block(Message(), false, 0);
            && RowIs(block, 0, S0()) && RowIs(block, 1, S1())
            && RowIs(block, 2, S2()) && RowIs(block, 3, S3())
            && RowIs(block, 4, S4()) && RowIs(block, 5, S5())
            && RowIs(block, 6, S6()) && RowIs(block, 7, S7())
            && RowIs(block, 8, S8()) && RowIs(block, 9, S9())
  {
    PartRows();
    hide *;
    Words0(); FirstRow(0, 0, P0(), S0());
    Words1(); FirstRow(0, 1, P1(), S1());
    var block := Block(Message(), false, 0);
    Schedule2(); NextRow(block, 2, S0(), S1(), S2());
    Schedule3(); NextRow(block, 3, S1(), S2(), S3());
    Schedule4(); NextRow(block, 4, S2(), S3(), S4());
    Schedule5(); NextRow(block, 5, S3(), S4(), S5());
    Schedule6(); NextRow(block, 6, S4(), S5(), S6());
    Schedule7(); NextRow(block, 7, S5(), S6(), S7());
    Schedule8(); NextRow(block, 8, S6(), S7(), S8());
    Schedule9(); NextRow(block, 9, S7(), S8(), S9());
  }

  lemma FirstRounds()
    ensures RoundsAre(0, INITIAL, Regs1())
  {
    hide *;
    FirstSchedule();
    Sums();
    var block := Block(Message(), false, 0);
    RoundsStart(INITIAL, block);
    First0(); Last0(); EightRounds(INITIAL, block, 0, S0(), A0(), C0(), A1(), C1());
    First1(); Last1(); EightRounds(INITIAL, block, 1, S1(), A1(), C1(), A2(), C2());
    First2(); Last2(); EightRounds(INITIAL, block, 2, S2(), A2(), C2(), A3(), C3());
    First3(); Last3(); EightRounds(INITIAL, block, 3, S3(), A3(), C3(), A4(), C4());
    First4(); Last4(); EightRounds(INITIAL, block, 4, S4(), A4(), C4(), A5(), C5());
    First5(); Last5(); EightRounds(INITIAL, block, 5, S5(), A5(), C5(), A6(), C6());
    First6(); Last6(); EightRounds(INITIAL, block, 6, S6(), A6(), C6(), A7(), C7());
    First7(); Last7(); EightRounds(INITIAL, block, 7, S7(), A7(), C7(), A8(), C8());
    First8(); Last8(); EightRounds(INITIAL, block, 8, S8(), A8(), C8(), A9(), C9());
    First9(); Last9(); EightRounds(INITIAL, block, 9, S9(), A9(), C9(), A10(), C10());
    RegsAre();
    RoundsAreSo(0, INITIAL, Regs1());
  }

  lemma SecondSchedule()
    ensures 2 * CHUNK <= |Padded(Message(), false)|
    ensures var block := Block(Message(), false, 1);
            && RowIs(block, 0, S10()) && RowIs(block, 1, S11())
            && RowIs(block, 2, S12()) && RowIs(block, 3, S13())
            && RowIs(block, 4, S14()) && RowIs(block, 5, S15())
            && RowIs(block, 6, S16()) && RowIs(block, 7, S17())
            && RowIs(block, 8, S18()) && RowIs(block, 9, S19())
  {
    PartRows();
    hide *;
    Words2(); FirstRow(1, 0, P2(), S10());
    Words3(); FirstRow(1, 1, P3(), S11());
    var block := Block(Message(), false, 1);
    Schedule12(); NextRow(block, 2, S10(), S11(), S12());
    Schedule13(); NextRow(block, 3, S11(), S12(), S13());
    Schedule14(); NextRow(block, 4, S12(), S13(), S14());
    Schedule15(); NextRow(block, 5, S13(), S14(), S15());
    Schedule16(); NextRow(block, 6, S14(), S15(), S16());
    Schedule17(); NextRow(block, 7, S15(), S16(), S17());
    Schedule18(); NextRow(block, 8, S16(), S17(), S18());
    Schedule19(); NextRow(block, 9, S17(), S18(), S19());
  }

  lemma SecondRounds()
    ensures RoundsAre(1, Hash1(), Regs2())
  {
    hide *;
    SecondSchedule();
    Sums();
    var block := Block(Message(), false, 1);
    RoundsStart(Hash1(), block);
    First10(); Last10(); EightRounds(Hash1(), block, 0, S10(), A11(), C11(), A12(), C12());
    First11(); Last11(); EightRounds(Hash1(), block, 1, S11(), A12(), C12(), A13(), C13());
    First12(); Last12(); EightRounds(Hash1(), block, 2, S12(), A13(), C13(), A14(), C14());
    First13(); Last13(); EightRounds(Hash1(), block, 3, S13(), A14(), C14(), A15(), C15());
    First14(); Last14(); EightRounds(Hash1(), block, 4, S14(), A15(), C15(), A16(), C16());
    First15(); Last15(); EightRounds(Hash1(), block, 5, S15(), A16(), C16(), A17(), C17());
    First16(); Last16(); EightRounds(Hash1(), block, 6, S16(), A17(), C17(), A18(), C18());
    First17(); Last17(); EightRounds(Hash1(), block, 7, S17(), A18(), C18(), A19(), C19());
    First18(); Last18(); EightRounds(Hash1(), block, 8, S18(), A19(), C19(), A20(), C20());
    First19(); Last19(); EightRounds(Hash1(), block, 9, S19(), A20(), C20(), A21(), C21());
    RegsAre();
    RoundsAreSo(1, Hash1(), Regs2());
  }

  lemma OneBlock(c: nat, H: seq<word>, r: Regs)
    requires RoundsAre(c, H, r) && HashValue(Message(), c) == H
    ensures (c + 1) * CHUNK <= |Padded(Message(), false)| && HashValue(Message(), c + 1) == Add(H, r)
  {
    hide Padded, Rounds, Block, Message, Add;
  }

  lemma HashStart()
    ensures HashValue(Message(), 0) == INITIAL
  {
    hide Padded, Message;
  }

  lemma Blocks()
    ensures |Padded(Message(), false)| == 2 * CHUNK && HashValue(Message(), 2) == Hash2()
  {
    PaddedSize();
    hide *;
    Sums();
    HashStart();
    FirstRounds();
    OneBlock(0, INITIAL, Regs1());
    SecondRounds();
    OneBlock(1, Hash1(), Regs2());
  }

  lemma PaddedSize()
    ensures |Padded(Message(), false)| == 2 * CHUNK
  {
    hide AllParts, Message, Padded, Flatten, Parts;
    Padding();
    PartsSize(AllParts());
  }

  /** The digest of the example: 84983e44 1c3bd26e baae4aa1 f95129e5 e54670f1. */
  lemma Example()
    ensures Digest(Message()) == Flatten(DigestParts())
  {
    hide Padded, HashValue, Message, Flatten, DigestParts, Hash2, BigMemory;
    Blocks();
    LastBytes();
  }
}
