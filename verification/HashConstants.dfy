/** Where the constants of the hashes come from: sections 4.2 and 5.3.3 of FIPS 180-4. */
module HashConstants {
  import opened Arith
  import opened Words
  import Md5
  import Sha256
  import Sha1

  // ----- the first sixty-four primes

  predicate Prime(n: nat) { n >= 2 && forall d :: 2 <= d < n ==> n % d != 0 }

  const PRIMES: seq<seq<nat>> := [
    [2, 3, 5, 7, 11, 13, 17, 19],
    [23, 29, 31, 37, 41, 43, 47, 53],
    [59, 61, 67, 71, 73, 79, 83, 89],
    [97, 101, 103, 107, 109, 113, 127, 131],
    [137, 139, 149, 151, 157, 163, 167, 173],
    [179, 181, 191, 193, 197, 199, 211, 223],
    [227, 229, 233, 239, 241, 251, 257, 263],
    [269, 271, 277, 281, 283, 293, 307, 311]]

  /** The t-th prime. */
  function NthPrime(t: nat): nat
    requires t < 64
  {
    PRIMES[t / 8][t % 8]
  }

  /** No prime up to seventeen divides n, unless it is n. */
  predicate Sieved(n: nat) {
    && (n % 2 == 0 ==> n == 2) && (n % 3 == 0 ==> n == 3) && (n % 5 == 0 ==> n == 5) && (n % 7 == 0 ==> n == 7)
    && (n % 11 == 0 ==> n == 11) && (n % 13 == 0 ==> n == 13) && (n % 17 == 0 ==> n == 17)
  }

  lemma SievedIsPrime(n: nat)
    requires 2 <= n < 324 && Sieved(n)
    ensures Prime(n)
  {
    hide Sieved;
    forall d | 2 <= d < n ensures n % d != 0 {
      if n % d == 0 {
        var e := n / d;
        assert n == d * e;
        Smaller(d, e);
        if d <= 17 { SmallDivisor(n, d, e); } else { Cofactor(n, d, e); SmallDivisor(n, e, d); }
      }
    }
  }

  lemma Cofactor(n: nat, d: nat, e: nat)
    requires n == d * e && 2 <= d < n
    ensures n == e * d && 2 <= e < n
  {
    if e >= n { Larger(d, e); }
  }

  lemma Larger(d: nat, e: nat)
    requires d >= 2 && e >= 1
    ensures d * e > e
  {
    ProductNonNegative(d - 2, e);
    assert d * e == 2 * e + (d - 2) * e;
  }

  lemma Smaller(d: nat, e: nat)
    requires d * e < 324
    ensures d <= 17 || e <= 17
  {
    if d >= 18 && e >= 18 { ProductGrows(d, e); }
  }

  lemma ProductGrows(d: nat, e: nat)
    requires d >= 18 && e >= 18
    ensures d * e >= 324
  {
    ProductNonNegative(d - 18, e - 18);
    assert (d - 18) * (e - 18) == d * e - 18 * d - 18 * e + 324;
  }

  lemma Multiple(a: nat, b: nat, c: nat)
    requires c > 0
    ensures (c * a * b) % c == 0
  {
    DivModUnique(c * a * b, c, a * b, 0);
  }

  /** The least prime that divides d. */
  function Factor(d: nat): (p: nat)
    requires 2 <= d <= 17
    ensures 2 <= p <= d && d % p == 0
  {
    if d % 2 == 0 then 2 else if d % 3 == 0 then 3 else if d % 5 == 0 then 5 else d
  }

  lemma SievedBy(n: nat, d: nat)
    requires Sieved(n) && 2 <= d <= 17 && n % Factor(d) == 0
    ensures n == Factor(d)
  {
    FactorIsListed(d);
    hide Factor;
    BySieve(n, Factor(d));
  }

  lemma FactorIsListed(d: nat)
    requires 2 <= d <= 17
    ensures Factor(d) in {2, 3, 5, 7, 11, 13, 17}
  {
  }

  lemma BySieve(n: nat, p: nat)
    requires Sieved(n) && p in {2, 3, 5, 7, 11, 13, 17} && n % p == 0
    ensures n == p
  {
  }

  /** A sieved number has no small divisor but itself. */
  lemma SmallDivisor(n: nat, d: nat, e: nat)
    requires Sieved(n) && n == d * e && 2 <= d <= 17
    ensures n <= d
  {
    hide Sieved, Factor;
    var p := Factor(d);
    assert d == p * (d / p);
    Multiple(d / p, e, p);
    SievedBy(n, d);
  }

  lemma NotSieved(n: nat)
    requires n >= 2 && !Sieved(n)
    ensures !Prime(n)
  {
    var d := if n % 2 == 0 && n != 2 then 2 else if n % 3 == 0 && n != 3 then 3 else if n % 5 == 0 && n != 5 then 5
             else if n % 7 == 0 && n != 7 then 7 else if n % 11 == 0 && n != 11 then 11
             else if n % 13 == 0 && n != 13 then 13 else 17;
    assert 2 <= d < n && n % d == 0;
  }

  /** No number from a up to b passes the sieve. */
  predicate NoneFrom(a: nat, b: nat)
    decreases b - a
  {
    a >= b || (!Sieved(a) && NoneFrom(a + 1, b))
  }

  lemma {:induction false} NoneMeans(a: nat, b: nat, n: nat)
    requires NoneFrom(a, b) && a <= n < b
    ensures !Sieved(n)
    decreases b - a
  {
    if a < n { NoneMeans(a + 1, b, n); }
  }

  lemma Primes0()
    ensures NthPrime(0) == 2 && Sieved(2) && NoneFrom(3, 3)
    ensures NthPrime(1) == 3 && Sieved(3) && NoneFrom(4, 5)
  {
  }

  lemma Primes1()
    ensures NthPrime(2) == 5 && Sieved(5) && NoneFrom(6, 7)
    ensures NthPrime(3) == 7 && Sieved(7) && NoneFrom(8, 11)
  {
  }

  lemma Primes2()
    ensures NthPrime(4) == 11 && Sieved(11) && NoneFrom(12, 13)
    ensures NthPrime(5) == 13 && Sieved(13) && NoneFrom(14, 17)
  {
  }

  lemma Primes3()
    ensures NthPrime(6) == 17 && Sieved(17) && NoneFrom(18, 19)
    ensures NthPrime(7) == 19 && Sieved(19) && NoneFrom(20, 23)
  {
  }

  lemma Primes4()
    ensures NthPrime(8) == 23 && Sieved(23) && NoneFrom(24, 29)
    ensures NthPrime(9) == 29 && Sieved(29) && NoneFrom(30, 31)
  {
  }

  lemma Primes5()
    ensures NthPrime(10) == 31 && Sieved(31) && NoneFrom(32, 37)
    ensures NthPrime(11) == 37 && Sieved(37) && NoneFrom(38, 41)
  {
  }

  lemma Primes6()
    ensures NthPrime(12) == 41 && Sieved(41) && NoneFrom(42, 43)
    ensures NthPrime(13) == 43 && Sieved(43) && NoneFrom(44, 47)
  {
  }

  lemma Primes7()
    ensures NthPrime(14) == 47 && Sieved(47) && NoneFrom(48, 53)
    ensures NthPrime(15) == 53 && Sieved(53) && NoneFrom(54, 59)
  {
  }

  lemma Primes8()
    ensures NthPrime(16) == 59 && Sieved(59) && NoneFrom(60, 61)
    ensures NthPrime(17) == 61 && Sieved(61) && NoneFrom(62, 67)
  {
  }

  lemma Primes9()
    ensures NthPrime(18) == 67 && Sieved(67) && NoneFrom(68, 71)
    ensures NthPrime(19) == 71 && Sieved(71) && NoneFrom(72, 73)
  {
  }

  lemma Primes10()
    ensures NthPrime(20) == 73 && Sieved(73) && NoneFrom(74, 79)
    ensures NthPrime(21) == 79 && Sieved(79) && NoneFrom(80, 83)
  {
  }

  lemma Primes11()
    ensures NthPrime(22) == 83 && Sieved(83) && NoneFrom(84, 89)
    ensures NthPrime(23) == 89 && Sieved(89) && NoneFrom(90, 97)
  {
  }

  lemma Primes12()
    ensures NthPrime(24) == 97 && Sieved(97) && NoneFrom(98, 101)
    ensures NthPrime(25) == 101 && Sieved(101) && NoneFrom(102, 103)
  {
  }

  lemma Primes13()
    ensures NthPrime(26) == 103 && Sieved(103) && NoneFrom(104, 107)
    ensures NthPrime(27) == 107 && Sieved(107) && NoneFrom(108, 109)
  {
  }

  lemma Primes14()
    ensures NthPrime(28) == 109 && Sieved(109) && NoneFrom(110, 113)
    ensures NthPrime(29) == 113 && Sieved(113) && NoneFrom(114, 127)
  {
  }

  lemma Primes15()
    ensures NthPrime(30) == 127 && Sieved(127) && NoneFrom(128, 131)
    ensures NthPrime(31) == 131 && Sieved(131) && NoneFrom(132, 137)
  {
  }

  lemma Primes16()
    ensures NthPrime(32) == 137 && Sieved(137) && NoneFrom(138, 139)
    ensures NthPrime(33) == 139 && Sieved(139) && NoneFrom(140, 149)
  {
  }

  lemma Primes17()
    ensures NthPrime(34) == 149 && Sieved(149) && NoneFrom(150, 151)
    ensures NthPrime(35) == 151 && Sieved(151) && NoneFrom(152, 157)
  {
  }

  lemma Primes18()
    ensures NthPrime(36) == 157 && Sieved(157) && NoneFrom(158, 163)
    ensures NthPrime(37) == 163 && Sieved(163) && NoneFrom(164, 167)
  {
  }

  lemma Primes19()
    ensures NthPrime(38) == 167 && Sieved(167) && NoneFrom(168, 173)
    ensures NthPrime(39) == 173 && Sieved(173) && NoneFrom(174, 179)
  {
  }

  lemma Primes20()
    ensures NthPrime(40) == 179 && Sieved(179) && NoneFrom(180, 181)
    ensures NthPrime(41) == 181 && Sieved(181) && NoneFrom(182, 191)
  {
  }

  lemma Primes21()
    ensures NthPrime(42) == 191 && Sieved(191) && NoneFrom(192, 193)
    ensures NthPrime(43) == 193 && Sieved(193) && NoneFrom(194, 197)
  {
  }

  lemma Primes22()
    ensures NthPrime(44) == 197 && Sieved(197) && NoneFrom(198, 199)
    ensures NthPrime(45) == 199 && Sieved(199) && NoneFrom(200, 211)
  {
  }

  lemma Primes23()
    ensures NthPrime(46) == 211 && Sieved(211) && NoneFrom(212, 223)
    ensures NthPrime(47) == 223 && Sieved(223) && NoneFrom(224, 227)
  {
  }

  lemma Primes24()
    ensures NthPrime(48) == 227 && Sieved(227) && NoneFrom(228, 229)
    ensures NthPrime(49) == 229 && Sieved(229) && NoneFrom(230, 233)
  {
  }

  lemma Primes25()
    ensures NthPrime(50) == 233 && Sieved(233) && NoneFrom(234, 239)
    ensures NthPrime(51) == 239 && Sieved(239) && NoneFrom(240, 241)
  {
  }

  lemma Primes26()
    ensures NthPrime(52) == 241 && Sieved(241) && NoneFrom(242, 251)
    ensures NthPrime(53) == 251 && Sieved(251) && NoneFrom(252, 257)
  {
  }

  lemma Primes27()
    ensures NthPrime(54) == 257 && Sieved(257) && NoneFrom(258, 263)
    ensures NthPrime(55) == 263 && Sieved(263) && NoneFrom(264, 269)
  {
  }

  lemma Primes28()
    ensures NthPrime(56) == 269 && Sieved(269) && NoneFrom(270, 271)
    ensures NthPrime(57) == 271 && Sieved(271) && NoneFrom(272, 277)
  {
  }

  lemma Primes29()
    ensures NthPrime(58) == 277 && Sieved(277) && NoneFrom(278, 281)
    ensures NthPrime(59) == 281 && Sieved(281) && NoneFrom(282, 283)
  {
  }

  lemma Primes30()
    ensures NthPrime(60) == 283 && Sieved(283) && NoneFrom(284, 293)
    ensures NthPrime(61) == 293 && Sieved(293) && NoneFrom(294, 307)
  {
  }

  lemma Primes31()
    ensures NthPrime(62) == 307 && Sieved(307) && NoneFrom(308, 311)
    ensures NthPrime(63) == 311 && Sieved(311)
  {
  }

  /** NthPrime(t) passes the sieve, and no number between it and the next one does. */
  lemma EveryStep(t: nat)
    requires t < 64
    ensures 2 <= NthPrime(t) < 324 && Sieved(NthPrime(t))
    ensures t < 63 ==> NthPrime(t) < NthPrime(t + 1) && NoneFrom(NthPrime(t) + 1, NthPrime(t + 1))
  {
    hide Sieved, NoneFrom, NthPrime;
    if t < 32 { LowStep(t); } else { HighStep(t); }
  }

  lemma LowStep(t: nat)
    requires 0 <= t < 32
    ensures 2 <= NthPrime(t) < 324 && Sieved(NthPrime(t))
    ensures t < 63 ==> NthPrime(t) < NthPrime(t + 1) && NoneFrom(NthPrime(t) + 1, NthPrime(t + 1))
  {
    hide Sieved, NoneFrom, NthPrime;
    if t < 2 {
      Primes0();
      Primes1();
    } else if t < 4 {
      Primes1();
      Primes2();
    } else if t < 6 {
      Primes2();
      Primes3();
    } else if t < 8 {
      Primes3();
      Primes4();
    } else if t < 10 {
      Primes4();
      Primes5();
    } else if t < 12 {
      Primes5();
      Primes6();
    } else if t < 14 {
      Primes6();
      Primes7();
    } else if t < 16 {
      Primes7();
      Primes8();
    } else if t < 18 {
      Primes8();
      Primes9();
    } else if t < 20 {
      Primes9();
      Primes10();
    } else if t < 22 {
      Primes10();
      Primes11();
    } else if t < 24 {
      Primes11();
      Primes12();
    } else if t < 26 {
      Primes12();
      Primes13();
    } else if t < 28 {
      Primes13();
      Primes14();
    } else if t < 30 {
      Primes14();
      Primes15();
    } else {
      Primes15();
      Primes16();
    }
  }

  lemma HighStep(t: nat)
    requires 32 <= t < 64
    ensures 2 <= NthPrime(t) < 324 && Sieved(NthPrime(t))
    ensures t < 63 ==> NthPrime(t) < NthPrime(t + 1) && NoneFrom(NthPrime(t) + 1, NthPrime(t + 1))
  {
    hide Sieved, NoneFrom, NthPrime;
    if t < 34 {
      Primes16();
      Primes17();
    } else if t < 36 {
      Primes17();
      Primes18();
    } else if t < 38 {
      Primes18();
      Primes19();
    } else if t < 40 {
      Primes19();
      Primes20();
    } else if t < 42 {
      Primes20();
      Primes21();
    } else if t < 44 {
      Primes21();
      Primes22();
    } else if t < 46 {
      Primes22();
      Primes23();
    } else if t < 48 {
      Primes23();
      Primes24();
    } else if t < 50 {
      Primes24();
      Primes25();
    } else if t < 52 {
      Primes25();
      Primes26();
    } else if t < 54 {
      Primes26();
      Primes27();
    } else if t < 56 {
      Primes27();
      Primes28();
    } else if t < 58 {
      Primes28();
      Primes29();
    } else if t < 60 {
      Primes29();
      Primes30();
    } else if t < 62 {
      Primes30();
      Primes31();
    } else {
      Primes31();
      Primes31();
    }
  }

  /** They are the first sixty-four primes in order: each is a prime, each is larger than the one before,
      and no other prime is smaller. */
  lemma {:induction false} NthPrimeIsNth(t: nat, n: nat)
    requires t < 64
    ensures Prime(NthPrime(t)) && (t > 0 ==> NthPrime(t - 1) < NthPrime(t))
    ensures Prime(n) && n < NthPrime(t) ==> exists s :: 0 <= s < t && n == NthPrime(s)
  {
    hide Prime, Sieved, NthPrime, NoneFrom;
    EveryStep(t);
    FirstIsTwo();
    SievedIsPrime(NthPrime(t));
    if t > 0 { EveryStep(t - 1); }
    if Prime(n) && n < NthPrime(t) {
      PrimeFromTwo(n);
      if t > 0 {
        if n > NthPrime(t - 1) {
          NoneMeans(NthPrime(t - 1) + 1, NthPrime(t), n);
          NotSieved(n);
        } else if n < NthPrime(t - 1) {
          NthPrimeIsNth(t - 1, n);
        } else {
          assert n == NthPrime(t - 1);
        }
      }
    }
  }

  lemma FirstIsTwo()
    ensures NthPrime(0) == 2
  {
  }

  lemma PrimeFromTwo(n: nat)
    requires Prime(n)
    ensures n >= 2
  {
  }

  // ----- SHA-256: fractional parts of roots of primes

  /** x is the cube root of p in units of 2^-32, rounded down. */
  predicate CubeRoot(x: nat, p: nat) {
    Cube(x) <= p * 0x1_0000_0000_0000_0000_0000_0000 < Cube(x + 1)
  }

  function Square(x: nat): nat { x * x }

  function Cube(x: nat): nat { Square(x) * x }

  /** x is the square root of p in units of 2^-32, rounded down. */
  predicate SquareRoot(x: nat, p: nat) { x * x <= p * 0x1_0000_0000_0000_0000 < (x + 1) * (x + 1) }

  /** With whole part w, constant t is the fractional part of the cube root of the t-th prime. */
  predicate RootAt(t: nat, w: nat)
    requires t < 64
  {
    CubeRoot(w * 0x1_0000_0000 + Sha256.K(t) as nat, NthPrime(t))
  }

  lemma Roots0()
    ensures RootAt(0, 1) && RootAt(1, 1)
  {
  }

  lemma Roots1()
    ensures RootAt(2, 1) && RootAt(3, 1)
  {
  }

  lemma Roots2()
    ensures RootAt(4, 2) && RootAt(5, 2)
  {
  }

  lemma Roots3()
    ensures RootAt(6, 2) && RootAt(7, 2)
  {
  }

  lemma Roots4()
    ensures RootAt(8, 2) && RootAt(9, 3)
  {
  }

  lemma Roots5()
    ensures RootAt(10, 3) && RootAt(11, 3)
  {
  }

  lemma Roots6()
    ensures RootAt(12, 3) && RootAt(13, 3)
  {
  }

  lemma Roots7()
    ensures RootAt(14, 3) && RootAt(15, 3)
  {
  }

  lemma Roots8()
    ensures RootAt(16, 3) && RootAt(17, 3)
  {
  }

  lemma Roots9()
    ensures RootAt(18, 4) && RootAt(19, 4)
  {
  }

  lemma Roots10()
    ensures RootAt(20, 4) && RootAt(21, 4)
  {
  }

  lemma Roots11()
    ensures RootAt(22, 4) && RootAt(23, 4)
  {
  }

  lemma Roots12()
    ensures RootAt(24, 4) && RootAt(25, 4)
  {
  }

  lemma Roots13()
    ensures RootAt(26, 4) && RootAt(27, 4)
  {
  }

  lemma Roots14()
    ensures RootAt(28, 4) && RootAt(29, 4)
  {
  }

  lemma Roots15()
    ensures RootAt(30, 5) && RootAt(31, 5)
  {
  }

  lemma Roots16()
    ensures RootAt(32, 5) && RootAt(33, 5)
  {
  }

  lemma Roots17()
    ensures RootAt(34, 5) && RootAt(35, 5)
  {
  }

  lemma Roots18()
    ensures RootAt(36, 5) && RootAt(37, 5)
  {
  }

  lemma Roots19()
    ensures RootAt(38, 5) && RootAt(39, 5)
  {
  }

  lemma Roots20()
    ensures RootAt(40, 5) && RootAt(41, 5)
  {
  }

  lemma Roots21()
    ensures RootAt(42, 5) && RootAt(43, 5)
  {
  }

  lemma Roots22()
    ensures RootAt(44, 5) && RootAt(45, 5)
  {
  }

  lemma Roots23()
    ensures RootAt(46, 5) && RootAt(47, 6)
  {
  }

  lemma Roots24()
    ensures RootAt(48, 6) && RootAt(49, 6)
  {
  }

  lemma Roots25()
    ensures RootAt(50, 6) && RootAt(51, 6)
  {
  }

  lemma Roots26()
    ensures RootAt(52, 6) && RootAt(53, 6)
  {
  }

  lemma Roots27()
    ensures RootAt(54, 6) && RootAt(55, 6)
  {
  }

  lemma Roots28()
    ensures RootAt(56, 6) && RootAt(57, 6)
  {
  }

  lemma Roots29()
    ensures RootAt(58, 6) && RootAt(59, 6)
  {
  }

  lemma Roots30()
    ensures RootAt(60, 6) && RootAt(61, 6)
  {
  }

  lemma Roots31()
    ensures RootAt(62, 6) && RootAt(63, 6)
  {
  }

  function Whole(t: nat): nat {
    if t < 4 then 1 else if t < 9 then 2 else if t < 18 then 3 else if t < 30 then 4 else if t < 47 then 5 else 6
  }

  lemma EveryRoot(t: nat)
    requires t < 64
    ensures RootAt(t, Whole(t))
  {
    hide RootAt;
    if t < 2 {
      Roots0();
    } else if t < 4 {
      Roots1();
    } else if t < 6 {
      Roots2();
    } else if t < 8 {
      Roots3();
    } else if t < 10 {
      Roots4();
    } else if t < 12 {
      Roots5();
    } else if t < 14 {
      Roots6();
    } else if t < 16 {
      Roots7();
    } else if t < 18 {
      Roots8();
    } else if t < 20 {
      Roots9();
    } else if t < 22 {
      Roots10();
    } else if t < 24 {
      Roots11();
    } else if t < 26 {
      Roots12();
    } else if t < 28 {
      Roots13();
    } else if t < 30 {
      Roots14();
    } else if t < 32 {
      Roots15();
    } else if t < 34 {
      Roots16();
    } else if t < 36 {
      Roots17();
    } else if t < 38 {
      Roots18();
    } else if t < 40 {
      Roots19();
    } else if t < 42 {
      Roots20();
    } else if t < 44 {
      Roots21();
    } else if t < 46 {
      Roots22();
    } else if t < 48 {
      Roots23();
    } else if t < 50 {
      Roots24();
    } else if t < 52 {
      Roots25();
    } else if t < 54 {
      Roots26();
    } else if t < 56 {
      Roots27();
    } else if t < 58 {
      Roots28();
    } else if t < 60 {
      Roots29();
    } else if t < 62 {
      Roots30();
    } else {
      Roots31();
    }
  }

  /** Section 4.2.2 of FIPS 180-4: the constants are the first thirty-two bits of the fractional parts of
      the cube roots of the first sixty-four primes. */
  lemma ConstantsAreCubeRoots(t: nat)
    requires t < 64
    ensures exists w: nat :: CubeRoot(w * 0x1_0000_0000 + Sha256.K(t) as nat, NthPrime(t))
  {
    EveryRoot(t);
    hide CubeRoot, NthPrime, Sha256.K;
    assert CubeRoot(Whole(t) * 0x1_0000_0000 + Sha256.K(t) as nat, NthPrime(t));
  }

  /** Section 5.3.3: the initial hash value, the square roots of the first eight primes. */
  lemma InitialIsSquareRoots(t: nat)
    requires t < 8
    ensures |Sha256.INITIAL| == 8
    ensures exists w: nat :: SquareRoot(w * 0x1_0000_0000 + Sha256.INITIAL[t] as nat, NthPrime(t))
  {
    if t == 0 { assert SquareRoot(1 * 0x1_0000_0000 + Sha256.INITIAL[0] as nat, NthPrime(0)); }
    if t == 1 { assert SquareRoot(1 * 0x1_0000_0000 + Sha256.INITIAL[1] as nat, NthPrime(1)); }
    if t == 2 { assert SquareRoot(2 * 0x1_0000_0000 + Sha256.INITIAL[2] as nat, NthPrime(2)); }
    if t == 3 { assert SquareRoot(2 * 0x1_0000_0000 + Sha256.INITIAL[3] as nat, NthPrime(3)); }
    if t == 4 { assert SquareRoot(3 * 0x1_0000_0000 + Sha256.INITIAL[4] as nat, NthPrime(4)); }
    if t == 5 { assert SquareRoot(3 * 0x1_0000_0000 + Sha256.INITIAL[5] as nat, NthPrime(5)); }
    if t == 6 { assert SquareRoot(4 * 0x1_0000_0000 + Sha256.INITIAL[6] as nat, NthPrime(6)); }
    if t == 7 { assert SquareRoot(4 * 0x1_0000_0000 + Sha256.INITIAL[7] as nat, NthPrime(7)); }
  }

  // ----- SHA-1: square roots of 2, 3, 5 and 10

  /** Each constant is a square root in units of 2^-30, rounded down. */
  lemma Sha1ConstantsAreSquareRoots(t: nat)
    requires t < 80
    ensures var n := if t < 20 then 2 else if t < 40 then 3 else if t < 60 then 5 else 10;
            var k := Sha1.K(t) as nat;
            k * k <= n * 0x1000_0000_0000_0000 < (k + 1) * (k + 1)
  {
  }

  // ----- the initial values of SHA-1 and MD5

  /** Section 3.3 of RFC 1321 gives the registers as bytes, low-order first; SHA-1 has a fifth word. */
  lemma InitialBytes()
    ensures LittleMemory(Md5.INITIAL)
            == [0x01, 0x23, 0x45, 0x67, 0x89, 0xab, 0xcd, 0xef, 0xfe, 0xdc, 0xba, 0x98, 0x76, 0x54, 0x32, 0x10]
    ensures Sha1.INITIAL == Md5.INITIAL + [0xc3d2e1f0]
  {
    var I := Md5.INITIAL;
    assert LittleBytes(I[0]) == [0x01, 0x23, 0x45, 0x67] && LittleBytes(I[1]) == [0x89, 0xab, 0xcd, 0xef];
    assert LittleBytes(I[2]) == [0xfe, 0xdc, 0xba, 0x98] && LittleBytes(I[3]) == [0x76, 0x54, 0x32, 0x10];
    assert I[1..][1..][1..] == [I[3]] && I[1..][1..] == [I[2], I[3]] && I[1..] == [I[1], I[2], I[3]];
    assert I[1..][1..][1..][1..] == [];
  }
}
