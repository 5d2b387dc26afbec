/** Where the numbers of FIPS 180-4 come from: the round constants of section
    4.2.2 are the first 32 bits of the fractional parts of the cube roots of the
    first 64 primes, the initial hash value of section 5.3.3 those of the square
    roots of the first eight. */
module Sha256Constants {
  import opened Sha256

  function PrimeRow(row: nat): (primes: seq<nat>)
    requires row < 8
    ensures |primes| == 8
  {
    if row == 0 then [2, 3, 5, 7, 11, 13, 17, 19]
    else if row == 1 then [23, 29, 31, 37, 41, 43, 47, 53]
    else if row == 2 then [59, 61, 67, 71, 73, 79, 83, 89]
    else if row == 3 then [97, 101, 103, 107, 109, 113, 127, 131]
    else if row == 4 then [137, 139, 149, 151, 157, 163, 167, 173]
    else if row == 5 then [179, 181, 191, 193, 197, 199, 211, 223]
    else if row == 6 then [227, 229, 233, 239, 241, 251, 257, 263]
    else [269, 271, 277, 281, 283, 293, 307, 311]
  }

  function Prime(i: nat): nat
    requires i < 64
  {
    PrimeRow(i / 8)[i % 8]
  }

  predicate IsPrime(n: nat) {
    n > 1 && forall d :: 1 < d < n ==> n % d != 0
  }

  // Below 19 squared, the primes are what the primes below 19 leave.
  predicate Sieved(n: nat) {
    && n > 1 && (n == 2 || n % 2 != 0) && (n == 3 || n % 3 != 0) && (n == 5 || n % 5 != 0) && (n == 7 || n % 7 != 0)
    && (n == 11 || n % 11 != 0) && (n == 13 || n % 13 != 0) && (n == 17 || n % 17 != 0)
  }

  lemma Multiple(k: nat, d: nat)
    requires k > 0
    ensures (k * d) / k == d && (k * d) % k == 0
  {
    Quotient(k * d, k, d);
  }

  lemma DividesOn(n: nat, d: nat, q: nat)
    requires d > 0 && q > 0 && n % d == 0 && d % q == 0
    ensures n % q == 0
  {
    var k, m := n / d, d / q;
    assert n == d * k && d == q * m;
    assert n == q * (m * k);
    Multiple(q, m * k);
  }

  // The least divisor of a number below 19.
  function Least(d: nat): (q: nat)
    requires 1 < d < 19
    ensures q in [2, 3, 5, 7, 11, 13, 17] && q <= d && d % q == 0
  {
    if d % 2 == 0 then 2 else if d % 3 == 0 then 3 else d
  }

  lemma SmallDivisor(n: nat, d: nat)
    requires 1 < d < 19 && d < n && n % d == 0
    ensures !Sieved(n)
  {
    DividesOn(n, d, Least(d));
  }

  lemma Cofactor(n: nat, d: nat)
    requires 19 <= d < n < 361 && n % d == 0
    ensures 1 < n / d < 19 && n / d < n && n % (n / d) == 0
  {
    var k := n / d;
    assert n == d * k;
    AtLeast(d, k);
    Multiple(k, d);
    assert k * d == n;
  }

  lemma AtLeast(d: nat, k: nat)
    requires d >= 19 && d * k < 361 && d < d * k
    ensures 1 < k < 19
  {
    if k >= 19 {
      Grows(d, k);
    }
  }

  lemma Grows(d: nat, k: nat)
    requires d >= 19 && k >= 19
    ensures d * k >= 361
  {
    assert d * k == 19 * k + (d - 19) * k;
  }

  lemma SievedIsPrime(n: nat)
    requires n < 361
    ensures Sieved(n) <==> IsPrime(n)
  {
    if Sieved(n) {
      forall d | 1 < d < n ensures n % d != 0 {
        if n % d == 0 {
          if d >= 19 { Cofactor(n, d); SmallDivisor(n, n / d); } else { SmallDivisor(n, d); }
        }
      }
    }
  }

  predicate NoneSieved(low: nat, high: nat)
    decreases high - low
  {
    low >= high || (!Sieved(low) && NoneSieved(low + 1, high))
  }

  lemma {:induction false} NoneBetween(low: nat, high: nat)
    requires NoneSieved(low, high)
    ensures forall n :: low <= n < high ==> !Sieved(n)
    decreases high - low
  {
    if low < high {
      NoneBetween(low + 1, high);
    }
  }

  function Before(i: nat): nat
    requires i < 64
  {
    if i == 0 then 0 else Prime(i - 1)
  }

  // A prime of the list, and none between it and the one before.
  predicate Follows(before: nat, prime: nat) {
    before < prime < 361 && Sieved(prime) && NoneSieved(before + 1, prime)
  }

  lemma Gaps0()
    ensures Follows(0, 2) && Follows(2, 3)
    ensures Follows(3, 5) && Follows(5, 7)
    ensures Follows(7, 11) && Follows(11, 13)
    ensures Follows(13, 17) && Follows(17, 19)
  {
  }

  lemma RowFollows0(i: nat)
    requires 0 <= i < 8
    ensures Follows(Before(i), Prime(i))
  {
    Gaps0();
    hide Follows;
    assert i == 0 || i == 1 || i == 2 || i == 3 || i == 4 || i == 5 || i == 6 || i == 7;
  }

  lemma Gaps1()
    ensures Follows(19, 23) && Follows(23, 29)
    ensures Follows(29, 31) && Follows(31, 37)
    ensures Follows(37, 41) && Follows(41, 43)
    ensures Follows(43, 47) && Follows(47, 53)
  {
  }

  lemma RowFollows1(i: nat)
    requires 8 <= i < 16
    ensures Follows(Before(i), Prime(i))
  {
    Gaps1();
    hide Follows;
    assert i == 8 || i == 9 || i == 10 || i == 11 || i == 12 || i == 13 || i == 14 || i == 15;
  }

  lemma Gaps2()
    ensures Follows(53, 59) && Follows(59, 61)
    ensures Follows(61, 67) && Follows(67, 71)
    ensures Follows(71, 73) && Follows(73, 79)
    ensures Follows(79, 83) && Follows(83, 89)
  {
  }

  lemma RowFollows2(i: nat)
    requires 16 <= i < 24
    ensures Follows(Before(i), Prime(i))
  {
    Gaps2();
    hide Follows;
    assert i == 16 || i == 17 || i == 18 || i == 19 || i == 20 || i == 21 || i == 22 || i == 23;
  }

  lemma Gaps3()
    ensures Follows(89, 97) && Follows(97, 101)
    ensures Follows(101, 103) && Follows(103, 107)
    ensures Follows(107, 109) && Follows(109, 113)
    ensures Follows(113, 127) && Follows(127, 131)
  {
  }

  lemma RowFollows3(i: nat)
    requires 24 <= i < 32
    ensures Follows(Before(i), Prime(i))
  {
    Gaps3();
    hide Follows;
    assert i == 24 || i == 25 || i == 26 || i == 27 || i == 28 || i == 29 || i == 30 || i == 31;
  }

  lemma Gaps4()
    ensures Follows(131, 137) && Follows(137, 139)
    ensures Follows(139, 149) && Follows(149, 151)
    ensures Follows(151, 157) && Follows(157, 163)
    ensures Follows(163, 167) && Follows(167, 173)
  {
  }

  lemma RowFollows4(i: nat)
    requires 32 <= i < 40
    ensures Follows(Before(i), Prime(i))
  {
    Gaps4();
    hide Follows;
    assert i == 32 || i == 33 || i == 34 || i == 35 || i == 36 || i == 37 || i == 38 || i == 39;
  }

  lemma Gaps5()
    ensures Follows(173, 179) && Follows(179, 181)
    ensures Follows(181, 191) && Follows(191, 193)
    ensures Follows(193, 197) && Follows(197, 199)
    ensures Follows(199, 211) && Follows(211, 223)
  {
  }

  lemma RowFollows5(i: nat)
    requires 40 <= i < 48
    ensures Follows(Before(i), Prime(i))
  {
    Gaps5();
    hide Follows;
    assert i == 40 || i == 41 || i == 42 || i == 43 || i == 44 || i == 45 || i == 46 || i == 47;
  }

  lemma Gaps6()
    ensures Follows(223, 227) && Follows(227, 229)
    ensures Follows(229, 233) && Follows(233, 239)
    ensures Follows(239, 241) && Follows(241, 251)
    ensures Follows(251, 257) && Follows(257, 263)
  {
  }

  lemma RowFollows6(i: nat)
    requires 48 <= i < 56
    ensures Follows(Before(i), Prime(i))
  {
    Gaps6();
    hide Follows;
    assert i == 48 || i == 49 || i == 50 || i == 51 || i == 52 || i == 53 || i == 54 || i == 55;
  }

  lemma Gaps7()
    ensures Follows(263, 269) && Follows(269, 271)
    ensures Follows(271, 277) && Follows(277, 281)
    ensures Follows(281, 283) && Follows(283, 293)
    ensures Follows(293, 307) && Follows(307, 311)
  {
  }

  lemma RowFollows7(i: nat)
    requires 56 <= i < 64
    ensures Follows(Before(i), Prime(i))
  {
    Gaps7();
    hide Follows;
    assert i == 56 || i == 57 || i == 58 || i == 59 || i == 60 || i == 61 || i == 62 || i == 63;
  }

  // They are the first 64 primes, in order.
  lemma FirstPrimes(i: nat)
    requires i < 64
    ensures IsPrime(Prime(i)) && Before(i) < Prime(i) && forall n: nat :: Before(i) < n < Prime(i) ==> !IsPrime(n)
  {
    if i < 8 { RowFollows0(i); }
    else if i < 16 { RowFollows1(i); }
    else if i < 24 { RowFollows2(i); }
    else if i < 32 { RowFollows3(i); }
    else if i < 40 { RowFollows4(i); }
    else if i < 48 { RowFollows5(i); }
    else if i < 56 { RowFollows6(i); }
    else { RowFollows7(i); }
    SievedIsPrime(Prime(i));
    NoneBetween(Before(i) + 1, Prime(i));
    forall n: nat | n < Prime(i) ensures Sieved(n) <==> IsPrime(n) {
      SievedIsPrime(n);
    }
    hide Prime, Before, Sieved, NoneSieved, IsPrime;
  }

  // The word is the first 32 bits after the point of the number's cube root,
  // or of its square root, whose whole part is given.
  predicate CubeRootFraction(word: Word, number: nat, whole: nat) {
    var root := 0x1_0000_0000 * whole + word;
    root * root * root <= number * 0x1_0000_0000_0000_0000_0000_0000 < (root + 1) * (root + 1) * (root + 1)
  }

  predicate SquareRootFraction(word: Word, number: nat, whole: nat) {
    var root := 0x1_0000_0000 * whole + word;
    root * root <= number * 0x1_0000_0000_0000_0000 < (root + 1) * (root + 1)
  }

  // The whole part of the cube root of a number below 343.
  function CubeRoot(n: nat): (w: nat)
    requires 1 <= n < 343
    ensures w * w * w <= n < (w + 1) * (w + 1) * (w + 1)
  {
    if n < 8 then 1 else if n < 27 then 2 else if n < 64 then 3 else if n < 125 then 4 else if n < 216 then 5 else 6
  }

  lemma RowConstants0(t: nat)
    requires 0 <= t < 8
    ensures CubeRootFraction(Constant(t), Prime(t), CubeRoot(Prime(t)))
  {
    assert t == 0 || t == 1 || t == 2 || t == 3 || t == 4 || t == 5 || t == 6 || t == 7;
  }

  lemma RowConstants1(t: nat)
    requires 8 <= t < 16
    ensures CubeRootFraction(Constant(t), Prime(t), CubeRoot(Prime(t)))
  {
    assert t == 8 || t == 9 || t == 10 || t == 11 || t == 12 || t == 13 || t == 14 || t == 15;
  }

  lemma RowConstants2(t: nat)
    requires 16 <= t < 24
    ensures CubeRootFraction(Constant(t), Prime(t), CubeRoot(Prime(t)))
  {
    assert t == 16 || t == 17 || t == 18 || t == 19 || t == 20 || t == 21 || t == 22 || t == 23;
  }

  lemma RowConstants3(t: nat)
    requires 24 <= t < 32
    ensures CubeRootFraction(Constant(t), Prime(t), CubeRoot(Prime(t)))
  {
    assert t == 24 || t == 25 || t == 26 || t == 27 || t == 28 || t == 29 || t == 30 || t == 31;
  }

  lemma RowConstants4(t: nat)
    requires 32 <= t < 40
    ensures CubeRootFraction(Constant(t), Prime(t), CubeRoot(Prime(t)))
  {
    assert t == 32 || t == 33 || t == 34 || t == 35 || t == 36 || t == 37 || t == 38 || t == 39;
  }

  lemma RowConstants5(t: nat)
    requires 40 <= t < 48
    ensures CubeRootFraction(Constant(t), Prime(t), CubeRoot(Prime(t)))
  {
    assert t == 40 || t == 41 || t == 42 || t == 43 || t == 44 || t == 45 || t == 46 || t == 47;
  }

  lemma RowConstants6(t: nat)
    requires 48 <= t < 56
    ensures CubeRootFraction(Constant(t), Prime(t), CubeRoot(Prime(t)))
  {
    assert t == 48 || t == 49 || t == 50 || t == 51 || t == 52 || t == 53 || t == 54 || t == 55;
  }

  lemma RowConstants7(t: nat)
    requires 56 <= t < 64
    ensures CubeRootFraction(Constant(t), Prime(t), CubeRoot(Prime(t)))
  {
    assert t == 56 || t == 57 || t == 58 || t == 59 || t == 60 || t == 61 || t == 62 || t == 63;
  }

  lemma RoundConstants(t: nat)
    requires t < 64
    ensures Prime(t) < 343 && CubeRootFraction(Constant(t), Prime(t), CubeRoot(Prime(t)))
  {
    if t < 8 { RowConstants0(t); }
    else if t < 16 { RowConstants1(t); }
    else if t < 24 { RowConstants2(t); }
    else if t < 32 { RowConstants3(t); }
    else if t < 40 { RowConstants4(t); }
    else if t < 48 { RowConstants5(t); }
    else if t < 56 { RowConstants6(t); }
    else { RowConstants7(t); }
  }

  lemma InitialHash()
    ensures SquareRootFraction(INITIAL_HASH.a, 2, 1) && SquareRootFraction(INITIAL_HASH.b, 3, 1)
    ensures SquareRootFraction(INITIAL_HASH.c, 5, 2) && SquareRootFraction(INITIAL_HASH.d, 7, 2)
    ensures SquareRootFraction(INITIAL_HASH.e, 11, 3) && SquareRootFraction(INITIAL_HASH.f, 13, 3)
    ensures SquareRootFraction(INITIAL_HASH.g, 17, 4) && SquareRootFraction(INITIAL_HASH.h, 19, 4)
  {
  }
}
