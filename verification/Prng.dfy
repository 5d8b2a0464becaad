/** The keystream generator (mervbot/prng.cpp, SS_HEAVY_PRNG), in 32- and 64-bit machine arithmetic. */
module Prng {
  import opened Bytes

  const U64: nat := 0x1_0000_0000_0000_0000

  /** 2^31 - 1, the modulus of the generator. */
  const P: int := 0x7FFF_FFFF

  const KSGSCD: nat := 0x1F31D
  const KSGSCM: nat := 0x834E_0B5F

  type Word = x: int | 0 <= x < 0x1_0000_0000

  /** Truncation to an unsigned 32-bit word. */
  function W32(x: int): Word {
    x % U32
  }

  /** An unsigned word read as a signed one. */
  function S32(x: Word): int {
    if x < 0x8000_0000 then x else x - U32
  }

  /** Truncation to a signed 64-bit number. */
  function S64(x: int): int {
    var y := x % U64;
    if y < 0x8000_0000_0000_0000 then y else y - U64
  }

  /** The common end of both generator steps, from the seed and its quotient by KSGSCD. */
  function Advance(seed: Word, quotient: Word): Word {
    var s := W32(seed % KSGSCD * 16807 - quotient * 2836 + 123);
    if S32(s) <= 0 then W32(s + 0x7FFF_FFFF) else s
  }

  /** The quotient as getNextE forms it: a signed 64-bit product shifted right by 48, plus its own sign bit. */
  function QuotientE(seed: Word): Word {
    var q := W32(S64(seed * KSGSCM) / 0x1_0000_0000_0000);
    W32(q + q / 0x8000_0000)
  }

  /** The quotient as getNextG forms it: the high half of a signed 32-bit multiplication. */
  function QuotientG(seed: Word): Word {
    var high := W32(S32(seed) * S32(KSGSCM) / U32);
    var t := W32(high + seed);
    W32(S32(t) / 0x1_0000 + t / 0x8000_0000)
  }

  function StepE(seed: Word): Word {
    Advance(seed, QuotientE(seed))
  }

  function StepG(seed: Word): Word {
    Advance(seed, QuotientG(seed))
  }

  /** Multiplying by 0x834E0B5F and shifting right by 48 is exact division by 127773 on 31-bit numbers. */
  lemma ReciprocalIsExact(s: nat)
    requires s <= P
    ensures s * KSGSCM / 0x1_0000_0000_0000 == s / KSGSCD
  {
    var q, r := s / KSGSCD, s % KSGSCD;
    assert s == q * KSGSCD + r && q <= 16807;
    assert KSGSCD * KSGSCM == 0x1_0000_0000_0000 + 95939;
    var rest := q * 95939 + r * KSGSCM;
    assert s * KSGSCM == q * 0x1_0000_0000_0000 + rest;
    assert 0 <= rest < 0x1_0000_0000_0000;
  }

  lemma QuotientEIsExact(seed: Word)
    requires seed <= P
    ensures QuotientE(seed) == seed / KSGSCD
  {
    ReciprocalIsExact(seed);
    var product := seed * KSGSCM;
    assert 0 <= product < 0x4200_0000_0000_0000;
    assert S64(product) == product;
  }

  /** Multiplying by KSGSCM read as a signed number gives the unsigned high half less the seed itself. */
  lemma SignedHighHalf(seed: Word)
    requires seed <= P
    ensures S32(seed) * S32(KSGSCM) / U32 == seed * KSGSCM / U32 - seed
    ensures 0 <= seed * KSGSCM / U32 < 0x4200_0000
  {
    var product := seed * KSGSCM;
    assert S32(KSGSCM) == KSGSCM - U32;
    assert S32(seed) * S32(KSGSCM) == product - seed * U32;
    assert product == product / U32 * U32 + product % U32;
    assert product - seed * U32 == (product / U32 - seed) * U32 + product % U32;
  }

  lemma AddedBack(high: Word, seed: Word)
    ensures W32(W32(high - seed) + seed) == high
  {
  }

  lemma TwiceDivided(product: nat)
    ensures product / U32 / 0x1_0000 == product / 0x1_0000_0000_0000
  {
  }

  /** The signed high half and the added seed make up the unsigned high half. */
  lemma QuotientGOf(seed: Word, high: Word)
    requires S32(seed) * S32(KSGSCM) / U32 == high - seed && high < 0x4200_0000
    ensures QuotientG(seed) == high / 0x1_0000
  {
    AddedBack(high, seed);
    var t := W32(W32(S32(seed) * S32(KSGSCM) / U32) + seed);
    assert t == high;
    assert S32(t) == t && t / 0x8000_0000 == 0;
  }

  lemma QuotientGIsExact(seed: Word)
    requires seed <= P
    ensures QuotientG(seed) == seed / KSGSCD
  {
    SignedHighHalf(seed);
    QuotientGOf(seed, seed * KSGSCM / U32);
    TwiceDivided(seed * KSGSCM);
    ReciprocalIsExact(seed);
  }

  /** Schrage's decomposition: the difference computed by a step is below 2^31 in size
      and differs from 16807 * seed + 123 by a multiple of the modulus. */
  lemma Schrage(seed: nat)
    requires seed <= P
    ensures var v := seed % KSGSCD * 16807 - seed / KSGSCD * 2836 + 123;
            -P < v <= P && (16807 * seed + 123) % P == v % P
  {
    var q, r := seed / KSGSCD, seed % KSGSCD;
    assert seed == q * KSGSCD + r && q <= 16807;
    var v := r * 16807 - q * 2836 + 123;
    assert 16807 * seed + 123 == v + q * P;
    SameResidue(v, q);
  }

  /** One step of either generator, from any seed below 2^31, gives the number in [1, 2^31 - 1]
      congruent to 16807 * seed + 123 modulo 2^31 - 1. */
  lemma StepIsParkMiller(seed: Word)
    requires seed <= P
    ensures StepE(seed) == StepG(seed)
    ensures 1 <= StepE(seed) <= P
    ensures StepE(seed) % P == (16807 * seed + 123) % P
  {
    QuotientEIsExact(seed);
    QuotientGIsExact(seed);
    Schrage(seed);
    AdvanceCorrects(seed);
  }

  /** A small number survives being stored in a word; adding 2^31 - 1 makes up for a sign. */
  lemma StoredSigned(v: int)
    requires -P < v <= P
    ensures S32(W32(v)) == v && W32(W32(v) + 0x7FFF_FFFF) == v + P
  {
  }

  lemma AdvanceIs(seed: Word)
    requires seed <= P
    ensures var v := seed % KSGSCD * 16807 - seed / KSGSCD * 2836 + 123;
            Advance(seed, seed / KSGSCD) == if v <= 0 then v + P else v
  {
    Schrage(seed);
    StoredSigned(seed % KSGSCD * 16807 - seed / KSGSCD * 2836 + 123);
  }

  lemma AdvanceCorrects(seed: Word)
    requires seed <= P
    ensures 1 <= Advance(seed, seed / KSGSCD) <= P
    ensures Advance(seed, seed / KSGSCD) % P == (seed % KSGSCD * 16807 - seed / KSGSCD * 2836 + 123) % P
  {
    Schrage(seed);
    AdvanceIs(seed);
    SameResidue(seed % KSGSCD * 16807 - seed / KSGSCD * 2836 + 123, 1);
  }

  lemma SameResidue(v: int, k: int)
    ensures (v + k * P) % P == v % P
  {
    var d := v / P;
    assert v + k * P == (d + k) * P + v % P;
  }

  /** The seed after n steps. */
  function SeedAt(seed: Word, n: nat): Word {
    if n == 0 then seed else StepE(SeedAt(seed, n - 1))
  }

  function SeedAtG(seed: Word, n: nat): Word {
    if n == 0 then seed else StepG(SeedAtG(seed, n - 1))
  }

  /** Both generators run through the same seeds, all of them in [1, 2^31 - 1]. */
  lemma {:induction false} SameSequence(seed: Word, n: nat)
    requires seed <= P
    ensures SeedAt(seed, n) == SeedAtG(seed, n) <= P
    ensures n > 0 ==> SeedAt(seed, n) >= 1
    ensures n > 0 ==> SeedAt(seed, n) % P == (16807 * SeedAt(seed, n - 1) + 123) % P
  {
    if n > 0 {
      SameSequence(seed, n - 1);
      StepIsParkMiller(SeedAt(seed, n - 1));
    }
  }

  const A: int := 0x343FD
  const C: int := 0x269EC3

  function LightNext(s: Word): Word {
    W32(s * A + C)
  }

  function LightValue(s: Word): nat {
    s / 0x400 % 0x8000
  }

  /** A draw is bits 10 to 24 of the new seed. */
  lemma LightValueIs(s: Word) returns (high: nat, low: nat)
    ensures LightValue(s) < 0x8000 && low < 0x400 && s == high * 0x200_0000 + LightValue(s) * 0x400 + low
  {
    high, low := s / 0x400 / 0x8000, s % 0x400;
  }

  /** The seed of the client-key generator after n draws. */
  function LightAt(s: Word, n: nat): Word {
    if n == 0 then s else LightNext(LightAt(s, n - 1))
  }

  /** 1 + A + .. + A^(n - 1); the power A^n is (A - 1) * Geometric(n) + 1. */
  function Geometric(n: nat): int {
    if n == 0 then 0 else Geometric(n - 1) * A + 1
  }

  lemma SameWord(x: int, y: int)
    ensures W32(x * A + y) == W32(W32(x) * A + y)
  {
    assert x == x / U32 * U32 + W32(x);
    assert x * A + y == x / U32 * A * U32 + (W32(x) * A + y);
  }

  lemma ClosedStep(s: int, g: int)
    ensures (s + g * ((A - 1) * s + C)) * A + C == s + (g * A + 1) * ((A - 1) * s + C)
  {
    var d := (A - 1) * s + C;
    assert (g * A + 1) * d == g * d * A + d;
  }

  lemma {:induction false} LightClosedForm(s: Word, n: nat)
    ensures LightAt(s, n) == W32(s + Geometric(n) * ((A - 1) * s + C))
  {
    if n > 0 {
      LightClosedForm(s, n - 1);
      SameWord(s + Geometric(n - 1) * ((A - 1) * s + C), C);
      ClosedStep(s, Geometric(n - 1));
    }
  }

  lemma {:induction false} GeometricSum(m: nat, n: nat)
    ensures Geometric(m + n) == Geometric(m) * ((A - 1) * Geometric(n) + 1) + Geometric(n)
  {
    if n > 0 {
      GeometricSum(m, n - 1);
      var g, h := Geometric(m), Geometric(n - 1);
      assert (A - 1) * (h * A + 1) + 1 == ((A - 1) * h + 1) * A;
      assert g * (((A - 1) * h + 1) * A) == g * ((A - 1) * h + 1) * A;
    }
  }

  /** x can be halved k times without remainder. */
  predicate Halves(x: int, k: nat)
    decreases k
  {
    k == 0 || (x % 2 == 0 && Halves(x / 2, k - 1))
  }

  /** An odd factor does not change how often a number can be halved. */
  lemma {:induction false} OddFactor(x: int, u: int, k: nat)
    requires u % 2 == 1
    ensures Halves(x * u, k) <==> Halves(x, k)
    decreases k
  {
    if k > 0 {
      var v := u / 2;
      assert u == 2 * v + 1;
      assert x * u == 2 * (x * v) + x;
      if x % 2 == 0 {
        var y := x / 2;
        assert x * u == 2 * (y * u);
        OddFactor(y, u, k - 1);
      }
    }
  }

  lemma NextParity(g: int, n: int)
    requires g % 2 == (n - 1) % 2
    ensures (g * A + 1) % 2 == n % 2
  {
    assert g * A + 1 == 2 * (107006 * g) + g + 1;
  }

  lemma {:induction false} GeometricParity(n: nat)
    ensures Geometric(n) % 2 == n % 2
  {
    if n > 0 {
      GeometricParity(n - 1);
      NextParity(Geometric(n - 1), n);
    }
  }

  lemma HalvesDouble(y: int, k: nat)
    requires k > 0
    ensures Halves(2 * y, k) <==> Halves(y, k - 1)
  {
  }

  lemma GeometricDoubled(m: nat) returns (u: int)
    ensures u % 2 == 1 && Geometric(m + m) == 2 * (Geometric(m) * u)
  {
    GeometricSum(m, m);
    var g := Geometric(m);
    u := 2 * (53503 * g) + 1;
    assert g * ((A - 1) * g + 1) + g == 2 * (g * u);
  }

  lemma ProductHalves(x: int, u: int, y: int, k: nat)
    requires k > 0 && u % 2 == 1 && y == 2 * (x * u)
    ensures Halves(y, k) <==> Halves(x, k - 1)
  {
    HalvesDouble(x * u, k);
    OddFactor(x, u, k - 1);
  }

  lemma DoubledHalves(m: nat, k: nat)
    requires k > 0
    ensures Halves(Geometric(m + m), k) <==> Halves(Geometric(m), k - 1)
  {
    var u := GeometricDoubled(m);
    ProductHalves(Geometric(m), u, Geometric(m + m), k);
  }

  /** The geometric sum of n terms can be halved as often as n itself. */
  lemma {:induction false} GeometricHalves(n: nat, k: nat)
    ensures Halves(Geometric(n), k) <==> Halves(n, k)
    decreases k
  {
    if k > 0 {
      if n % 2 == 0 {
        var m := n / 2;
        GeometricHalves(m, k - 1);
        DoubledHalves(m, k);
        HalvesDouble(m, k);
      } else {
        GeometricParity(n);
      }
    }
  }

  lemma {:induction false} HalvesGives(x: int, k: nat) returns (q: int)
    requires Halves(x, k)
    ensures x == q * Pow2(k)
    decreases k
  {
    if k == 0 {
      q := x;
    } else {
      q := HalvesGives(x / 2, k - 1);
      assert q * Pow2(k) == 2 * (q * Pow2(k - 1));
    }
  }

  lemma {:induction false} MultipleHalves(q: int, k: nat)
    ensures Halves(q * Pow2(k), k)
    decreases k
  {
    if k > 0 {
      MultipleHalves(q, k - 1);
      assert q * Pow2(k) == 2 * (q * Pow2(k - 1));
    }
  }

  lemma HalvesWord(x: int, k: nat)
    requires k == 32
    ensures Halves(x, k) <==> x % U32 == 0
  {
    WordSize();
    if Halves(x, k) {
      var q := HalvesGives(x, k);
      assert x == q * U32;
    } else {
      MultipleHalves(x / U32, k);
    }
  }

  lemma Residue(w: Word, x: int, q: int)
    requires x == w + q * U32
    ensures W32(x) == w
  {
  }

  lemma SameAfter(s: Word, d: int)
    ensures W32(s + d) == s <==> d % U32 == 0
  {
    assert d == d / U32 * U32 + d % U32;
  }

  lemma StepsHalve(s: Word, n: nat, k: nat)
    ensures Halves(Geometric(n) * ((A - 1) * s + C), k) <==> Halves(n, k)
  {
    var u := (A - 1) * s + C;
    assert u == 2 * (107006 * s + 1265505) + 1;
    OddFactor(Geometric(n), u, k);
    GeometricHalves(n, k);
  }

  lemma StepsMultiple(s: Word, n: nat, k: nat)
    requires k == 32
    ensures Geometric(n) * ((A - 1) * s + C) % U32 == 0 <==> n % U32 == 0
  {
    StepsHalve(s, n, k);
    HalvesWord(Geometric(n) * ((A - 1) * s + C), k);
    HalvesWord(n, k);
  }

  /** The client-key generator has full period: from any seed it comes back to it after n draws exactly
      when n is a multiple of 2^32. */
  lemma FullPeriod(s: Word, n: nat)
    ensures LightAt(s, n) == s <==> n % U32 == 0
  {
    LightClosedForm(s, n);
    SameAfter(s, Geometric(n) * ((A - 1) * s + C));
    StepsMultiple(s, n, 32);
  }

  const A_INVERSE: int := 0xB9B3_3155

  /** The seed before a draw. */
  function LightPrevious(t: Word): Word {
    W32((t - C) * A_INVERSE)
  }

  lemma PreviousOfNext(s: Word)
    ensures LightPrevious(LightNext(s)) == s
  {
    var q := (s * A + C) / U32;
    assert LightNext(s) - C == s * A - q * U32;
    Residue(s, (LightNext(s) - C) * A_INVERSE, 155243 * s - q * A_INVERSE);
  }

  lemma NextOfPrevious(t: Word)
    ensures LightNext(LightPrevious(t)) == t
  {
    var q := (t - C) * A_INVERSE / U32;
    assert LightPrevious(t) == (t - C) * A_INVERSE - q * U32;
    Residue(t, LightPrevious(t) * A + C, 155243 * (t - C) - q * A);
  }

  /** A draw permutes the seeds: each one comes from exactly one other. */
  lemma LightPermutes(s: Word, t: Word)
    ensures LightNext(s) == t <==> s == LightPrevious(t)
  {
    PreviousOfNext(s);
    NextOfPrevious(t);
  }

  /** The generator of client keys (SS_LIGHT_PRNG). */
  class SsLightPrng {
    var s: Word

    constructor ()
      ensures s == 0
    {
      s := 0;
    }

    method GetNext() returns (r: nat)
      modifies this
      ensures s == LightNext(old(s)) && r == LightValue(s)
      ensures old(s) == LightPrevious(s)
    {
      LightPermutes(s, LightNext(s));
      var t: int := s;
      s := W32(t * A + C);
      r := s / 0x400 % 0x8000;
    }
  }

  class SsHeavyPrng {
    var s: Word

    constructor ()
      ensures s == 0
    {
      s := 0;
    }

    method Seed(newSeed: Word)
      modifies this
      ensures s == newSeed
    {
      s := newSeed;
    }

    method GetNextE() returns (r: nat)
      modifies this
      ensures s == StepE(old(s)) && r == s % 0x1_0000
      ensures old(s) <= P ==> 1 <= s <= P && s % P == (16807 * old(s) + 123) % P
    {
      if s <= P {
        StepIsParkMiller(s);
      }
      var oldSeed: int := s;
      s := W32(S64(oldSeed * KSGSCM) / 0x1_0000_0000_0000);
      s := W32(s + s / 0x8000_0000);
      s := W32(oldSeed % KSGSCD * 16807 - s * 2836 + 123);
      if S32(s) <= 0 {
        s := W32(s + 0x7FFF_FFFF);
      }
      r := s % 0x1_0000;
    }

    method GetNextG() returns (r: nat)
      modifies this
      ensures s == StepG(old(s)) && r == s % 0x1_0000
      ensures old(s) <= P ==> 1 <= s <= P && s % P == (16807 * old(s) + 123) % P
    {
      if s <= P {
        StepIsParkMiller(s);
      }
      var oldSeed: int := s;
      var t: int := W32(W32(S32(s) * S32(KSGSCM) / U32) + oldSeed);
      t := W32(S32(t) / 0x1_0000 + t / 0x8000_0000);
      s := W32(oldSeed % KSGSCD * 16807 - t * 2836 + 123);
      if S32(s) <= 0 {
        s := W32(s + 0x7FFF_FFFF);
      }
      r := s % 0x1_0000;
    }
  }
}
