/** The file checksum (mervbot/checksum.cpp, generate4 to generateDictionary and getFileChecksum): a table of 256
    words built by doubling, one table look-up for each byte. The reference is the CRC-32 of section 8 of
    RFC 1952, taken one bit at a time. */
module Crc {
  import opened Bytes

  /** The reflected polynomial of section 8 of RFC 1952. */
  const POLY: nat := 0xEDB88320

  const ONES: nat := 0xFFFF_FFFF

  function Xor32(a: nat, b: nat): (x: nat)
    ensures x < U32
  {
    WordSize();
    Xor(a, b, 32)
  }

  // ---------- The reference: one bit at a time ----------

  function Step(c: nat): (r: nat)
    requires c < U32
    ensures r < U32
  {
    if c % 2 == 1 then Xor32(POLY, c / 2) else c / 2
  }

  /** One message bit enters the register. */
  function FeedBit(c: nat, bit: bool): (r: nat)
    requires c < U32
    ensures r < U32
  {
    if (c % 2 == 1) != bit then Xor32(POLY, c / 2) else c / 2
  }

  function Feed(c: nat, bits: seq<bool>): (r: nat)
    requires c < U32
    ensures r < U32
    decreases bits
  {
    if bits == [] then c else Feed(FeedBit(c, bits[0]), bits[1..])
  }

  /** The n low bits of a number, least significant first. */
  function BitsOf(v: nat, n: nat): (b: seq<bool>)
    ensures |b| == n
  {
    if n == 0 then [] else [v % 2 == 1] + BitsOf(v / 2, n - 1)
  }

  function BitStream(s: Bytes): (b: seq<bool>)
    ensures |b| == 8 * |s|
  {
    if s == [] then [] else BitsOf(s[0] as int, 8) + BitStream(s[1..])
  }

  function Crc32(s: Bytes): (r: nat)
    ensures r < U32
  {
    ONES - Feed(ONES, BitStream(s))
  }

  // ---------- Exclusive or ----------

  lemma {:induction false} XorWiden(a: nat, b: nat, n: nat)
    requires a < Pow2(n) && b < Pow2(n)
    ensures Xor(a, b, n + 1) == Xor(a, b, n)
  {
    if n > 0 {
      XorWiden(a / 2, b / 2, n - 1);
    }
  }

  lemma Commutes(a: nat, b: nat)
    ensures Xor32(a, b) == Xor32(b, a)
  {
    XorCommutes(a, b, 32);
  }

  lemma Associates(a: nat, b: nat, c: nat)
    ensures Xor32(Xor32(a, b), c) == Xor32(a, Xor32(b, c))
  {
    XorAssociates(a, b, c, 32);
  }

  lemma Cancels(a: nat, b: nat)
    requires a < U32
    ensures Xor32(b, Xor32(b, a)) == a
  {
    WordSize();
    XorTwice(a, b, 32);
    XorCommutes(b, a, 32);
    XorCommutes(b, Xor(a, b, 32), 32);
  }

  lemma Zero(a: nat)
    requires a < U32
    ensures Xor32(a, 0) == a == Xor32(0, a)
  {
    WordSize();
    XorZero(a, 32);
    Commutes(a, 0);
  }

  lemma Half(a: nat, b: nat)
    requires a < U32 && b < U32
    ensures Xor32(a, b) / 2 == Xor32(a / 2, b / 2)
    ensures Xor32(a, b) % 2 == if a % 2 == b % 2 then 0 else 1
  {
    WordSize();
    XorHalf(a, b, 32);
    XorWiden(a / 2, b / 2, 31);
  }

  function Shl(h: nat, k: nat): nat {
    if k == 0 then h else 2 * Shl(h, k - 1)
  }

  /** Bits that do not meet are added. */
  lemma {:induction false} Disjoint(h: nat, k: nat, low: nat, n: nat)
    requires low < Pow2(k) && k <= n && Shl(h, k) < Pow2(n)
    ensures Xor(Shl(h, k), low, n) == Shl(h, k) + low
  {
    if k == 0 {
      XorZero(h, n);
    } else {
      Disjoint(h, k - 1, low / 2, n - 1);
    }
  }

  // ---------- The register is linear ----------

  lemma StepLinear(a: nat, b: nat)
    requires a < U32 && b < U32
    ensures Step(Xor32(a, b)) == Xor32(Step(a), Step(b))
  {
    Half(a, b);
    var x, y := a / 2, b / 2;
    if a % 2 == 1 && b % 2 == 1 {
      Commutes(POLY, x);
      Associates(x, POLY, Xor32(POLY, y));
      Cancels(y, POLY);
    } else if a % 2 == 1 {
      Associates(POLY, x, y);
    } else if b % 2 == 1 {
      Commutes(x, Xor32(POLY, y));
      Associates(POLY, y, x);
      Commutes(y, x);
    }
  }

  function Iterate(c: nat, n: nat): (r: nat)
    requires c < U32
    ensures r < U32
    decreases n, c
  {
    if n == 0 then c else Iterate(Step(c), n - 1)
  }

  lemma {:induction false} IterateLinear(a: nat, b: nat, n: nat)
    requires a < U32 && b < U32
    ensures Iterate(Xor32(a, b), n) == Xor32(Iterate(a, n), Iterate(b, n))
    decreases n
  {
    if n > 0 {
      StepLinear(a, b);
      IterateLinear(Step(a), Step(b), n - 1);
    }
  }

  lemma {:induction false} IterateShifted(h: nat, n: nat)
    requires Shl(h, n) < U32
    ensures h < U32 && Iterate(Shl(h, n), n) == h
    decreases n
  {
    if n > 0 {
      IterateShifted(h, n - 1);
    }
  }

  lemma FeedBitIsStep(c: nat, bit: bool)
    requires c < U32
    ensures FeedBit(c, bit) == Step(Xor32(c, if bit then 1 else 0))
  {
    var b := if bit then 1 else 0;
    Half(c, b);
    Zero(c / 2);
  }

  /** Up to 32 message bits may be taken together: they are exclusive-ored into the register first. */
  lemma {:induction false} FeedTogether(c: nat, v: nat, n: nat)
    requires c < U32 && n <= 32 && v < Pow2(n)
    ensures v < U32 && Feed(c, BitsOf(v, n)) == Iterate(Xor32(c, v), n)
    decreases n
  {
    PowMonotone(n, 32);
    WordSize();
    if n == 0 {
      Zero(c);
    } else {
      FeedTogether(FeedBit(c, v % 2 == 1), v / 2, n - 1);
      FeedBitIsStep(c, v % 2 == 1);
      LowBitFirst(c, v);
    }
  }

  lemma {:induction false} PowMonotone(m: nat, n: nat)
    requires m <= n
    ensures Pow2(m) <= Pow2(n)
  {
    if m < n {
      PowMonotone(m, n - 1);
    }
  }

  lemma LowBitJoins(v: nat)
    requires v < U32
    ensures Xor32(v - v % 2, v % 2) == v
  {
    Half(v - v % 2, v % 2);
    Zero(v / 2);
  }

  lemma StepOfBoth(c: nat, low: nat, high: nat)
    requires c < U32 && low < U32 && high < U32
    ensures Step(Xor32(c, Xor32(high, low))) == Xor32(Step(Xor32(c, low)), Step(high))
  {
    Commutes(high, low);
    Associates(c, low, high);
    StepLinear(Xor32(c, low), high);
  }

  lemma StepOfEven(v: nat)
    requires v < U32
    ensures Step(v - v % 2) == v / 2
  {
  }

  lemma LowBitFirst(c: nat, v: nat)
    requires c < U32 && v < U32
    ensures Step(Xor32(c, v)) == Xor32(Step(Xor32(c, v % 2)), v / 2)
  {
    LowBitJoins(v);
    StepOfBoth(c, v % 2, v - v % 2);
    StepOfEven(v);
  }

  // ---------- The table ----------

  /** What the table is to hold at index i: the register i after eight steps. */
  function Entry(i: nat): (r: nat)
    requires i < U32
    ensures r < U32
  {
    Iterate(i, 8)
  }

  /** The modifiers that the generators combine (mervbot/checksum.h). */
  const G4: nat := 0x77073096
  const G16: nat := 0x076dc419
  const G64: nat := 0x1db71064
  const G256: nat := 0x76dc4190

  lemma StepOfOne()
    ensures Step(1) == POLY
  {
    Zero(POLY);
  }

  lemma StepOfPower(n: nat)
    requires n > 0 && Pow2(n) < U32
    ensures Step(Pow2(n)) == Pow2(n - 1)
  {
  }

  lemma {:induction false} PowerFalls(n: nat, steps: nat)
    requires n < steps && Pow2(n) < U32
    ensures Iterate(Pow2(n), steps) == Iterate(POLY, steps - 1 - n)
    decreases n
  {
    if n == 0 {
      StepOfOne();
    } else {
      StepOfPower(n);
      PowerFalls(n - 1, steps - 1);
    }
  }

  lemma OneCarry()
    ensures Xor32(POLY, 0x03B6E20C) == 0xEE0E612C
  {
    Carry8(8);
    Carry12(12);
    Carry16(16);
    Carry24(24);
    Carry32(32);
  }

  lemma Carry8(n: nat)
    requires n == 8
    ensures Xor(0xED, 0x3, n) == 0xEE
  {
    NextBit(0x1, 0x0, n - 8, 0x0);
    NextBit(0x3, 0x0, n - 7, 0x1);
    NextBit(0x7, 0x0, n - 6, 0x3);
    NextBit(0xE, 0x0, n - 5, 0x7);
    NextBit(0x1D, 0x0, n - 4, 0xE);
    NextBit(0x3B, 0x0, n - 3, 0x1D);
    NextBit(0x76, 0x1, n - 2, 0x3B);
    NextBit(0xED, 0x3, n - 1, 0x77);
  }

  lemma Carry12(n: nat)
    requires n == 12 && Xor(0xED, 0x3, n - 4) == 0xEE
    ensures Xor(0xEDB, 0x3B, n) == 0xEE0
  {
    NextBit(0x1DB, 0x7, n - 4, 0xEE);
    NextBit(0x3B6, 0xE, n - 3, 0x1DC);
    NextBit(0x76D, 0x1D, n - 2, 0x3B8);
    NextBit(0xEDB, 0x3B, n - 1, 0x770);
  }

  lemma Carry16(n: nat)
    requires n == 16 && Xor(0xEDB, 0x3B, n - 4) == 0xEE0
    ensures Xor(0xEDB8, 0x3B6, n) == 0xEE0E
  {
    NextBit(0x1DB7, 0x76, n - 4, 0xEE0);
    NextBit(0x3B6E, 0xED, n - 3, 0x1DC1);
    NextBit(0x76DC, 0x1DB, n - 2, 0x3B83);
    NextBit(0xEDB8, 0x3B6, n - 1, 0x7707);
  }

  lemma Carry24(n: nat)
    requires n == 24 && Xor(0xEDB8, 0x3B6, n - 8) == 0xEE0E
    ensures Xor(0xEDB883, 0x3B6E2, n) == 0xEE0E61
  {
    NextBit(0x1DB71, 0x76D, n - 8, 0xEE0E);
    NextBit(0x3B6E2, 0xEDB, n - 7, 0x1DC1C);
    NextBit(0x76DC4, 0x1DB7, n - 6, 0x3B839);
    NextBit(0xEDB88, 0x3B6E, n - 5, 0x77073);
    NextBit(0x1DB710, 0x76DC, n - 4, 0xEE0E6);
    NextBit(0x3B6E20, 0xEDB8, n - 3, 0x1DC1CC);
    NextBit(0x76DC41, 0x1DB71, n - 2, 0x3B8398);
    NextBit(0xEDB883, 0x3B6E2, n - 1, 0x770730);
  }

  lemma Carry32(n: nat)
    requires n == 32 && Xor(0xEDB883, 0x3B6E2, n - 8) == 0xEE0E61
    ensures Xor(0xEDB88320, 0x3B6E20C, n) == 0xEE0E612C
  {
    NextBit(0x1DB7106, 0x76DC4, n - 8, 0xEE0E61);
    NextBit(0x3B6E20C, 0xEDB88, n - 7, 0x1DC1CC2);
    NextBit(0x76DC419, 0x1DB710, n - 6, 0x3B83984);
    NextBit(0xEDB8832, 0x3B6E20, n - 5, 0x7707309);
    NextBit(0x1DB71064, 0x76DC41, n - 4, 0xEE0E612);
    NextBit(0x3B6E20C8, 0xEDB883, n - 3, 0x1DC1CC25);
    NextBit(0x76DC4190, 0x1DB7106, n - 2, 0x3B83984B);
    NextBit(0xEDB88320, 0x3B6E20C, n - 1, 0x77073096);
  }

  lemma {:induction false} StepLast(c: nat, n: nat)
    requires c < U32
    ensures Iterate(c, n + 1) == Step(Iterate(c, n))
    decreases n
  {
    if n > 0 {
      StepLast(Step(c), n - 1);
    }
  }

  lemma StepTo(n: nat, a: nat, b: nat)
    requires Iterate(POLY, n) == a && a < U32 && Step(a) == b
    ensures Iterate(POLY, n + 1) == b
  {
    StepLast(POLY, n);
  }

  /** Each step from the polynomial leads to the next modifier; only one of them carries. */
  lemma StepOfModifier(n: nat)
    requires 0 < n < 8
    ensures Modifier(n) < U32 && Step(Modifier(n)) == Modifier(n - 1)
  {
    if n == 2 {
      OneCarry();
    }
  }

  lemma {:induction false} StepsOfPoly(k: nat)
    requires k < 8
    ensures Iterate(POLY, k) == Modifier(7 - k)
  {
    if k > 0 {
      StepsOfPoly(k - 1);
      StepOfModifier(8 - k);
      StepTo(k - 1, Modifier(8 - k), Modifier(7 - k));
    }
  }

  lemma EntryOfPower(n: nat)
    requires n < 8
    ensures Pow2(n) < U32 && Entry(Pow2(n)) == Iterate(POLY, 7 - n)
  {
    PowMonotone(n, 8);
    assert Pow2(8) == 256;
    PowerFalls(n, 8);
  }

  /** The modifiers are the entries of the powers of two. */
  lemma EntryIsModifier(n: nat, i: nat)
    requires n < 8 && i == Pow2(n)
    ensures i < U32 && Entry(i) == Modifier(n)
  {
    EntryOfPower(n);
    StepsOfPoly(7 - n);
  }

  function Modifier(n: nat): nat
    requires n < 8
  {
    if n == 0 then G4 else if n == 1 then 2 * G4
    else if n == 2 then G16 else if n == 3 then 2 * G16
    else if n == 4 then G64 else if n == 5 then 2 * G64
    else if n == 6 then G256 else 2 * G256
  }

  lemma Powers()
    ensures Pow2(0) == 1 && Pow2(1) == 2 && Pow2(2) == 4 && Pow2(3) == 8
    ensures Pow2(4) == 16 && Pow2(5) == 32 && Pow2(6) == 64 && Pow2(7) == 128
  {
  }

  // ---------- Tables ----------

  /** A table is linear in its index. */
  ghost predicate Linear(t: seq<nat>) {
    && |t| == 256 && t[0] == 0
    && forall b: nat, i: nat :: b + i < 256 && Xor32(b, i) == b + i ==> t[b + i] == Xor32(t[b], t[i])
  }

  ghost predicate HasModifiers(t: seq<nat>) {
    && |t| == 256
    && t[1] == G4 && t[2] == G4 * 2 % U32
    && t[4] == G16 && t[8] == G16 * 2 % U32
    && t[16] == G64 && t[32] == G64 * 2 % U32
    && t[64] == G256 && t[128] == G256 * 2 % U32
  }

  /** What a table generated from t with a key holds at index i. */
  function Slot(t: seq<nat>, key: nat, i: nat): (r: nat)
    requires i < |t|
    ensures r < U32
  {
    Xor32(key, t[i])
  }

  ghost predicate Filled(s: seq<nat>, t: seq<nat>, at: nat, n: nat, key: nat) {
    at + n <= |s| && n <= |t| && forall i: nat :: i < n ==> s[at + i] == Slot(t, key, i)
  }

  ghost predicate SameOutside(s: seq<nat>, was: seq<nat>, at: nat, n: nat) {
    |s| == |was| && forall j :: 0 <= j < |s| && !(at <= j < at + n) ==> s[j] == was[j]
  }

  lemma SlotInBlock(t: seq<nat>, h: nat, k: nat, b: nat, i: nat, key: nat)
    requires Linear(t) && i < Pow2(k) && b == Shl(h, k) && b + i < 256 && k <= 32
    ensures Slot(t, Slot(t, key, b), i) == Slot(t, key, b + i)
  {
    WordSize();
    Disjoint(h, k, i, 32);
    assert Xor32(b, i) == b + i;
    Associates(key, t[b], t[i]);
  }

  /** Block h of size n = 2^k of a table, generated under the key of its first slot b. */
  lemma BlockFilled(s: seq<nat>, t: seq<nat>, at: nat, h: nat, k: nat, b: nat, n: nat, key: nat)
    requires Linear(t) && n == Pow2(k) && b == Shl(h, k) && b + n <= 256 && k <= 6
    requires Filled(s, t, at + b, n, Slot(t, key, b))
    ensures forall i: nat :: b <= i < b + n ==> s[at + i] == Slot(t, key, i)
  {
    forall i: nat | b <= i < b + n
      ensures s[at + i] == Slot(t, key, i)
    {
      SlotInBlock(t, h, k, b, i - b, key);
      assert s[at + b + (i - b)] == Slot(t, Slot(t, key, b), i - b);
    }
  }

  /** The four blocks of a table of 4 * n slots; the last one's key is made from the third's. */
  lemma FourBlocks(s: seq<nat>, t: seq<nat>, at: nat, k: nat, n: nat, key: nat)
    requires Linear(t) && k <= 6 && n == Pow2(k) <= 64 && at + 4 * n <= |s|
    requires Filled(s, t, at, n, key)
    requires Filled(s, t, at + n, n, Slot(t, key, n))
    requires Filled(s, t, at + 2 * n, n, Slot(t, key, 2 * n))
    requires Filled(s, t, at + 3 * n, n, Slot(t, Slot(t, key, 2 * n), n))
    ensures Filled(s, t, at, 4 * n, key)
  {
    Blocks(k, n);
    BlockFilled(s, t, at, 1, k, n, n, key);
    BlockFilled(s, t, at, 2, k, 2 * n, n, key);
    SlotInBlock(t, 1, k + 1, 2 * n, n, key);
    BlockFilled(s, t, at, 3, k, 3 * n, n, key);
  }

  lemma {:induction false} Blocks(k: nat, n: nat)
    requires n == Pow2(k)
    ensures Shl(1, k) == n && Shl(2, k) == 2 * n && Shl(3, k) == 3 * n && Shl(1, k + 1) == 2 * n
    ensures Pow2(k + 1) == 2 * n
  {
    if k > 0 {
      Blocks(k - 1, n / 2);
    }
  }

  lemma OneSlot(s: seq<nat>, t: seq<nat>, at: nat, key: nat)
    requires Linear(t) && at < |s| && key < U32 && s[at] == key
    ensures Filled(s, t, at, 1, key)
  {
    Zero(key);
  }

  lemma StillFilled(s: seq<nat>, was: seq<nat>, t: seq<nat>, at: nat, n: nat, key: nat, at': nat, n': nat)
    requires Filled(was, t, at, n, key) && SameOutside(s, was, at', n') && (at + n <= at' || at' + n' <= at)
    ensures Filled(s, t, at, n, key)
  {
  }

  lemma OutsideTwice(s: seq<nat>, u: seq<nat>, v: seq<nat>, at: nat, at': nat, n': nat, m: nat)
    requires SameOutside(u, s, at, m) && SameOutside(v, u, at', n') && at <= at' && at' + n' <= at + m
    ensures SameOutside(v, s, at, m)
  {
  }

  lemma FourOutside(s0: seq<nat>, s1: seq<nat>, s2: seq<nat>, s3: seq<nat>, s4: seq<nat>, at: nat, n: nat)
    requires |s0| >= at + 4 * n && SameOutside(s1, s0, at, n) && SameOutside(s2, s1, at + n, n)
    requires SameOutside(s3, s2, at + 2 * n, n) && SameOutside(s4, s3, at + 3 * n, n)
    ensures SameOutside(s4, s0, at, 4 * n)
  {
    OutsideTwice(s0, s1, s2, at, at + n, n, 4 * n);
    OutsideTwice(s0, s2, s3, at, at + 2 * n, n, 4 * n);
    OutsideTwice(s0, s3, s4, at, at + 3 * n, n, 4 * n);
  }

  /** A block generated before two others is still there. */
  lemma TwoLater(s2: seq<nat>, s3: seq<nat>, s4: seq<nat>, t: seq<nat>, at: nat, n: nat, key: nat, b: nat, c: nat)
    requires Filled(s2, t, at, n, key) && SameOutside(s3, s2, b, n) && SameOutside(s4, s3, c, n)
    requires at + n <= b && at + n <= c
    ensures Filled(s4, t, at, n, key)
  {
    StillFilled(s3, s2, t, at, n, key, b, n);
    StillFilled(s4, s3, t, at, n, key, c, n);
  }

  /** Four blocks generated one after the other. */
  lemma FourGenerated(s0: seq<nat>, s1: seq<nat>, s2: seq<nat>, s3: seq<nat>, s4: seq<nat>,
                      t: seq<nat>, at: nat, k: nat, n: nat, key: nat)
    requires Linear(t) && k <= 6 && n == Pow2(k) <= 64 && |s0| >= at + 4 * n
    requires SameOutside(s1, s0, at, n) && Filled(s1, t, at, n, key)
    requires SameOutside(s2, s1, at + n, n) && Filled(s2, t, at + n, n, Slot(t, key, n))
    requires SameOutside(s3, s2, at + 2 * n, n) && Filled(s3, t, at + 2 * n, n, Slot(t, key, 2 * n))
    requires SameOutside(s4, s3, at + 3 * n, n) && Filled(s4, t, at + 3 * n, n, Slot(t, Slot(t, key, 2 * n), n))
    ensures Filled(s4, t, at, 4 * n, key) && SameOutside(s4, s0, at, 4 * n)
  {
    StillFilled(s2, s1, t, at, n, key, at + n, n);
    TwoLater(s2, s3, s4, t, at, n, key, at + 2 * n, at + 3 * n);
    TwoLater(s2, s3, s4, t, at + n, n, Slot(t, key, n), at + 2 * n, at + 3 * n);
    StillFilled(s4, s3, t, at + 2 * n, n, Slot(t, key, 2 * n), at + 3 * n, n);
    FourBlocks(s4, t, at, k, n, key);
    FourOutside(s0, s1, s2, s3, s4, at, n);
  }

  // ---------- The generators ----------

  method Generate4(offset: array<nat>, at: nat, key: nat, ghost t: seq<nat>)
    requires at + 4 <= offset.Length && key < U32 && Linear(t) && HasModifiers(t)
    modifies offset
    ensures Filled(offset[..], t, at, 4, key) && SameOutside(offset[..], old(offset[..]), at, 4)
  {
    offset[at] := key;
    offset[at + 1] := Xor32(key, G4);
    var k := Xor32(key, G4 * 2 % U32);
    offset[at + 2] := k;
    offset[at + 3] := Xor32(k, G4);
    FourSlots(offset[..], t, at, key);
  }

  lemma FourSlots(s: seq<nat>, t: seq<nat>, at: nat, key: nat)
    requires Linear(t) && at + 4 <= |s| && key < U32 && s[at] == key && s[at + 1] == Slot(t, key, 1)
    requires s[at + 2] == Slot(t, key, 2) && s[at + 3] == Slot(t, Slot(t, key, 2), 1)
    ensures Filled(s, t, at, 4, key)
  {
    OneSlot(s, t, at, key);
    OneSlot(s, t, at + 1, Slot(t, key, 1));
    OneSlot(s, t, at + 2, Slot(t, key, 2));
    OneSlot(s, t, at + 3, Slot(t, Slot(t, key, 2), 1));
    FourBlocks(s, t, at, 0, 1, key);
  }

  method Generate16(offset: array<nat>, at: nat, key: nat, ghost t: seq<nat>)
    requires at + 16 <= offset.Length && key < U32 && Linear(t) && HasModifiers(t)
    modifies offset
    ensures Filled(offset[..], t, at, 16, key) && SameOutside(offset[..], old(offset[..]), at, 16)
  {
    ghost var s0 := offset[..];
    Generate4(offset, at, key, t);
    ghost var s1 := offset[..];
    Generate4(offset, at + 4, Xor32(key, G16), t);
    ghost var s2 := offset[..];
    var k := Xor32(key, G16 * 2 % U32);
    Generate4(offset, at + 8, k, t);
    ghost var s3 := offset[..];
    Generate4(offset, at + 12, Xor32(k, G16), t);
    Powers();
    FourGenerated(s0, s1, s2, s3, offset[..], t, at, 2, 4, key);
  }

  method Generate64(offset: array<nat>, at: nat, key: nat, ghost t: seq<nat>)
    requires at + 64 <= offset.Length && key < U32 && Linear(t) && HasModifiers(t)
    modifies offset
    ensures Filled(offset[..], t, at, 64, key) && SameOutside(offset[..], old(offset[..]), at, 64)
  {
    ghost var s0 := offset[..];
    Generate16(offset, at, key, t);
    ghost var s1 := offset[..];
    Generate16(offset, at + 16, Xor32(key, G64), t);
    ghost var s2 := offset[..];
    var k := Xor32(key, G64 * 2 % U32);
    Generate16(offset, at + 32, k, t);
    ghost var s3 := offset[..];
    Generate16(offset, at + 48, Xor32(k, G64), t);
    Powers();
    FourGenerated(s0, s1, s2, s3, offset[..], t, at, 4, 16, key);
  }

  /** The table with every entry eight steps apart from its index. */
  ghost predicate IsStepTable(t: seq<nat>) {
    |t| == 256 && forall i: nat :: i < 256 ==> t[i] == Entry(i)
  }

  lemma StepTableIsLinear(t: seq<nat>)
    requires IsStepTable(t)
    ensures Linear(t)
  {
    ZeroStays(8);
    forall b: nat, i: nat | b + i < 256 && Xor32(b, i) == b + i
      ensures t[b + i] == Xor32(t[b], t[i])
    {
      IterateLinear(b, i, 8);
    }
  }

  lemma {:induction false} ZeroStays(n: nat)
    ensures Iterate(0, n) == 0
    decreases n
  {
    if n > 0 {
      ZeroStays(n - 1);
    }
  }

  lemma StepTableAtPowers(t: seq<nat>)
    requires IsStepTable(t)
    ensures forall n: nat :: n < 8 ==> Pow2(n) < 256 && t[Pow2(n)] == Modifier(n)
  {
    forall n: nat | n < 8
      ensures Pow2(n) < 256 && t[Pow2(n)] == Modifier(n)
    {
      PowMonotone(n, 7);
      assert Pow2(7) == 128;
      EntryIsModifier(n, Pow2(n));
    }
  }

  lemma PowersAreModifiers(t: seq<nat>)
    requires |t| == 256 && forall n: nat :: n < 8 ==> Pow2(n) < 256 && t[Pow2(n)] == Modifier(n)
    ensures HasModifiers(t)
  {
    Powers();
    assert t[Pow2(0)] == Modifier(0) && t[Pow2(1)] == Modifier(1) && t[Pow2(2)] == Modifier(2);
    assert t[Pow2(3)] == Modifier(3) && t[Pow2(4)] == Modifier(4) && t[Pow2(5)] == Modifier(5);
    assert t[Pow2(6)] == Modifier(6) && t[Pow2(7)] == Modifier(7);
  }

  method Generate256(offset: array<nat>, key: nat, ghost t: seq<nat>)
    requires 256 <= offset.Length && key < U32 && Linear(t) && HasModifiers(t)
    modifies offset
    ensures Filled(offset[..], t, 0, 256, key) && SameOutside(offset[..], old(offset[..]), 0, 256)
  {
    ghost var s0 := offset[..];
    Generate64(offset, 0, key, t);
    ghost var s1 := offset[..];
    Generate64(offset, 64, Xor32(key, G256), t);
    ghost var s2 := offset[..];
    var k := Xor32(key, G256 * 2 % U32);
    Generate64(offset, 128, k, t);
    ghost var s3 := offset[..];
    Generate64(offset, 192, Xor32(k, G256), t);
    Powers();
    FourGenerated(s0, s1, s2, s3, offset[..], t, 0, 6, 64, key);
  }

  lemma StepTable() returns (t: seq<nat>)
    ensures IsStepTable(t) && Linear(t) && HasModifiers(t)
  {
    t := seq(256, i requires 0 <= i < 256 => Entry(i));
    StepTableIsLinear(t);
    StepTableAtPowers(t);
    PowersAreModifiers(t);
  }

  lemma FilledFromSteps(s: seq<nat>, t: seq<nat>, key: nat)
    requires IsStepTable(t) && Filled(s, t, 0, 256, key)
    ensures forall i: nat :: i < 256 ==> s[i] == Xor32(key, Entry(i))
  {
    forall i: nat | i < 256
      ensures s[i] == Xor32(key, Entry(i))
    {
      assert s[0 + i] == Slot(t, key, i);
    }
  }

  /** The doubling recursion fills in the whole table, each entry exclusive-ored with the key. */
  method GenerateDictionary(offset: array<nat>, key: nat)
    requires 256 <= offset.Length && key < U32
    modifies offset
    ensures forall i: nat :: i < 256 ==> offset[i] == Xor32(key, Entry(i))
    ensures offset[256..] == old(offset[256..])
  {
    ghost var t := StepTable();
    ghost var was := offset[..];
    Generate256(offset, key, t);
    FilledFromSteps(offset[..], t, key);
    SameTail(offset[..], was);
    assert offset[256..] == offset[..][256..] && was[256..] == old(offset[256..]);
  }

  lemma SameTail(s: seq<nat>, was: seq<nat>)
    requires |was| >= 256 && SameOutside(s, was, 0, 256)
    ensures s[256..] == was[256..]
  {
  }

  // ---------- The checksum ----------

  lemma {:induction false} WidenTo(a: nat, b: nat, m: nat, n: nat)
    requires m <= n && a < Pow2(m) && b < Pow2(m)
    ensures Xor(a, b, n) == Xor(a, b, m)
  {
    if m < n {
      WidenTo(a, b, m, n - 1);
      PowMonotone(m, n - 1);
      XorWiden(a, b, n - 1);
    }
  }

  lemma Shl8(h: nat)
    ensures Shl(h, 8) == 256 * h
  {
    assert Shl(h, 1) == 2 * h;
    assert Shl(h, 2) == 4 * h;
    assert Shl(h, 4) == 16 * h;
    assert Shl(h, 6) == 64 * h;
  }

  /** One look-up does the work of eight steps. */
  lemma TableStep(c: nat, b: nat)
    requires c < U32 && b < 256
    ensures Xor(c % 256, b, 8) < 256
    ensures Feed(c, BitsOf(b, 8)) == Xor32(c / 256, Entry(Xor(c % 256, b, 8)))
  {
    assert Pow2(8) == 256;
    var high, low, mixed := Shl(c / 256, 8), c % 256, Xor(c % 256, b, 8);
    FeedTogether(c, b, 8);
    WordSize();
    Shl8(c / 256);
    Disjoint(c / 256, 8, low, 32);
    WidenTo(low, b, 8, 32);
    Associates(high, low, b);
    IterateLinear(high, mixed, 8);
    IterateShifted(c / 256, 8);
  }

  lemma {:induction false} FeedConcat(c: nat, x: seq<bool>, y: seq<bool>)
    requires c < U32
    ensures Feed(c, x + y) == Feed(Feed(c, x), y)
    decreases x
  {
    if x == [] {
      assert x + y == y;
    } else {
      assert (x + y)[1..] == x[1..] + y;
      FeedConcat(FeedBit(c, x[0]), x[1..], y);
    }
  }

  /** With the table that GenerateDictionary makes under key zero, the checksum is the CRC-32 of the buffer. */
  method GetFileChecksum(buffer: array<Byte>, dictionary: array<nat>, len: nat) returns (sum: nat)
    requires len <= buffer.Length && dictionary.Length >= 256
    requires forall i: nat :: i < 256 ==> dictionary[i] == Entry(i)
    ensures sum == Crc32(buffer[..len])
  {
    var key: nat := ONES;
    ghost var s := buffer[..len];
    var i := 0;
    while i < len
      invariant 0 <= i <= len && key < U32
      invariant Feed(key, BitStream(s[i..])) == Feed(ONES, BitStream(s))
    {
      var b := buffer[i] as int;
      TableStep(key, b);
      FeedConcat(key, BitsOf(b, 8), BitStream(s[i + 1..]));
      assert s[i..][1..] == s[i + 1..];
      var index := dictionary[Xor(key % 256, b, 8)];
      key := Xor32(key / 256, index);
      i := i + 1;
    }
    sum := ONES - key;
  }

  method FileChecksum(buffer: array<Byte>) returns (sum: nat)
    ensures sum == Crc32(buffer[..])
  {
    var dictionary := new nat[256];
    GenerateDictionary(dictionary, 0);
    assert forall i: nat :: i < 256 ==> dictionary[i] == Entry(i) by {
      forall i: nat | i < 256
        ensures dictionary[i] == Entry(i)
      {
        Zero(Entry(i));
      }
    }
    sum := GetFileChecksum(buffer, dictionary, buffer.Length);
    assert buffer[..buffer.Length] == buffer[..];
  }

  // ---------- What the checksum detects ----------

  lemma OddStepIsHigh(x: nat)
    requires x < 0x8000_0000
    ensures Xor32(POLY, x) >= 0x8000_0000
  {
    WordSize();
    var y := Xor32(POLY, x);
    XorTwice(POLY, x, 32);
    if y < 0x8000_0000 {
      XorWiden(y, x, 31);
    }
  }

  lemma StepInjective(a: nat, b: nat)
    requires a < U32 && b < U32 && Step(a) == Step(b)
    ensures a == b
  {
    OddStepIsHigh(a / 2);
    OddStepIsHigh(b / 2);
    Cancels(a / 2, POLY);
    Cancels(b / 2, POLY);
  }

  lemma {:induction false} IterateInjective(a: nat, b: nat, n: nat)
    requires a < U32 && b < U32 && Iterate(a, n) == Iterate(b, n)
    ensures a == b
    decreases n
  {
    if n > 0 {
      IterateInjective(Step(a), Step(b), n - 1);
      StepInjective(a, b);
    }
  }

  /** Registers that differ stay different over the same message. */
  lemma {:induction false} FeedInjective(c: nat, d: nat, bits: seq<bool>)
    requires c < U32 && d < U32 && Feed(c, bits) == Feed(d, bits)
    ensures c == d
    decreases bits
  {
    if bits != [] {
      FeedInjective(FeedBit(c, bits[0]), FeedBit(d, bits[0]), bits[1..]);
      var b := if bits[0] then 1 else 0;
      FeedBitIsStep(c, bits[0]);
      FeedBitIsStep(d, bits[0]);
      StepInjective(Xor32(c, b), Xor32(d, b));
      Commutes(c, b);
      Commutes(d, b);
      Cancels(c, b);
      Cancels(d, b);
    }
  }

  function Value(bits: seq<bool>): nat {
    if bits == [] then 0 else (if bits[0] then 1 else 0) + 2 * Value(bits[1..])
  }

  lemma {:induction false} BitsOfValue(bits: seq<bool>)
    ensures Value(bits) < Pow2(|bits|) && BitsOf(Value(bits), |bits|) == bits
  {
    if bits != [] {
      BitsOfValue(bits[1..]);
    }
  }

  lemma ShortBurst(c: nat, x: seq<bool>, y: seq<bool>)
    requires c < U32 && |x| == |y| <= 32 && Feed(c, x) == Feed(c, y)
    ensures x == y
  {
    BitsOfValue(x);
    BitsOfValue(y);
    FeedTogether(c, Value(x), |x|);
    FeedTogether(c, Value(y), |y|);
    IterateInjective(Xor32(c, Value(x)), Xor32(c, Value(y)), |x|);
    Cancels(Value(x), c);
    Cancels(Value(y), c);
  }

  /** Two messages that differ only within 32 consecutive bits have different checksums. */
  lemma BurstDetected(s: Bytes, t: Bytes, before: seq<bool>, x: seq<bool>, y: seq<bool>, after: seq<bool>)
    requires BitStream(s) == before + x + after && BitStream(t) == before + y + after
    requires |x| == |y| <= 32 && x != y
    ensures Crc32(s) != Crc32(t)
  {
    if Crc32(s) == Crc32(t) {
      var c := Feed(ONES, before);
      FeedConcat(ONES, before + x, after);
      FeedConcat(ONES, before + y, after);
      FeedConcat(ONES, before, x);
      FeedConcat(ONES, before, y);
      FeedInjective(Feed(c, x), Feed(c, y), after);
      ShortBurst(c, x, y);
    }
  }

  // ---------- The checksum of known messages ----------

  /** The checksum of nothing is 0. */
  lemma EmptyChecksum()
    ensures Crc32([]) == 0
  {
    assert BitStream([]) == [];
  }

  lemma OnesWithoutLow(low: nat, high: nat)
    requires low == 0xFF && high == 0xFF_FFFF
    ensures Xor32(ONES, low) == Shl(high, 8)
  {
    WordSize();
    assert Pow2(8) == 256;
    Shl8(high);
    Disjoint(high, 8, low, 32);
    Cancels(Shl(high, 8), low);
    Commutes(low, Shl(high, 8));
    Commutes(low, ONES);
  }

  /** The checksum of one byte of ones: the register starts with ones, so the byte clears its own eight bits, and the
      others move down; the complement is taken at the end. */
  lemma OnesChecksum(b: Byte)
    requires b == 0xFF
    ensures Crc32([b]) == 0xFF00_0000
  {
    var low, high := b as int, 0xFF_FFFF;
    assert Pow2(8) == 256;
    assert [b][1..] == [] && BitStream([b]) == BitsOf(low, 8) + BitStream([b][1..]);
    ConcatEmpty(BitsOf(low, 8));
    FeedTogether(ONES, low, 8);
    OnesWithoutLow(low, high);
    Shl8(high);
    IterateShifted(high, 8);
  }

  lemma {:induction false} BitStreamConcat(s: Bytes, t: Bytes)
    ensures BitStream(s + t) == BitStream(s) + BitStream(t)
  {
    if s == [] {
      assert s + t == t;
    } else {
      assert (s + t)[1..] == s[1..] + t;
      BitStreamConcat(s[1..], t);
    }
  }

  lemma {:induction false} BitsOfJoined(low: nat, high: nat, m: nat, n: nat)
    requires low < Pow2(m)
    ensures BitsOf(Shl(high, m) + low, m + n) == BitsOf(low, m) + BitsOf(high, n)
    decreases m
  {
    if m > 0 {
      BitsOfJoined(low / 2, high, m - 1, n);
      assert (Shl(high, m) + low) / 2 == Shl(high, m - 1) + low / 2;
    }
  }

  lemma ByteThenRest(b: Byte, high: nat, n: nat, k: nat)
    requires k == 8
    ensures BitsOf(b as int + 256 * high, k + n) == BitsOf(b as int, k) + BitsOf(high, n)
  {
    assert Pow2(8) == 256;
    Shl8(high);
    BitsOfJoined(b as int, high, k, n);
  }

  lemma StreamStep(b: Byte, s: Bytes, k: nat)
    requires k == 8
    ensures BitStream([b] + s) == BitsOf(b as int, k) + BitStream(s)
  {
    assert ([b] + s)[1..] == s;
  }

  lemma FourStream(a: Byte, b: Byte, c: Byte, d: Byte, k: nat)
    requires k == 8
    ensures BitStream([a] + ([b] + ([c] + [d])))
         == BitsOf(a as int, k) + (BitsOf(b as int, k) + (BitsOf(c as int, k) + BitsOf(d as int, k)))
  {
    StreamStep(a, [b] + ([c] + [d]), k);
    StreamStep(b, [c] + [d], k);
    StreamStep(c, [d], k);
    StreamStep(d, [], k);
    assert [d] + [] == [d];
    ConcatEmpty(BitsOf(d as int, k));
  }

  lemma FourJoined(a: Byte, b: Byte, c: Byte, d: Byte, u: nat, v: nat, w: nat, k: nat)
    requires k == 8
    requires u == c as int + 256 * d as int && v == b as int + 256 * u && w == a as int + 256 * v
    ensures BitsOf(w, k + (k + (k + k)))
         == BitsOf(a as int, k) + (BitsOf(b as int, k) + (BitsOf(c as int, k) + BitsOf(d as int, k)))
  {
    ByteThenRest(a, v, k + (k + k), k);
    ByteThenRest(b, u, k + k, k);
    ByteThenRest(c, d as int, k, k);
  }

  lemma FourBits(s: Bytes, v: nat, k: nat)
    requires |s| == 4 && k == 8
    requires v == s[0] as int + 256 * (s[1] as int + 256 * (s[2] as int + 256 * s[3] as int))
    ensures BitStream(s) == BitsOf(v, k + (k + (k + k)))
  {
    assert s == [s[0]] + ([s[1]] + ([s[2]] + [s[3]]));
    FourStream(s[0], s[1], s[2], s[3], k);
    var u := s[2] as int + 256 * s[3] as int;
    FourJoined(s[0], s[1], s[2], s[3], u, s[1] as int + 256 * u, v, k);
  }

  lemma LongDigits(v: nat)
    requires v < U32
    ensures var s := Long(v);
            v == s[0] as int + 256 * (s[1] as int + 256 * (s[2] as int + 256 * s[3] as int))
  {
    LongIs(v);
    Quotients(v);
  }

  /** The bits of a number stored in four bytes are its 32 bits, in order. */
  lemma BitsOfLong(v: nat, k: nat)
    requires v < U32 && k == 8
    ensures BitStream(Long(v)) == BitsOf(v, k + (k + (k + k)))
  {
    LongDigits(v);
    FourBits(Long(v), v, k);
  }

  lemma ComplementMixed(r: nat, n: nat)
    requires r < U32 && n == 32
    ensures Xor(r, ONES - r, n) == ONES
  {
    WordSize();
    Complement(r, n);
  }

  lemma {:induction false} Complement(r: nat, n: nat)
    requires r < Pow2(n)
    ensures Xor(r, Pow2(n) - 1 - r, n) == Pow2(n) - 1
    decreases n
  {
    if n > 0 {
      Complement(r / 2, n - 1);
      NextBit(r, Pow2(n) - 1 - r, n - 1, Pow2(n - 1) - 1);
    }
  }

  /** A message that is followed by its own checksum, low byte first, has the checksum of four zero bytes. */
  lemma OwnChecksum(s: Bytes)
    ensures Crc32(s + Long(Crc32(s))) == Crc32([0, 0, 0, 0])
  {
    Followed(s, Crc32(s), 8);
    Followed([], Crc32([]), 8);
    EmptyChecksum();
    LongIs(0);
    assert [] + Long(0) == [0, 0, 0, 0];
  }

  lemma Followed(s: Bytes, c: nat, k: nat)
    requires c == Crc32(s) && k == 8
    ensures Crc32(s + Long(c)) == ONES - Iterate(ONES, k + (k + (k + k)))
  {
    var r := Feed(ONES, BitStream(s));
    WordSize();
    BitStreamConcat(s, Long(c));
    FeedConcat(ONES, BitStream(s), BitStream(Long(c)));
    BitsOfLong(c, k);
    FeedTogether(r, c, k + (k + (k + k)));
    ComplementMixed(r, 32);
  }
}
