/** Byte strings and the little-endian numbers in packet headers
    (mervbot/datatypes.cpp, getLong, and the `*(Uint32*)&msg[i] = v` stores). */
module Bytes {

  newtype Byte = x: int | 0 <= x < 256

  type Bytes = seq<Byte>

  const U32: int := 0x1_0000_0000

  datatype Option<+T> = None | Some(value: T)

  lemma SplitLast<T>(s: seq<T>)
    requires s != []
    ensures s == s[..|s| - 1] + [s[|s| - 1]]
  {
  }

  lemma SplitFirst<T>(s: seq<T>)
    requires s != []
    ensures s == [s[0]] + s[1..]
  {
  }

  lemma ConcatAssociates<T>(a: seq<T>, b: seq<T>, c: seq<T>)
    ensures a + (b + c) == a + b + c
  {
  }

  lemma ConcatEmpty<T>(s: seq<T>)
    ensures s + [] == s && [] + s == s
  {
  }

  lemma InPermutation<T>(a: seq<T>, b: seq<T>, m: T)
    requires multiset(a) == multiset(b)
    ensures m in a <==> m in b
  {
    assert m in a <==> m in multiset(a);
    assert m in b <==> m in multiset(b);
  }

  lemma TakeConcat<T>(s: seq<T>, t: seq<T>, k: nat)
    requires |s| <= k <= |s| + |t|
    ensures (s + t)[..k] == s + t[..k - |s|]
  {
  }

  // ---------- Bytes and numbers ----------

  /** The k low bytes of a number, least significant first. */
  function Digits(n: nat, k: nat): (s: Bytes)
    ensures |s| == k
  {
    if k == 0 then [] else [(n % 256) as Byte] + Digits(n / 256, k - 1)
  }

  function Number(s: Bytes): nat {
    if s == [] then 0 else s[0] as int + 256 * Number(s[1..])
  }

  function Pow256(k: nat): (p: nat)
    ensures p > 0
  {
    if k == 0 then 1 else 256 * Pow256(k - 1)
  }

  lemma {:induction false} NumberOfDigits(n: nat, k: nat)
    requires n < Pow256(k)
    ensures Number(Digits(n, k)) == n
  {
    if k > 0 {
      NumberOfDigits(n / 256, k - 1);
    }
  }

  lemma {:induction false} NumberBound(s: Bytes)
    ensures Number(s) < Pow256(|s|)
  {
    if s != [] {
      NumberBound(s[1..]);
    }
  }

  /** The four bytes a 32-bit store writes. */
  function Long(n: nat): (s: Bytes)
    ensures |s| == 4
  {
    Digits(n, 4)
  }

  function GetLong(s: Bytes, i: nat): (n: nat)
    requires i + 4 <= |s|
    ensures n < U32
  {
    NumberBound(s[i..i + 4]);
    assert Pow256(4) == U32;
    Number(s[i..i + 4])
  }

  /** A field that was stored is read back, wherever it stands in a message. */
  lemma LongRoundTrip(before: Bytes, n: nat, after: Bytes)
    requires n < U32
    ensures GetLong(before + Long(n) + after, |before|) == n
  {
    assert Pow256(4) == U32;
    NumberOfDigits(n, 4);
    assert (before + Long(n) + after)[|before|..|before| + 4] == Long(n);
  }

  lemma DigitsOne(n: nat, k: nat)
    requires k > 0
    ensures Digits(n, k) == [(n % 256) as Byte] + Digits(n / 256, k - 1)
  {
  }

  lemma Quotients(n: nat)
    ensures n / 0x100 / 0x100 == n / 0x1_0000 && n / 0x1_0000 / 0x100 == n / 0x100_0000
  {
  }

  /** The least significant byte comes first. */
  lemma LongIs(n: nat)
    requires n < U32
    ensures Long(n) == [(n % 256) as Byte, (n / 0x100 % 256) as Byte, (n / 0x1_0000 % 256) as Byte,
                        (n / 0x100_0000 % 256) as Byte]
  {
    Quotients(n);
    DigitsOne(n, 4);
    DigitsOne(n / 0x100, 3);
    DigitsOne(n / 0x1_0000, 2);
    DigitsOne(n / 0x100_0000, 1);
    assert Digits(n / 0x100_0000 / 0x100, 0) == [];
  }

  lemma NumberOne(s: Bytes)
    requires s != []
    ensures Number(s) == s[0] as int + 256 * Number(s[1..])
  {
  }

  lemma GetLongIs(s: Bytes, i: nat)
    requires i + 4 <= |s|
    ensures GetLong(s, i)
         == s[i] as int + 0x100 * s[i + 1] as int + 0x1_0000 * s[i + 2] as int + 0x100_0000 * s[i + 3] as int
  {
    var w := s[i..i + 4];
    NumberOne(w);
    NumberOne(w[1..]);
    NumberOne(w[2..]);
    NumberOne(w[3..]);
    assert w[1..][1..] == w[2..] && w[2..][1..] == w[3..] && w[3..][1..] == [];
  }

  // ---------- Exclusive or ----------

  function Pow2(n: nat): (p: nat)
    ensures p > 0
  {
    if n == 0 then 1 else 2 * Pow2(n - 1)
  }

  lemma WordSize()
    ensures Pow2(32) == U32 && Pow2(31) == 0x8000_0000
  {
    assert Pow2(8) == 0x100;
    assert Pow2(16) == 0x1_0000;
    assert Pow2(24) == 0x100_0000;
    assert Pow2(31) == 0x8000_0000;
  }

  /** Exclusive or of the n low bits of two numbers. */
  function Xor(a: nat, b: nat, n: nat): (x: nat)
    ensures x < Pow2(n)
  {
    if n == 0 then 0 else (if a % 2 == b % 2 then 0 else 1) + 2 * Xor(a / 2, b / 2, n - 1)
  }

  function Xor8(a: Byte, b: Byte): Byte {
    assert Pow2(8) == 256;
    Xor(a as int, b as int, 8) as Byte
  }

  function Bit(x: nat, i: nat): nat {
    if i == 0 then x % 2 else Bit(x / 2, i - 1)
  }

  /** A bit is set in the exclusive or when it is set in exactly one of the two numbers. */
  lemma {:induction false} XorBit(a: nat, b: nat, n: nat, i: nat)
    requires i < n
    ensures Bit(Xor(a, b, n), i) == if Bit(a, i) == Bit(b, i) then 0 else 1
    decreases n
  {
    NextBit(a, b, n - 1, Xor(a / 2, b / 2, n - 1));
    if i > 0 {
      XorBit(a / 2, b / 2, n - 1, i - 1);
    }
  }

  lemma {:induction false} XorCommutes(a: nat, b: nat, n: nat)
    ensures Xor(a, b, n) == Xor(b, a, n)
  {
    if n > 0 {
      XorCommutes(a / 2, b / 2, n - 1);
    }
  }

  lemma XorHalf(a: nat, b: nat, n: nat)
    requires n > 0
    ensures Xor(a, b, n) / 2 == Xor(a / 2, b / 2, n - 1)
    ensures Xor(a, b, n) % 2 == if a % 2 == b % 2 then 0 else 1
  {
  }

  /** One more bit of a number is worked out. */
  lemma NextBit(a: nat, b: nat, n: nat, r: nat)
    requires Xor(a / 2, b / 2, n) == r
    ensures Xor(a, b, n + 1) == 2 * r + if a % 2 == b % 2 then 0 else 1
  {
  }

  lemma {:induction false} XorAssociates(a: nat, b: nat, c: nat, n: nat)
    ensures Xor(Xor(a, b, n), c, n) == Xor(a, Xor(b, c, n), n)
  {
    if n > 0 {
      XorAssociates(a / 2, b / 2, c / 2, n - 1);
      XorHalf(a, b, n);
      XorHalf(b, c, n);
    }
  }

  lemma {:induction false} XorTwice(a: nat, b: nat, n: nat)
    requires a < Pow2(n)
    ensures Xor(Xor(a, b, n), b, n) == a
  {
    if n > 0 {
      XorTwice(a / 2, b / 2, n - 1);
      XorHalf(a, b, n);
    }
  }

  lemma Xor8Commutes(a: Byte, b: Byte)
    ensures Xor8(a, b) == Xor8(b, a)
  {
    XorCommutes(a as int, b as int, 8);
  }

  lemma Xor8Associates(a: Byte, b: Byte, c: Byte)
    ensures Xor8(Xor8(a, b), c) == Xor8(a, Xor8(b, c))
  {
    XorAssociates(a as int, b as int, c as int, 8);
  }

  lemma Xor8Cancels(a: Byte, b: Byte)
    ensures Xor8(Xor8(a, b), b) == a
  {
    assert Pow2(8) == 256;
    XorTwice(a as int, b as int, 8);
  }

  lemma {:induction false} XorZero(a: nat, n: nat)
    requires a < Pow2(n)
    ensures Xor(a, 0, n) == a
  {
    if n > 0 {
      XorZero(a / 2, n - 1);
    }
  }

  lemma Xor8Zero(a: Byte)
    ensures Xor8(a, 0) == a && Xor8(0, a) == a
  {
    assert Pow2(8) == 256;
    XorZero(a as int, 8);
    Xor8Commutes(a, 0);
  }

  /** Applying two masks twice restores a byte. */
  lemma Unmask(a: Byte, k: Byte, v: Byte)
    ensures Xor8(Xor8(Xor8(Xor8(a, k), v), k), v) == a
  {
    assert Pow2(8) == 256;
    var x, y, z := Xor(a as int, k as int, 8), k as int, v as int;
    XorAssociates(x, z, y, 8);
    XorCommutes(z, y, 8);
    XorAssociates(x, y, z, 8);
    XorTwice(a as int, y, 8);
    XorTwice(a as int, z, 8);
  }
}
