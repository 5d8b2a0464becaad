/** The hash of the billing protocol and its inverse (mervbot/encrypt.cpp, hashPassword, inverseHash and
    decryptHashedPassword; mervbot/checksum.cpp, simpleChecksum). */
module Billing {
  import opened Bytes

  /** The mark written for a code of zero, so that a hash holds no NUL. */
  const MARK: Byte := 0xED

  function Checksum(s: Bytes): Byte {
    if s == [] then 0 else Xor8(s[0], Checksum(s[1..]))
  }

  function Shifted(c: Byte): Byte {
    if c % 4 == 0 then c
    else if c % 4 == 1 then (c as int * 2 % 256) as Byte
    else if c % 4 == 2 then (c as int * 4 % 256) as Byte
    else (c as int * 8 % 256) as Byte
  }

  /** The key for the next character, after the code c. */
  function NextKey(k: Byte, c: Byte): Byte {
    Xor8(k, Shifted(c))
  }

  function Written(c: Byte): Byte {
    if c == 0 then MARK else c
  }

  function Read(c: Byte): Byte {
    if c == MARK then 0 else c
  }

  /** The codes of a password under a key, before zero codes are marked. */
  function Codes(p: Bytes, k: Byte): (c: Bytes)
    ensures |c| == |p|
  {
    if p == [] then []
    else
      var c := Xor8(p[0], k);
      [c] + Codes(p[1..], NextKey(k, c))
  }

  function HashWith(p: Bytes, k: Byte): (h: Bytes)
    ensures |h| == |p| && 0 !in h
  {
    if p == [] then []
    else
      var c := Xor8(p[0], k);
      [Written(c)] + HashWith(p[1..], NextKey(k, c))
  }

  /** The hash of a password: its own checksum is the first key. */
  function Hash(p: Bytes): (h: Bytes)
    ensures |h| == |p| && 0 !in h
  {
    HashWith(p, Checksum(p))
  }

  function Inverse(h: Bytes, k: Byte): (p: Bytes)
    ensures |p| == |h|
  {
    if h == [] then []
    else
      var c := Read(h[0]);
      [Xor8(c, k)] + Inverse(h[1..], NextKey(k, c))
  }

  predicate IsPrintable(c: Byte) {
    32 <= c <= 126
  }

  predicate Printable(s: Bytes) {
    forall i :: 0 <= i < |s| ==> IsPrintable(s[i])
  }

  /** Key k explains the hash by a printable password. */
  predicate Explains(h: Bytes, k: Byte) {
    Printable(Inverse(h, k)) && HashWith(Inverse(h, k), k) == h
  }

  /** What trying the keys from i on ends with: the first that explains the hash, or else the last one. */
  function Search(h: Bytes, i: nat): (p: Bytes)
    requires i < 256
    ensures |p| == |h|
    decreases 256 - i
  {
    if Explains(h, i as Byte) || i == 255 then Inverse(h, i as Byte) else Search(h, i + 1)
  }

  function Decrypt(h: Bytes): (p: Bytes)
    ensures |p| == |h|
  {
    if |h| % 2 == 1 then Search(h, 0) else Inverse(h, Checksum(Inverse(h, 0)))
  }

  // ---------- Undoing the hash under a known key ----------

  lemma InverseHead(h: Bytes, k: Byte)
    requires h != []
    ensures Inverse(h, k)[0] == Xor8(Read(h[0]), k)
    ensures Inverse(h, k)[1..] == Inverse(h[1..], NextKey(k, Read(h[0])))
  {
  }

  lemma HashHead(p: Bytes, k: Byte)
    requires p != []
    ensures HashWith(p, k)[0] == Written(Xor8(p[0], k))
    ensures HashWith(p, k)[1..] == HashWith(p[1..], NextKey(k, Xor8(p[0], k)))
  {
  }

  /** A genuine mark is read back as another character. */
  lemma MarkMisread(x: Byte, k: Byte)
    requires Xor8(x, k) == MARK
    ensures Xor8(0, k) != x
  {
    Xor8Cancels(0, k);
  }

  lemma SameHeadSameTail(s: Bytes, t: Bytes)
    requires |s| == |t| > 0
    ensures s == t <==> s[0] == t[0] && s[1..] == t[1..]
  {
    SplitFirst(s);
    SplitFirst(t);
  }

  /** With its own key the inverse restores a password exactly when no code is genuinely the mark. */
  lemma {:induction false} InverseIff(p: Bytes, k: Byte)
    ensures Inverse(HashWith(p, k), k) == p <==> MARK !in Codes(p, k)
  {
    if p != [] {
      var c := Xor8(p[0], k);
      InverseIff(p[1..], NextKey(k, c));
      HashHead(p, k);
      InverseHead(HashWith(p, k), k);
      SameHeadSameTail(Inverse(HashWith(p, k), k), p);
      if c == MARK {
        MarkMisread(p[0], k);
      } else {
        Xor8Cancels(p[0], k);
      }
    }
  }

  /** Hashing an inverse under its own key always gives the hash back. */
  lemma {:induction false} InverseRehashed(h: Bytes, k: Byte)
    requires 0 !in h
    ensures HashWith(Inverse(h, k), k) == h
  {
    if h != [] {
      var c, p := Read(h[0]), Inverse(h, k);
      InverseRehashed(h[1..], NextKey(k, c));
      InverseHead(h, k);
      HashHead(p, k);
      Xor8Cancels(c, k);
      SameHeadSameTail(HashWith(p, k), h);
    }
  }

  /** So the comparison that follows a guess never fails: a key is accepted exactly when its inverse is printable. */
  lemma ExplainsIff(h: Bytes, k: Byte)
    requires 0 !in h
    ensures Explains(h, k) <==> Printable(Inverse(h, k))
  {
    InverseRehashed(h, k);
  }

  // ---------- The parity argument ----------

  lemma InverseChecksum(h: Bytes, k: Byte)
    requires h != []
    ensures Checksum(Inverse(h, k))
         == Xor8(Xor8(Read(h[0]), k), Checksum(Inverse(h[1..], NextKey(k, Read(h[0])))))
  {
    InverseHead(h, k);
  }

  function MaskedIf(b: bool, x: Byte, d: Byte): Byte {
    if b then Xor8(x, d) else x
  }

  predicate IsOdd(h: Bytes) {
    |h| % 2 == 1
  }

  lemma ParityFlips(h: Bytes)
    requires h != []
    ensures IsOdd(h[1..]) == !IsOdd(h)
  {
  }

  /** Changing the key changes every character of the inverse by the same mask. */
  lemma {:induction false} InverseMasked(h: Bytes, k: Byte, d: Byte)
    ensures Checksum(Inverse(h, Xor8(k, d))) == MaskedIf(IsOdd(h), Checksum(Inverse(h, k)), d)
  {
    if h != [] {
      var c := Read(h[0]);
      InverseMasked(h[1..], NextKey(k, c), d);
      KeyMasked(k, d, c);
      ParityFlips(h);
      InverseMaskedStep(h, k, d, IsOdd(h), Checksum(Inverse(h[1..], NextKey(k, c))));
    }
  }

  lemma InverseMaskedStep(h: Bytes, k: Byte, d: Byte, odd: bool, rest: Byte)
    requires h != [] && rest == Checksum(Inverse(h[1..], NextKey(k, Read(h[0]))))
    requires Checksum(Inverse(h[1..], NextKey(Xor8(k, d), Read(h[0])))) == MaskedIf(!odd, rest, d)
    ensures Checksum(Inverse(h, Xor8(k, d))) == MaskedIf(odd, Checksum(Inverse(h, k)), d)
  {
    var c := Read(h[0]);
    InverseChecksum(h, k);
    InverseChecksum(h, Xor8(k, d));
    Xor8Associates(c, k, d);
    MaskPair(Xor8(c, k), d, rest);
    MaskFirst(Xor8(c, k), d, rest);
  }

  lemma MaskFirst(a: Byte, d: Byte, r: Byte)
    ensures Xor8(Xor8(a, d), r) == Xor8(Xor8(a, r), d)
  {
    Xor8Associates(a, d, r);
    Xor8Associates(a, r, d);
    Xor8Commutes(d, r);
  }

  lemma KeyMasked(k: Byte, d: Byte, c: Byte)
    ensures NextKey(Xor8(k, d), c) == Xor8(NextKey(k, c), d)
  {
    Xor8Associates(k, d, Shifted(c));
    Xor8Associates(k, Shifted(c), d);
    Xor8Commutes(d, Shifted(c));
  }

  lemma MaskPair(a: Byte, d: Byte, r: Byte)
    ensures Xor8(Xor8(a, d), Xor8(r, d)) == Xor8(a, r)
  {
    Xor8Associates(a, d, Xor8(r, d));
    Xor8Commutes(d, Xor8(r, d));
    Xor8Cancels(r, d);
  }

  /** The checksum of an inverse of even length does not depend on the key; of odd length, it is shifted by it. */
  lemma ParityOfInverse(h: Bytes, k: Byte)
    ensures Checksum(Inverse(h, k))
         == if |h| % 2 == 0 then Checksum(Inverse(h, 0)) else Xor8(Checksum(Inverse(h, 0)), k)
  {
    InverseMasked(h, 0, k);
    Xor8Zero(k);
  }

  // ---------- The two promises ----------

  /** For passwords of even length decryption undoes the hash exactly when no code is genuinely the mark. */
  lemma EvenRoundTripIff(p: Bytes)
    requires |p| % 2 == 0
    ensures Decrypt(Hash(p)) == p <==> MARK !in Codes(p, Checksum(p))
  {
    var h := Hash(p);
    InverseIff(p, Checksum(p));
    ParityOfInverse(h, Checksum(p));
    ParityOfInverse(h, Checksum(Inverse(h, 0)));
  }

  lemma {:induction false} SearchFinds(h: Bytes, i: nat, k: Byte) returns (j: Byte)
    requires i <= k as int && Explains(h, k)
    ensures i <= j as int <= k as int && Explains(h, j) && Search(h, i) == Inverse(h, j)
    decreases k as int - i
  {
    if Explains(h, i as Byte) {
      j := i as Byte;
    } else {
      j := SearchFinds(h, i + 1, k);
    }
  }

  lemma {:induction false} SearchIsLast(h: Bytes, i: nat)
    requires i < 256 && forall j: Byte :: i <= j as int ==> !Explains(h, j)
    ensures Search(h, i) == Inverse(h, 255)
    decreases 256 - i
  {
    if i < 255 {
      SearchIsLast(h, i + 1);
    }
  }

  /** An odd inverse whose checksum is its own key was made with a base of zero. */
  lemma KeyIsChecksumIff(h: Bytes, k: Byte)
    requires |h| % 2 == 1
    ensures Checksum(Inverse(h, k)) == k <==> Checksum(Inverse(h, 0)) == 0
  {
    var base := Checksum(Inverse(h, 0));
    ParityOfInverse(h, k);
    Xor8Cancels(base, k);
    Xor8Cancels(0, k);
    Xor8Zero(k);
  }

  /** A hash of odd length that some key explains, and whose inverse under key zero checks to zero, is rehashed. */
  lemma ExplainedIsRehashed(h: Bytes, k: Byte)
    requires |h| % 2 == 1 && Explains(h, k) && Checksum(Inverse(h, 0)) == 0
    ensures Printable(Decrypt(h)) && Hash(Decrypt(h)) == h
  {
    var j := SearchFinds(h, 0, k);
    KeyIsChecksumIff(h, j);
  }

  /** One key's inverse is another key's preimage only if they agree, except that a mark hides a mark. */
  lemma HeadKeys(h: Bytes, j: Byte, k: Byte)
    requires h != [] && h[0] != 0 && Written(Xor8(Xor8(Read(h[0]), j), k)) == h[0]
    ensures h[0] != MARK ==> j == k
    ensures h[0] == MARK ==> Xor8(j, k) == 0 || Xor8(j, k) == MARK
  {
    Xor8Zero(j);
    SameKey(h[0], j, k);
  }

  lemma SameKey(x: Byte, j: Byte, k: Byte)
    ensures Xor8(Xor8(x, j), k) == x <==> j == k
  {
    Xor8Associates(x, j, k);
    Xor8Commutes(x, Xor8(j, k));
    Xor8Cancels(Xor8(j, k), x);
    Xor8Commutes(x, x);
    Xor8Cancels(0, x);
    Xor8Zero(x);
    Xor8Cancels(j, k);
    Xor8Zero(k);
    Xor8Cancels(0, k);
  }

  lemma KeyStep(h: Bytes, j: Byte, k: Byte)
    requires h != [] && 0 !in h && HashWith(Inverse(h, j), k) == h
    ensures j == k || (h[0] == MARK && Xor8(j, k) == MARK)
  {
    InverseHead(h, j);
    HashHead(Inverse(h, j), k);
    HeadKeys(h, j, k);
    EqualKeys(j, k);
  }

  lemma KeyStepTail(h: Bytes, j: Byte, k: Byte)
    requires h != [] && HashWith(Inverse(h, j), k) == h && h[0] == MARK && Xor8(j, k) == MARK
    ensures HashWith(Inverse(h[1..], j), Xor8(k, Shifted(MARK))) == h[1..]
  {
    InverseHead(h, j);
    HashHead(Inverse(h, j), k);
    Xor8Zero(j);
  }

  lemma EqualKeys(j: Byte, k: Byte)
    ensures Xor8(j, k) == 0 <==> j == k
  {
    SameKey(0, j, k);
    Xor8Zero(j);
  }

  lemma MarkShift(j: Byte, k: Byte)
    requires Xor8(j, k) == MARK
    ensures Xor8(j, Xor8(k, Shifted(MARK))) != 0 && Xor8(j, Xor8(k, Shifted(MARK))) != MARK
  {
    Xor8Associates(j, k, Shifted(MARK));
    MarkMeetsItsShift();
  }

  /** The mark and the mark shifted, 0xDA. */
  lemma MarkMeetsItsShift()
    ensures Xor8(MARK, Shifted(MARK)) != 0 && Xor8(MARK, Shifted(MARK)) != MARK
  {
    EqualKeys(MARK, Shifted(MARK));
    Xor8Commutes(MARK, Shifted(MARK));
    SameKey(0, Shifted(MARK), 0);
    Xor8Cancels(Shifted(MARK), MARK);
    EqualKeys(MARK, MARK);
  }

  /** In a hash of two characters or more the key of a preimage is forced. */
  lemma KeyForced(h: Bytes, j: Byte, k: Byte)
    requires |h| >= 2 && 0 !in h && HashWith(Inverse(h, j), k) == h
    ensures j == k
  {
    KeyStep(h, j, k);
    if h[0] == MARK && Xor8(j, k) == MARK {
      MarkShift(j, k);
      KeyStepTail(h, j, k);
      EqualKeys(j, Xor8(k, Shifted(MARK)));
      KeyStep(h[1..], j, Xor8(k, Shifted(MARK)));
      assert false;
    }
  }

  lemma {:induction false} SearchTriesKeys(h: Bytes, i: nat) returns (j: Byte)
    requires i < 256
    ensures Search(h, i) == Inverse(h, j)
    decreases 256 - i
  {
    if Explains(h, i as Byte) || i == 255 {
      j := i as Byte;
    } else {
      j := SearchTriesKeys(h, i + 1);
    }
  }

  // ---------- Passwords of odd length ----------

  predicate High(c: Byte) {
    c >= 128
  }

  predicate Low(s: Bytes) {
    forall i :: 0 <= i < |s| ==> !High(s[i])
  }

  lemma {:induction false} TopBitOfXor(a: nat, b: nat, n: nat)
    requires a < 2 * Pow2(n) && b < 2 * Pow2(n)
    ensures Xor(a, b, n + 1) >= Pow2(n) <==> (a >= Pow2(n)) != (b >= Pow2(n))
  {
    if n > 0 {
      TopBitOfXor(a / 2, b / 2, n - 1);
      XorHalf(a, b, n + 1);
    }
  }

  lemma HighOfXor(a: Byte, b: Byte)
    ensures High(Xor8(a, b)) <==> High(a) != High(b)
  {
    assert Pow2(7) == 128;
    TopBitOfXor(a as int, b as int, 7);
  }

  lemma {:induction false} LowChecksum(p: Bytes)
    requires Low(p)
    ensures !High(Checksum(p))
  {
    if p != [] {
      LowChecksum(p[1..]);
      HighOfXor(p[0], Checksum(p[1..]));
    }
  }

  lemma HighNotPrintable(s: Bytes, i: nat)
    requires i < |s| && High(s[i])
    ensures !Printable(s)
  {
    assert !IsPrintable(s[i]);
  }

  lemma NotPrintableTail(s: Bytes)
    requires s != [] && !Printable(s[1..])
    ensures !Printable(s)
  {
    var i :| 0 <= i < |s[1..]| && !IsPrintable(s[1..][i]);
    assert !IsPrintable(s[i + 1]);
  }

  /** A genuine mark needs a key with its top bit set; read as a zero, it shows that bit under every such key. */
  lemma {:induction false} MarkShows(p: Bytes, k: Byte, j: Byte)
    requires Low(p) && MARK in Codes(p, k) && High(j) == High(k)
    ensures !Printable(Inverse(HashWith(p, k), j))
  {
    var c, h := Xor8(p[0], k), HashWith(p, k);
    HashHead(p, k);
    InverseHead(h, j);
    HighOfXor(p[0], k);
    if c == MARK {
      Xor8Zero(j);
      HighNotPrintable(Inverse(h, j), 0);
    } else {
      var rest := Codes(p[1..], NextKey(k, c));
      assert Codes(p, k) == [c] + rest && MARK in rest;
      HighOfXor(k, Shifted(c));
      HighOfXor(j, Shifted(c));
      MarkShows(p[1..], NextKey(k, c), NextKey(j, c));
      NotPrintableTail(Inverse(h, j));
    }
  }

  /** Under a key with its top bit set already the first character shows it. */
  lemma HighKeyShows(p: Bytes, k: Byte, j: Byte)
    requires p != [] && !High(p[0]) && !High(k) && High(j)
    ensures !Printable(Inverse(HashWith(p, k), j))
  {
    var c, h := Xor8(p[0], k), HashWith(p, k);
    HashHead(p, k);
    InverseHead(h, j);
    HighOfXor(p[0], k);
    HighOfXor(c, j);
    HighNotPrintable(Inverse(h, j), 0);
  }

  /** Decryption gives a printable password with the same hash. */
  predicate Rehashed(p: Bytes) {
    Printable(Decrypt(Hash(p))) && Hash(Decrypt(Hash(p))) == Hash(p)
  }

  /** For a printable password of odd length decryption gives a printable password with the same hash exactly when
      no code is genuinely the mark. */
  lemma OddSameHashIff(p: Bytes)
    requires |p| % 2 == 1 && Printable(p)
    ensures Rehashed(p) <==> MARK !in Codes(p, Checksum(p))
  {
    var h, k := Hash(p), Checksum(p);
    LowChecksum(p);
    if MARK in Codes(p, k) {
      var j := SearchTriesKeys(h, 0);
      if High(j) {
        HighKeyShows(p, k, j);
      } else {
        MarkShows(p, k, j);
      }
    } else {
      InverseIff(p, k);
      ExplainsIff(h, k);
      KeyIsChecksumIff(h, k);
      ExplainedIsRehashed(h, k);
    }
  }

  // ---------- Where the mark occurs ----------

  lemma ChecksumOfPair(a: Byte, b: Byte)
    ensures Checksum([a, b]) == Xor8(a, b)
  {
    assert [a, b][1..] == [b] && [b][1..] == [];
    assert Checksum([b]) == Xor8(b, 0);
    Xor8Zero(b);
  }

  lemma CodesOfPair(a: Byte, b: Byte)
    ensures Codes([a, b], Xor8(a, b)) == [b, Xor8(a, Shifted(b))]
  {
    var k := Xor8(a, b);
    PairCodes(a, b, Shifted(b));
    assert [a, b][1..] == [b] && [b][1..] == [];
    assert Codes([a, b], k) == [b] + Codes([b], NextKey(k, b));
  }

  lemma PairCodes(a: Byte, b: Byte, s: Byte)
    ensures Xor8(a, Xor8(a, b)) == b && Xor8(b, Xor8(Xor8(a, b), s)) == Xor8(a, s)
  {
    Xor8Commutes(a, b);
    Xor8Cancels(b, a);
    Xor8Commutes(a, Xor8(b, a));
    Xor8Associates(b, Xor8(a, b), s);
    Xor8Cancels(a, b);
    Xor8Commutes(b, Xor8(a, b));
  }

  /** For two characters the condition can be read off: "/a" is a printable password that does not come back. */
  lemma PairRoundTripIff(a: Byte, b: Byte)
    ensures Decrypt(Hash([a, b])) == [a, b] <==> b != MARK && Xor8(a, Shifted(b)) != MARK
  {
    ChecksumOfPair(a, b);
    CodesOfPair(a, b);
    EvenRoundTripIff([a, b]);
  }

  lemma MarkOccurs()
    ensures IsPrintable(0x2F) && IsPrintable(0x61) && Decrypt(Hash([0x2F, 0x61])) != [0x2F, 0x61]
  {
    PairRoundTripIff(0x2F, 0x61);
    SlashMeetsMark();
  }

  lemma SlashMeetsMark()
    ensures Xor8(0x2F, Shifted(0x61)) == MARK
  {
    HighBits(4);
    LowBits(8);
    assert Shifted(0x61) == 0xC2;
  }

  lemma HighBits(n: nat)
    requires n == 4
    ensures Xor(0x2, 0xC, n) == 0xE
  {
    assert Xor(0, 1, n - 3) == 1;
    assert Xor(0, 3, n - 2) == 3;
    assert Xor(1, 6, n - 1) == 7;
  }

  lemma LowBits(n: nat)
    requires n == 8 && Xor(0x2, 0xC, n - 4) == 0xE
    ensures Xor(0x2F, 0xC2, n) == 0xED
  {
    assert Xor(0x5, 0x18, n - 3) == 0x1D;
    assert Xor(0xB, 0x30, n - 2) == 0x3B;
    assert Xor(0x17, 0x61, n - 1) == 0x76;
  }

  lemma ChecksumOfTriple(a: Byte, b: Byte, c: Byte)
    ensures Checksum([a, b, c]) == Xor8(a, Xor8(b, c))
  {
    assert [a, b, c][1..] == [b, c];
    ChecksumOfPair(b, c);
  }

  /** The first two codes of three characters. */
  lemma CodesOfTriple(a: Byte, b: Byte, c: Byte)
    ensures Codes([a, b, c], Xor8(a, Xor8(b, c)))[..2] == [Xor8(b, c), Xor8(Xor8(a, c), Shifted(Xor8(b, c)))]
  {
    var x, k := Xor8(b, c), Xor8(a, Xor8(b, c));
    TripleCodes(a, b, c, Shifted(x));
    assert [a, b, c][1..] == [b, c] && [b, c][1..] == [c];
    var rest := Codes([b, c], NextKey(k, x));
    assert Codes([a, b, c], k) == [x] + rest;
    assert rest == [Xor8(b, NextKey(k, x))] + Codes([c], NextKey(NextKey(k, x), Xor8(b, NextKey(k, x))));
  }

  lemma TripleCodes(a: Byte, b: Byte, c: Byte, s: Byte)
    ensures Xor8(a, Xor8(a, Xor8(b, c))) == Xor8(b, c)
    ensures Xor8(b, Xor8(Xor8(a, Xor8(b, c)), s)) == Xor8(Xor8(a, c), s)
  {
    var k := Xor8(a, Xor8(b, c));
    PairCodes(a, Xor8(b, c), s);
    Xor8Associates(b, k, s);
    Xor8Commutes(b, c);
    Xor8Associates(a, c, b);
    Xor8Commutes(b, k);
    Xor8Cancels(Xor8(a, c), b);
  }

  lemma MarkedTriple(a: Byte, b: Byte, c: Byte)
    requires IsPrintable(a) && IsPrintable(b) && IsPrintable(c)
    requires Xor8(Xor8(a, c), Shifted(Xor8(b, c))) == MARK
    ensures !Rehashed([a, b, c])
  {
    var p := [a, b, c];
    ChecksumOfTriple(a, b, c);
    CodesOfTriple(a, b, c);
    assert Codes(p, Checksum(p))[..2][1] == MARK;
    OddSameHashIff(p);
  }

  /** An odd length does not save a password: what "akt" decrypts to is not printable or has another hash. */
  lemma OddMarkOccurs()
    ensures IsPrintable(0x61) && IsPrintable(0x6B) && IsPrintable(0x74) && !Rehashed([0x61, 0x6B, 0x74])
  {
    MarkInTriple();
    MarkedTriple(0x61, 0x6B, 0x74);
  }

  lemma MarkInTriple()
    ensures Xor8(Xor8(0x61, 0x74), Shifted(Xor8(0x6B, 0x74))) == MARK
  {
    FirstBits(8);
    SecondBits(8);
    ThirdBits(8);
    ShiftedFirst();
  }

  lemma ShiftedFirst()
    ensures Shifted(0x1F) == 0xF8
  {
  }

  lemma FirstBits(n: nat)
    requires n == 8
    ensures Xor(0x6B, 0x74, n) == 0x1F
  {
    NextBit(0x0, 0x0, n - 8, 0x0);
    NextBit(0x1, 0x1, n - 7, 0x0);
    NextBit(0x3, 0x3, n - 6, 0x0);
    NextBit(0x6, 0x7, n - 5, 0x0);
    NextBit(0xD, 0xE, n - 4, 0x1);
    NextBit(0x1A, 0x1D, n - 3, 0x3);
    NextBit(0x35, 0x3A, n - 2, 0x7);
    NextBit(0x6B, 0x74, n - 1, 0xF);
  }

  lemma SecondBits(n: nat)
    requires n == 8
    ensures Xor(0x61, 0x74, n) == 0x15
  {
    NextBit(0x0, 0x0, n - 8, 0x0);
    NextBit(0x1, 0x1, n - 7, 0x0);
    NextBit(0x3, 0x3, n - 6, 0x0);
    NextBit(0x6, 0x7, n - 5, 0x0);
    NextBit(0xC, 0xE, n - 4, 0x1);
    NextBit(0x18, 0x1D, n - 3, 0x2);
    NextBit(0x30, 0x3A, n - 2, 0x5);
    NextBit(0x61, 0x74, n - 1, 0xA);
  }

  lemma ThirdBits(n: nat)
    requires n == 8
    ensures Xor(0x15, 0xF8, n) == 0xED
  {
    NextBit(0x0, 0x1, n - 8, 0x0);
    NextBit(0x0, 0x3, n - 7, 0x1);
    NextBit(0x0, 0x7, n - 6, 0x3);
    NextBit(0x1, 0xF, n - 5, 0x7);
    NextBit(0x2, 0x1F, n - 4, 0xE);
    NextBit(0x5, 0x3E, n - 3, 0x1D);
    NextBit(0xA, 0x7C, n - 2, 0x3B);
    NextBit(0x15, 0xF8, n - 1, 0x76);
  }

  // ---------- Character by character ----------

  /** A code is shifted by its two low bits. */
  lemma ShiftedIs(c: Byte)
    ensures Shifted(c) as int == c as int * Pow2(c as int % 4) % 256
  {
    SmallPowers();
  }

  lemma SmallPowers()
    ensures Pow2(0) == 1 && Pow2(1) == 2 && Pow2(2) == 4 && Pow2(3) == 8
  {
  }

  /** The code c shifted left by its two low bits, in a byte. */
  function Spread(c: Byte): Byte {
    (c as int * Pow2(c as int % 4) % 256) as Byte
  }

  /** The checksum is the exclusive or of all characters, wherever a string is cut. */
  lemma {:induction false} ChecksumOfParts(a: Bytes, b: Bytes)
    ensures Checksum(a + b) == Xor8(Checksum(a), Checksum(b))
  {
    if a == [] {
      assert a + b == b;
      Xor8Zero(Checksum(b));
      Xor8Commutes(0, Checksum(b));
    } else {
      assert (a + b)[1..] == a[1..] + b;
      ChecksumOfParts(a[1..], b);
      Xor8Associates(a[0], Checksum(a[1..]), Checksum(b));
    }
  }

  lemma ChecksumOfOne(c: Byte)
    ensures Checksum([c]) == c
  {
    Xor8Zero(c);
  }

  /** The first code is the first character under the key; what masks a character is the key of the one before, which
      is that character with its code, and that code shifted by its two low bits. */
  lemma {:induction false} CodeAt(p: Bytes, k: Byte, i: nat)
    requires i < |p|
    ensures var c := Codes(p, k);
            c[i] == if i == 0 then Xor8(p[0], k)
                    else Xor8(p[i], Xor8(Xor8(p[i - 1], c[i - 1]), Spread(c[i - 1])))
    decreases i
  {
    var c := Xor8(p[0], k);
    var rest := Codes(p[1..], NextKey(k, c));
    assert Codes(p, k) == [c] + rest;
    if i == 1 {
      ShiftedIs(c);
      Xor8Cancels(k, p[0]);
      PairCodes(p[0], k, 0);
    } else if i > 1 {
      CodeAt(p[1..], NextKey(k, c), i - 1);
    }
  }

  /** What is written of a code: itself, or 0xED in place of a zero. */
  lemma {:induction false} HashAt(p: Bytes, k: Byte, i: nat)
    requires i < |p|
    ensures HashWith(p, k)[i] == if Codes(p, k)[i] == 0 then 0xED else Codes(p, k)[i]
    decreases i
  {
    HashHead(p, k);
    if i > 0 {
      HashAt(p[1..], NextKey(k, Xor8(p[0], k)), i - 1);
      assert HashWith(p, k)[i] == HashWith(p, k)[1..][i - 1];
    }
  }

  /** The hash of a password, character by character. */
  lemma HashedCharacter(p: Bytes, i: nat)
    requires i < |p|
    ensures var c := Codes(p, Checksum(p));
            && Hash(p)[i] == (if c[i] == 0 then 0xED else c[i])
            && c[i] == if i == 0 then Xor8(p[0], Checksum(p))
                       else Xor8(p[i], Xor8(Xor8(p[i - 1], c[i - 1]), Spread(c[i - 1])))
  {
    CodeAt(p, Checksum(p), i);
    HashAt(p, Checksum(p), i);
  }

  /** The inverse under a key, character by character; 0xED is read as zero. */
  lemma {:induction false} InverseAt(h: Bytes, k: Byte, i: nat)
    requires i < |h|
    ensures var (p, c) := (Inverse(h, k), if h[i] == 0xED then 0 else h[i]);
            p[i] == if i == 0 then Xor8(c, k)
                    else
                      var b := if h[i - 1] == 0xED then 0 else h[i - 1];
                      Xor8(c, Xor8(Xor8(b, p[i - 1]), Spread(b)))
    decreases i
  {
    InverseHead(h, k);
    var b := Read(h[0]);
    if i == 1 {
      ShiftedIs(b);
      PairCodes(b, k, 0);
      InverseHead(h[1..], NextKey(k, b));
    } else if i > 1 {
      InverseAt(h[1..], NextKey(k, b), i - 1);
      assert Inverse(h, k)[i] == Inverse(h, k)[1..][i - 1] && Inverse(h, k)[i - 1] == Inverse(h, k)[1..][i - 2];
    }
  }

  /** The hash of a single character says nothing about it. */
  lemma OneCharacterHash(c: Byte)
    ensures Hash([c]) == [0xED]
  {
    ChecksumOfOne(c);
    Xor8Cancels(0, c);
    Xor8Zero(c);
  }

  lemma MarkExplained(h: Bytes, k: Byte)
    requires h == [0xED]
    ensures Inverse(h, k) == [k] && (Explains(h, k) <==> 32 <= k <= 126)
  {
    InverseHead(h, k);
    Xor8Zero(k);
    assert Inverse(h, k) == [k];
    ExplainsIff(h, k);
    assert Printable([k]) <==> IsPrintable([k][0]);
  }

  lemma MarkFound(h: Bytes, i: nat, space: Byte) returns (j: Byte)
    requires h == [0xED] && i <= space as int && Explains(h, space)
    ensures j <= space && 32 <= j <= 126 && Search(h, i) == [j]
  {
    j := SearchFinds(h, i, space);
    MarkExplained(h, j);
  }

  /** It is explained by every printable character, a space to a tilde. */
  lemma OneCharacterExplained(c: Byte, k: Byte)
    ensures Explains(Hash([c]), k) <==> 32 <= k <= 126
  {
    OneCharacterHash(c);
    MarkExplained(Hash([c]), k);
  }

  lemma MarkSearched(c: Byte, i: nat, space: Byte)
    requires i <= space as int && space == 32
    ensures Search(Hash([c]), i) == [space]
  {
    OneCharacterHash(c);
    MarkExplained(Hash([c]), space);
    var j := MarkFound(Hash([c]), i, space);
  }

  lemma OddIsSearched(h: Bytes, p: Bytes)
    requires |h| % 2 == 1 && forall i: nat :: i == 0 ==> Search(h, i) == p
    ensures Decrypt(h) == p
  {
  }

  /** And it is decrypted as a space. */
  lemma OneCharacterDecrypted(c: Byte, space: Byte)
    requires space == 32
    ensures Decrypt(Hash([c])) == [space]
  {
    forall i: nat | i == 0
      ensures Search(Hash([c]), i) == [space]
    {
      MarkSearched(c, i, space);
    }
    OddIsSearched(Hash([c]), [space]);
  }

  // ---------- The buffers ----------

  /** The string that starts a buffer, up to its NUL. */
  function CString(s: Bytes): (r: Bytes)
    ensures 0 !in r && r <= s
  {
    if s == [] || s[0] == 0 then [] else [s[0]] + CString(s[1..])
  }

  lemma {:induction false} CStringAt(s: Bytes, n: nat)
    requires n < |s| && s[n] == 0 && 0 !in s[..n]
    ensures CString(s) == s[..n]
  {
    if n > 0 {
      assert s[0] == s[..n][0];
      assert s[1..][..n - 1] == s[..n][1..];
      CStringAt(s[1..], n - 1);
      SplitFirst(s[..n]);
    }
  }

  method StrLen(a: array<Byte>) returns (n: nat)
    requires 0 in a[..]
    ensures n < a.Length && a[n] == 0 && a[..n] == CString(a[..])
  {
    n := 0;
    while a[n] != 0
      invariant n < a.Length && 0 !in a[..n] && 0 in a[n..]
      decreases a.Length - n
    {
      assert a[n..] == [a[n]] + a[n + 1..];
      n := n + 1;
    }
    CStringAt(a[..], n);
  }

  method SimpleChecksum(buffer: array<Byte>, len: nat) returns (c: Byte)
    requires len <= buffer.Length
    ensures c == Checksum(buffer[..len])
  {
    c := 0;
    Xor8Zero(Checksum(buffer[..len]));
    var i := 0;
    while i < len
      invariant 0 <= i <= len
      invariant Xor8(c, Checksum(buffer[i..len])) == Checksum(buffer[..len])
    {
      Xor8Associates(c, buffer[i], Checksum(buffer[i + 1..len]));
      assert buffer[i..len][1..] == buffer[i + 1..len];
      c := Xor8(c, buffer[i]);
      i := i + 1;
    }
    Xor8Zero(c);
  }

  /** One character is hashed; what follows it in the two buffers stays. */
  method HashStep(input: array<Byte>, out: array<Byte>, i: nat, n: nat, factor: Byte,
                  ghost p: Bytes, ghost all: Bytes, ghost was: Bytes) returns (next: Byte)
    requires i < n == |p| && n < out.Length == |was| && n < input.Length
    requires forall j :: i <= j < n ==> input[j] == p[j]
    requires all == out[..i] + HashWith(p[i..], factor) && out[i..] == was[i..]
    modifies out
    ensures forall j :: i + 1 <= j < n ==> input[j] == p[j]
    ensures all == out[..i + 1] + HashWith(p[i + 1..], next) && out[i + 1..] == was[i + 1..]
  {
    var c := Xor8(input[i], factor);
    HashHead(p[i..], factor);
    NextPiece(all, out[..i], HashWith(p[i..], factor));
    next := NextKey(factor, c);
    out[i] := Written(c);
    assert out[..i + 1] == out[..i] + [Written(c)];
    assert p[i..][1..] == p[i + 1..];
  }

  /** Out may be the buffer hashed. */
  method HashPassword(input: array<Byte>, out: array<Byte>)
    requires 0 in input[..] && |CString(input[..])| < out.Length
    modifies out
    ensures CString(out[..]) == Hash(old(CString(input[..])))
    ensures out[|CString(out[..])| + 1..] == old(out[|CString(input[..])| + 1..])
  {
    var n := StrLen(input);
    var factor := SimpleChecksum(input, n);
    ghost var p, k, was := input[..n], factor, out[..];
    var i := 0;
    while i < n
      invariant 0 <= i <= n < out.Length && n < input.Length
      invariant forall j :: i <= j < n ==> input[j] == p[j]
      invariant HashWith(p, k) == out[..i] + HashWith(p[i..], factor)
      invariant out[i..] == was[i..]
    {
      factor := HashStep(input, out, i, n, factor, p, HashWith(p, k), was);
      i := i + 1;
    }
    out[i] := 0;
    assert out[..n] == HashWith(p, k);
    CStringAt(out[..], n);
    assert out[n + 1..] == was[n + 1..];
  }

  lemma NextPiece(all: Bytes, done: Bytes, rest: Bytes)
    requires rest != [] && all == done + rest
    ensures all == done + [rest[0]] + rest[1..]
  {
    SplitFirst(rest);
    ConcatAssociates(done, [rest[0]], rest[1..]);
  }

  method InverseHash(input: array<Byte>, out: array<Byte>, key: Byte)
    requires 0 in input[..] && |CString(input[..])| <= out.Length && input != out
    modifies out
    ensures out[..] == Inverse(CString(input[..]), key) + old(out[|CString(input[..])|..])
  {
    var n := StrLen(input);
    ghost var h, was := input[..n], out[..];
    var k := key;
    var i := 0;
    while i < n
      invariant 0 <= i <= n <= out.Length && n < input.Length
      invariant Inverse(h, key) == out[..i] + Inverse(h[i..], k)
      invariant out[i..] == was[i..]
    {
      var c := Read(input[i]);
      InverseHead(h[i..], k);
      NextPiece(Inverse(h, key), out[..i], Inverse(h[i..], k));
      out[i] := Xor8(c, k);
      k := NextKey(k, c);
      assert out[..i + 1] == out[..i] + [out[i]];
      assert h[i..][1..] == h[i + 1..];
      i := i + 1;
      assert out[i..] == was[i..];
    }
    assert out[..n] == Inverse(h, key);
    assert out[..] == out[..n] + out[n..];
  }

  /** The check of one guess: the buffer's first n characters under the key make the password's. */
  method CheckGuess(buffer: array<Byte>, password: array<Byte>, n: nat, guess: Byte) returns (ok: bool)
    requires n <= buffer.Length && n <= password.Length
    ensures ok == (Printable(buffer[..n]) && HashWith(buffer[..n], guess) == password[..n])
  {
    ghost var p := buffer[..n];
    var key := guess;
    var i := 0;
    while i < n
      invariant 0 <= i <= n && Printable(buffer[..i])
      invariant HashWith(p, guess) == password[..i] + HashWith(p[i..], key)
    {
      if !IsPrintable(buffer[i]) {
        assert !IsPrintable(p[i]);
        return false;
      }
      var c := Xor8(buffer[i], key);
      HashHead(p[i..], key);
      NextPiece(HashWith(p, guess), password[..i], HashWith(p[i..], key));
      key := NextKey(key, c);
      if Written(c) != password[i] {
        assert HashWith(p, guess)[i] == Written(c);
        return false;
      }
      assert password[..i + 1] == password[..i] + [Written(c)];
      assert p[i..][1..] == p[i + 1..];
      i := i + 1;
    }
    return true;
  }

  /** The guesses of DecryptHashedPassword. */
  method SearchKeys(password: array<Byte>, n: nat, buffer: array<Byte>)
    requires 0 in password[..] && n == |CString(password[..])| && n < buffer.Length && password != buffer
    modifies buffer
    ensures buffer[..n] == Search(CString(password[..]), 0)
  {
    ghost var h := CString(password[..]);
    var i: nat := 0;
    var ok := false;
    while i < 256 && !ok
      invariant 0 <= i <= 256
      invariant !ok && i < 256 ==> Search(h, 0) == Search(h, i)
      invariant ok || i == 256 ==> buffer[..n] == Search(h, 0)
    {
      InverseHash(password, buffer, i as Byte);
      assert buffer[..n] == Inverse(h, i as Byte);
      ok := CheckGuess(buffer, password, n, i as Byte);
      i := i + 1;
    }
  }

  /** Overwrites a hash by a password, in place. */
  method DecryptHashedPassword(password: array<Byte>)
    requires 0 in password[..]
    modifies password
    ensures password[..] == Decrypt(old(CString(password[..]))) + old(password[|CString(password[..])|..])
  {
    var n := StrLen(password);
    var buffer := new Byte[n + 1];
    buffer[n] := 0;
    ghost var h, was := password[..n], password[..];
    if n % 2 == 1 {
      SearchKeys(password, n, buffer);
    } else {
      InverseHash(password, buffer, 0);
      assert buffer[..n] == Inverse(h, 0);
      var k := SimpleChecksum(buffer, n);
      InverseHash(password, buffer, k);
      assert buffer[..n] == Inverse(h, k);
    }
    assert buffer[..n] == Decrypt(h);
    CopyOver(buffer, password, n);
  }

  /** memcpy. */
  method CopyOver(source: array<Byte>, target: array<Byte>, n: nat)
    requires n <= source.Length && n <= target.Length && source != target
    modifies target
    ensures target[..] == source[..n] + old(target[n..])
  {
    ghost var was := target[..];
    var i := 0;
    while i < n
      invariant 0 <= i <= n
      invariant target[..i] == source[..i] && target[i..] == was[i..]
    {
      target[i] := source[i];
      i := i + 1;
    }
    assert target[..] == target[..n] + target[n..];
  }
}
