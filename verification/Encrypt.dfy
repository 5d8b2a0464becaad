/** The packet cipher (mervbot/encrypt.cpp, SS_ENCR): a keystream XOR chained through the
    previous cipher word, edited in place behind the one or two header bytes. */
module Encrypt {
  import opened Bytes
  import Prng

  const STREAM: nat := 520

  /** A 32-bit word, as the four bytes it occupies in memory. */
  datatype Word = Word(b0: Byte, b1: Byte, b2: Byte, b3: Byte)
  {
    function Xor(w: Word): Word {
      Word(Xor8(b0, w.b0), Xor8(b1, w.b1), Xor8(b2, w.b2), Xor8(b3, w.b3))
    }

    function Octets(): (s: Bytes)
      ensures |s| == 4
    {
      [b0, b1, b2, b3]
    }
  }

  const ZERO: Word := Word(0, 0, 0, 0)

  /** The word at the start of s; a missing byte counts as zero. */
  function GetWord(s: Bytes): Word {
    Word(if |s| > 0 then s[0] else 0, if |s| > 1 then s[1] else 0,
         if |s| > 2 then s[2] else 0, if |s| > 3 then s[3] else 0)
  }

  // ---------- The cipher ----------

  /** A session: the key (0 when encryption is off) and the keystream. */
  datatype Cipher = Cipher(key: Word, keystream: Bytes)

  /** The cipher text of b: each word is chained to the cipher word before it, iv. */
  function Chained(b: Bytes, ks: Bytes, iv: Word): (c: Bytes)
    ensures |c| == |b|
    decreases |b|
  {
    if b == [] then []
    else
      var w := GetWord(b).Xor(GetWord(ks)).Xor(iv);
      if |b| < 4 then w.Octets()[..|b|]
      else w.Octets() + Chained(b[4..], if |ks| < 4 then [] else ks[4..], w)
  }

  function Unchained(c: Bytes, ks: Bytes, iv: Word): (b: Bytes)
    ensures |b| == |c|
    decreases |c|
  {
    if c == [] then []
    else
      var w := GetWord(c).Xor(GetWord(ks)).Xor(iv);
      if |c| < 4 then w.Octets()[..|c|]
      else w.Octets() + Unchained(c[4..], if |ks| < 4 then [] else ks[4..], GetWord(c))
  }

  lemma UnmaskWord(a: Word, k: Word, v: Word)
    ensures a.Xor(k).Xor(v).Xor(k).Xor(v) == a
  {
    Unmask(a.b0, k.b0, v.b0);
    Unmask(a.b1, k.b1, v.b1);
    Unmask(a.b2, k.b2, v.b2);
    Unmask(a.b3, k.b3, v.b3);
  }

  function Masked(b: Bytes, k: Word, v: Word): Bytes
    requires |b| < 4
  {
    if |b| == 0 then []
    else if |b| == 1 then [Xor8(Xor8(b[0], k.b0), v.b0)]
    else if |b| == 2 then [Xor8(Xor8(b[0], k.b0), v.b0), Xor8(Xor8(b[1], k.b1), v.b1)]
    else [Xor8(Xor8(b[0], k.b0), v.b0), Xor8(Xor8(b[1], k.b1), v.b1), Xor8(Xor8(b[2], k.b2), v.b2)]
  }

  /** The first n < 4 bytes of a masked word are the masked first n bytes. */
  lemma TailMasked(b: Bytes, k: Word, v: Word)
    requires |b| < 4
    ensures GetWord(b).Xor(k).Xor(v).Octets()[..|b|] == Masked(b, k, v)
  {
  }

  lemma MaskedTwice(b: Bytes, k: Word, v: Word)
    requires |b| < 4
    ensures Masked(Masked(b, k, v), k, v) == b
  {
    if |b| > 0 { Unmask(b[0], k.b0, v.b0); }
    if |b| > 1 { Unmask(b[1], k.b1, v.b1); }
    if |b| > 2 { Unmask(b[2], k.b2, v.b2); }
  }

  lemma TailUndone(b: Bytes, k: Word, v: Word)
    requires |b| < 4
    ensures GetWord(GetWord(b).Xor(k).Xor(v).Octets()[..|b|]).Xor(k).Xor(v).Octets()[..|b|] == b
  {
    TailMasked(b, k, v);
    TailMasked(Masked(b, k, v), k, v);
    MaskedTwice(b, k, v);
  }

  lemma {:induction false} ChainUndone(b: Bytes, ks: Bytes, iv: Word)
    ensures Unchained(Chained(b, ks, iv), ks, iv) == b
    decreases |b|
  {
    if 0 < |b| < 4 {
      TailUndone(b, GetWord(ks), iv);
    } else if |b| >= 4 {
      var w := GetWord(b).Xor(GetWord(ks)).Xor(iv);
      var rest, kr := b[4..], if |ks| < 4 then [] else ks[4..];
      var c := Chained(b, ks, iv);
      assert c[4..] == Chained(rest, kr, w) && GetWord(c) == w;
      UnmaskWord(GetWord(b), GetWord(ks), iv);
      ChainUndone(rest, kr, w);
      assert GetWord(b).Octets() == b[..4];
    }
  }

  lemma {:induction false} ChainRedone(c: Bytes, ks: Bytes, iv: Word)
    ensures Chained(Unchained(c, ks, iv), ks, iv) == c
    decreases |c|
  {
    if 0 < |c| < 4 {
      TailUndone(c, GetWord(ks), iv);
    } else if |c| >= 4 {
      var w := GetWord(c).Xor(GetWord(ks)).Xor(iv);
      var rest, kr := c[4..], if |ks| < 4 then [] else ks[4..];
      var b := Unchained(c, ks, iv);
      assert b[4..] == Unchained(rest, kr, GetWord(c)) && GetWord(b) == w;
      UnmaskWord(GetWord(c), GetWord(ks), iv);
      ChainRedone(rest, kr, GetWord(c));
      assert GetWord(c).Octets() == c[..4];
    }
  }

  /** The index of the first byte that is changed. */
  function Start(m: Bytes): nat {
    if m != [] && m[0] == 0 then 2 else 1
  }

  predicate Bypassed(c: Cipher, m: Bytes) {
    c.key == ZERO || |m| <= Start(m)
  }

  function Encrypted(c: Cipher, m: Bytes): (r: Bytes)
    ensures |r| == |m|
  {
    if Bypassed(c, m) then m else m[..Start(m)] + Chained(m[Start(m)..], c.keystream, c.key)
  }

  function Decrypted(c: Cipher, m: Bytes): (r: Bytes)
    ensures |r| == |m|
  {
    if Bypassed(c, m) then m else m[..Start(m)] + Unchained(m[Start(m)..], c.keystream, c.key)
  }

  /** Encryption and decryption are mutual inverses, for every key, keystream and message. */
  lemma MutualInverses(c: Cipher, m: Bytes)
    ensures Decrypted(c, Encrypted(c, m)) == m
    ensures Encrypted(c, Decrypted(c, m)) == m
  {
    if !Bypassed(c, m) {
      var b := m[Start(m)..];
      ChainUndone(b, c.keystream, c.key);
      ChainRedone(b, c.keystream, c.key);
      assert Encrypted(c, m)[Start(m)..] == Chained(b, c.keystream, c.key);
      assert Decrypted(c, m)[Start(m)..] == Unchained(b, c.keystream, c.key);
      assert m == m[..Start(m)] + b;
    }
  }

  // ---------- Byte by byte ----------

  /** The bytes of a word, in the order they have in memory. */
  lemma WordBytes(a: Word, i: nat)
    requires i < 4
    ensures a.Octets()[i] == if i == 0 then a.b0 else if i == 1 then a.b1 else if i == 2 then a.b2 else a.b3
  {
  }

  lemma FirstBytes(b: Bytes, i: nat)
    requires i < |b| && i < 4
    ensures GetWord(b).Octets()[i] == b[i]
  {
  }

  lemma XorBytes(a: Word, k: Word, v: Word, i: nat)
    requires i < 4
    ensures a.Xor(k).Xor(v).Octets()[i] == Xor8(Xor8(a.Octets()[i], k.Octets()[i]), v.Octets()[i])
  {
  }

  /** The byte that masks byte i besides the keystream: of the key, and later of the cipher text four before. */
  function Feedback(iv: Word, c: Bytes, i: nat): Byte
    requires i < |c| + 4
  {
    if i == 0 then iv.b0 else if i == 1 then iv.b1 else if i == 2 then iv.b2 else if i == 3 then iv.b3 else c[i - 4]
  }

  lemma FeedbackLater(iv: Word, w: Word, c: Bytes, i: nat)
    requires 4 <= i < |c| && c[..4] == w.Octets()
    ensures Feedback(iv, c, i) == Feedback(w, c[4..], i - 4)
  {
    if i < 8 {
      WordBytes(w, i - 4);
      assert c[i - 4] == c[..4][i - 4];
    }
  }

  lemma {:induction false} ChainedByte(b: Bytes, ks: Bytes, iv: Word, i: nat)
    requires |b| <= |ks| && i < |b|
    ensures Chained(b, ks, iv)[i] == Xor8(Xor8(b[i], ks[i]), Feedback(iv, Chained(b, ks, iv), i))
    decreases |b|
  {
    var w, c := GetWord(b).Xor(GetWord(ks)).Xor(iv), Chained(b, ks, iv);
    if i < 4 {
      XorBytes(GetWord(b), GetWord(ks), iv, i);
      FirstBytes(b, i);
      FirstBytes(ks, i);
      WordBytes(iv, i);
    } else {
      assert c[..4] == w.Octets() && c[4..] == Chained(b[4..], ks[4..], w);
      ChainedByte(b[4..], ks[4..], w, i - 4);
      FeedbackLater(iv, w, c, i);
    }
  }

  lemma UnchainedSplit(c: Bytes, ks: Bytes, iv: Word)
    requires 4 <= |c| <= |ks|
    ensures Unchained(c, ks, iv)[..4] == GetWord(c).Xor(GetWord(ks)).Xor(iv).Octets()
    ensures Unchained(c, ks, iv)[4..] == Unchained(c[4..], ks[4..], GetWord(c)) && c[..4] == GetWord(c).Octets()
  {
  }

  lemma {:induction false} UnchainedByte(c: Bytes, ks: Bytes, iv: Word, i: nat)
    requires |c| <= |ks| && i < |c|
    ensures Unchained(c, ks, iv)[i] == Xor8(Xor8(c[i], ks[i]), Feedback(iv, c, i))
    decreases |c|
  {
    if i < 4 {
      XorBytes(GetWord(c), GetWord(ks), iv, i);
      FirstBytes(c, i);
      FirstBytes(ks, i);
      WordBytes(iv, i);
    } else {
      var b := Unchained(c, ks, iv);
      UnchainedSplit(c, ks, iv);
      UnchainedByte(c[4..], ks[4..], GetWord(c), i - 4);
      FeedbackLater(iv, GetWord(c), c, i);
      assert b[i] == b[4..][i - 4];
    }
  }

  /** What is sent, byte by byte: behind the one header byte, or two if the first is zero, each byte is masked by
      the keystream and by the byte of the key in its place, later by the byte of the cipher text four before. */
  lemma EncryptedByte(c: Cipher, m: Bytes, i: nat)
    requires c.key != Word(0, 0, 0, 0) && i < |m| <= |c.keystream|
    ensures var (s, r) := (if m[0] == 0 then 2 else 1, Encrypted(c, m));
            r[i] == if i < s then m[i]
                    else
                      Xor8(Xor8(m[i], c.keystream[i - s]),
                           if i - s == 0 then c.key.b0 else if i - s == 1 then c.key.b1
                           else if i - s == 2 then c.key.b2 else if i - s == 3 then c.key.b3 else r[i - 4])
  {
    var s, r := Start(m), Encrypted(c, m);
    if s <= i {
      ChainedByte(m[s..], c.keystream, c.key, i - s);
      assert r[s..] == Chained(m[s..], c.keystream, c.key);
      assert i - s >= 4 ==> r[s..][i - s - 4] == r[i - 4];
    }
  }

  /** What is received, byte by byte. */
  lemma DecryptedByte(c: Cipher, m: Bytes, i: nat)
    requires c.key != Word(0, 0, 0, 0) && i < |m| <= |c.keystream|
    ensures var s := if m[0] == 0 then 2 else 1;
            Decrypted(c, m)[i] == if i < s then m[i]
                    else
                      Xor8(Xor8(m[i], c.keystream[i - s]),
                           if i - s == 0 then c.key.b0 else if i - s == 1 then c.key.b1
                           else if i - s == 2 then c.key.b2 else if i - s == 3 then c.key.b3 else m[i - 4])
  {
    var s := Start(m);
    if s <= i {
      UnchainedByte(m[s..], c.keystream, c.key, i - s);
      assert Decrypted(c, m)[s..] == Unchained(m[s..], c.keystream, c.key);
    }
  }

  /** With a key of zero nothing is changed. */
  lemma NoKeyNoCipher(c: Cipher, m: Bytes)
    requires c.key == Word(0, 0, 0, 0)
    ensures Encrypted(c, m) == m == Decrypted(c, m)
  {
  }

  // ---------- The cipher in place ----------

  /** A keystream offset that is a multiple of four and inside the keystream is the start of a whole word. */
  lemma WordsInStream(blocks: nat, ksi: nat)
    requires ksi == 4 * blocks
    ensures ksi < STREAM ==> ksi + 4 <= STREAM
  {
  }

  lemma LeftAlone(c: Cipher, was: Bytes, len: nat)
    requires 1 <= len <= |was| && len <= STREAM && Bypassed(c, was[..len])
    ensures was == Encrypted(c, was[..len]) + was[len..]
    ensures was == Decrypted(c, was[..len]) + was[len..]
  {
  }

  /** A buffer whose bytes from `start` on have been replaced by `done` up to index i. */
  ghost predicate Rewritten<T>(now: seq<T>, was: seq<T>, start: nat, done: seq<T>, i: nat) {
    start <= i == start + |done| <= |was| && now == was[..start] + done + was[i..]
  }

  lemma Untouched<T>(was: seq<T>, start: nat)
    requires start <= |was|
    ensures Rewritten(was, was, start, [], start)
  {
  }

  lemma NotYet<T>(now: seq<T>, was: seq<T>, start: nat, done: seq<T>, i: nat, n: nat, b: seq<T>)
    requires Rewritten(now, was, start, done, i) && start + |b| <= |was| && b == was[start..start + |b|]
    requires i + n <= start + |b|
    ensures now[i..i + n] == b[i - start..][..n]
  {
    assert now[i..i + n] == was[i..i + n];
    assert b == was[start..i] + was[i..i + n] + was[i + n..start + |b|];
  }

  lemma OneMore<T>(now: seq<T>, was: seq<T>, start: nat, done: seq<T>, i: nat, x: seq<T>, later: seq<T>)
    requires Rewritten(now, was, start, done, i) && i + |x| <= |was|
    requires later == now[..i] + x + now[i + |x|..]
    ensures Rewritten(later, was, start, done + x, i + |x|)
  {
  }

  lemma AllRewritten(c: Cipher, now: Bytes, was: Bytes, len: nat, done: Bytes)
    requires 1 <= len <= |was| && len <= STREAM && c.key != ZERO && Start(was[..len]) <= len
    requires Rewritten(now, was, Start(was[..len]), done, len)
    ensures done == Chained(was[Start(was[..len])..len], c.keystream, c.key)
        ==> now == Encrypted(c, was[..len]) + was[len..]
    ensures done == Unchained(was[Start(was[..len])..len], c.keystream, c.key)
        ==> now == Decrypted(c, was[..len]) + was[len..]
  {
    var start, m := Start(was[..len]), was[..len];
    assert m[start..] == was[start..len] && m[..start] == was[..start];
    if start == len {
      assert m[..start] == m;
    }
  }

  /** The step of the loop of Encrypt, on values. */
  lemma ChainStep(b: Bytes, ks: Bytes, k: nat, iv: Word)
    requires k + 4 <= |b| && k + 4 <= |ks|
    ensures var w := GetWord(b[k..][..4]).Xor(GetWord(ks[k..k + 4])).Xor(iv);
            Chained(b[k..], ks[k..], iv) == w.Octets() + Chained(b[k + 4..], ks[k + 4..], w)
  {
    assert b[k..][4..] == b[k + 4..] && ks[k..][4..] == ks[k + 4..];
  }

  lemma UnchainStep(b: Bytes, ks: Bytes, k: nat, iv: Word)
    requires k + 4 <= |b| && k + 4 <= |ks|
    ensures var w := GetWord(b[k..][..4]).Xor(GetWord(ks[k..k + 4])).Xor(iv);
            Unchained(b[k..], ks[k..], iv) == w.Octets() + Unchained(b[k + 4..], ks[k + 4..], GetWord(b[k..][..4]))
  {
    assert b[k..][4..] == b[k + 4..] && ks[k..][4..] == ks[k + 4..];
  }

  lemma TailStep(b: Bytes, ks: Bytes, k: nat, iv: Word)
    requires k < |b| < k + 4 && k + 4 <= |ks|
    ensures var w := GetWord(b[k..]).Xor(GetWord(ks[k..k + 4])).Xor(iv);
            Chained(b[k..], ks[k..], iv) == Unchained(b[k..], ks[k..], iv) == w.Octets()[..|b| - k]
  {
  }

  /** The word that holds a 32-bit number. */
  function WordOf(n: nat): Word {
    GetWord(Long(n))
  }

  lemma OnlyZeroIsZero(n: nat)
    requires n < U32
    ensures WordOf(n) == ZERO <==> n == 0
  {
    assert Pow256(4) == U32;
    NumberOfDigits(n, 4);
    var s := Long(n);
    if n == 0 {
      assert s == [0, 0, 0, 0];
    }
    if WordOf(n) == ZERO {
      assert s == [0, 0, 0, 0];
      assert Number([0, 0, 0, 0]) == 0 by {
        assert [0, 0, 0, 0][1..] == [0, 0, 0] && [0, 0, 0][1..] == [0, 0] && [0, 0][1..] == [0] && [0][1..] == [];
      }
    }
  }

  // ---------- Keys ----------

  /** Two's complement negation of an unsigned 32-bit number. */
  function Negated(n: nat): nat {
    (U32 - n) % U32
  }

  /** A server answers with the client's key, to switch encryption off, or with its negation. */
  predicate Answers(serverKey: nat, sentKey: nat) {
    serverKey == sentKey || serverKey == Negated(sentKey)
  }

  /** One of the two low bytes of a number. */
  function LowByte(s: nat, second: bool): Byte {
    (if second then s / 0x100 % 0x100 else s % 0x100) as Byte
  }

  /** The keystream of a seed: two bytes, low one first, of each seed that follows it. */
  function KeystreamByte(seed: nat, i: nat): Byte
    requires seed < U32
  {
    LowByte(Prng.SeedAt(seed, i / 2 + 1), i % 2 == 1)
  }

  lemma LowBytes(s: nat)
    ensures LowByte(s, false) as int == s % 0x1_0000 % 0x100
    ensures LowByte(s, true) as int == s % 0x1_0000 / 0x100
  {
    var q, r := s / 0x1_0000, s % 0x1_0000;
    assert s == q * 0x1_0000 + r;
    assert s / 0x100 == q * 0x100 + r / 0x100;
  }

  /** Client keys are 0 or have their top bit set. */
  predicate ClientKey(n: nat) {
    n == 0 || 0x8000_0000 <= n < U32
  }

  /** A number whose top bit is set, unless it is 0: the number itself or its negation. */
  function Topped(res: nat): nat {
    if res <= 0x7FFF_FFFF then Negated(res) else res
  }

  /** The key made of the clock and two draws of the light generator. */
  /** The clock is mixed into the sum and taken away again. */
  function Folded(sum: nat, edx: nat): nat {
    (Xor(sum, edx, 32) - edx) % U32
  }

  function NewKey(time: nat, high: nat, low: nat): nat {
    var edx := time * 0xCCCC_CCCD % U32;
    Topped(Folded((high * 0x1_0000 + edx / 8 + low) % U32, edx))
  }

  lemma ToppedIsClientKey(res: nat)
    requires res < U32
    ensures ClientKey(Topped(res)) && (Topped(res) != 0 ==> 1 <= Negated(Topped(res)) <= 0x8000_0000)
  {
  }

  /** A new key is 0 or has its top bit set; so the server's answer, its negation, is at most 2^31. */
  lemma NewKeyIsClientKey(time: nat, high: nat, low: nat)
    ensures ClientKey(NewKey(time, high, low))
    ensures NewKey(time, high, low) != 0 ==> 1 <= Negated(NewKey(time, high, low)) <= 0x8000_0000
  {
    var edx := time * 0xCCCC_CCCD % U32;
    ToppedIsClientKey((Xor((high * 0x1_0000 + edx / 8 + low) % U32, edx, 32) - edx) % U32);
  }

  lemma AnswerIsSeed(serverKey: nat, sentKey: nat)
    requires ClientKey(sentKey) && Answers(serverKey, sentKey) && serverKey != sentKey
    ensures 1 <= serverKey <= Prng.P
  {
  }

  /** When encryption is switched on with the answer to a generated key, every seed of the keystream
      lies in [1, 2^31 - 1] and each follows from the one before by the Park-Miller rule. */
  lemma KeystreamSeeds(serverKey: nat, sentKey: nat, i: nat)
    requires ClientKey(sentKey) && Answers(serverKey, sentKey) && serverKey != sentKey
    ensures serverKey < U32
    ensures 1 <= Prng.SeedAt(serverKey, i) <= Prng.P
    ensures Prng.SeedAt(serverKey, i + 1) % Prng.P == (16807 * Prng.SeedAt(serverKey, i) + 123) % Prng.P
    ensures Prng.SeedAt(serverKey, i) == Prng.SeedAtG(serverKey, i)
  {
    AnswerIsSeed(serverKey, sentKey);
    Prng.SameSequence(serverKey, i);
    Prng.SameSequence(serverKey, i + 1);
  }

  /** The keystream is the low halves of the seeds after the server's answer, low byte first. */
  lemma KeystreamPairs(seed: nat, i: nat)
    requires seed < U32
    ensures KeystreamByte(seed, 2 * i) as int + 0x100 * KeystreamByte(seed, 2 * i + 1) as int
         == Prng.SeedAt(seed, i + 1) % 0x1_0000
  {
    assert 2 * i / 2 == i && 2 * i % 2 == 0 && (2 * i + 1) / 2 == i && (2 * i + 1) % 2 == 1;
    LowBytes(Prng.SeedAt(seed, i + 1));
  }

  /** The answers are the key itself and the number that adds up to 2^32 with it. */
  lemma AnswersIff(serverKey: nat, sentKey: nat)
    requires serverKey < 0x1_0000_0000 && sentKey < 0x1_0000_0000
    ensures Answers(serverKey, sentKey) <==> serverKey == sentKey || (serverKey + sentKey) % 0x1_0000_0000 == 0
  {
  }

  /** The bytes of a key in memory. */
  lemma WordOfBytes(n: nat)
    requires n < 0x1_0000_0000
    ensures WordOf(n) == Word((n % 256) as Byte, (n / 0x100 % 256) as Byte, (n / 0x1_0000 % 256) as Byte,
                              (n / 0x100_0000 % 256) as Byte)
  {
    LongIs(n);
  }

  lemma Unfolded(sum: nat, edx: nat, n: nat)
    requires sum < U32 && edx < U32 && n == 32
    ensures Xor(sum, edx, n) < U32 && Xor(Xor(sum, edx, n), edx, n) == sum
  {
    WordSize();
    XorTwice(sum, edx, n);
  }

  lemma Unfold(sum: nat, edx: nat, n: nat) returns (res: nat)
    requires sum < U32 && edx < U32 && n == 32
    ensures res < U32 && res == (Xor(sum, edx, n) - edx) % U32 && Xor((res + edx) % U32, edx, n) == sum
  {
    Unfolded(sum, edx, n);
    res := (Xor(sum, edx, n) - edx) % U32;
    FoldBack(Xor(sum, edx, n), edx);
  }

  lemma FoldedIs(sum: nat, edx: nat, n: nat)
    requires n == 32
    ensures Folded(sum, edx) == (Xor(sum, edx, n) - edx) % U32
  {
  }

  lemma ToppedIs(res: nat)
    requires res < U32
    ensures Topped(res) == if res < 0x8000_0000 then (0x1_0000_0000 - res) % 0x1_0000_0000 else res
  {
  }

  /** The clock is folded into a new key twice: taking both away leaves the two draws, 16 bits apart, and the clock's
      product shifted by three. The number or its negation is the key. */
  lemma NewKeyUnfolds(time: nat, high: nat, low: nat, n: nat) returns (edx: nat, res: nat)
    requires n == 32
    ensures edx == time * 3435973837 % 0x1_0000_0000 && res < 0x1_0000_0000
    ensures Xor((res + edx) % 0x1_0000_0000, edx, n) == (0x1_0000 * high + edx / 8 + low) % 0x1_0000_0000
    ensures NewKey(time, high, low) == if res < 0x8000_0000 then (0x1_0000_0000 - res) % 0x1_0000_0000 else res
  {
    edx := time * 0xCCCC_CCCD % U32;
    var sum: nat := (high * 0x1_0000 + edx / 8 + low) % U32;
    res := Unfold(sum, edx, n);
    FoldedIs(sum, edx, n);
    ToppedIs(res);
  }

  lemma FoldBack(x: nat, edx: nat)
    requires x < U32 && edx < U32
    ensures ((x - edx) % U32 + edx) % U32 == x
  {
  }

  lemma FromStart(b: Bytes, ks: Bytes, iv: Word)
    ensures Chained(b, ks, iv) == [] + Chained(b[0..], ks[0..], iv)
    ensures Unchained(b, ks, iv) == [] + Unchained(b[0..], ks[0..], iv)
  {
    assert b[0..] == b && ks[0..] == ks;
  }

  class SsEncr {
    var key: nat
    var sentKey: nat
    const keystream: array<Byte>
    const keygen: Prng.SsLightPrng
    const prng: Prng.SsHeavyPrng

    ghost predicate Valid()
      reads this
    {
      keystream.Length == STREAM && key < U32 && ClientKey(sentKey)
    }

    ghost function Session(): Cipher
      reads this, keystream
    {
      Cipher(WordOf(key), keystream[..])
    }

    constructor ()
      ensures Valid() && key == 0 && sentKey == 0 && fresh(keystream) && fresh(prng) && fresh(keygen)
    {
      key := 0;
      sentKey := 0;
      keystream := new Byte[STREAM](_ => 0);
      keygen := new Prng.SsLightPrng();
      prng := new Prng.SsHeavyPrng();
    }

    /** A client key, made once from the clock and the light generator. */
    method GenerateKey(time: nat) returns (k: nat)
      requires Valid()
      modifies this`sentKey, keygen
      ensures Valid() && k == sentKey && key == old(key)
      ensures old(sentKey) != 0 ==> sentKey == old(sentKey) && keygen.s == old(keygen.s)
      ensures old(sentKey) == 0 ==>
                var s1 := Prng.LightNext(old(keygen.s));
                keygen.s == Prng.LightNext(s1)
                && sentKey == NewKey(time, Prng.LightValue(s1), Prng.LightValue(keygen.s))
    {
      if sentKey != 0 {
        return sentKey;
      }
      var edx := time * 0xCCCC_CCCD % U32;
      var high := keygen.GetNext();
      var low := keygen.GetNext();
      var res := (high * 0x1_0000 + edx / 8 + low) % U32;
      res := (Xor(res, edx, 32) - edx) % U32;
      if res <= 0x7FFF_FFFF {
        res := Negated(res);
      }
      NewKeyIsClientKey(time, high, low);
      sentKey := res;
      k := res;
    }

    method InitializeEncryption(serverKey: nat) returns (ok: bool)
      requires Valid() && serverKey < U32
      modifies this`key, keystream, prng
      ensures Valid() && ok == Answers(serverKey, sentKey)
      ensures !ok ==> key == old(key) && keystream[..] == old(keystream[..])
      ensures ok && serverKey == sentKey ==> forall m :: Encrypted(Session(), m) == m
      ensures ok && serverKey != sentKey ==>
                key == serverKey && forall i :: 0 <= i < STREAM ==> keystream[i] == KeystreamByte(serverKey, i)
    {
      ok := serverKey == sentKey || serverKey == Negated(sentKey);
      if !ok { return; }
      if sentKey == serverKey {
        key := 0;
        OnlyZeroIsZero(0);
        ClearKeystream();
      } else {
        key := serverKey;
        FillKeystream(serverKey);
      }
    }

    method ClearKeystream()
      modifies keystream
      ensures forall i :: 0 <= i < keystream.Length ==> keystream[i] == 0
    {
      var i := 0;
      while i < keystream.Length
        invariant 0 <= i <= keystream.Length
        invariant forall j :: 0 <= j < i ==> keystream[j] == 0
      {
        keystream[i] := 0;
        i := i + 1;
      }
    }

    method FillKeystream(seed: nat)
      requires keystream.Length == STREAM && seed < U32
      modifies keystream, prng
      ensures forall i :: 0 <= i < STREAM ==> keystream[i] == KeystreamByte(seed, i)
    {
      prng.Seed(seed);
      var i := 0;
      while i < STREAM / 2
        invariant 0 <= i <= STREAM / 2
        invariant prng.s == Prng.SeedAt(seed, i)
        invariant forall j :: 0 <= j < 2 * i ==> keystream[j] == KeystreamByte(seed, j)
      {
        var r := prng.GetNextE();
        LowBytes(prng.s);
        assert (2 * i) / 2 == i && (2 * i) % 2 == 0 && (2 * i + 1) / 2 == i && (2 * i + 1) % 2 == 1;
        keystream[2 * i], keystream[2 * i + 1] := (r % 0x100) as Byte, (r / 0x100) as Byte;
        i := i + 1;
      }
    }

    /** memcpy of x to index i. */
    static method Replace(msg: array<Byte>, i: nat, x: Bytes, ghost was: Bytes, ghost start: nat, ghost done: Bytes)
      requires i + |x| <= msg.Length && Rewritten(msg[..], was, start, done, i)
      modifies msg
      ensures Rewritten(msg[..], was, start, done + x, i + |x|)
    {
      ghost var now := msg[..];
      var j := 0;
      while j < |x|
        invariant 0 <= j <= |x|
        invariant forall p :: 0 <= p < msg.Length ==> msg[p] == if i <= p < i + j then x[p - i] else now[p]
      {
        msg[i + j] := x[j];
        j := j + 1;
      }
      assert msg[..] == now[..i] + x + now[i + |x|..];
      OneMore(now, was, start, done, i, x, msg[..]);
    }

    method Encrypt(msg: array<Byte>, len: nat)
      requires Valid() && 1 <= len <= msg.Length && len <= STREAM && msg != keystream
      modifies msg
      ensures msg[..] == Encrypted(Session(), old(msg[..len])) + old(msg[len..])
    {
      ghost var was := msg[..];
      OnlyZeroIsZero(key);
      if key == 0 {
        LeftAlone(Session(), was, len);
        return;
      }
      var i := 1;
      if msg[0] == 0 {
        if len <= 2 {
          LeftAlone(Session(), was, len);
          return;
        }
        i := i + 1;
      }
      ghost var done := EncryptFrom(msg, i, len);
      AllRewritten(Session(), msg[..], was, len, done);
    }

    /** The loop of Encrypt, from index start on: as many whole words as there are. */
    method EncryptWords(msg: array<Byte>, start: nat, len: nat, ghost ks: Bytes)
      returns (i: nat, ksi: nat, iv: Word, ghost done: Bytes)
      requires Valid() && 1 <= start <= len <= msg.Length && len <= STREAM && msg != keystream && ks == keystream[..]
      modifies msg
      ensures i == start + ksi <= len < i + 4 && ksi <= STREAM && (i < len ==> ksi + 4 <= STREAM)
      ensures var b := old(msg[start..len]);
              Chained(b, ks, WordOf(key)) == done + Chained(b[ksi..], ks[ksi..], iv)
      ensures Rewritten(msg[..], old(msg[..]), start, done, i)
    {
      ghost var was, blocks := msg[..], 0;
      ghost var b := was[start..len];
      assert msg[start..len] == b;
      ksi, i, iv := 0, start, WordOf(key);
      ghost var all := Chained(b, ks, iv);
      ghost var rest := all;
      done := [];
      FromStart(b, ks, iv);
      Untouched(was, start);
      while i + 4 <= len
        invariant ksi == 4 * blocks && i == start + ksi <= len
        invariant all == done + rest && rest == Chained(b[ksi..], ks[ksi..], iv)
        invariant Rewritten(msg[..], was, start, done, i)
      {
        iv, done, rest := EncryptWord(msg, i, ksi, iv, was, start, len, done, ks, rest);
        i := i + 4;
        ksi := ksi + 4;
        blocks := blocks + 1;
      }
      WordsInStream(blocks, ksi);
    }

    /** The loop of Encrypt and its tail, from index start on. */
    method EncryptFrom(msg: array<Byte>, start: nat, len: nat) returns (ghost done: Bytes)
      requires Valid() && 1 <= start <= len <= msg.Length && len <= STREAM && msg != keystream
      modifies msg
      ensures done == Chained(old(msg[start..len]), keystream[..], WordOf(key))
      ensures Rewritten(msg[..], old(msg[..]), start, done, len)
    {
      ghost var was := msg[..];
      var i, ksi, iv, words := EncryptWords(msg, start, len, keystream[..]);
      done := XorTail(msg, i, len, ksi, iv, was, start, words, keystream[..]);
    }

    /** One turn of the loop: the word at index i. */
    method EncryptWord(msg: array<Byte>, i: nat, ksi: nat, iv: Word,
                      ghost was: Bytes, ghost start: nat, ghost len: nat, ghost done: Bytes, ghost ks: Bytes,
                      ghost rest: Bytes)
      returns (next: Word, ghost more: Bytes, ghost left: Bytes)
      requires Valid() && i + 4 <= len <= msg.Length && ksi + 4 <= STREAM && msg != keystream && ks == keystream[..]
      requires i == start + ksi && Rewritten(msg[..], was, start, done, i)
      requires rest == Chained(was[start..len][ksi..], ks[ksi..], iv)
      modifies msg
      ensures |more| == |done| + 4 && Rewritten(msg[..], was, start, more, i + 4)
      ensures done + rest == more + left && left == Chained(was[start..len][ksi + 4..], ks[ksi + 4..], next)
    {
      ghost var b := was[start..len];
      NotYet(msg[..], was, start, done, i, 4, b);
      ChainStep(b, ks, ksi, iv);
      var c := GetWord(msg[i..i + 4]);
      var w := c.Xor(GetWord(keystream[ksi..ksi + 4])).Xor(iv);
      Replace(msg, i, w.Octets(), was, start, done);
      next, more := w, done + w.Octets();
      left := Chained(b[ksi + 4..], ks[ksi + 4..], next);
      ConcatAssociates(done, w.Octets(), left);
    }

    method Decrypt(msg: array<Byte>, len: nat)
      requires Valid() && 1 <= len <= msg.Length && len <= STREAM && msg != keystream
      modifies msg
      ensures msg[..] == Decrypted(Session(), old(msg[..len])) + old(msg[len..])
    {
      ghost var was := msg[..];
      OnlyZeroIsZero(key);
      if key == 0 {
        LeftAlone(Session(), was, len);
        return;
      }
      var i := 1;
      if msg[0] == 0 {
        if len <= 2 {
          LeftAlone(Session(), was, len);
          return;
        }
        i := i + 1;
      }
      ghost var done := DecryptFrom(msg, i, len);
      AllRewritten(Session(), msg[..], was, len, done);
    }

    /** The loop of Decrypt, from index start on: as many whole words as there are. */
    method DecryptWords(msg: array<Byte>, start: nat, len: nat, ghost ks: Bytes)
      returns (i: nat, ksi: nat, iv: Word, ghost done: Bytes)
      requires Valid() && 1 <= start <= len <= msg.Length && len <= STREAM && msg != keystream && ks == keystream[..]
      modifies msg
      ensures i == start + ksi <= len < i + 4 && ksi <= STREAM && (i < len ==> ksi + 4 <= STREAM)
      ensures var b := old(msg[start..len]);
              Unchained(b, ks, WordOf(key)) == done + Unchained(b[ksi..], ks[ksi..], iv)
      ensures Rewritten(msg[..], old(msg[..]), start, done, i)
    {
      ghost var was, blocks := msg[..], 0;
      ghost var b := was[start..len];
      assert msg[start..len] == b;
      ksi, i, iv := 0, start, WordOf(key);
      ghost var all := Unchained(b, ks, iv);
      ghost var rest := all;
      done := [];
      FromStart(b, ks, iv);
      Untouched(was, start);
      while i + 4 <= len
        invariant ksi == 4 * blocks && i == start + ksi <= len
        invariant all == done + rest && rest == Unchained(b[ksi..], ks[ksi..], iv)
        invariant Rewritten(msg[..], was, start, done, i)
      {
        iv, done, rest := DecryptWord(msg, i, ksi, iv, was, start, len, done, ks, rest);
        i := i + 4;
        ksi := ksi + 4;
        blocks := blocks + 1;
      }
      WordsInStream(blocks, ksi);
    }

    /** The loop of Decrypt and its tail, from index start on. */
    method DecryptFrom(msg: array<Byte>, start: nat, len: nat) returns (ghost done: Bytes)
      requires Valid() && 1 <= start <= len <= msg.Length && len <= STREAM && msg != keystream
      modifies msg
      ensures done == Unchained(old(msg[start..len]), keystream[..], WordOf(key))
      ensures Rewritten(msg[..], old(msg[..]), start, done, len)
    {
      ghost var was := msg[..];
      var i, ksi, iv, words := DecryptWords(msg, start, len, keystream[..]);
      done := XorTail(msg, i, len, ksi, iv, was, start, words, keystream[..]);
    }

    /** One turn of the loop: the word at index i. */
    method DecryptWord(msg: array<Byte>, i: nat, ksi: nat, iv: Word,
                      ghost was: Bytes, ghost start: nat, ghost len: nat, ghost done: Bytes, ghost ks: Bytes,
                      ghost rest: Bytes)
      returns (next: Word, ghost more: Bytes, ghost left: Bytes)
      requires Valid() && i + 4 <= len <= msg.Length && ksi + 4 <= STREAM && msg != keystream && ks == keystream[..]
      requires i == start + ksi && Rewritten(msg[..], was, start, done, i)
      requires rest == Unchained(was[start..len][ksi..], ks[ksi..], iv)
      modifies msg
      ensures |more| == |done| + 4 && Rewritten(msg[..], was, start, more, i + 4)
      ensures done + rest == more + left && left == Unchained(was[start..len][ksi + 4..], ks[ksi + 4..], next)
    {
      ghost var b := was[start..len];
      NotYet(msg[..], was, start, done, i, 4, b);
      UnchainStep(b, ks, ksi, iv);
      var c := GetWord(msg[i..i + 4]);
      var w := c.Xor(GetWord(keystream[ksi..ksi + 4])).Xor(iv);
      Replace(msg, i, w.Octets(), was, start, done);
      next, more := c, done + w.Octets();
      left := Unchained(b[ksi + 4..], ks[ksi + 4..], next);
      ConcatAssociates(done, w.Octets(), left);
    }

    /** The last bytes, fewer than four. */
    method XorTail(msg: array<Byte>, i: nat, len: nat, ksi: nat, iv: Word,
                   ghost was: Bytes, ghost start: nat, ghost done: Bytes, ghost ks: Bytes)
      returns (ghost more: Bytes)
      requires Valid() && i <= len < i + 4 && len <= msg.Length && (i < len ==> ksi + 4 <= STREAM) && ksi <= STREAM
      requires msg != keystream && ks == keystream[..] && i == start + ksi && Rewritten(msg[..], was, start, done, i)
      modifies msg
      ensures Rewritten(msg[..], was, start, more, len)
      ensures var b := was[start..len];
              more == done + Chained(b[ksi..], ks[ksi..], iv) == done + Unchained(b[ksi..], ks[ksi..], iv)
    {
      ghost var b := was[start..len];
      var diff := len - i;
      if diff == 0 {
        assert b[ksi..] == [] && done + [] == done;
        more := done;
      } else {
        NotYet(msg[..], was, start, done, i, diff, b);
        assert b[ksi..][..diff] == b[ksi..];
        TailStep(b, ks, ksi, iv);
        var w := GetWord(msg[i..len]).Xor(GetWord(keystream[ksi..ksi + 4])).Xor(iv);
        Replace(msg, i, w.Octets()[..diff], was, start, done);
        more := done + w.Octets()[..diff];
      }
    }
  }
}
