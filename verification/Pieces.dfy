/** The lengths at which messages are cut, and the limits of the transfer buffers, in plain numbers: what each piece
    is, and which transfers are handed up, however they are cut. */
module Pieces {
  import opened Bytes
  import opened Chunk
  import opened Reassembly

  // ---------- Where a message is cut ----------

  /** Up to 508 bytes a message travels in one piece; up to 1000 it is cut once, after 500 bytes. */
  lemma SmallPieces(m: Bytes)
    requires |m| <= 1000
    ensures Payloads(m) == if |m| <= 508 then [m] else [[0, 0x08] + m[..500], [0, 0x09] + m[500..]]
  {
    if |m| > 508 {
      assert LittleFragments(m, 0) == [[0, 0x08] + m[..500]] + LittleFragments(m, 500);
      assert LittleFragments(m, 500) == [[0, 0x09] + m[500..]];
    }
  }

  lemma {:induction false} BigPiecesFrom(m: Bytes, i: nat, k: nat)
    requires i + 496 * k < |m|
    ensures var f := BigFragments(m, i);
            && |f| > k && f[k] == [0, 0x0A] + Long(|m|) + m[i + 496 * k..Min(i + 496 * k + 496, |m|)]
            && (|f| > k + 1 <==> i + 496 * k + 496 < |m|)
    decreases k
  {
    if k > 0 {
      BigPiecesFrom(m, i + 496, k - 1);
    }
  }

  /** A longer one is cut every 496 bytes, and each piece says how long the message is. */
  lemma BigPieces(m: Bytes, k: nat)
    requires |m| > 1000 && 496 * k < |m|
    ensures var f := Payloads(m);
            && |f| > k && f[k] == [0, 0x0A] + Long(|m|) + m[496 * k..Min(496 * k + 496, |m|)]
            && (|f| > k + 1 <==> 496 * k + 496 < |m|)
  {
    BigPiecesFrom(m, 0, k);
  }

  // ---------- Any pieces ----------

  function Joined(ps: seq<Bytes>): Bytes {
    if ps == [] then [] else Joined(ps[..|ps| - 1]) + ps[|ps| - 1]
  }

  /** No message of the stream but these four kinds means anything to a transfer. */
  lemma Routed(s: Assembly, p: Bytes, total: nat)
    requires p != [] && total < U32
    ensures Deliver(s, [0, 0x08] + p) == s.(little := Deliver(s, [0, 0x08] + p).little)
    ensures var t := if |Content(s.little)| + |p| <= 1_000_000 then Some(Content(s.little) + p) else s.little;
            && Deliver(s, [0, 0x08] + p).little == t
            && Deliver(s, [0, 0x09] + p).little == None
            && (t.Some? && IsApplication(t.value) ==> Deliver(s, [0, 0x09] + p).log == s.log + [t.value])
    ensures Deliver(s, [0, 0x0A] + Long(total) + p) == GotBigChunk(s, total, p)
  {
    LongRoundTrip([0, 0x0A], total, p);
    assert ([0, 0x08] + p)[2..] == p && ([0, 0x09] + p)[2..] == p;
    assert ([0, 0x0A] + Long(total) + p)[6..] == p;
  }

  /** Any other message that begins with a zero byte leaves the transfers alone, and so does an empty one. */
  lemma NotRouted(s: Assembly, m: Bytes)
    requires m != [] ==> m[0] == 0
    requires |m| < 3 || (m[1] != 8 && m[1] != 9 && (|m| < 7 || m[1] != 10))
    ensures Deliver(s, m) == s
  {
  }

  predicate Solid(ps: seq<Bytes>) {
    forall i :: 0 <= i < |ps| ==> ps[i] != []
  }

  function Bodies(ps: seq<Bytes>): seq<Bytes> {
    if ps == [] then [] else Bodies(ps[..|ps| - 1]) + [[0, 0x08] + ps[|ps| - 1]]
  }

  lemma {:induction false} BodiesKept(s: Assembly, ps: seq<Bytes>)
    requires Solid(ps) && s.little == None
    ensures var t := DeliverAll(s, Bodies(ps));
            && t == s.(little := t.little)
            && |Content(t.little)| <= 1_000_000 && |Content(t.little)| <= |Joined(ps)|
            && (|Joined(ps)| <= 1_000_000 ==> Content(t.little) == Joined(ps))
    decreases |ps|
  {
    if ps != [] {
      var n := |ps| - 1;
      BodiesKept(s, ps[..n]);
      DeliverOneMore(s, Bodies(ps[..n]), [0, 0x08] + ps[n]);
      Routed(DeliverAll(s, Bodies(ps[..n])), ps[n], 0);
    }
  }

  /** A small transfer hands up its pieces joined, however it was cut, exactly if they are at most 1,000,000
      bytes. */
  lemma SmallTransferIff(s: Assembly, ps: seq<Bytes>, tail: Bytes)
    requires Solid(ps) && tail != [] && s.little == None && IsApplication(Joined(ps) + tail)
    ensures DeliverAll(s, Bodies(ps) + [[0, 0x09] + tail]).log == s.log + [Joined(ps) + tail]
       <==> |Joined(ps) + tail| <= 1_000_000
  {
    var t := DeliverAll(s, Bodies(ps));
    BodiesKept(s, ps);
    DeliverOneMore(s, Bodies(ps), [0, 0x09] + tail);
    Routed(t, tail, 0);
    var u := Deliver(t, [0, 0x09] + tail);
    assert ([0, 0x09] + tail)[2..] == tail;
    if |Joined(ps) + tail| > 1_000_000 {
      assert u.log == s.log || |u.log[|s.log|]| <= 1_000_000;
    }
  }

  function Chunks(ps: seq<Bytes>, total: nat): seq<Bytes> {
    if ps == [] then [] else Chunks(ps[..|ps| - 1], total) + [[0, 0x0A] + Long(total) + ps[|ps| - 1]]
  }

  /** Nothing of this transfer has come in: no big transfer is running, or one of another length. */
  predicate Ready(s: Assembly, total: nat) {
    s.ftLength != total && (s.ftLength == 0 ==> s.large == None)
  }

  /** What has come in of it. */
  ghost predicate Underway(s: Assembly, t: Assembly, total: nat, m: Bytes) {
    && t == s.(large := t.large, ftLength := total)
    && |Content(t.large)| <= 5_000_000 && |Content(t.large)| <= |m|
    && (|m| <= 5_000_000 ==> Content(t.large) == m)
  }

  lemma NextChunk(s: Assembly, t: Assembly, total: nat, m: Bytes, p: Bytes)
    requires Ready(s, total) && (if m == [] then t == s else Underway(s, t, total, m))
    requires p != [] && |m + p| <= total < U32 && IsApplication(m + p)
    ensures var u := Deliver(t, [0, 0x0A] + Long(total) + p);
            if |m + p| < total then Underway(s, u, total, m + p)
            else u.log == s.log + [m + p] <==> |m + p| <= 5_000_000
    ensures |m + p| == total <= 5_000_000 ==>
              Deliver(t, [0, 0x0A] + Long(total) + p) == s.(large := None, ftLength := 0, log := s.log + [m + p])
  {
    Routed(t, p, total);
  }

  lemma {:induction false} ChunksTaken(s: Assembly, ps: seq<Bytes>, total: nat)
    requires Solid(ps) && Ready(s, total) && |Joined(ps)| < total < U32 && (ps != [] ==> ps[0][0] != 0)
    ensures var t := DeliverAll(s, Chunks(ps, total));
            if ps == [] then t == s else Underway(s, t, total, Joined(ps)) && IsApplication(Joined(ps))
    decreases |ps|
  {
    if ps != [] {
      var n := |ps| - 1;
      var t := DeliverAll(s, Chunks(ps[..n], total));
      ChunksTaken(s, ps[..n], total);
      DeliverOneMore(s, Chunks(ps[..n], total), [0, 0x0A] + Long(total) + ps[n]);
      NextChunk(s, t, total, Joined(ps[..n]), ps[n]);
    }
  }

  /** A big transfer hands up its pieces joined, however it was cut and whatever shorter or longer transfer was
      running, exactly if they are at most 5,000,000 bytes. */
  lemma BigTransferIff(s: Assembly, ps: seq<Bytes>, tail: Bytes, m: Bytes)
    requires m == Joined(ps) + tail && Solid(ps + [tail]) && (ps + [tail])[0][0] != 0 && |m| < U32
    requires Ready(s, |m|)
    ensures var t := DeliverAll(s, Chunks(ps, |m|) + [[0, 0x0A] + Long(|m|) + tail]);
            && (t.log == s.log + [m] <==> |m| <= 5_000_000)
            && (|m| <= 5_000_000 ==> t == s.(large := None, ftLength := 0, log := s.log + [m]))
  {
    assert (ps + [tail])[|ps|] == tail;
    forall i | 0 <= i < |ps|
      ensures ps[i] != []
    {
      assert (ps + [tail])[i] == ps[i];
    }
    assert ps != [] ==> (ps + [tail])[0] == ps[0];
    ChunksTaken(s, ps, |m|);
    DeliverOneMore(s, Chunks(ps, |m|), [0, 0x0A] + Long(|m|) + tail);
    NextChunk(s, DeliverAll(s, Chunks(ps, |m|)), |m|, Joined(ps), tail);
  }

  /** A big transfer that gets more than it announced is dropped, and one of another length replaces it. */
  lemma Dropped(s: Assembly, p: Bytes, total: nat)
    requires p != [] && 0 < total < U32
    ensures s.ftLength == total && total < |Content(s.large)| + |p| <= 5_000_000 ==>
              Deliver(s, [0, 0x0A] + Long(total) + p) == s.(large := None, ftLength := 0)
    ensures s.ftLength != 0 && s.ftLength != total && |p| < total && |p| <= 5_000_000 ==>
              Deliver(s, [0, 0x0A] + Long(total) + p) == s.(large := Some(p), ftLength := total)
  {
    Routed(s, p, total);
    ConcatEmpty(p);
  }
}
