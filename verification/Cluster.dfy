/** Packing several short messages into one datagram, and unpacking them
    (mervbot/host.cpp, Host::sendClustered and Host::gotCluster; the length guard of mervbot/specialprot.cpp). */
module Cluster {
  import opened Bytes

  const PACKET_MAX_LENGTH: nat := 520
  const SMALL: nat := 255
  const CLUSTER_FULL: nat := 508

  /** The length byte in front of a clustered message. */
  function LengthByte(m: Bytes): Byte {
    (|m| % 256) as Byte
  }

  /** The datagram under construction: `body` is what follows its 00 0E header, `count` the messages in it;
      `out` the datagrams already sent. */
  datatype Packing = Packing(body: Bytes, count: nat, out: seq<Bytes>)

  const EMPTY: Packing := Packing([], 0, [])

  function Datagram(p: Packing): Bytes
    requires p.count == 1 ==> |p.body| > 0
  {
    if p.count == 1 then p.body[1..] else [0, 0x0E] + p.body
  }

  /** The datagram under construction is sent first if m does not fit into it. */
  function Room(p: Packing, m: Bytes): (q: Packing)
    requires p.count == 1 ==> |p.body| > 0
    ensures q.count == 1 ==> |q.body| > 0
  {
    if 2 + |p.body| + |m| > CLUSTER_FULL then Packing([], 0, p.out + [Datagram(p)]) else p
  }

  function PackOne(p: Packing, m: Bytes): (q: Packing)
    requires p.count == 1 ==> |p.body| > 0
    ensures q.count == 1 ==> |q.body| > 0
  {
    if |m| > SMALL then p.(out := p.out + [m])
    else
      var r := Room(p, m);
      Packing(r.body + [LengthByte(m)] + m, r.count + 1, r.out)
  }

  function PackAll(ms: seq<Bytes>): (p: Packing)
    ensures p.count == 1 ==> |p.body| > 0
  {
    if ms == [] then EMPTY else PackOne(PackAll(ms[..|ms| - 1]), ms[|ms| - 1])
  }

  function Finish(p: Packing): seq<Bytes>
    requires p.count == 1 ==> |p.body| > 0
  {
    if p.count == 0 then p.out else p.out + [Datagram(p)]
  }

  /** The datagrams sent for a list of messages. */
  function Pack(ms: seq<Bytes>): seq<Bytes> {
    Finish(PackAll(ms))
  }

  predicate IsCluster(d: Bytes) {
    |d| >= 2 && d[0] == 0 && d[1] == 0x0E
  }

  /** The messages gotCluster finds in the rest c of a cluster: it stops at a zero length
      or at one that overruns. */
  function UnpackCluster(c: Bytes): seq<Bytes>
    requires |c| > 0
  {
    var length := c[0] as int;
    if length == 0 || 1 + length > |c| then []
    else
      [c[1..1 + length]] + (if 1 + length < |c| then UnpackCluster(c[1 + length..]) else [])
  }

  /** The messages routed for one datagram; a cluster shorter than six bytes is ignored. */
  function Unpack(d: Bytes): seq<Bytes> {
    if !IsCluster(d) then [d]
    else if |d| >= 6 then UnpackCluster(d[2..])
    else []
  }

  function UnpackAll(ds: seq<Bytes>): seq<Bytes> {
    if ds == [] then [] else UnpackAll(ds[..|ds| - 1]) + Unpack(ds[|ds| - 1])
  }

  /** The messages of at most SMALL bytes (or the longer ones), in order. */
  function Keep(ms: seq<Bytes>, small: bool): seq<Bytes> {
    if ms == [] then []
    else Keep(ms[..|ms| - 1], small) + (if (|ms[|ms| - 1]| <= SMALL) == small then [ms[|ms| - 1]] else [])
  }

  predicate Packable(m: Bytes) {
    1 <= |m| <= 514 && !IsCluster(m)
  }

  // ---------- Unpacking undoes packing ----------

  ghost predicate AllShort(ms: seq<Bytes>) {
    forall k :: 0 <= k < |ms| ==> |ms[k]| <= SMALL && Packable(ms[k])
  }

  lemma AllShortAppend(ms: seq<Bytes>, m: Bytes)
    requires AllShort(ms) && |m| <= SMALL && Packable(m)
    ensures AllShort(ms + [m])
  {
  }

  function Encode(ms: seq<Bytes>): Bytes {
    if ms == [] then [] else [LengthByte(ms[0])] + ms[0] + Encode(ms[1..])
  }

  lemma {:induction false} EncodeAppend(ms: seq<Bytes>, m: Bytes)
    ensures Encode(ms + [m]) == Encode(ms) + [LengthByte(m)] + m
  {
    if ms == [] {
      assert Encode([m][1..]) == [];
    } else {
      assert (ms + [m])[1..] == ms[1..] + [m];
      EncodeAppend(ms[1..], m);
      ConcatAssociates([LengthByte(ms[0])] + ms[0], Encode(ms[1..]) + [LengthByte(m)], m);
      ConcatAssociates([LengthByte(ms[0])] + ms[0], Encode(ms[1..]), [LengthByte(m)]);
    }
  }

  lemma Parts<T>(b: T, m: seq<T>, rest: seq<T>)
    ensures ([b] + m + rest)[0] == b
    ensures ([b] + m + rest)[1..1 + |m|] == m
    ensures ([b] + m + rest)[1 + |m|..] == rest
  {
  }

  lemma {:induction false} EncodeUnpacks(ms: seq<Bytes>)
    requires ms != [] && AllShort(ms)
    ensures Encode(ms) != [] && UnpackCluster(Encode(ms)) == ms
  {
    var m, b, rest := ms[0], LengthByte(ms[0]), Encode(ms[1..]);
    Parts(b, m, rest);
    SplitFirst(ms);
    if ms[1..] == [] {
      assert rest == [];
    } else {
      assert AllShort(ms[1..]);
      EncodeUnpacks(ms[1..]);
    }
  }

  lemma {:induction false} EncodeLength(ms: seq<Bytes>)
    requires AllShort(ms)
    ensures |Encode(ms)| >= 2 * |ms|
  {
    if ms != [] {
      EncodeLength(ms[1..]);
    }
  }

  lemma {:induction false} KeepConcat(a: seq<Bytes>, b: seq<Bytes>, small: bool)
    ensures Keep(a + b, small) == Keep(a, small) + Keep(b, small)
    decreases |b|
  {
    if b == [] {
      assert a + b == a;
    } else {
      assert (a + b)[..|a + b| - 1] == a + b[..|b| - 1];
      KeepConcat(a, b[..|b| - 1], small);
    }
  }

  lemma KeepOne(m: Bytes, small: bool)
    ensures Keep([m], small) == if (|m| <= SMALL) == small then [m] else []
  {
    assert [m][..0] == [];
  }

  lemma {:induction false} KeepSmall(ms: seq<Bytes>)
    requires AllShort(ms)
    ensures Keep(ms, true) == ms && Keep(ms, false) == []
  {
    if ms != [] {
      KeepSmall(ms[..|ms| - 1]);
      SplitLast(ms);
    }
  }

  lemma UnpackAllAppend(ds: seq<Bytes>, d: Bytes)
    ensures UnpackAll(ds + [d]) == UnpackAll(ds) + Unpack(d)
  {
    assert (ds + [d])[..|ds|] == ds;
  }

  /** The datagram under construction holds exactly `pending`. */
  ghost predicate Holds(p: Packing, pending: seq<Bytes>) {
    && AllShort(pending)
    && p.body == Encode(pending) && p.count == |pending| && |p.body| <= CLUSTER_FULL - 1
  }

  lemma ClusterUnpacks(body: Bytes, pending: seq<Bytes>)
    requires |pending| > 1 && AllShort(pending)
    requires body == Encode(pending)
    ensures Unpack([0, 0x0E] + body) == pending
  {
    var d := [0, 0x0E] + body;
    EncodeLength(pending);
    EncodeUnpacks(pending);
    assert d[2..] == body;
  }

  lemma DatagramUnpacks(p: Packing, pending: seq<Bytes>)
    requires Holds(p, pending) && pending != []
    ensures |p.body| > 0 && 1 <= |Datagram(p)| <= 514 && Unpack(Datagram(p)) == pending
  {
    if |pending| == 1 {
      assert Encode(pending[1..]) == [];
      assert Datagram(p) == pending[0];
    } else {
      EncodeLength(pending);
      ClusterUnpacks(p.body, pending);
    }
  }

  ghost predicate Sized(ds: seq<Bytes>) {
    forall k :: 0 <= k < |ds| ==> 1 <= |ds[k]| <= 514
  }

  lemma KeepAppended(u: seq<Bytes>, pending: seq<Bytes>)
    requires AllShort(pending)
    ensures Keep(u + pending, true) == Keep(u, true) + pending
    ensures Keep(u + pending, false) == Keep(u, false)
  {
    KeepConcat(u, pending, true);
    KeepConcat(u, pending, false);
    KeepSmall(pending);
  }

  /** Sending the datagram under construction adds its messages to the unpacked ones. */
  lemma FlushKeeps(p: Packing, pending: seq<Bytes>)
    requires Holds(p, pending) && pending != [] && Sized(p.out)
    ensures |p.body| > 0
    ensures Sized(p.out + [Datagram(p)])
    ensures Keep(UnpackAll(p.out + [Datagram(p)]), true) == Keep(UnpackAll(p.out), true) + pending
    ensures Keep(UnpackAll(p.out + [Datagram(p)]), false) == Keep(UnpackAll(p.out), false)
  {
    DatagramUnpacks(p, pending);
    UnpackAllAppend(p.out, Datagram(p));
    KeepAppended(UnpackAll(p.out), pending);
  }

  /** What has been sent and what is pending are together the messages packed so far. */
  ghost predicate Packed(p: Packing, pending: seq<Bytes>, ms: seq<Bytes>) {
    && Holds(p, pending) && Sized(p.out)
    && Keep(UnpackAll(p.out), true) + pending == Keep(ms, true)
    && Keep(UnpackAll(p.out), false) == Keep(ms, false)
  }

  lemma KeepLong(u: seq<Bytes>, m: Bytes)
    requires |m| > SMALL
    ensures Keep(u + [m], true) == Keep(u, true)
    ensures Keep(u + [m], false) == Keep(u, false) + [m]
  {
    KeepConcat(u, [m], true);
    KeepConcat(u, [m], false);
    KeepOne(m, true);
    KeepOne(m, false);
  }

  lemma LongStep(p: Packing, pending: seq<Bytes>, ms: seq<Bytes>, m: Bytes)
    requires Packed(p, pending, ms) && Packable(m) && |m| > SMALL
    requires p.count == 1 ==> |p.body| > 0
    ensures Packed(PackOne(p, m), pending, ms + [m])
  {
    UnpackAllAppend(p.out, m);
    KeepLong(UnpackAll(p.out), m);
    KeepLong(ms, m);
  }

  lemma HoldsOneMore(p: Packing, pending: seq<Bytes>, m: Bytes)
    requires Holds(p, pending) && Packable(m) && |m| <= SMALL && 2 + |p.body| + |m| <= CLUSTER_FULL
    ensures Holds(Packing(p.body + [LengthByte(m)] + m, p.count + 1, p.out), pending + [m])
  {
    EncodeAppend(pending, m);
    AllShortAppend(pending, m);
  }

  lemma KeepShort(u: seq<Bytes>, m: Bytes)
    requires |m| <= SMALL
    ensures Keep(u + [m], true) == Keep(u, true) + [m]
    ensures Keep(u + [m], false) == Keep(u, false)
  {
    KeepConcat(u, [m], true);
    KeepConcat(u, [m], false);
    KeepOne(m, true);
    KeepOne(m, false);
  }

  lemma RoomStep(p: Packing, pending: seq<Bytes>, ms: seq<Bytes>, m: Bytes)
    requires Packed(p, pending, ms) && Packable(m) && |m| <= SMALL
    requires 2 + |p.body| + |m| <= CLUSTER_FULL
    ensures Packed(Packing(p.body + [LengthByte(m)] + m, p.count + 1, p.out), pending + [m], ms + [m])
  {
    HoldsOneMore(p, pending, m);
    KeepShort(ms, m);
    ConcatAssociates(Keep(UnpackAll(p.out), true), pending, [m]);
  }

  lemma {:induction false} PackAllHolds(ms: seq<Bytes>) returns (pending: seq<Bytes>)
    requires forall k :: 0 <= k < |ms| ==> Packable(ms[k])
    ensures Packed(PackAll(ms), pending, ms)
  {
    if ms == [] {
      pending := [];
    } else {
      var before, m := ms[..|ms| - 1], ms[|ms| - 1];
      SplitLast(ms);
      var p := PackAll(before);
      pending := PackAllHolds(before);
      if |m| > SMALL {
        LongStep(p, pending, before, m);
      } else if 2 + |p.body| + |m| > CLUSTER_FULL {
        FlushKeeps(p, pending);
        var r := Packing([], 0, p.out + [Datagram(p)]);
        assert Keep(UnpackAll(r.out), true) + [] == Keep(before, true);
        RoomStep(r, [], before, m);
        pending := [] + [m];
      } else {
        RoomStep(p, pending, before, m);
        pending := pending + [m];
      }
    }
  }

  /** Packing and unpacking reorders short messages against long ones only,
      and no datagram is longer than its buffer. */
  lemma PackUnpack(ms: seq<Bytes>)
    requires forall k :: 0 <= k < |ms| ==> Packable(ms[k])
    ensures Keep(UnpackAll(Pack(ms)), true) == Keep(ms, true)
    ensures Keep(UnpackAll(Pack(ms)), false) == Keep(ms, false)
    ensures Sized(Pack(ms))
  {
    var pending := PackAllHolds(ms);
    if PackAll(ms).count != 0 {
      FlushKeeps(PackAll(ms), pending);
    }
  }

  lemma {:induction false} KeepMultiset(ms: seq<Bytes>)
    ensures multiset(ms) == multiset(Keep(ms, true)) + multiset(Keep(ms, false))
  {
    if ms != [] {
      KeepMultiset(ms[..|ms| - 1]);
      SplitLast(ms);
    }
  }

  /** No message is lost, invented or doubled by clustering. */
  lemma PackPermutes(ms: seq<Bytes>)
    requires forall k :: 0 <= k < |ms| ==> Packable(ms[k])
    ensures multiset(UnpackAll(Pack(ms))) == multiset(ms)
  {
    PackUnpack(ms);
    KeepMultiset(ms);
    KeepMultiset(UnpackAll(Pack(ms)));
  }

  // ---------- What goes into a datagram ----------

  /** Messages of up to 255 bytes, together at most 507 with a length byte for each. */
  ghost predicate FitTogether(ms: seq<Bytes>) {
    |Encode(ms)| <= 507 && forall k :: 0 <= k < |ms| ==> 1 <= |ms[k]| <= 255
  }

  lemma EncodeLast(ms: seq<Bytes>, n: nat)
    requires n + 1 == |ms|
    ensures Encode(ms) == Encode(ms[..n]) + [LengthByte(ms[n])] + ms[n]
  {
    EncodeAppend(ms[..n], ms[n]);
    SplitLast(ms);
  }

  lemma {:induction false} PackedTogether(ms: seq<Bytes>)
    requires FitTogether(ms)
    ensures PackAll(ms) == Packing(Encode(ms), |ms|, [])
  {
    if ms != [] {
      var n := |ms| - 1;
      EncodeLast(ms, n);
      PackedTogether(ms[..n]);
    }
  }

  /** The datagram that carries these messages: a single one goes alone, several get the header 00 0E and their
      lengths. */
  function Carrying(ms: seq<Bytes>): seq<Bytes> {
    if ms == [] then [] else if |ms| == 1 then ms else [[0, 0x0E] + Encode(ms)]
  }

  lemma DropLength<T>(b: T, m: seq<T>)
    ensures ([b] + m + [])[1..] == m
  {
  }

  lemma EncodeFirst(ms: seq<Bytes>)
    requires ms != []
    ensures Encode(ms) == [LengthByte(ms[0])] + ms[0] + Encode(ms[1..])
  {
  }

  lemma FinishedOne(p: Packing, ms: seq<Bytes>)
    requires p.body == Encode(ms) && p.count == |ms| == 1
    ensures |p.body| > 0 && Datagram(p) == ms[0]
  {
    EncodeFirst(ms);
    DropLength(LengthByte(ms[0]), ms[0]);
  }

  lemma FinishedIs(p: Packing, ms: seq<Bytes>)
    requires p.body == Encode(ms) && p.count == |ms|
    ensures ms != [] ==> |p.body| > 0 && [Datagram(p)] == Carrying(ms)
    ensures Finish(p) == p.out + Carrying(ms)
  {
    if ms == [] {
      ConcatEmpty(p.out);
    } else if |ms| == 1 {
      FinishedOne(p, ms);
    } else {
      EncodeFirst(ms);
    }
  }

  /** From the same datagram under construction on, the same is sent. */
  lemma {:induction false} SentBefore(a: seq<Bytes>, b: seq<Bytes>, done: seq<Bytes>, rest: seq<Bytes>)
    requires PackAll(a) == PackAll(b).(out := done + PackAll(b).out)
    ensures PackAll(a + rest) == PackAll(b + rest).(out := done + PackAll(b + rest).out)
    decreases |rest|
  {
    if rest == [] {
      ConcatEmpty(a);
      ConcatEmpty(b);
    } else {
      var n := |rest| - 1;
      SentBefore(a, b, done, rest[..n]);
      assert (a + rest)[..|a + rest| - 1] == a + rest[..n];
      assert (b + rest)[..|b + rest| - 1] == b + rest[..n];
      PackOnOut(PackAll(b + rest[..n]), done, rest[n]);
    }
  }

  lemma PackOnOut(p: Packing, done: seq<Bytes>, m: Bytes)
    requires p.count == 1 ==> |p.body| > 0
    ensures PackOne(p.(out := done + p.out), m) == PackOne(p, m).(out := done + PackOne(p, m).out)
  {
    var p' := p.(out := done + p.out);
    if |m| > SMALL {
      ConcatAssociates(done, p.out, [m]);
    } else if 2 + |p.body| + |m| > CLUSTER_FULL {
      ConcatAssociates(done, p.out, [Datagram(p)]);
      assert Datagram(p') == Datagram(p);
    }
  }

  lemma PackSentBefore(a: seq<Bytes>, b: seq<Bytes>, done: seq<Bytes>, rest: seq<Bytes>)
    requires PackAll(a) == PackAll(b).(out := done + PackAll(b).out)
    ensures Pack(a + rest) == done + Pack(b + rest)
  {
    SentBefore(a, b, done, rest);
    var q := PackAll(b + rest);
    if q.count != 0 {
      ConcatAssociates(done, q.out, [Datagram(q)]);
    }
  }

  lemma PackAllAppend(ms: seq<Bytes>, m: Bytes)
    ensures PackAll(ms + [m]) == PackOne(PackAll(ms), m)
  {
    assert (ms + [m])[..|ms|] == ms;
  }

  /** Messages that fit together go into one datagram. */
  lemma OneDatagram(ms: seq<Bytes>)
    requires FitTogether(ms)
    ensures Pack(ms) == Carrying(ms)
  {
    PackedTogether(ms);
    FinishedIs(PackAll(ms), ms);
    ConcatEmpty(Carrying(ms));
  }

  /** The first one that does not fit begins the next datagram. */
  lemma NextDatagram(ms: seq<Bytes>, m: Bytes, rest: seq<Bytes>)
    requires FitTogether(ms) && |m| <= 255 && |Encode(ms)| + |m| > 506
    ensures Pack(ms + [m] + rest) == Carrying(ms) + Pack([m] + rest)
  {
    PackedTogether(ms);
    PackAllAppend(ms, m);
    PackAllAppend([], m);
    assert [] + [m] == [m];
    FinishedIs(PackAll(ms), ms);
    PackSentBefore(ms + [m], [m], Carrying(ms), rest);
  }

  /** A message of more than 255 bytes is sent at once, alone, before those that wait. */
  lemma LongAlone(ms: seq<Bytes>, m: Bytes, rest: seq<Bytes>)
    requires FitTogether(ms) && |m| > 255
    ensures Pack(ms + [m] + rest) == [m] + Pack(ms + rest)
  {
    PackedTogether(ms);
    PackAllAppend(ms, m);
    PackSentBefore(ms + [m], ms, [m], rest);
  }

  // ---------- Where unpacking stops ----------

  lemma UnpackOne(m: Bytes, tail: Bytes)
    requires 1 <= |m| <= 255 && tail != []
    ensures UnpackCluster([LengthByte(m)] + m + tail) == [m] + UnpackCluster(tail)
  {
    Parts(LengthByte(m), m, tail);
  }

  /** Unpacking stops at a zero length, and at one that is more than what is left. */
  lemma {:induction false} UnpackStops(ms: seq<Bytes>, b: Byte, rest: Bytes)
    requires AllShort(ms) && (b == 0 || b as int > |rest|)
    ensures UnpackCluster(Encode(ms) + ([b] + rest)) == ms
    decreases |ms|
  {
    if ms == [] {
      ConcatEmpty([b] + rest);
    } else {
      var m, tail := ms[0], Encode(ms[1..]) + ([b] + rest);
      UnpackStops(ms[1..], b, rest);
      EncodeFirst(ms);
      ConcatAssociates([LengthByte(m)] + m, Encode(ms[1..]), [b] + rest);
      UnpackOne(m, tail);
      SplitFirst(ms);
    }
  }

  /** A datagram is a cluster if it begins with 00 0E; one of less than six bytes is ignored, any other datagram is
      one message. */
  lemma UnpackIs(d: Bytes, ms: seq<Bytes>, b: Byte, rest: Bytes)
    requires AllShort(ms) && (b == 0 || b as int > |rest|) && d == [0, 0x0E] + (Encode(ms) + ([b] + rest))
    ensures Unpack(d) == if |d| < 6 then [] else ms
  {
    UnpackStops(ms, b, rest);
    assert d[2..] == Encode(ms) + ([b] + rest);
  }
}
