/** Bounded progress: a round in which nothing is lost empties up to fifteen places of the outbox. */
module Progress {
  import opened Bytes
  import opened Reassembly
  import opened Cluster
  import opened Encrypt
  import opened Transport
  import opened Session
  import opened Runs

  /** The messages of a host's outbox that are not acknowledged. */
  function Outstanding(x: HostState): nat {
    |x.sent| + |x.queued|
  }

  // ---------- The ids of messages ----------

  function IdOf(m: Bytes): nat {
    if |m| >= 6 then GetLong(m, 2) else 0
  }

  ghost function Ids(ms: seq<Bytes>): set<nat> {
    set m | m in ms :: IdOf(m)
  }

  ghost function SentIds(x: HostState): set<nat> {
    set r | r in x.sent :: r.id
  }

  lemma IdsAppend(ms: seq<Bytes>, m: Bytes)
    ensures Ids(ms + [m]) == Ids(ms) + {IdOf(m)}
  {
  }

  lemma SentIdsHas(x: HostState, id: nat)
    ensures id in SentIds(x) <==> Has(x.sent, id)
  {
    HasIff(x.sent, id);
  }

  lemma {:induction false} DistinctCount(rs: seq<Reliable>)
    requires Distinct(rs)
    ensures |set r | r in rs :: r.id| == |rs|
  {
    if rs == [] {
      assert (set r | r in rs :: r.id) == {};
    } else {
      var rest, r := rs[..|rs| - 1], rs[|rs| - 1];
      DistinctCount(rest);
      SplitLast(rs);
      assert r.id !in (set q | q in rest :: q.id);
      assert (set q | q in rs :: q.id) == (set q | q in rest :: q.id) + {r.id};
    }
  }

  lemma IdsOfPermutation(a: seq<Bytes>, b: seq<Bytes>)
    requires multiset(a) == multiset(b)
    ensures Ids(a) == Ids(b)
  {
    forall m
      ensures m in a <==> m in b
    {
      InPermutation(a, b, m);
    }
  }

  // ---------- Acknowledging everything in flight ----------

  /** From x to g exactly the messages `done` were retired, and the messages that left the queue are in flight. */
  ghost predicate Retired(x: HostState, g: HostState, done: set<nat>) {
    && g.localSent >= x.localSent
    && (forall id: nat :: id < x.localSent ==> (Has(g.sent, id) <==> Has(x.sent, id) && id !in done))
    && (forall id: nat :: x.localSent <= id < g.localSent ==> Has(g.sent, id))
    && Outstanding(g) == Outstanding(x) - |done|
  }

  lemma CheckSentAdvances(x: HostState, s: seq<Bytes>, id: nat, now: nat)
    requires Outbox(x, s)
    ensures CheckSent(x, id, now).localSent >= x.localSent
  {
    var i := Find(x.sent, id);
    if i < |x.sent| {
      AckOpens(x, s, i);
      SendNextMoves(x.(sent := Remove(x.sent, i)), s, now);
    }
  }

  lemma RetireCount(x: HostState, h: HostState, g: HostState, done: set<nat>, id: nat)
    requires Retired(x, h, done) && Has(x.sent, id) && id < x.localSent
    requires Outstanding(g) == Outstanding(h) - if Has(h.sent, id) then 1 else 0
    ensures Outstanding(g) == Outstanding(x) - |done + {id}|
  {
    if id in done {
      assert done + {id} == done;
    }
  }

  /** What one acknowledgement retires, from h to g, is retired from x to g too. */
  lemma RetiredOn(x: HostState, h: HostState, g: HostState, done: set<nat>, id: nat)
    requires Retired(x, h, done) && Has(x.sent, id) && id < x.localSent && g.localSent >= h.localSent
    requires forall j :: Held(g, j) <==> Held(h, j) && (j != id || !Has(h.sent, id))
    requires Outstanding(g) == Outstanding(h) - if Has(h.sent, id) then 1 else 0
    ensures Retired(x, g, done + {id})
  {
    RetireCount(x, h, g, done, id);
    forall j: nat
      ensures j < x.localSent ==> (Has(g.sent, j) <==> Has(x.sent, j) && j !in done + {id})
      ensures x.localSent <= j < g.localSent ==> Has(g.sent, j)
    {
      assert Held(g, j) <==> Held(h, j) && (j != id || !Has(h.sent, id));
    }
  }

  lemma RetireOne(x: HostState, h: HostState, s: seq<Bytes>, done: set<nat>, id: nat, now: nat)
    requires Window(x) && Outbox(h, s) && Retired(x, h, done) && Has(x.sent, id)
    ensures Retired(x, CheckSent(h, id, now), done + {id})
  {
    HasIff(x.sent, id);
    CheckSentOutbox(h, s, id, now);
    CheckSentAdvances(h, s, id, now);
    RetiredOn(x, h, CheckSent(h, id, now), done, id);
  }

  /** Taking in acknowledgements of messages in flight, in any order and with repetitions, retires exactly
      those messages; the first ones of the queue take their slots. */
  lemma {:induction false} AcksRetire(x: HostState, s: seq<Bytes>, y: HostState, t: seq<Bytes>, ms: seq<Bytes>,
                                      now: nat)
    requires Pair(x, s, y, t)
    requires AllFine(y, t, ms) && forall i :: 0 <= i < |ms| ==> IsAck(ms[i], y)
    requires forall i :: 0 <= i < |ms| ==> Has(x.sent, IdOf(ms[i]))
    ensures Retired(x, GotMessages(x, ms, now), Ids(ms)) && Outbox(GotMessages(x, ms, now), s)
    decreases |ms|
  {
    if ms == [] {
      assert Ids(ms) == {};
    } else {
      var before, m := ms[..|ms| - 1], ms[|ms| - 1];
      SplitLast(ms);
      IdsAppend(before, m);
      AcksRetire(x, s, y, t, before, now);
      GotMessagesKeeps(x, s, y, t, ms, now);
      RetireOne(x, GotMessages(x, before, now), s, Ids(before), IdOf(m), now);
    }
  }

  // ---------- Sending everything in flight again ----------

  ghost predicate AllExpired(x: HostState, now: nat) {
    forall i :: 0 <= i < |x.sent| ==> Expired(x, x.sent[i], now)
  }

  function Messages(rs: seq<Reliable>): seq<Bytes> {
    if rs == [] then [] else [rs[0].msg] + Messages(rs[1..])
  }

  /** With a cluster open, resending an expired message puts it into the cluster and renews its time. */
  lemma ResendsOne(x: HostState, s: seq<Bytes>, i: nat, now: nat)
    requires Outbox(x, s) && x.clustering && i < |x.sent| && Expired(x, x.sent[i], now)
    ensures Resend(x, i, now) == x.(sent := x.sent[i := x.sent[i].(lastSend := now)],
                                    clustered := x.clustered + [x.sent[i].msg])
    ensures Outbox(Resend(x, i, now), s)
  {
    var m := x.sent[i];
    assert Carries(m, s);
    assert Post(x, m.msg, false, now) == Emit(x, m.msg);
    RestampHas(x.sent, i, now);
  }

  /** The same messages, sent at other times. */
  ghost predicate SameIds(rs: seq<Reliable>, qs: seq<Reliable>) {
    |rs| == |qs| && forall j :: 0 <= j < |rs| ==> rs[j].id == qs[j].id
  }

  lemma MessagesFrom(rs: seq<Reliable>, i: nat, r: Reliable)
    requires i < |rs|
    ensures Messages(rs[i..]) == [rs[i].msg] + Messages(rs[i + 1..]) && rs[i := r][i + 1..] == rs[i + 1..]
  {
    assert rs[i..][1..] == rs[i + 1..];
  }

  /** Everything in flight was sent at this time. */
  ghost predicate AllAt(x: HostState, now: nat) {
    forall i :: 0 <= i < |x.sent| ==> x.sent[i].lastSend == now
  }

  /** With a cluster open, the resending loop renews every time from the i-th on, puts messages into the cluster,
      and changes nothing else. */
  lemma {:induction false} ResendsRenew(x: HostState, s: seq<Bytes>, i: nat, now: nat)
    requires Outbox(x, s) && x.clustering && i <= |x.sent|
    requires forall j :: i <= j < |x.sent| ==> Expired(x, x.sent[j], now)
    ensures var g := SendQueuedFrom(x, i, now);
            && g == x.(sent := g.sent, clustered := g.clustered) && SameIds(x.sent, g.sent)
            && (forall j :: 0 <= j < i ==> g.sent[j] == x.sent[j])
            && (forall j :: i <= j < |x.sent| ==> g.sent[j].lastSend == now)
    decreases |x.sent| - i
  {
    if i < |x.sent| {
      ResendsOne(x, s, i, now);
      ResendsRenew(Resend(x, i, now), s, i + 1, now);
    }
  }

  /** The messages it puts there are those in flight from the i-th on. */
  lemma {:induction false} ResendsAll(x: HostState, s: seq<Bytes>, i: nat, now: nat)
    requires Outbox(x, s) && x.clustering && i <= |x.sent|
    requires forall j :: i <= j < |x.sent| ==> Expired(x, x.sent[j], now)
    ensures SendQueuedFrom(x, i, now).clustered == x.clustered + Messages(x.sent[i..])
    decreases |x.sent| - i
  {
    if i == |x.sent| {
      assert x.clustered + Messages(x.sent[i..]) == x.clustered;
    } else {
      ResendsOne(x, s, i, now);
      ResendsAll(Resend(x, i, now), s, i + 1, now);
      MessagesFrom(x.sent, i, x.sent[i].(lastSend := now));
      ConcatAssociates(x.clustered, [x.sent[i].msg], Messages(x.sent[i + 1..]));
    }
  }

  lemma IdsPrepend(m: Bytes, ms: seq<Bytes>)
    ensures Ids([m] + ms) == {IdOf(m)} + Ids(ms)
  {
  }

  /** The messages in flight are stamped messages of the stream, with exactly the ids in flight. */
  lemma {:induction false} MessagesStamped(rs: seq<Reliable>, s: seq<Bytes>)
    requires |s| < U32 && forall i :: 0 <= i < |rs| ==> Carries(rs[i], s) && 1 <= |s[rs[i].id]| <= SAFE
    ensures forall m: Bytes :: m in Messages(rs) ==> IsStamped(m, s) && Packable(m)
    ensures Ids(Messages(rs)) == set r | r in rs :: r.id
  {
    if rs != [] {
      MessagesStamped(rs[1..], s);
      StampIsStamped(s, rs[0].id);
      SplitFirst(rs);
      IdsPrepend(rs[0].msg, Messages(rs[1..]));
      assert (set r | r in rs :: r.id) == {rs[0].id} + (set r | r in rs[1..] :: r.id);
    }
  }

  // ---------- Acknowledging what arrives ----------

  lemma {:induction false} DrainInbox(x: HostState)
    ensures SameButInbox(x, Drain(x))
    decreases |x.received|
  {
    var i := Find(x.received, x.remoteStep);
    if i < |x.received| {
      DrainInbox(Accept(x, x.received[i].msg).(received := Remove(x.received, i)));
    }
  }

  lemma CheckReceivedInbox(x: HostState, id: nat, m: Bytes, now: nat)
    ensures SameButInbox(x, CheckReceived(x, id, m, now))
  {
    if id == x.remoteStep {
      DrainInbox(Accept(x, m));
    }
  }

  function Acks(ms: seq<Bytes>): seq<Bytes> {
    if ms == [] then [] else Acks(ms[..|ms| - 1]) + [Ack(IdOf(ms[|ms| - 1]))]
  }

  /** With a cluster open, each stamped message that arrives puts its acknowledgement into it. */
  lemma {:induction false} AcksAll(y: HostState, s: seq<Bytes>, ms: seq<Bytes>, now: nat)
    requires y.clustering && forall m: Bytes :: m in ms ==> IsStamped(m, s)
    ensures var g := GotMessages(y, ms, now);
            SameButInbox(y.(clustered := y.clustered + Acks(ms)), g)
    decreases |ms|
  {
    if ms == [] {
      assert y.clustered + [] == y.clustered;
    } else {
      var n := |ms| - 1;
      AcksAll(y, s, ms[..n], now);
      var h := GotMessages(y, ms[..n], now);
      assert IsStamped(ms[n], s);
      var e := Emit(h, Ack(IdOf(ms[n])));
      DrainInbox(Accept(e, ms[n][6..]));
      ConcatAssociates(y.clustered, Acks(ms[..n]), [Ack(IdOf(ms[n]))]);
    }
  }

  lemma {:induction false} AcksIds(ms: seq<Bytes>)
    ensures Ids(Acks(ms)) == Ids(ms)
    ensures forall m: Bytes :: m in Acks(ms) ==> |m| == 6 && m[0] == 0 && m[1] == 0x04
  {
    if ms == [] {
      assert Ids(Acks(ms)) == {} == Ids(ms);
    } else {
      var n := |ms| - 1;
      AcksIds(ms[..n]);
      SplitLast(ms);
      IdsAppend(ms[..n], ms[n]);
      IdsAppend(Acks(ms[..n]), Ack(IdOf(ms[n])));
      LongRoundTrip([0, 0x04], IdOf(ms[n]), []);
      assert [0, 0x04] + Long(IdOf(ms[n])) + [] == Ack(IdOf(ms[n]));
    }
  }

  // ---------- What a stretch of the wire carries ----------

  /** The messages in a list of datagrams, in order. */
  function Contents(c: Cipher, ws: seq<Bytes>): seq<Bytes> {
    if ws == [] then [] else Contents(c, ws[..|ws| - 1]) + Unpack(Decrypted(c, ws[|ws| - 1]))
  }

  lemma ContentsAppend(c: Cipher, ws: seq<Bytes>, w: Bytes)
    ensures Contents(c, ws + [w]) == Contents(c, ws) + Unpack(Decrypted(c, w))
  {
    assert (ws + [w])[..|ws|] == ws;
  }

  lemma {:induction false} InContents(c: Cipher, ws: seq<Bytes>, k: nat, m: Bytes)
    requires k < |ws| && m in Unpack(Decrypted(c, ws[k]))
    ensures m in Contents(c, ws)
    decreases |ws|
  {
    var us := ws[..|ws| - 1];
    if k < |us| {
      assert us[k] == ws[k];
      InContents(c, us, k, m);
    }
  }

  lemma {:induction false} FromContents(c: Cipher, ws: seq<Bytes>, m: Bytes) returns (k: nat)
    requires m in Contents(c, ws)
    ensures k < |ws| && m in Unpack(Decrypted(c, ws[k]))
    decreases |ws|
  {
    k := |ws| - 1;
    if m !in Unpack(Decrypted(c, ws[k])) {
      k := FromContents(c, ws[..k], m);
    }
  }

  lemma {:induction false} SendAllContents(h: HostState, ds: seq<Bytes>)
    ensures var g := SendAll(h, ds);
            && g == h.(wire := g.wire) && h.wire <= g.wire
            && Contents(h.cipher, g.wire[|h.wire|..]) == UnpackAll(ds)
  {
    if ds == [] {
      assert h.wire[|h.wire|..] == [];
    } else {
      var n := |ds| - 1;
      SendAllContents(h, ds[..n]);
      var g := SendAll(h, ds[..n]);
      var w := Encrypted(h.cipher, ds[n]);
      MutualInverses(h.cipher, ds[n]);
      assert (g.wire + [w])[|h.wire|..] == g.wire[|h.wire|..] + [w];
      ContentsAppend(h.cipher, g.wire[|h.wire|..], w);
    }
  }

  /** What a flushed cluster puts on the wire is the messages of the cluster, in some order. */
  lemma FlushContents(h: HostState)
    requires forall i :: 0 <= i < |h.clustered| ==> Packable(h.clustered[i])
    ensures var g := EndCluster(h);
            && g == h.(clustering := false, clustered := [], wire := g.wire) && h.wire <= g.wire
            && multiset(Contents(h.cipher, g.wire[|h.wire|..])) == multiset(h.clustered)
  {
    SendAllContents(h.(clustering := false), Pack(h.clustered));
    PackPermutes(h.clustered);
  }

  lemma {:induction false} ContentsFine(h: HostState, s: seq<Bytes>, ws: seq<Bytes>)
    requires forall i :: 0 <= i < |ws| ==> FineDatagram(h, s, ws[i])
    ensures AllFine(h, s, Contents(h.cipher, ws))
  {
    if ws != [] {
      ContentsFine(h, s, ws[..|ws| - 1]);
      assert FineDatagram(h, s, ws[|ws| - 1]);
    }
  }

  lemma {:induction false} GotMessagesConcat(h: HostState, a: seq<Bytes>, b: seq<Bytes>, now: nat)
    ensures GotMessages(h, a + b, now) == GotMessages(GotMessages(h, a, now), b, now)
    decreases |b|
  {
    if b == [] {
      assert a + b == a;
    } else {
      var n := |b| - 1;
      assert (a + b)[..|a + b| - 1] == a + b[..n];
      GotMessagesConcat(h, a, b[..n], now);
    }
  }

  /** Receiving some datagrams, once each and in order. */
  function Receiving(h: HostState, ws: seq<Bytes>, now: nat): HostState {
    if ws == [] then h else GotPacket(Receiving(h, ws[..|ws| - 1], now), ws[|ws| - 1], now)
  }

  /** Receiving datagrams of the peer one by one is taking in their messages one by one. */
  lemma {:induction false} ReceivingKeeps(x: HostState, s: seq<Bytes>, y: HostState, t: seq<Bytes>, ws: seq<Bytes>,
      now: nat)
    requires Pair(x, s, y, t) && forall i :: 0 <= i < |ws| ==> FineDatagram(y, t, ws[i])
    ensures Pair(Receiving(x, ws, now), s, y, t)
    ensures Receiving(x, ws, now) == GotMessages(x, Contents(y.cipher, ws), now)
    decreases |ws|
  {
    if ws != [] {
      var us, w := ws[..|ws| - 1], ws[|ws| - 1];
      ReceivingKeeps(x, s, y, t, us, now);
      assert FineDatagram(y, t, w);
      GotMessagesKeeps(Receiving(x, us, now), s, y, t, Unpack(Decrypted(y.cipher, w)), now);
      GotMessagesConcat(x, Contents(y.cipher, us), Unpack(Decrypted(y.cipher, w)), now);
    }
  }

  // ---------- One round ----------

  /** x sends everything in flight again, in one cluster. */
  function Resent(x: HostState, now: nat): HostState {
    EndCluster(SendQueued(BeginCluster(x), now))
  }

  /** x receives datagrams, and flushes what it has to say to them. */
  function Answered(x: HostState, ws: seq<Bytes>, now: nat): HostState {
    EndCluster(Receiving(BeginCluster(x), ws, now))
  }

  /** What was put on the wire since it had n datagrams. */
  function Since(x: HostState, n: nat): seq<Bytes> {
    if n <= |x.wire| then x.wire[n..] else []
  }

  /** A round in which nothing is lost: x sends again, y answers, x takes in the answers. */
  function Round(x: HostState, y: HostState, now: nat): (HostState, HostState) {
    var x1 := Resent(x, now);
    var y1 := Answered(y, Since(x1, |x.wire|), now);
    (Answered(x1, Since(y1, |y.wire|), now), y1)
  }

  lemma ResentKeeps(x: HostState, s: seq<Bytes>, y: HostState, t: seq<Bytes>, now: nat)
    requires Pair(x, s, y, t)
    ensures Pair(Resent(x, now), s, y, t)
  {
    ClusterKeeps(x, s, y, t);
    SendQueuedKeeps(BeginCluster(x), s, y, t, 0, now);
    ClusterKeeps(SendQueued(BeginCluster(x), now), s, y, t);
  }

  lemma AnsweredKeeps(x: HostState, s: seq<Bytes>, y: HostState, t: seq<Bytes>, n: nat, now: nat)
    requires Pair(x, s, y, t)
    ensures var ms := Contents(y.cipher, Since(y, n));
            && Pair(BeginCluster(x), s, y, t)
            && Pair(Answered(x, Since(y, n), now), s, y, t)
            && Answered(x, Since(y, n), now) == EndCluster(GotMessages(BeginCluster(x), ms, now))
  {
    ClusterKeeps(x, s, y, t);
    ReceivingKeeps(BeginCluster(x), s, y, t, Since(y, n), now);
    ClusterKeeps(Receiving(BeginCluster(x), Since(y, n), now), s, y, t);
  }

  lemma ClusterOfSent(x: HostState, s: seq<Bytes>, now: nat)
    requires Outbox(x, s) && x.clustered == [] && AllExpired(x, now)
    ensures var r := SendQueued(BeginCluster(x), now);
            && r == x.(sent := r.sent, clustering := true, clustered := Messages(x.sent)) && SameIds(x.sent, r.sent)
    ensures forall i :: 0 <= i < |Messages(x.sent)| ==> Packable(Messages(x.sent)[i])
  {
    ResendsRenew(BeginCluster(x), s, 0, now);
    ResendsAll(BeginCluster(x), s, 0, now);
    assert x.sent[0..] == x.sent && [] + Messages(x.sent) == Messages(x.sent);
    MessagesStamped(x.sent, s);
  }

  lemma ResentSends(x: HostState, s: seq<Bytes>, now: nat)
    requires Outbox(x, s) && x.clustered == [] && AllExpired(x, now)
    ensures var g := Resent(x, now);
            && g == x.(sent := g.sent, clustering := false, wire := g.wire) && SameIds(x.sent, g.sent)
    ensures multiset(Contents(x.cipher, Since(Resent(x, now), |x.wire|))) == multiset(Messages(x.sent))
  {
    ClusterOfSent(x, s, now);
    FlushContents(SendQueued(BeginCluster(x), now));
  }

  lemma ResentAt(x: HostState, s: seq<Bytes>, now: nat)
    requires Outbox(x, s) && x.clustered == [] && AllExpired(x, now)
    ensures AllAt(Resent(x, now), now) && Resent(x, now).syncPing == x.syncPing
  {
    ResendsRenew(BeginCluster(x), s, 0, now);
    ClusterOfSent(x, s, now);
    FlushContents(SendQueued(BeginCluster(x), now));
  }

  /** An acknowledgement taken in at the same time lets only messages of that time move up. */
  lemma CheckSentAt(x: HostState, s: seq<Bytes>, id: nat, now: nat)
    requires Outbox(x, s) && AllAt(x, now)
    ensures AllAt(CheckSent(x, id, now), now) && CheckSent(x, id, now).syncPing == x.syncPing
  {
    var i := Find(x.sent, id);
    if i < |x.sent| {
      AckOpens(x, s, i);
      SendNextMoves(x.(sent := Remove(x.sent, i)), s, now);
    }
  }

  lemma {:induction false} AcksAt(x: HostState, s: seq<Bytes>, y: HostState, t: seq<Bytes>, ms: seq<Bytes>, now: nat)
    requires Pair(x, s, y, t) && AllAt(x, now)
    requires AllFine(y, t, ms) && forall i :: 0 <= i < |ms| ==> IsAck(ms[i], y)
    ensures AllAt(GotMessages(x, ms, now), now) && GotMessages(x, ms, now).syncPing == x.syncPing
    decreases |ms|
  {
    if ms != [] {
      var before := ms[..|ms| - 1];
      AcksAt(x, s, y, t, before, now);
      GotMessagesKeeps(x, s, y, t, before, now);
      CheckSentAt(GotMessages(x, before, now), s, IdOf(ms[|ms| - 1]), now);
    }
  }

  lemma ResentStamped(x: HostState, s: seq<Bytes>, now: nat)
    requires Outbox(x, s) && x.clustered == [] && AllExpired(x, now)
    ensures var ms := Contents(x.cipher, Since(Resent(x, now), |x.wire|));
            (forall m: Bytes :: m in ms ==> IsStamped(m, s)) && Ids(ms) == SentIds(x)
  {
    ResentSends(x, s, now);
    MessagesStamped(x.sent, s);
    var ms := Contents(x.cipher, Since(Resent(x, now), |x.wire|));
    IdsOfPermutation(ms, Messages(x.sent));
    forall m: Bytes | m in ms
      ensures IsStamped(m, s)
    {
      assert m in multiset(ms);
      assert m in Messages(x.sent);
    }
  }

  lemma AcksPackable(ms: seq<Bytes>)
    ensures forall i :: 0 <= i < |Acks(ms)| ==> Packable(Acks(ms)[i])
  {
    AcksIds(ms);
    forall i | 0 <= i < |Acks(ms)|
      ensures Packable(Acks(ms)[i])
    {
      assert Acks(ms)[i] in Acks(ms);
    }
  }

  lemma AnsweredAcks(y: HostState, s: seq<Bytes>, ms: seq<Bytes>, now: nat)
    requires y.clustered == [] && forall m: Bytes :: m in ms ==> IsStamped(m, s)
    ensures var g := EndCluster(GotMessages(BeginCluster(y), ms, now));
            && g.clustered == [] && g.cipher == y.cipher
            && multiset(Contents(y.cipher, Since(g, |y.wire|))) == multiset(Acks(ms))
  {
    AcksAll(BeginCluster(y), s, ms, now);
    AcksIds(ms);
    var r := GotMessages(BeginCluster(y), ms, now);
    assert r.clustered == [] + Acks(ms) == Acks(ms);
    AcksPackable(ms);
    FlushContents(r);
  }

  /** The answers of a host are fine, so an acknowledgement among them is of something it has. */
  lemma AnswersAreAcks(y: HostState, t: seq<Bytes>, ms: seq<Bytes>, acks: seq<Bytes>)
    requires AllFine(y, t, acks) && multiset(acks) == multiset(Acks(ms))
    ensures forall i :: 0 <= i < |acks| ==> IsAck(acks[i], y)
  {
    AcksIds(ms);
    forall i | 0 <= i < |acks|
      ensures IsAck(acks[i], y)
    {
      assert acks[i] in multiset(acks);
      FineAck(y, t, Acks(ms), acks[i]);
    }
  }

  lemma FineAck(y: HostState, t: seq<Bytes>, acks: seq<Bytes>, m: Bytes)
    requires m in multiset(acks) && Fine(y, t, m)
    requires forall k: Bytes :: k in acks ==> |k| == 6 && k[0] == 0 && k[1] == 0x04
    ensures IsAck(m, y)
  {
  }

  lemma PairIsSymmetric(x: HostState, s: seq<Bytes>, y: HostState, t: seq<Bytes>)
    ensures Pair(x, s, y, t) <==> Pair(y, t, x, s)
  {
  }

  lemma SameIdsHas(x: HostState, g: HostState)
    requires SameIds(x.sent, g.sent)
    ensures SentIds(x) == SentIds(g)
  {
    forall id
      ensures id in SentIds(x) <==> id in SentIds(g)
    {
      if id in SentIds(x) {
        var i :| 0 <= i < |x.sent| && x.sent[i].id == id;
        assert g.sent[i].id == id && g.sent[i] in g.sent;
      }
      if id in SentIds(g) {
        var i :| 0 <= i < |g.sent| && g.sent[i].id == id;
        assert x.sent[i].id == id && x.sent[i] in x.sent;
      }
    }
  }

  /** y has answered the first half of a round. */
  lemma HalfRound(x: HostState, s: seq<Bytes>, y: HostState, t: seq<Bytes>, now: nat)
    requires Pair(x, s, y, t) && x.clustered == [] && y.clustered == [] && AllExpired(x, now)
    ensures var x1 := Resent(x, now);
            var y1 := Answered(y, Since(x1, |x.wire|), now);
            && Pair(x1, s, y1, t) && y1.clustered == []
            && multiset(Contents(y1.cipher, Since(y1, |y.wire|)))
               == multiset(Acks(Contents(x.cipher, Since(x1, |x.wire|))))
  {
    var x1 := Resent(x, now);
    ResentKeeps(x, s, y, t, now);
    ResentSends(x, s, now);
    ResentStamped(x, s, now);
    PairIsSymmetric(x1, s, y, t);
    AnsweredKeeps(y, t, x1, s, |x.wire|, now);
    AnsweredAcks(y, s, Contents(x1.cipher, Since(x1, |x.wire|)), now);
    PairIsSymmetric(Answered(y, Since(x1, |x.wire|), now), t, x1, s);
  }

  /** What it sends are acknowledgements of exactly what x has in flight. */
  lemma HalfRoundAcks(x: HostState, s: seq<Bytes>, y1: HostState, t: seq<Bytes>, n: nat, now: nat)
    requires Outbox(x, s) && x.clustered == [] && AllExpired(x, now) && Emitted(y1, t)
    requires multiset(Contents(y1.cipher, Since(y1, n)))
          == multiset(Acks(Contents(x.cipher, Since(Resent(x, now), |x.wire|))))
    ensures var acks := Contents(y1.cipher, Since(y1, n));
            && AllFine(y1, t, acks) && (forall i :: 0 <= i < |acks| ==> IsAck(acks[i], y1)) && Ids(acks) == SentIds(x)
  {
    var ms, acks := Contents(x.cipher, Since(Resent(x, now), |x.wire|)), Contents(y1.cipher, Since(y1, n));
    ResentStamped(x, s, now);
    ContentsFine(y1, t, Since(y1, n));
    AnswersAreAcks(y1, t, ms, acks);
    AcksIds(ms);
    IdsOfPermutation(acks, Acks(ms));
  }

  /** Taking in acknowledgements of everything in flight retires all of it. */
  lemma AllRetire(x: HostState, s: seq<Bytes>, y: HostState, t: seq<Bytes>, acks: seq<Bytes>, now: nat)
    requires Pair(x, s, y, t) && AllFine(y, t, acks) && Ids(acks) == SentIds(x)
    requires forall i :: 0 <= i < |acks| ==> IsAck(acks[i], y)
    ensures Outstanding(GotMessages(x, acks, now)) == Outstanding(x) - |x.sent|
  {
    forall i | 0 <= i < |acks|
      ensures Has(x.sent, IdOf(acks[i]))
    {
      assert IdOf(acks[i]) in Ids(acks);
      SentIdsHas(x, IdOf(acks[i]));
    }
    AcksRetire(x, s, y, t, acks, now);
    DistinctCount(x.sent);
  }

  /** The second half of a round: x takes in the acknowledgements of everything it has in flight. */
  lemma SecondHalf(x1: HostState, s: seq<Bytes>, y1: HostState, t: seq<Bytes>, n: nat, now: nat)
    requires Pair(x1, s, y1, t) && x1.clustered == [] && AllAt(x1, now)
    requires var acks := Contents(y1.cipher, Since(y1, n));
             && AllFine(y1, t, acks) && (forall i :: 0 <= i < |acks| ==> IsAck(acks[i], y1)) && Ids(acks) == SentIds(x1)
    ensures var x2 := Answered(x1, Since(y1, n), now);
            && Pair(x2, s, y1, t) && x2.clustered == []
            && Outstanding(x2) == Outstanding(x1) - |x1.sent|
            && AllAt(x2, now) && x2.syncPing == x1.syncPing
  {
    var b, acks := BeginCluster(x1), Contents(y1.cipher, Since(y1, n));
    AnsweredKeeps(x1, s, y1, t, n, now);
    SameIdsHas(x1, b);
    AllRetire(b, s, y1, t, acks, now);
    AcksAt(b, s, y1, t, acks, now);
    EndClusterIs(GotMessages(b, acks, now));
  }

  lemma EndClusterIs(x: HostState)
    ensures EndCluster(x) == x.(clustering := false, clustered := [], wire := EndCluster(x).wire)
  {
    SendAllContents(x.(clustering := false), Pack(x.clustered));
  }

  /** As many are in flight as possible. */
  lemma InFlight(x: HostState)
    requires Window(x)
    ensures |x.sent| == Min(MAX_RELIABLE_IN_TRANSIT, Outstanding(x))
  {
  }

  /** A round without loss takes min(15, n) of the n outstanding messages off the sender. */
  lemma RoundProgress(x: HostState, s: seq<Bytes>, y: HostState, t: seq<Bytes>, now: nat)
    requires Pair(x, s, y, t) && x.clustered == [] && y.clustered == [] && AllExpired(x, now)
    ensures var (x2, y1) := Round(x, y, now);
            && Pair(x2, s, y1, t) && x2.clustered == [] && y1.clustered == []
            && Outstanding(x2) == Outstanding(x) - Min(MAX_RELIABLE_IN_TRANSIT, Outstanding(x))
            && AllAt(x2, now) && x2.syncPing == x.syncPing
  {
    HalfRound(x, s, y, t, now);
    ResentSends(x, s, now);
    ResentAt(x, s, now);
    var x1 := Resent(x, now);
    var y1 := Answered(y, Since(x1, |x.wire|), now);
    HalfRoundAcks(x, s, y1, t, |y.wire|, now);
    SameIdsHas(x, x1);
    SecondHalf(x1, s, y1, t, |y.wire|, now);
    InFlight(x);
  }

  // ---------- Many rounds ----------

  /** From one time to the next every timer expires, on the 32-bit clock. */
  ghost predicate Spaced(syncPing: nat, times: seq<nat>) {
    forall i, j :: 0 <= i && i + 1 == j < |times| ==> (times[j] - times[i]) % U32 > (syncPing + 10) % U32
  }

  lemma ExpiredByThen(x: HostState, now: nat, times: seq<nat>)
    requires AllAt(x, now) && Spaced(x.syncPing, [now] + times)
    ensures times != [] ==> AllExpired(x, times[0])
    ensures Spaced(x.syncPing, times)
  {
    var all := [now] + times;
    if times != [] {
      assert all[0] == now && all[1] == times[0];
    }
    forall i, j | 0 <= i && i + 1 == j < |times|
      ensures (times[j] - times[i]) % U32 > (x.syncPing + 10) % U32
    {
      assert all[i + 1] == times[i] && all[j + 1] == times[j];
    }
  }

  function Rounds(x: HostState, y: HostState, times: seq<nat>): (HostState, HostState)
    decreases |times|
  {
    if times == [] then (x, y) else var (x2, y2) := Round(x, y, times[0]); Rounds(x2, y2, times[1..])
  }

  lemma OneRoundMore(n: nat, k: nat)
    ensures var m := n - Min(MAX_RELIABLE_IN_TRANSIT, n);
            m - Min(MAX_RELIABLE_IN_TRANSIT * k, m) == n - Min(MAX_RELIABLE_IN_TRANSIT * (k + 1), n)
  {
  }

  lemma EnoughRounds(n: nat, k: nat)
    requires k >= (n + MAX_RELIABLE_IN_TRANSIT - 1) / MAX_RELIABLE_IN_TRANSIT
    ensures n - Min(MAX_RELIABLE_IN_TRANSIT * k, n) == 0
  {
  }

  /** Between two rounds, the next of which is due at the first of the times. */
  ghost predicate Due(x: HostState, s: seq<Bytes>, y: HostState, t: seq<Bytes>, times: seq<nat>) {
    && Pair(x, s, y, t) && x.clustered == [] && y.clustered == []
    && (times != [] ==> AllExpired(x, times[0])) && Spaced(x.syncPing, times)
  }

  /** One round, after which all timers will have expired by the time of the next. */
  lemma RoundStep(x: HostState, s: seq<Bytes>, y: HostState, t: seq<Bytes>, times: seq<nat>)
    requires Due(x, s, y, t, times) && times != []
    ensures var r := Round(x, y, times[0]);
            && Due(r.0, s, r.1, t, times[1..])
            && Outstanding(r.0) == Outstanding(x) - Min(MAX_RELIABLE_IN_TRANSIT, Outstanding(x))
  {
    RoundProgress(x, s, y, t, times[0]);
    SplitFirst(times);
    ExpiredByThen(Round(x, y, times[0]).0, times[0], times[1..]);
  }

  /** k rounds take min(15 k, n) of the n outstanding messages off the sender. */
  lemma {:induction false} RoundsProgress(x: HostState, s: seq<Bytes>, y: HostState, t: seq<Bytes>, times: seq<nat>)
    requires Due(x, s, y, t, times)
    ensures Outstanding(Rounds(x, y, times).0)
         == Outstanding(x) - Min(MAX_RELIABLE_IN_TRANSIT * |times|, Outstanding(x))
    decreases |times|
  {
    if times != [] {
      RoundStep(x, s, y, t, times);
      var r := Round(x, y, times[0]);
      RoundsProgress(r.0, s, r.1, t, times[1..]);
      OneRoundMore(Outstanding(x), |times| - 1);
    }
  }

  /** y has taken in all of the stream s. */
  ghost predicate TookAll(s: seq<Bytes>, y: HostState) {
    y.remoteStep == |s| && y.received == [] && y.assembly == DeliverAll(FRESH, s)
  }

  lemma NothingLeft(x: HostState, s: seq<Bytes>, y: HostState)
    requires Outbox(x, s) && Inbox(y) && Delivery(s, y) && Kept(x, s, y) && Outstanding(x) == 0
    ensures TookAll(s, y) && x.localStep == |s|
  {
    AllArrived(x, s, y);
    assert s[..|s|] == s;
  }

  /** If they take everything off it, the peer has taken in the whole stream. */
  lemma {:induction false} RoundsDeliver(x: HostState, s: seq<Bytes>, y: HostState, t: seq<Bytes>, times: seq<nat>)
    requires Due(x, s, y, t, times) && Outstanding(Rounds(x, y, times).0) == 0
    ensures TookAll(s, Rounds(x, y, times).1) && Rounds(x, y, times).0.localStep == |s|
    decreases |times|
  {
    if times == [] {
      NothingLeft(x, s, y);
    } else {
      RoundStep(x, s, y, t, times);
      var r := Round(x, y, times[0]);
      RoundsDeliver(r.0, s, r.1, t, times[1..]);
    }
  }

  /** From any such state between two clusters, once all timers of a sender have expired, ceil(n / 15) rounds
      without loss, further apart than the timers take, deliver everything it ever promised. */
  lemma RoundsDeliverEverything(z: System, left: bool, times: seq<nat>)
    requires RegularlyReachable(z) && z.left.h.clustered == [] && z.right.h.clustered == []
    requires var x := if left then z.left.h else z.right.h;
             && (times != [] ==> AllExpired(x, times[0])) && Spaced(x.syncPing, times)
             && |times| >= (Outstanding(x) + MAX_RELIABLE_IN_TRANSIT - 1) / MAX_RELIABLE_IN_TRANSIT
    ensures var (x, y) := if left then (z.left, z.right) else (z.right, z.left);
            var (x2, y2) := Rounds(x.h, y.h, times);
            Outstanding(x2) == 0 && Everything(Peer(x2, x.promised), Peer(y2, y.promised))
  {
    ReachableIsGood(z);
    if left {
      GoodRounds(z.left, z.right, times);
    } else {
      GoodRounds(z.right, z.left, times);
    }
  }

  lemma TookEverything(x: Peer, y: Peer)
    requires Deliverable(x.promised) && TookAll(Stream(x.promised), y.h) && x.h.localStep == |Stream(x.promised)|
    ensures Everything(x, y)
  {
    var s := Stream(x.promised);
    StreamDelivered(x.promised, |s|);
    assert s[..|s|] == s;
  }

  lemma GoodRounds(x: Peer, y: Peer, times: seq<nat>)
    requires Good(x, y) && x.h.clustered == [] && y.h.clustered == []
    requires (times != [] ==> AllExpired(x.h, times[0])) && Spaced(x.h.syncPing, times)
    requires |times| >= (Outstanding(x.h) + MAX_RELIABLE_IN_TRANSIT - 1) / MAX_RELIABLE_IN_TRANSIT
    ensures var (x2, y2) := Rounds(x.h, y.h, times);
            Outstanding(x2) == 0 && Everything(Peer(x2, x.promised), Peer(y2, y.promised))
  {
    var s, t := Stream(x.promised), Stream(y.promised);
    RoundsProgress(x.h, s, y.h, t, times);
    EnoughRounds(Outstanding(x.h), |times|);
    RoundsDeliver(x.h, s, y.h, t, times);
    TookEverything(Peer(Rounds(x.h, y.h, times).0, x.promised), Peer(Rounds(x.h, y.h, times).1, y.promised));
  }
}
