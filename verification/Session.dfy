/** What holds in every reachable state of two hosts joined by a channel that may lose, repeat
    and reorder datagrams. The host `x` is always the one that acts. */
module Session {
  import opened Bytes
  import opened Reassembly
  import opened Cluster
  import opened Encrypt
  import opened Transport

  /** The longest payload whose stamped form is still posted whole when it is sent again. */
  const SAFE: nat := UNCHUNKED - 6

  // ---------- Lists of reliable messages ----------

  ghost predicate Distinct(rs: seq<Reliable>) {
    forall i, j :: 0 <= i < j < |rs| ==> rs[i].id != rs[j].id
  }

  lemma HasIff(rs: seq<Reliable>, id: nat)
    ensures Has(rs, id) <==> exists i :: 0 <= i < |rs| && rs[i].id == id
  {
  }

  lemma RemoveHas(rs: seq<Reliable>, i: nat, id: nat)
    requires Distinct(rs) && i < |rs|
    ensures Has(Remove(rs, i), id) <==> Has(rs, id) && id != rs[i].id
  {
    var r := Remove(rs, i);
    if Has(r, id) {
      var j := Find(r, id);
      var k := if j < i then j else j + 1;
      assert r[j] == rs[k] && rs[k].id == id;
      HasIff(rs, id);
    }
    if Has(rs, id) && id != rs[i].id {
      var j := Find(rs, id);
      assert rs[j] == r[if j < i then j else j - 1];
      HasIff(r, id);
    }
  }

  lemma RemoveKeepsDistinct(rs: seq<Reliable>, i: nat)
    requires Distinct(rs) && i < |rs|
    ensures Distinct(Remove(rs, i))
    ensures forall id :: Has(Remove(rs, i), id) <==> Has(rs, id) && id != rs[i].id
  {
    forall id
      ensures Has(Remove(rs, i), id) <==> Has(rs, id) && id != rs[i].id
    {
      RemoveHas(rs, i, id);
    }
  }

  lemma AppendHas(rs: seq<Reliable>, m: Reliable)
    ensures forall id :: Has(rs + [m], id) <==> Has(rs, id) || id == m.id
  {
    forall id
      ensures Has(rs + [m], id) <==> Has(rs, id) || id == m.id
    {
      HasIff(rs, id);
      HasIff(rs + [m], id);
      if Has(rs, id) {
        var j :| 0 <= j < |rs| && rs[j].id == id;
        assert (rs + [m])[j].id == id;
      }
      if id == m.id {
        assert (rs + [m])[|rs|].id == id;
      }
    }
  }

  // ---------- The sender's window ----------

  /** At most 15 messages are in flight; the queue holds exactly the IDs from localSent on, in order;
      it is empty unless all slots are taken. */
  ghost predicate Window(h: HostState) {
    && h.localSent <= h.localStep < U32
    && |h.sent| <= MAX_RELIABLE_IN_TRANSIT
    && Distinct(h.sent)
    && (forall i :: 0 <= i < |h.sent| ==> h.sent[i].id < h.localSent)
    && |h.queued| == h.localStep - h.localSent
    && (forall i :: 0 <= i < |h.queued| ==> h.queued[i].id == h.localSent + i)
    && (h.queued != [] ==> |h.sent| == MAX_RELIABLE_IN_TRANSIT)
  }

  /** r is the stamped form of its place in the stream. */
  predicate Carries(r: Reliable, s: seq<Bytes>) {
    r.id < |s| && r.msg == Stamp(r.id, s[r.id])
  }

  /** The outbox is the part of the stream s that is not acknowledged. */
  ghost predicate Outbox(h: HostState, s: seq<Bytes>) {
    && Window(h)
    && h.localStep == |s|
    && (forall i :: 0 <= i < |s| ==> 1 <= |s[i]| <= SAFE)
    && (forall i :: 0 <= i < |h.sent| ==> Carries(h.sent[i], s))
    && (forall i :: 0 <= i < |h.queued| ==> Carries(h.queued[i], s))
  }

  // ---------- The receiver's inbox ----------

  /** Message id has arrived: it was accepted, or it waits in the inbox. */
  predicate Got(h: HostState, id: nat) {
    id < h.remoteStep || Has(h.received, id)
  }

  /** The inbox holds distinct messages that are all ahead of the next one expected. */
  ghost predicate Inbox(h: HostState) {
    && Distinct(h.received)
    && (forall i :: 0 <= i < |h.received| ==> h.received[i].id > h.remoteStep)
  }

  // ---------- What a host has emitted ----------

  predicate IsStamped(m: Bytes, s: seq<Bytes>) {
    && |m| >= 7 && m[0] == 0 && m[1] == 0x03
    && GetLong(m, 2) < |s| && m == Stamp(GetLong(m, 2), s[GetLong(m, 2)])
  }

  predicate IsAck(m: Bytes, h: HostState) {
    |m| == 6 && m[0] == 0 && m[1] == 0x04 && Got(h, GetLong(m, 2))
  }

  /** A message a host with stream s may put on the wire: an application message, a message of its
      stream, or an acknowledgement of something it has. */
  predicate Fine(h: HostState, s: seq<Bytes>, m: Bytes) {
    Packable(m) && (IsApplication(m) || IsStamped(m, s) || IsAck(m, h))
  }

  ghost predicate AllFine(h: HostState, s: seq<Bytes>, ms: seq<Bytes>) {
    forall i :: 0 <= i < |ms| ==> Fine(h, s, ms[i])
  }

  ghost predicate FineDatagram(h: HostState, s: seq<Bytes>, w: Bytes) {
    1 <= |w| <= PACKET_MAX_LENGTH && AllFine(h, s, Unpack(Decrypted(h.cipher, w)))
  }

  ghost predicate Emitted(h: HostState, s: seq<Bytes>) {
    && AllFine(h, s, h.clustered)
    && forall i :: 0 <= i < |h.wire| ==> FineDatagram(h, s, h.wire[i])
  }

  lemma StampIsStamped(s: seq<Bytes>, id: nat)
    requires id < |s| < U32 && 1 <= |s[id]| <= UNCHUNKED
    ensures IsStamped(Stamp(id, s[id]), s) && Packable(Stamp(id, s[id]))
    ensures GetLong(Stamp(id, s[id]), 2) == id && Stamp(id, s[id])[6..] == s[id]
  {
    LongRoundTrip([0, 0x03], id, s[id]);
  }

  lemma AckIsAck(h: HostState, id: nat)
    requires id < U32 && Got(h, id)
    ensures IsAck(Ack(id), h) && Packable(Ack(id)) && GetLong(Ack(id), 2) == id
  {
    LongRoundTrip([0, 0x04], id, []);
    assert [0, 0x04] + Long(id) + [] == Ack(id);
  }

  /** Emitted messages stay fine when the stream grows and more messages arrive. */
  lemma EmittedStays(h: HostState, s: seq<Bytes>, g: HostState, t: seq<Bytes>)
    requires Emitted(h, s) && s <= t
    requires g.clustered == h.clustered && g.wire == h.wire && g.cipher == h.cipher
    requires forall id :: Got(h, id) ==> Got(g, id)
    ensures Emitted(g, t)
  {
  }

  lemma SendFine(h: HostState, s: seq<Bytes>, d: Bytes)
    requires Emitted(h, s) && 1 <= |d| <= PACKET_MAX_LENGTH && AllFine(h, s, Unpack(d))
    ensures Emitted(Send(h, d), s)
  {
    var g := Send(h, d);
    MutualInverses(h.cipher, d);
    forall i | 0 <= i < |g.wire|
      ensures FineDatagram(g, s, g.wire[i])
    {
      if i < |h.wire| {
        assert FineDatagram(h, s, h.wire[i]);
      }
    }
  }

  lemma EmitFine(h: HostState, s: seq<Bytes>, m: Bytes)
    requires Emitted(h, s) && Fine(h, s, m)
    ensures Emitted(Emit(h, m), s)
  {
    if !h.clustering {
      SendFine(h, s, m);
    }
  }

  lemma {:induction false} SendAllFine(h: HostState, s: seq<Bytes>, ds: seq<Bytes>)
    requires Emitted(h, s) && Sized(ds) && AllFine(h, s, UnpackAll(ds))
    ensures Emitted(SendAll(h, ds), s)
    ensures SendAll(h, ds) == h.(wire := SendAll(h, ds).wire)
  {
    if ds != [] {
      var n := |ds| - 1;
      var u, v := UnpackAll(ds[..n]), Unpack(ds[n]);
      assert forall i :: 0 <= i < |u| ==> UnpackAll(ds)[i] == u[i];
      assert forall i :: 0 <= i < |v| ==> UnpackAll(ds)[|u| + i] == v[i];
      SendAllFine(h, s, ds[..n]);
      SendFine(SendAll(h, ds[..n]), s, ds[n]);
    }
  }

  lemma EndClusterFine(h: HostState, s: seq<Bytes>)
    requires Emitted(h, s)
    ensures Emitted(EndCluster(h), s)
    ensures EndCluster(h) == h.(clustering := false, clustered := [], wire := EndCluster(h).wire)
  {
    var ds := Pack(h.clustered);
    PackUnpack(h.clustered);
    PackPermutes(h.clustered);
    forall i | 0 <= i < |UnpackAll(ds)|
      ensures Fine(h, s, UnpackAll(ds)[i])
    {
      assert UnpackAll(ds)[i] in multiset(UnpackAll(ds));
      assert UnpackAll(ds)[i] in h.clustered;
    }
    var g := h.(clustering := false);
    EmittedStays(h, s, g, s);
    SendAllFine(g, s, ds);
  }

  // ---------- Both directions ----------

  /** What y has taken from the stream s: a prefix, in order, and some messages ahead of it. */
  ghost predicate Delivery(s: seq<Bytes>, y: HostState) {
    && y.remoteStep <= |s|
    && (forall i :: 0 <= i < |y.received| ==> y.received[i].id < |s| && y.received[i].msg == s[y.received[i].id])
    && y.assembly == DeliverAll(FRESH, s[..y.remoteStep])
  }

  /** Message id of x's stream is still in its outbox. */
  predicate Held(x: HostState, id: nat) {
    id >= x.localSent || Has(x.sent, id)
  }

  /** Nothing is forgotten: a message is in the outbox until it has arrived. */
  ghost predicate Kept(x: HostState, s: seq<Bytes>, y: HostState) {
    forall id :: 0 <= id < |s| ==> Held(x, id) || Got(y, id)
  }

  ghost predicate Local(x: HostState, s: seq<Bytes>) {
    Outbox(x, s) && Inbox(x) && Emitted(x, s)
  }

  ghost predicate Pair(x: HostState, s: seq<Bytes>, y: HostState, t: seq<Bytes>) {
    && Local(x, s) && Local(y, t)
    && Delivery(s, y) && Delivery(t, x)
    && Kept(x, s, y) && Kept(y, t, x)
    && x.cipher == y.cipher
  }

  // ---------- Posting ----------

  lemma WindowPost(x: HostState, s: Bytes, now: nat)
    requires Window(x) && x.localStep + 1 < U32 && |s| >= 6 && GetLong(s, 2) == x.localStep
    ensures Window(Queue(x, s, now))
  {
  }

  lemma CarriesMore(r: Reliable, s: seq<Bytes>, p: Bytes)
    requires Carries(r, s)
    ensures Carries(r, s + [p])
  {
  }

  lemma OutboxPost(x: HostState, s: seq<Bytes>, p: Bytes, now: nat)
    requires Outbox(x, s) && 1 <= |p| <= SAFE && |s| + 1 < U32
    ensures Outbox(Queue(x, Stamp(x.localStep, p), now), s + [p])
  {
    var m, t := Stamp(x.localStep, p), s + [p];
    StampIsStamped(t, |s|);
    WindowPost(x, m, now);
    var g := Queue(x, m, now);
    forall i | 0 <= i < |g.sent|
      ensures Carries(g.sent[i], t)
    {
      if i < |x.sent| {
        CarriesMore(x.sent[i], s, p);
      }
    }
    forall i | 0 <= i < |g.queued|
      ensures Carries(g.queued[i], t)
    {
      if i < |x.queued| {
        CarriesMore(x.queued[i], s, p);
      }
    }
  }

  /** A message that has entered the outbox is held there, like those before it. */
  lemma PostHeld(x: HostState, s: Bytes, now: nat, id: nat)
    requires Window(x) && |s| >= 6 && GetLong(s, 2) == x.localStep && x.localStep + 1 < U32
    ensures Held(x, id) || id == x.localStep ==> Held(Queue(x, s, now), id)
  {
    if |x.sent| < MAX_RELIABLE_IN_TRANSIT {
      AppendHas(x.sent, Reliable(GetLong(s, 2), s, now));
    }
  }

  lemma PostKept(x: HostState, s: seq<Bytes>, y: HostState, p: Bytes, now: nat)
    requires Outbox(x, s) && Kept(x, s, y) && |s| + 1 < U32
    ensures Kept(Queue(x, Stamp(x.localStep, p), now), s + [p], y)
  {
    var m := Stamp(x.localStep, p);
    LongRoundTrip([0, 0x03], |s|, p);
    forall id | 0 <= id < |s + [p]|
      ensures Held(Queue(x, m, now), id) || Got(y, id)
    {
      PostHeld(x, m, now, id);
    }
  }

  lemma PostKeeps(x: HostState, s: seq<Bytes>, y: HostState, t: seq<Bytes>, p: Bytes, now: nat)
    requires Pair(x, s, y, t) && 1 <= |p| <= SAFE && |s| + 1 < U32
    ensures Pair(PostWhole(x, p, true, now), s + [p], y, t)
  {
    var m := Stamp(x.localStep, p);
    var g := Queue(x, m, now);
    var s' := s + [p];
    OutboxPost(x, s, p, now);
    StampIsStamped(s', |s|);
    EmittedStays(x, s, g, s');
    EmitFine(g, s', m);
    assert s'[..y.remoteStep] == s[..y.remoteStep];
    PostKept(x, s, y, p, now);
  }

  // ---------- Acknowledgements ----------

  /** Window, but for one free slot that the queue has not filled yet. */
  ghost predicate Opened(h: HostState, s: seq<Bytes>) {
    && h.localSent <= h.localStep == |s| < U32
    && |h.sent| < MAX_RELIABLE_IN_TRANSIT
    && Distinct(h.sent)
    && (forall i :: 0 <= i < |h.sent| ==> h.sent[i].id < h.localSent)
    && |h.queued| == h.localStep - h.localSent
    && (forall i :: 0 <= i < |h.queued| ==> h.queued[i].id == h.localSent + i)
    && (h.queued != [] ==> |h.sent| == MAX_RELIABLE_IN_TRANSIT - 1)
    && (forall i :: 0 <= i < |s| ==> 1 <= |s[i]| <= SAFE)
    && (forall i :: 0 <= i < |h.sent| ==> Carries(h.sent[i], s))
    && (forall i :: 0 <= i < |h.queued| ==> Carries(h.queued[i], s))
  }

  lemma AckOpens(x: HostState, s: seq<Bytes>, i: nat)
    requires Outbox(x, s) && i < |x.sent|
    ensures Opened(x.(sent := Remove(x.sent, i)), s)
  {
    RemoveKeepsDistinct(x.sent, i);
    var r := Remove(x.sent, i);
    forall j | 0 <= j < |r|
      ensures r[j].id < x.localSent && Carries(r[j], s)
    {
      assert r[j] == x.sent[if j < i then j else j + 1];
    }
  }

  /** Sending the next queued message when a slot is free: it is emitted and takes the slot. */
  lemma SendNextMoves(x: HostState, s: seq<Bytes>, now: nat)
    requires Opened(x, s)
    ensures x.queued == [] ==> SendNext(x, now) == x
    ensures x.queued != [] ==>
              SendNext(x, now) == Emit(x, x.queued[0].msg).(
                sent := x.sent + [x.queued[0].(lastSend := now)],
                queued := x.queued[1..], localSent := x.localSent + 1)
  {
    if x.queued != [] {
      var m := x.queued[0];
      assert Find(x.queued, x.localSent) == 0;
      StampIsStamped(s, m.id);
      assert Post(x, m.msg, false, now) == Emit(x, m.msg);
      assert Remove(x.queued, 0) == x.queued[1..];
    }
  }

  lemma SendNextOutbox(x: HostState, s: seq<Bytes>, now: nat)
    requires Opened(x, s)
    ensures var g := SendNext(x, now);
            && Outbox(g, s)
            && (forall id :: Held(g, id) <==> Held(x, id))
            && |g.sent| + |g.queued| == |x.sent| + |x.queued|
  {
    SendNextMoves(x, s, now);
    if x.queued != [] {
      var m := x.queued[0].(lastSend := now);
      var g := SendNext(x, now);
      AppendHas(x.sent, m);
      forall i | 0 <= i < |g.queued|
        ensures g.queued[i].id == g.localSent + i && Carries(g.queued[i], s)
      {
        assert g.queued[i] == x.queued[i + 1];
      }
      assert Carries(x.queued[0], s);
    }
  }

  /** An acknowledgement retires exactly its message. */
  lemma CheckSentOutbox(x: HostState, s: seq<Bytes>, id: nat, now: nat)
    requires Outbox(x, s)
    ensures var g := CheckSent(x, id, now);
            && Outbox(g, s)
            && (forall j :: Held(g, j) <==> Held(x, j) && (j != id || !Has(x.sent, id)))
            && |g.sent| + |g.queued| == |x.sent| + |x.queued| - (if Has(x.sent, id) then 1 else 0)
  {
    var i := Find(x.sent, id);
    if i < |x.sent| {
      RemoveKeepsDistinct(x.sent, i);
      AckOpens(x, s, i);
      SendNextOutbox(x.(sent := Remove(x.sent, i)), s, now);
    }
  }

  lemma CheckSentEmitted(x: HostState, s: seq<Bytes>, id: nat, now: nat)
    requires Outbox(x, s) && Emitted(x, s)
    ensures var g := CheckSent(x, id, now);
            && Emitted(g, s)
            && g == x.(localSent := g.localSent, sent := g.sent, queued := g.queued,
                       clustered := g.clustered, wire := g.wire)
  {
    var i := Find(x.sent, id);
    if i < |x.sent| {
      AckOpens(x, s, i);
      var h := x.(sent := Remove(x.sent, i));
      SendNextMoves(h, s, now);
      EmittedStays(x, s, h, s);
      if h.queued != [] {
        StampIsStamped(s, h.queued[0].id);
        EmitFine(h, s, h.queued[0].msg);
        var e := Emit(h, h.queued[0].msg);
        EmittedStays(e, s, SendNext(h, now), s);
      }
    }
  }

  lemma AckKeeps(x: HostState, s: seq<Bytes>, y: HostState, t: seq<Bytes>, id: nat, now: nat)
    requires Pair(x, s, y, t) && Got(y, id)
    ensures Pair(CheckSent(x, id, now), s, y, t)
  {
    CheckSentOutbox(x, s, id, now);
    CheckSentEmitted(x, s, id, now);
    var g := CheckSent(x, id, now);
    forall j | 0 <= j < |s|
      ensures Held(g, j) || Got(y, j)
    {
      assert Held(x, j) || Got(y, j);
    }
    forall j | 0 <= j < |t|
      ensures Held(y, j) || Got(g, j)
    {
      assert Held(y, j) || Got(x, j);
    }
  }

  // ---------- Reliable messages ----------

  /** The inbox in the middle of being drained: the next message may be there. */
  ghost predicate Filling(h: HostState) {
    && Distinct(h.received)
    && (forall i :: 0 <= i < |h.received| ==> h.received[i].id >= h.remoteStep)
  }

  /** Only the inbox and what is handed up differ. */
  ghost predicate SameButInbox(h: HostState, g: HostState) {
    g == h.(remoteStep := g.remoteStep, received := g.received, assembly := g.assembly)
  }

  lemma AcceptDelivers(t: seq<Bytes>, x: HostState, m: Bytes)
    requires Delivery(t, x) && x.remoteStep < |t| < U32 && m == t[x.remoteStep]
    ensures Accept(x, m).remoteStep == x.remoteStep + 1 && Delivery(t, Accept(x, m))
  {
    assert t[..x.remoteStep + 1] == t[..x.remoteStep] + [m];
    DeliverOneMore(FRESH, t[..x.remoteStep], m);
  }

  /** Draining takes out exactly the messages whose turn has come, and stops at the first missing one. */
  lemma {:induction false} DrainDelivers(t: seq<Bytes>, x: HostState)
    requires Filling(x) && Delivery(t, x) && |t| < U32
    ensures var g := Drain(x);
            && Inbox(g) && Delivery(t, g) && SameButInbox(x, g) && !Got(g, g.remoteStep)
            && (forall id :: Got(g, id) <==> Got(x, id))
    decreases |x.received|
  {
    var i := Find(x.received, x.remoteStep);
    if i < |x.received| {
      var m := x.received[i];
      RemoveKeepsDistinct(x.received, i);
      AcceptDelivers(t, x, m.msg);
      var r := Remove(x.received, i);
      var h := Accept(x, m.msg).(received := r);
      forall j | 0 <= j < |r|
        ensures r[j].id >= h.remoteStep && r[j].id < |t| && r[j].msg == t[r[j].id]
      {
        assert r[j] == x.received[if j < i then j else j + 1];
        HasIff(r, r[j].id);
      }
      DrainDelivers(t, h);
      forall id
        ensures Got(h, id) <==> Got(x, id)
      {
      }
    }
  }

  /** Taking in message id of the stream t: afterwards exactly one more message has arrived, and the
      stream is delivered up to the first one that has not. */
  lemma CheckReceivedDelivers(t: seq<Bytes>, x: HostState, id: nat, now: nat)
    requires Inbox(x) && Delivery(t, x) && id < |t| < U32
    ensures var g := CheckReceived(x, id, t[id], now);
            && Inbox(g) && Delivery(t, g) && SameButInbox(x, g)
            && (forall j :: Got(g, j) <==> Got(x, j) || j == id)
  {
    if id == x.remoteStep {
      AcceptDelivers(t, x, t[id]);
      DrainDelivers(t, Accept(x, t[id]));
    } else if id > x.remoteStep && !Has(x.received, id) {
      var m := Reliable(id, t[id], now);
      AppendHas(x.received, m);
      HasIff(x.received, id);
    }
  }

  lemma ReliableEmitted(x: HostState, s: seq<Bytes>, id: nat, g: HostState)
    requires Emitted(x, s) && id < U32 && Got(g, id)
    requires forall j :: Got(x, j) ==> Got(g, j)
    requires SameButInbox(Emit(x, Ack(id)), g)
    ensures Emitted(g, s)
  {
    var before := g.(clustered := x.clustered, wire := x.wire);
    assert forall j :: Got(before, j) <==> Got(g, j);
    EmittedStays(x, s, before, s);
    AckIsAck(before, id);
    EmitFine(before, s, Ack(id));
    EmittedStays(Emit(before, Ack(id)), s, g, s);
  }

  lemma ReliableKeeps(x: HostState, s: seq<Bytes>, y: HostState, t: seq<Bytes>, id: nat, now: nat)
    requires Pair(x, s, y, t) && id < |t|
    ensures Pair(GotReliable(x, id, t[id], now), s, y, t)
  {
    var e := Emit(x, Ack(id));
    assert forall j :: Got(e, j) <==> Got(x, j);
    CheckReceivedDelivers(t, e, id, now);
    var g := CheckReceived(e, id, t[id], now);
    ReliableEmitted(x, s, id, g);
    forall j | 0 <= j < |s|
      ensures Held(g, j) || Got(y, j)
    {
      assert Held(x, j) || Got(y, j);
    }
    forall j | 0 <= j < |t|
      ensures Held(y, j) || Got(g, j)
    {
      assert Held(y, j) || Got(x, j);
    }
  }

  // ---------- The steps of a host ----------

  lemma {:induction false} PostAllKeeps(x: HostState, s: seq<Bytes>, y: HostState, t: seq<Bytes>, ms: seq<Bytes>,
                                        now: nat)
    requires Pair(x, s, y, t) && |s| + |ms| < U32
    requires forall i :: 0 <= i < |ms| ==> 1 <= |ms[i]| <= SAFE
    ensures Pair(PostAll(x, ms, now), s + ms, y, t)
    decreases |ms|
  {
    if ms == [] {
      assert s + ms == s;
    } else {
      var n := |ms| - 1;
      PostAllKeeps(x, s, y, t, ms[..n], now);
      PostKeeps(PostAll(x, ms[..n], now), s + ms[..n], y, t, ms[n], now);
      SplitLast(ms);
      ConcatAssociates(s, ms[..n], [ms[n]]);
    }
  }

  lemma UnreliableKeeps(x: HostState, s: seq<Bytes>, y: HostState, t: seq<Bytes>, m: Bytes)
    requires Pair(x, s, y, t) && Fine(x, s, m)
    ensures Pair(Emit(x, m), s, y, t)
  {
    EmitFine(x, s, m);
    assert forall id :: Got(Emit(x, m), id) <==> Got(x, id);
    assert forall id :: Held(Emit(x, m), id) <==> Held(x, id);
  }

  lemma RestampHas(rs: seq<Reliable>, i: nat, now: nat)
    requires Distinct(rs) && i < |rs|
    ensures var r := rs[i := rs[i].(lastSend := now)];
            Distinct(r) && forall id :: Has(r, id) <==> Has(rs, id)
  {
    var r := rs[i := rs[i].(lastSend := now)];
    forall id
      ensures Has(r, id) <==> Has(rs, id)
    {
      if Has(r, id) {
        assert rs[Find(r, id)].id == id;
      }
      if Has(rs, id) {
        assert r[Find(rs, id)].id == id;
      }
    }
  }

  lemma RestampKeeps(x: HostState, s: seq<Bytes>, y: HostState, t: seq<Bytes>, i: nat, now: nat)
    requires Pair(x, s, y, t) && i < |x.sent|
    ensures Pair(x.(sent := x.sent[i := x.sent[i].(lastSend := now)]), s, y, t)
  {
    var g := x.(sent := x.sent[i := x.sent[i].(lastSend := now)]);
    RestampHas(x.sent, i, now);
    assert Outbox(g, s);
    EmittedStays(x, s, g, s);
    assert forall id :: Held(g, id) <==> Held(x, id);
    assert forall id :: Got(g, id) <==> Got(x, id);
  }

  lemma ResendKeeps(x: HostState, s: seq<Bytes>, y: HostState, t: seq<Bytes>, i: nat, now: nat)
    requires Pair(x, s, y, t) && i < |x.sent|
    ensures Pair(Resend(x, i, now), s, y, t) && |Resend(x, i, now).sent| == |x.sent|
  {
    if Expired(x, x.sent[i], now) {
      var m := x.sent[i];
      assert Carries(m, s);
      StampIsStamped(s, m.id);
      UnreliableKeeps(x, s, y, t, m.msg);
      assert Post(x, m.msg, false, now) == Emit(x, m.msg);
      RestampKeeps(Emit(x, m.msg), s, y, t, i, now);
    }
  }

  lemma {:induction false} SendQueuedKeeps(x: HostState, s: seq<Bytes>, y: HostState, t: seq<Bytes>, i: nat, now: nat)
    requires Pair(x, s, y, t) && i <= |x.sent|
    ensures Pair(SendQueuedFrom(x, i, now), s, y, t)
    decreases |x.sent| - i
  {
    if i < |x.sent| {
      ResendKeeps(x, s, y, t, i, now);
      SendQueuedKeeps(Resend(x, i, now), s, y, t, i + 1, now);
    }
  }

  /** Steps that leave the lists and what was handed up as they are. */
  lemma SameLists(x: HostState, s: seq<Bytes>, y: HostState, t: seq<Bytes>, g: HostState)
    requires Pair(x, s, y, t) && Emitted(g, s)
    requires g == x.(clustering := g.clustering, clustered := g.clustered, wire := g.wire)
    ensures Pair(g, s, y, t)
  {
    assert forall id :: (Got(g, id) <==> Got(x, id)) && (Held(g, id) <==> Held(x, id));
  }

  lemma ClusterKeeps(x: HostState, s: seq<Bytes>, y: HostState, t: seq<Bytes>)
    requires Pair(x, s, y, t)
    ensures Pair(BeginCluster(x), s, y, t)
    ensures Pair(EndCluster(x), s, y, t)
  {
    EmittedStays(x, s, BeginCluster(x), s);
    SameLists(x, s, y, t, BeginCluster(x));
    EndClusterFine(x, s);
    SameLists(x, s, y, t, EndCluster(x));
  }

  lemma GotMessageKeeps(x: HostState, s: seq<Bytes>, y: HostState, t: seq<Bytes>, m: Bytes, now: nat)
    requires Pair(x, s, y, t) && Fine(y, t, m)
    ensures Pair(GotMessage(x, m, now), s, y, t)
  {
    if IsApplication(m) {
      var g := GotMessage(x, m, now);
      EmittedStays(x, s, g, s);
      assert forall id :: (Got(g, id) <==> Got(x, id)) && (Held(g, id) <==> Held(x, id));
    } else if IsStamped(m, t) {
      var id := GetLong(m, 2);
      StampIsStamped(t, id);
      ReliableKeeps(x, s, y, t, id, now);
    } else {
      AckKeeps(x, s, y, t, GetLong(m, 2), now);
    }
  }

  lemma {:induction false} GotMessagesKeeps(x: HostState, s: seq<Bytes>, y: HostState, t: seq<Bytes>, ms: seq<Bytes>,
      now: nat)
    requires Pair(x, s, y, t) && AllFine(y, t, ms)
    ensures Pair(GotMessages(x, ms, now), s, y, t)
    decreases |ms|
  {
    if ms != [] {
      GotMessagesKeeps(x, s, y, t, ms[..|ms| - 1], now);
      GotMessageKeeps(GotMessages(x, ms[..|ms| - 1], now), s, y, t, ms[|ms| - 1], now);
    }
  }
}
