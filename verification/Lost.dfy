/** A reliable message of 503 to 508 bytes that was sent at once: it is sent again in fragments only, under new
    ACK_IDs. Once the datagrams that carry it whole are lost, the peer never gets past it. */
module Lost {
  import opened Bytes
  import opened Reassembly
  import opened Cluster
  import opened Encrypt
  import opened Transport
  import opened Session
  import opened Runs
  import opened AnyLength
  import Progress

  // ---------- The message is not sent again ----------

  /** The datagrams from the n-th on, and the cluster, do not carry m. */
  ghost predicate Silent(x: HostState, m: Bytes, n: nat) {
    && n <= |x.wire| && m !in x.clustered
    && forall k :: n <= k < |x.wire| ==> m !in Unpack(Decrypted(x.cipher, x.wire[k]))
  }

  /** From x to g nothing is given to the channel that carries m, unless the cluster did. */
  ghost predicate Hushed(x: HostState, g: HostState, m: Bytes) {
    && g.cipher == x.cipher && x.wire <= g.wire
    && (m !in x.clustered ==> Silent(g, m, |x.wire|))
  }

  lemma HushedOn(x: HostState, g: HostState, f: HostState, m: Bytes)
    requires Hushed(x, g, m) && Hushed(g, f, m)
    ensures Hushed(x, f, m)
  {
    if m !in x.clustered {
      StillSilent(g, f, m, |x.wire|);
    }
  }

  lemma StillSilent(x: HostState, g: HostState, m: Bytes, n: nat)
    requires Silent(x, m, n) && Hushed(x, g, m)
    ensures Silent(g, m, n)
  {
    forall k | n <= k < |g.wire|
      ensures m !in Unpack(Decrypted(g.cipher, g.wire[k]))
    {
      assert k < |x.wire| ==> g.wire[k] == x.wire[k];
    }
  }

  lemma SameChannelHushed(x: HostState, g: HostState, m: Bytes)
    requires g.clustered == x.clustered && g.wire == x.wire && g.cipher == x.cipher
    ensures Hushed(x, g, m)
  {
  }

  lemma EmitHushed(x: HostState, k: Bytes, m: Bytes)
    requires Packable(k) && k != m
    ensures Hushed(x, Emit(x, k), m)
  {
    MutualInverses(x.cipher, k);
  }

  /** The oversized message number id. */
  predicate Whole(m: Bytes, id: nat) {
    |m| > UNCHUNKED && m[0] == 0 && GetLong(m, 2) == id
  }

  /** What x does not put on the wire whole: the oversized message number id of its stream, and a message that
      does not begin with a zero byte unless it is posted unreliably. */
  predicate Barred(x: HostState, m: Bytes, id: nat) {
    IsApplication(m) || (Whole(m, id) && id < x.localStep)
  }

  lemma PostOneHushed(x: HostState, p: Bytes, m: Bytes, id: nat, now: nat)
    requires Barred(x, m, id) && x.localStep + 1 < U32 && |p| <= UNCHUNKED
    ensures Hushed(x, PostWhole(x, p, true, now), m) && PostWhole(x, p, true, now).localStep == x.localStep + 1
  {
    var s := Stamp(x.localStep, p);
    LongRoundTrip([0, 0x03], x.localStep, p);
    var q := Queue(x, s, now);
    SameChannelHushed(x, q, m);
    if |x.sent| < MAX_RELIABLE_IN_TRANSIT {
      EmitHushed(q, s, m);
      HushedOn(x, q, Emit(q, s), m);
    }
  }

  lemma {:induction false} PostAllHushed(x: HostState, ms: seq<Bytes>, m: Bytes, id: nat, now: nat)
    requires Barred(x, m, id) && x.localStep + |ms| < U32
    requires forall i :: 0 <= i < |ms| ==> |ms[i]| <= UNCHUNKED
    ensures Hushed(x, PostAll(x, ms, now), m) && PostAll(x, ms, now).localStep == x.localStep + |ms|
    decreases |ms|
  {
    if ms == [] {
      SameChannelHushed(x, x, m);
    } else {
      var n := |ms| - 1;
      PostAllHushed(x, ms[..n], m, id, now);
      PostOneHushed(PostAll(x, ms[..n], now), ms[n], m, id, now);
      HushedOn(x, PostAll(x, ms[..n], now), PostAll(x, ms, now), m);
    }
  }

  lemma PostHushed(x: HostState, k: Bytes, reliable: bool, m: Bytes, id: nat, now: nat)
    requires Barred(x, m, id) && (|k| <= UNCHUNKED ==> Packable(k) && (k != m || reliable))
    requires reliable || |k| > UNCHUNKED ==> x.localStep + |Payloads(k)| < U32
    ensures Hushed(x, Post(x, k, reliable, now), m)
  {
    if |k| > UNCHUNKED {
      PostAllHushed(x, Fragments(k), m, id, now);
    } else if reliable {
      PostOneHushed(x, k, m, id, now);
    } else {
      EmitHushed(x, k, m);
    }
  }

  lemma RepostHushed(x: HostState, s: seq<Bytes>, r: Reliable, m: Bytes, id: nat, now: nat)
    requires Barred(x, m, id) && Carries(r, s) && |s| < U32 && 1 <= |s[r.id]| <= UNCHUNKED
    requires Fits(s, r.msg) && x.localStep == |s|
    ensures Hushed(x, Post(x, r.msg, false, now), m)
  {
    StampIsStamped(s, r.id);
    if |r.msg| > UNCHUNKED {
      TwoFragments(r.msg);
    }
    PostHushed(x, r.msg, false, m, id, now);
  }

  lemma SendNextHushed(x: HostState, p: seq<Bytes>, hx: set<nat>, y: HostState, q: seq<Bytes>, hy: set<nat>, m: Bytes,
                       id: nat, now: nat)
    requires Loose(x, p, hx, y, q, hy) && IdsLeft(x, 1) && Barred(x, m, id)
    ensures Hushed(x, SendNext(x, now), m)
  {
    var i := Find(x.queued, x.localSent);
    if i < |x.queued| {
      var r := x.queued[i];
      PostGrows(x, r.msg, false, now);
      var g := Post(x, r.msg, false, now);
      RepostHushed(x, Stream(p), r, m, id, now);
      SameChannelHushed(g, SendNext(x, now), m);
      HushedOn(x, g, SendNext(x, now), m);
    } else {
      SameChannelHushed(x, x, m);
    }
  }

  lemma CheckSentHushed(x: HostState, p: seq<Bytes>, hx: set<nat>, y: HostState, q: seq<Bytes>, hy: set<nat>, m: Bytes,
                        id: nat, ack: nat, now: nat)
    requires Loose(x, p, hx, y, q, hy) && IdsLeft(x, 1) && Barred(x, m, id)
    ensures Hushed(x, CheckSent(x, ack, now), m)
  {
    var i := Find(x.sent, ack);
    if ack > x.localSent || i == |x.sent| {
      SameChannelHushed(x, x, m);
    } else {
      var g := x.(sent := Remove(x.sent, i));
      SameChannelHushed(x, g, m);
      DropKeeps(x, Stream(p), hx, y, Stream(q), hy, i);
      DropCalm(x, i);
      SendNextHushed(g, p, hx, y, q, hy, m, id, now);
      HushedOn(x, g, SendNext(g, now), m);
    }
  }

  lemma ResendHushed(x: HostState, p: seq<Bytes>, hx: set<nat>, y: HostState, q: seq<Bytes>, hy: set<nat>, m: Bytes,
                     id: nat, i: nat, now: nat)
    requires Loose(x, p, hx, y, q, hy) && IdsLeft(x, 1) && i < |x.sent| && Barred(x, m, id)
    ensures Hushed(x, Resend(x, i, now), m)
  {
    if Expired(x, x.sent[i], now) {
      var r := x.sent[i];
      PostGrows(x, r.msg, false, now);
      var g := Post(x, r.msg, false, now);
      RepostHushed(x, Stream(p), r, m, id, now);
      SameChannelHushed(g, Resend(x, i, now), m);
      HushedOn(x, g, Resend(x, i, now), m);
    } else {
      SameChannelHushed(x, x, m);
    }
  }

  lemma {:induction false} ResendAllHushed(x: HostState, p: seq<Bytes>, hx: set<nat>, y: HostState, q: seq<Bytes>,
                                           hy: set<nat>, m: Bytes, id: nat, i: nat, now: nat)
    requires Loose(x, p, hx, y, q, hy) && i <= |x.sent| && IdsLeft(x, Slots(x) - i)
    requires Barred(x, m, id)
    ensures Hushed(x, SendQueuedFrom(x, i, now), m)
    decreases Slots(x) - i
  {
    if i == |x.sent| {
      SameChannelHushed(x, x, m);
    } else {
      var g := Resend(x, i, now);
      ResendHushed(x, p, hx, y, q, hy, m, id, i, now);
      var p1, h1 := ResendStays(x, p, hx, y, q, hy, i, now);
      IdsStillLeft(x, p, hx, g, p1, h1, 1, Slots(x) - i - 1);
      ResendAllHushed(g, p1, h1, y, q, hy, m, id, i + 1, now);
      HushedOn(x, g, SendQueuedFrom(g, i + 1, now), m);
    }
  }

  lemma ReliableHushed(x: HostState, t: seq<Bytes>, k: nat, m: Bytes, id: nat, now: nat)
    requires Inbox(x) && Delivery(t, x) && k < |t| < U32 && Barred(x, m, id)
    ensures Hushed(x, GotReliable(x, k, t[k], now), m)
  {
    var e := Emit(x, Ack(k));
    EmitHushed(x, Ack(k), m);
    assert forall j :: Got(e, j) <==> Got(x, j);
    CheckReceivedDelivers(t, e, k, now);
    SameChannelHushed(e, GotReliable(x, k, t[k], now), m);
    HushedOn(x, e, GotReliable(x, k, t[k], now), m);
  }

  lemma GotMessageHushed(x: HostState, p: seq<Bytes>, hx: set<nat>, y: HostState, q: seq<Bytes>, hy: set<nat>, m: Bytes,
                         id: nat, k: Bytes, now: nat)
    requires Loose(x, p, hx, y, q, hy) && IdsLeft(x, 1) && Barred(x, m, id)
    requires Fine(y, SentPart(Stream(q), hy), k)
    ensures Hushed(x, GotMessage(x, k, now), m)
  {
    if IsApplication(k) {
      SameChannelHushed(x, GotMessage(x, k, now), m);
    } else if IsStamped(k, SentPart(Stream(q), hy)) {
      SentStamp(Stream(q), hy, k);
      ReliableHushed(x, Stream(q), GetLong(k, 2), m, id, now);
    } else {
      CheckSentHushed(x, p, hx, y, q, hy, m, id, GetLong(k, 2), now);
    }
  }

  lemma OneMoreHushed(x: HostState, p: seq<Bytes>, hx: set<nat>, g: HostState, p1: seq<Bytes>, h1: set<nat>,
                      y: HostState, q: seq<Bytes>, hy: set<nat>, m: Bytes, id: nat, n: nat, k: Bytes, now: nat)
    requires x.localStep == |Stream(p)| && Loose(g, p1, h1, y, q, hy) && Stays(x, p, hx, g, p1, h1, n)
    requires IdsLeft(x, n + 1) && Barred(x, m, id) && Hushed(x, g, m)
    requires Fine(y, SentPart(Stream(q), hy), k)
    ensures Hushed(x, GotMessage(g, k, now), m)
  {
    IdsStillLeft(x, p, hx, g, p1, h1, n, 1);
    GotMessageHushed(g, p1, h1, y, q, hy, m, id, k, now);
    HushedOn(x, g, GotMessage(g, k, now), m);
  }

  lemma {:induction false} GotMessagesHushed(x: HostState, p: seq<Bytes>, hx: set<nat>, y: HostState, q: seq<Bytes>,
                                             hy: set<nat>, m: Bytes, id: nat, ks: seq<Bytes>, now: nat)
    requires Loose(x, p, hx, y, q, hy) && IdsLeft(x, |ks|) && Barred(x, m, id)
    requires AllFine(y, SentPart(Stream(q), hy), ks)
    ensures Hushed(x, GotMessages(x, ks, now), m)
    decreases |ks|
  {
    if ks == [] {
      SameChannelHushed(x, x, m);
    } else {
      var us, k := ks[..|ks| - 1], ks[|ks| - 1];
      var g := GotMessages(x, us, now);
      GotMessagesHushed(x, p, hx, y, q, hy, m, id, us, now);
      var p1, h1 := GotMessagesStays(x, p, hx, y, q, hy, us, now);
      assert GotMessages(x, ks, now) == GotMessage(g, k, now);
      OneMoreHushed(x, p, hx, g, p1, h1, y, q, hy, m, id, |us|, k, now);
    }
  }

  lemma NotOnWire(x: HostState, n: nat, k: nat, m: Bytes)
    requires n <= k < |x.wire| && m !in Progress.Contents(x.cipher, x.wire[n..])
    ensures m !in Unpack(Decrypted(x.cipher, x.wire[k]))
  {
    var ws, j := x.wire[n..], k - n;
    assert ws[j] == x.wire[k];
    if m in Unpack(Decrypted(x.cipher, ws[j])) {
      Progress.InContents(x.cipher, ws, j, m);
    }
  }

  lemma FlushHushed(x: HostState, m: Bytes)
    requires forall i :: 0 <= i < |x.clustered| ==> Packable(x.clustered[i])
    ensures Hushed(x, EndCluster(x), m)
  {
    var g, n := EndCluster(x), |x.wire|;
    Progress.FlushContents(x);
    if m !in x.clustered {
      InPermutation(Progress.Contents(x.cipher, g.wire[n..]), x.clustered, m);
      forall k | n <= k < |g.wire|
        ensures m !in Unpack(Decrypted(g.cipher, g.wire[k]))
      {
        NotOnWire(g, n, k, m);
      }
    }
  }

  predicate Receives(e: Event) {
    e.ReceiveDatagram? || e.ReceiveMessage?
  }

  lemma ReceiveHushed(x: Peer, p: seq<Bytes>, hx: set<nat>, y: Peer, q: seq<Bytes>, hy: set<nat>, m: Bytes, id: nat,
                      e: Event, now: nat)
    requires Linked(x, p, hx, y, q, hy) && Allowed(x, y, e) && Receives(e)
    requires Barred(x.h, m, id)
    ensures Hushed(x.h, Act(x, y, e, now).h, m)
  {
    var ks := Carried(x, y, e.i);
    assert FineDatagram(y.h, SentPart(Stream(q), hy), y.h.wire[e.i]);
    if e.ReceiveDatagram? {
      GotMessagesHushed(x.h, p, hx, y.h, q, hy, m, id, ks, now);
    } else {
      GotMessageHushed(x.h, p, hx, y.h, q, hy, m, id, ks[e.j], now);
    }
  }

  /** m is posted unreliably, and is short enough to be sent whole. */
  predicate PostsUnreliably(e: Event, m: Bytes) {
    e == PostMessage(m, false) && |m| <= UNCHUNKED
  }

  /** Whatever its sender does, an oversized message is not given to the channel again; and a message that does
      not begin with a zero byte is given to it whole only if it is posted unreliably. */
  lemma ActHushed(x: Peer, p: seq<Bytes>, hx: set<nat>, y: Peer, q: seq<Bytes>, hy: set<nat>, m: Bytes, id: nat,
                  e: Event, now: nat)
    requires Linked(x, p, hx, y, q, hy) && Allowed(x, y, e) && Barred(x.h, m, id) && !PostsUnreliably(e, m)
    ensures Hushed(x.h, Act(x, y, e, now).h, m)
  {
    match e
    case PostMessage(k, reliable) => PostHushed(x.h, k, reliable, m, id, now);
    case ReceiveDatagram(i) => ReceiveHushed(x, p, hx, y, q, hy, m, id, e, now);
    case ReceiveMessage(i, j) => ReceiveHushed(x, p, hx, y, q, hy, m, id, e, now);
    case AcknowledgeAgain(k) => EmitHushed(x.h, Ack(k), m);
    case ResendExpired => ResendAllHushed(x.h, p, hx, y.h, q, hy, m, id, 0, now);
    case StartCluster => SameChannelHushed(x.h, BeginCluster(x.h), m);
    case FlushCluster => FlushHushed(x.h, m);
  }

  // ---------- The message does not arrive ----------

  /** What has arrived is the same. */
  ghost predicate SameInbox(x: HostState, g: HostState) {
    && g.remoteStep == x.remoteStep && g.received == x.received && g.assembly == x.assembly
    && g.heard == x.heard
  }

  lemma {:induction false} PostAllInbox(x: HostState, ms: seq<Bytes>, now: nat)
    ensures SameInbox(x, PostAll(x, ms, now))
    decreases |ms|
  {
    if ms != [] {
      PostAllInbox(x, ms[..|ms| - 1], now);
    }
  }

  lemma PostInbox(x: HostState, k: Bytes, reliable: bool, now: nat)
    ensures SameInbox(x, Post(x, k, reliable, now))
  {
    if |k| > UNCHUNKED {
      PostAllInbox(x, Fragments(k), now);
    }
  }

  lemma CheckSentInbox(x: HostState, ack: nat, now: nat)
    ensures SameInbox(x, CheckSent(x, ack, now))
  {
    var i := Find(x.sent, ack);
    if i < |x.sent| {
      var h := x.(sent := Remove(x.sent, i));
      var j := Find(h.queued, h.localSent);
      if j < |h.queued| {
        PostGrows(h, h.queued[j].msg, false, now);
        PostInbox(h, h.queued[j].msg, false, now);
      }
    }
  }

  lemma {:induction false} ResendAllInbox(x: HostState, i: nat, now: nat)
    requires i <= |x.sent|
    ensures SameInbox(x, SendQueuedFrom(x, i, now))
    decreases Slots(x) - i
  {
    if i < |x.sent| {
      if Expired(x, x.sent[i], now) {
        PostGrows(x, x.sent[i].msg, false, now);
        PostInbox(x, x.sent[i].msg, false, now);
      }
      ResendAllInbox(Resend(x, i, now), i + 1, now);
    }
  }

  /** x has a prefix of the stream t and some messages ahead of it, but not message id. */
  ghost predicate Lacks(x: HostState, t: seq<Bytes>, id: nat) {
    Inbox(x) && Delivery(t, x) && id < |t| < U32 && !Got(x, id)
  }

  /** It does not arrive with another message. */
  lemma GotOther(x: HostState, t: seq<Bytes>, hy: set<nat>, y: HostState, id: nat, k: Bytes, now: nat)
    requires Lacks(x, t, id) && Fine(y, SentPart(t, hy), k) && k != Stamp(id, t[id])
    ensures Lacks(GotMessage(x, k, now), t, id)
  {
    if IsApplication(k) {
    } else if IsStamped(k, SentPart(t, hy)) {
      SentStamp(t, hy, k);
      var e := Emit(x, Ack(GetLong(k, 2)));
      assert forall j :: Got(e, j) <==> Got(x, j);
      CheckReceivedDelivers(t, e, GetLong(k, 2), now);
    } else {
      CheckSentInbox(x, GetLong(k, 2), now);
    }
  }

  lemma {:induction false} GotOthers(x: HostState, t: seq<Bytes>, hy: set<nat>, y: HostState, id: nat, ks: seq<Bytes>,
                                     now: nat)
    requires Lacks(x, t, id) && AllFine(y, SentPart(t, hy), ks) && Stamp(id, t[id]) !in ks
    ensures Lacks(GotMessages(x, ks, now), t, id)
    decreases |ks|
  {
    if ks != [] {
      var n := |ks| - 1;
      GotOthers(x, t, hy, y, id, ks[..n], now);
      GotOther(GotMessages(x, ks[..n], now), t, hy, y, id, ks[n], now);
    }
  }

  /** A step of x that does not take in message id of y. */
  lemma ActMisses(x: Peer, p: seq<Bytes>, hx: set<nat>, y: Peer, q: seq<Bytes>, hy: set<nat>, id: nat,
                  e: Event, now: nat)
    requires Linked(x, p, hx, y, q, hy) && Allowed(x, y, e) && id < |Stream(q)| && !Got(x.h, id)
    requires Receives(e) ==> Stamp(id, Stream(q)[id]) !in Carried(x, y, e.i)
    ensures !Got(Act(x, y, e, now).h, id)
  {
    match e
    case PostMessage(k, reliable) => PostInbox(x.h, k, reliable, now);
    case ReceiveDatagram(i) =>
      assert FineDatagram(y.h, SentPart(Stream(q), hy), y.h.wire[i]);
      GotOthers(x.h, Stream(q), hy, y.h, id, Carried(x, y, i), now);
    case ReceiveMessage(i, j) =>
      assert FineDatagram(y.h, SentPart(Stream(q), hy), y.h.wire[i]);
      GotOther(x.h, Stream(q), hy, y.h, id, Carried(x, y, i)[j], now);
    case AcknowledgeAgain(k) =>
    case ResendExpired => ResendAllInbox(x.h, 0, now);
    case StartCluster =>
    case FlushCluster => EndClusterFine(x.h, SentPart(Stream(p), hx));
  }

  // ---------- Any run ----------

  /** Of the first n datagrams of the left host the right one takes in none that carries m. */
  ghost predicate Avoids(z: System, n: nat, m: Bytes, run: seq<Step>)
    requires n <= |z.left.h.wire|
  {
    forall i :: 0 <= i < |run| && !run[i].left && Receives(run[i].event) && run[i].event.i < n ==>
      m !in Carried(z.right, z.left, run[i].event.i)
  }

  /** m is message id of the left host, oversized, not on the wire from the n-th datagram on, and has not arrived. */
  ghost predicate Missing(z: System, s: seq<Bytes>, m: Bytes, id: nat, n: nat) {
    && id < |s| && m == Stamp(id, s[id]) && Whole(m, id)
    && Silent(z.left.h, m, n) && !Got(z.right.h, id)
  }

  lemma StillAvoids(z: System, w: System, n: nat, m: Bytes, run: seq<Step>)
    requires n <= |z.left.h.wire| && z.left.h.wire <= w.left.h.wire && z.right.h.cipher == w.right.h.cipher
    requires Avoids(z, n, m, run) && run != []
    ensures Avoids(w, n, m, run[1..])
  {
    forall i | 0 <= i < |run[1..]| && !run[1..][i].left && Receives(run[1..][i].event) && run[1..][i].event.i < n
      ensures m !in Carried(w.right, w.left, run[1..][i].event.i)
    {
      assert run[1..][i] == run[i + 1];
      assert w.left.h.wire[run[i + 1].event.i] == z.left.h.wire[run[i + 1].event.i];
    }
  }

  lemma LeftMisses(z: System, p: seq<Bytes>, hx: set<nat>, q: seq<Bytes>, hy: set<nat>, m: Bytes, id: nat, n: nat,
                   step: Step)
    returns (p': seq<Bytes>, hx': set<nat>)
    requires Linked(z.left, p, hx, z.right, q, hy) && Missing(z, Stream(p), m, id, n)
    requires step.left && Legal(z, step)
    ensures var w := Take(z, step);
            && Linked(w.left, p', hx', w.right, q, hy) && Missing(w, Stream(p'), m, id, n)
            && z.left.h.wire <= w.left.h.wire && z.right.h.cipher == w.right.h.cipher
  {
    var w := Take(z, step);
    ActHushed(z.left, p, hx, z.right, q, hy, m, id, step.event, step.now);
    StillSilent(z.left.h, w.left.h, m, n);
    p', hx' := ActStays(z.left, p, hx, z.right, q, hy, step.event, step.now);
  }

  lemma RightMisses(z: System, p: seq<Bytes>, hx: set<nat>, q: seq<Bytes>, hy: set<nat>, m: Bytes, id: nat, n: nat,
                    step: Step)
    returns (q': seq<Bytes>, hy': set<nat>)
    requires Linked(z.left, p, hx, z.right, q, hy) && Missing(z, Stream(p), m, id, n)
    requires !step.left && Legal(z, step)
    requires Receives(step.event) && step.event.i < n ==> m !in Carried(z.right, z.left, step.event.i)
    ensures var w := Take(z, step);
            && Linked(w.left, p, hx, w.right, q', hy') && Missing(w, Stream(p), m, id, n)
            && z.left.h.wire <= w.left.h.wire && z.right.h.cipher == w.right.h.cipher
  {
    ActMisses(z.right, q, hy, z.left, p, hx, id, step.event, step.now);
    q', hy' := ActStays(z.right, q, hy, z.left, p, hx, step.event, step.now);
  }

  lemma {:induction false} RunMisses(z: System, p: seq<Bytes>, hx: set<nat>, q: seq<Bytes>, hy: set<nat>, m: Bytes,
                                     id: nat, n: nat, run: seq<Step>)
    returns (p': seq<Bytes>)
    requires Linked(z.left, p, hx, z.right, q, hy) && Missing(z, Stream(p), m, id, n)
    requires IsRun(z, run) && Avoids(z, n, m, run)
    ensures var w := After(z, run);
            && Streamable(p') && Applications(p') == w.left.promised && Missing(w, Stream(p'), m, id, n)
            && Delivery(Stream(p'), w.right.h)
    decreases |run|
  {
    if run == [] {
      p' := p;
    } else {
      var w := Take(z, run[0]);
      var p1, h1, q1, k1 := p, hx, q, hy;
      if run[0].left {
        p1, h1 := LeftMisses(z, p, hx, q, hy, m, id, n, run[0]);
      } else {
        q1, k1 := RightMisses(z, p, hx, q, hy, m, id, n, run[0]);
      }
      StillAvoids(z, w, n, m, run);
      p' := RunMisses(w, p1, h1, q1, k1, m, id, n, run[1..]);
    }
  }

  /** A message in flight that is too long to be sent again whole, and has not arrived: once the datagrams that
      carry it are lost, the peer does not get past its ACK_ID whatever happens afterwards, and lacks a message
      it was promised. */
  lemma LostForGood(z: System, r: Reliable, run: seq<Step>)
    requires Reachable(z) && r in z.left.h.sent && |r.msg| > UNCHUNKED && !Got(z.right.h, r.id)
    requires r.msg !in z.left.h.clustered
    requires IsRun(z, run) && Avoids(z, |z.left.h.wire|, r.msg, run)
    ensures var w := After(z, run);
            w.right.h.remoteStep <= r.id && |w.right.h.assembly.log| < |w.left.promised|
  {
    var p, hx, q, hy := ReachableIsLinked(z);
    StampIsStamped(Stream(p), r.id);
    var p' := RunMisses(z, p, hx, q, hy, r.msg, r.id, |z.left.h.wire|, run);
    WholeMessageLacks(p', r.id, After(z, run).right.h.remoteStep);
  }

  /** A new session is given its first message. */
  lemma FirstPost(c: Cipher, ping: nat, m: Bytes, z: System)
    requires IsApplication(m) && |m| <= UNCHUNKED
    requires z == System(Act(Started(c, ping), Started(c, ping), PostMessage(m, true), 0), Started(c, ping))
    ensures z.left.promised == [m] && z.left.h.sent == [Reliable(0, Stamp(0, m), 0)]
    ensures z.left.h.queued == [] && z.left.h.clustered == [] && |z.left.h.wire| == 1 && !Got(z.right.h, 0)
  {
    LongRoundTrip([0, 0x03], 0, m);
    assert Post(Started(c, ping).h, m, true, 0) == PostWhole(Started(c, ping).h, m, true, 0);
  }

  lemma FirstReaches(c: Cipher, ping: nat, m: Bytes) returns (run: seq<Step>, z: System)
    requires IsApplication(m) && |m| <= UNCHUNKED
    ensures run == [Step(true, PostMessage(m, true), 0)] && Reaches(run, z)
    ensures z == System(Act(Started(c, ping), Started(c, ping), PostMessage(m, true), 0), Started(c, ping))
  {
    var start, step := System(Started(c, ping), Started(c, ping)), Step(true, PostMessage(m, true), 0);
    var none: seq<Step> := [];
    assert IsRun(start, none) && After(start, none) == start;
    ReachesMore(none, start, step);
    run, z := [step], Take(start, step);
    assert none + [step] == run;
  }

  /** It happens at once: a new session is given one message of such a length, sends it, and if that datagram is
      lost the peer never has the message, whatever is sent again. */
  lemma LostOccurs(n: nat) returns (z: System, r: Reliable)
    requires SAFE < n <= UNCHUNKED
    ensures Reachable(z) && |z.left.promised| == 1 && |z.left.promised[0]| == n
    ensures z.left.h.sent == [r] && |z.left.h.wire| == 1
    ensures forall run :: IsRun(z, run) && Avoids(z, 1, r.msg, run) ==>
              |After(z, run).right.h.assembly.log| < |After(z, run).left.promised|
  {
    var c, m: Bytes := Cipher(ZERO, []), seq(n, i => 1);
    var first;
    first, z := FirstReaches(c, 0, m);
    FirstPost(c, 0, m, z);
    r := Reliable(0, Stamp(0, m), 0);
    forall run | IsRun(z, run) && Avoids(z, 1, r.msg, run)
      ensures |After(z, run).right.h.assembly.log| < |After(z, run).left.promised|
    {
      LostForGood(z, r, run);
    }
  }
}
