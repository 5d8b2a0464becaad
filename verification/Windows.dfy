/** The window over runs of any length: in every reachable state it holds, unless an oversized message has never been
    sent; and what is in flight or has arrived was given to the channel. */
module Windows {
  import opened Bytes
  import opened Reassembly
  import opened Cluster
  import opened Encrypt
  import opened Transport
  import opened Session
  import opened Runs
  import opened Progress
  import opened AnyLength
  import opened Oversized
  import opened Lost
  import opened Memory
  import opened Airing

  // ---------- One step ----------

  ghost predicate QueuedShort(x: HostState) {
    forall i :: 0 <= i < |x.queued| ==> |x.queued[i].msg| <= UNCHUNKED
  }

  /** The window holds, and no acknowledgement will break it. */
  ghost predicate Orderly(x: HostState) {
    Window(x) && QueuedShort(x)
  }

  /** The lists and counters of the outbox are the same. */
  lemma SameOutbox(x: HostState, g: HostState)
    requires g.localStep == x.localStep && g.localSent == x.localSent && g.sent == x.sent && g.queued == x.queued
    ensures (Window(x) ==> Window(g)) && (QueuedShort(x) ==> QueuedShort(g))
  {
  }

  lemma PostWholeOrderly(x: HostState, p: Bytes, now: nat)
    requires Window(x) && x.localStep + 1 < U32
    ensures var g := PostWhole(x, p, true, now);
            Window(g) && g.localStep == x.localStep + 1 && (QueuedShort(x) && |p| <= SAFE ==> QueuedShort(g))
  {
    var m := Stamp(x.localStep, p);
    LongRoundTrip([0, 0x03], x.localStep, p);
    WindowPost(x, m, now);
    SameOutbox(Queue(x, m, now), PostWhole(x, p, true, now));
  }

  lemma {:induction false} PostAllOrderly(x: HostState, ms: seq<Bytes>, now: nat)
    requires Window(x) && x.localStep + |ms| < U32 && forall i :: 0 <= i < |ms| ==> |ms[i]| <= SAFE
    ensures var g := PostAll(x, ms, now);
            Window(g) && g.localStep == x.localStep + |ms| && (QueuedShort(x) ==> QueuedShort(g))
    decreases |ms|
  {
    if ms != [] {
      var n := |ms| - 1;
      PostAllOrderly(x, ms[..n], now);
      PostWholeOrderly(PostAll(x, ms[..n], now), ms[n], now);
    }
  }

  lemma PostOrderly(x: HostState, m: Bytes, reliable: bool, now: nat)
    requires Window(x) && (reliable || |m| > UNCHUNKED ==> x.localStep + |Payloads(m)| < U32)
    ensures Window(Post(x, m, reliable, now))
    ensures QueuedShort(x) && (!reliable || |m| > UNCHUNKED) ==> QueuedShort(Post(x, m, reliable, now))
  {
    if |m| > UNCHUNKED {
      PostAllOrderly(x, Fragments(m), now);
    } else if reliable {
      PostWholeOrderly(x, m, now);
    } else {
      SameOutbox(x, Emit(x, m));
    }
  }

  lemma RestampOrderly(x: HostState, i: nat, now: nat)
    requires Orderly(x) && i < |x.sent|
    ensures Orderly(x.(sent := x.sent[i := x.sent[i].(lastSend := now)]))
  {
    RestampHas(x.sent, i, now);
  }

  lemma ResendOrderly(x: HostState, p: seq<Bytes>, hx: set<nat>, y: HostState, q: seq<Bytes>, hy: set<nat>, i: nat,
                      now: nat)
    requires Loose(x, p, hx, y, q, hy) && i < |x.sent| && IdsLeft(x, 1) && Orderly(x)
    ensures Orderly(Resend(x, i, now))
  {
    if Expired(x, x.sent[i], now) {
      var r := x.sent[i];
      if |r.msg| > UNCHUNKED {
        TwoFragments(r.msg);
      }
      PostGrows(x, r.msg, false, now);
      PostOrderly(x, r.msg, false, now);
      RestampOrderly(Post(x, r.msg, false, now), i, now);
    }
  }

  lemma {:induction false} ResendAllOrderly(x: HostState, p: seq<Bytes>, hx: set<nat>, y: HostState, q: seq<Bytes>,
                                            hy: set<nat>, i: nat, now: nat)
    requires Loose(x, p, hx, y, q, hy) && i <= |x.sent| && IdsLeft(x, Slots(x) - i) && Orderly(x)
    ensures Orderly(SendQueuedFrom(x, i, now))
    decreases Slots(x) - i
  {
    if i < |x.sent| {
      var g := Resend(x, i, now);
      ResendOrderly(x, p, hx, y, q, hy, i, now);
      var p1, h1 := ResendStays(x, p, hx, y, q, hy, i, now);
      IdsStillLeft(x, p, hx, g, p1, h1, 1, Slots(x) - i - 1);
      ResendAllOrderly(g, p1, h1, y, q, hy, i + 1, now);
    }
  }

  /** An acknowledgement lets the first of the queue move up, which is sent as it is. */
  lemma CheckSentMoves(x: HostState, id: nat, now: nat)
    requires Orderly(x)
    ensures var g := CheckSent(x, id, now);
            if !Has(x.sent, id) then g == x
            else
              var h := x.(sent := Remove(x.sent, Find(x.sent, id)));
              if x.queued == [] then g == h
              else
                g == Emit(h, x.queued[0].msg).(sent := h.sent + [x.queued[0].(lastSend := now)],
                                               queued := x.queued[1..], localSent := x.localSent + 1)
  {
    var i := Find(x.sent, id);
    if i < |x.sent| {
      assert x.sent[i].id == id;
      var h := x.(sent := Remove(x.sent, i));
      if x.queued != [] {
        var m := x.queued[0];
        assert Find(h.queued, h.localSent) == 0;
        assert Post(h, m.msg, false, now) == Emit(h, m.msg);
        assert Remove(x.queued, 0) == x.queued[1..];
      }
    }
  }

  lemma CheckSentOrderly(x: HostState, id: nat, now: nat)
    requires Orderly(x)
    ensures Orderly(CheckSent(x, id, now))
  {
    AckKeepsWindowIff(x, id, now);
    CheckSentMoves(x, id, now);
  }

  lemma GotMessageOrderly(x: HostState, m: Bytes, now: nat)
    requires Orderly(x)
    ensures Orderly(GotMessage(x, m, now))
  {
    if IsApplication(m) {
      SameOutbox(x, GotMessage(x, m, now));
    } else if |m| >= 7 && m[1] == 0x03 {
      var e := Emit(x, Ack(GetLong(m, 2)));
      CheckReceivedInbox(e, GetLong(m, 2), m[6..], now);
      SameOutbox(x, GotMessage(x, m, now));
    } else if |m| == 6 && m[1] == 0x04 {
      CheckSentOrderly(x, GetLong(m, 2), now);
    } else {
      SameOutbox(x, GotMessage(x, m, now));
    }
  }

  lemma {:induction false} GotMessagesOrderly(x: HostState, ms: seq<Bytes>, now: nat)
    requires Orderly(x)
    ensures Orderly(GotMessages(x, ms, now))
    decreases |ms|
  {
    if ms != [] {
      GotMessagesOrderly(x, ms[..|ms| - 1], now);
      GotMessageOrderly(GotMessages(x, ms[..|ms| - 1], now), ms[|ms| - 1], now);
    }
  }

  lemma ActOrderly(x: Peer, p: seq<Bytes>, hx: set<nat>, y: Peer, q: seq<Bytes>, hy: set<nat>, e: Event, now: nat)
    requires Linked(x, p, hx, y, q, hy) && Allowed(x, y, e) && Orderly(x.h)
    ensures Window(Act(x, y, e, now).h)
  {
    match e
    case PostMessage(m, reliable) => PostOrderly(x.h, m, reliable, now);
    case ReceiveDatagram(i) => GotMessagesOrderly(x.h, Carried(x, y, i), now);
    case ReceiveMessage(i, j) => GotMessageOrderly(x.h, Carried(x, y, i)[j], now);
    case AcknowledgeAgain(id) => SameOutbox(x.h, Emit(x.h, Ack(id)));
    case ResendExpired => ResendAllOrderly(x.h, p, hx, y.h, q, hy, 0, now);
    case StartCluster => SameOutbox(x.h, BeginCluster(x.h));
    case FlushCluster =>
      EndClusterFine(x.h, SentPart(Stream(p), hx));
      SameOutbox(x.h, EndCluster(x.h));
  }

  // ---------- Any run ----------

  /** A message of the stream that is too long to be sent again whole has never been sent. */
  ghost predicate SomeUnsent(s: seq<Bytes>, hidden: set<nat>) {
    exists id: nat :: id in hidden && id < |s| && |s[id]| > SAFE
  }

  /** What has arrived at y was given to the channel. */
  ghost predicate ArrivedAired(x: HostState, s: seq<Bytes>, y: HostState) {
    forall id: nat :: Got(y, id) ==> id < |s| && Aired(x, Stamp(id, s[id]))
  }

  ghost predicate InOrder(x: HostState, s: seq<Bytes>, hx: set<nat>, y: HostState) {
    ShortAired(x) && ArrivedAired(x, s, y) && (Window(x) || SomeUnsent(s, hx))
  }

  lemma UnsentStays(s: seq<Bytes>, hx: set<nat>, t: seq<Bytes>, ht: set<nat>)
    requires Grows(s, hx, t, ht) && SomeUnsent(s, hx)
    ensures SomeUnsent(t, ht)
  {
    var id: nat :| id in hx && id < |s| && |s[id]| > SAFE;
    assert t[id] == s[id];
  }

  lemma QueuedOrUnsent(x: HostState, p: seq<Bytes>, hx: set<nat>, y: HostState, q: seq<Bytes>, hy: set<nat>)
    requires Loose(x, p, hx, y, q, hy) && !SomeUnsent(Stream(p), hx)
    ensures QueuedShort(x)
  {
    forall i | 0 <= i < |x.queued|
      ensures |x.queued[i].msg| <= UNCHUNKED
    {
      var r := x.queued[i];
      assert Carries(r, Stream(p)) && r.id in hx;
    }
  }

  /** A step of x as a sender. */
  lemma SenderStays(x: Peer, p: seq<Bytes>, hx: set<nat>, y: Peer, q: seq<Bytes>, hy: set<nat>, e: Event, now: nat,
                    p': seq<Bytes>, hx': set<nat>)
    requires Linked(x, p, hx, y, q, hy) && Allowed(x, y, e) && InOrder(x.h, Stream(p), hx, y.h)
    requires Grows(Stream(p), hx, Stream(p'), hx')
    ensures InOrder(Act(x, y, e, now).h, Stream(p'), hx', y.h)
  {
    ActAirs(x, p, hx, y, q, hy, e, now);
    if SomeUnsent(Stream(p), hx) {
      UnsentStays(Stream(p), hx, Stream(p'), hx');
    } else {
      QueuedOrUnsent(x.h, p, hx, y.h, q, hy);
      ActOrderly(x, p, hx, y, q, hy, e, now);
    }
  }

  /** A message that arrives at x in a step was on the wire. */
  lemma ArrivalAired(x: Peer, p: seq<Bytes>, hx: set<nat>, y: Peer, q: seq<Bytes>, hy: set<nat>, e: Event, now: nat,
                     id: nat)
    requires Linked(x, p, hx, y, q, hy) && Allowed(x, y, e) && id < |Stream(q)|
    requires !Got(x.h, id) && Got(Act(x, y, e, now).h, id)
    ensures Aired(y.h, Stamp(id, Stream(q)[id]))
  {
    if !Receives(e) || Stamp(id, Stream(q)[id]) !in Carried(x, y, e.i) {
      ActMisses(x, p, hx, y, q, hy, id, e, now);
    } else {
      assert Stamp(id, Stream(q)[id]) in Unpack(Decrypted(y.h.cipher, y.h.wire[e.i]));
    }
  }

  /** A step of x as the receiver. */
  lemma ReceiverStays(x: Peer, p: seq<Bytes>, hx: set<nat>, y: Peer, q: seq<Bytes>, hy: set<nat>, e: Event, now: nat)
    requires Linked(x, p, hx, y, q, hy) && Allowed(x, y, e) && InOrder(y.h, Stream(q), hy, x.h)
    requires Delivery(Stream(q), Act(x, y, e, now).h)
    ensures InOrder(y.h, Stream(q), hy, Act(x, y, e, now).h)
  {
    var g := Act(x, y, e, now).h;
    forall id: nat | Got(g, id)
      ensures id < |Stream(q)| && Aired(y.h, Stamp(id, Stream(q)[id]))
    {
      HasIff(g.received, id);
      if !Got(x.h, id) {
        ArrivalAired(x, p, hx, y, q, hy, e, now, id);
      }
    }
  }

  lemma {:induction false} RunInOrder(z: System, p: seq<Bytes>, hx: set<nat>, q: seq<Bytes>, hy: set<nat>,
                                      run: seq<Step>)
    returns (p': seq<Bytes>, hx': set<nat>, q': seq<Bytes>, hy': set<nat>)
    requires Linked(z.left, p, hx, z.right, q, hy) && IsRun(z, run)
    requires InOrder(z.left.h, Stream(p), hx, z.right.h) && InOrder(z.right.h, Stream(q), hy, z.left.h)
    ensures var w := After(z, run);
            && Linked(w.left, p', hx', w.right, q', hy')
            && InOrder(w.left.h, Stream(p'), hx', w.right.h) && InOrder(w.right.h, Stream(q'), hy', w.left.h)
    decreases |run|
  {
    p', hx', q', hy' := p, hx, q, hy;
    if run != [] {
      var p1, h1, q1, k1, e := p, hx, q, hy, run[0];
      if e.left {
        p1, h1 := ActStays(z.left, p, hx, z.right, q, hy, e.event, e.now);
        SenderStays(z.left, p, hx, z.right, q, hy, e.event, e.now, p1, h1);
        ReceiverStays(z.left, p, hx, z.right, q, hy, e.event, e.now);
      } else {
        q1, k1 := ActStays(z.right, q, hy, z.left, p, hx, e.event, e.now);
        SenderStays(z.right, q, hy, z.left, p, hx, e.event, e.now, q1, k1);
        ReceiverStays(z.right, q, hy, z.left, p, hx, e.event, e.now);
      }
      p', hx', q', hy' := RunInOrder(Take(z, e), p1, h1, q1, k1, run[1..]);
    }
  }

  lemma ReachableIsInOrder(z: System) returns (p: seq<Bytes>, hx: set<nat>, q: seq<Bytes>, hy: set<nat>)
    requires Reachable(z)
    ensures Linked(z.left, p, hx, z.right, q, hy)
    ensures InOrder(z.left.h, Stream(p), hx, z.right.h) && InOrder(z.right.h, Stream(q), hy, z.left.h)
  {
    var run :| Reaches(run, z);
    var c, pingX, pingY :|
      IsRun(System(Started(c, pingX), Started(c, pingY)), run)
      && After(System(Started(c, pingX), Started(c, pingY)), run) == z;
    StartIsLinked(c, pingX, pingY);
    p, hx, q, hy := RunInOrder(System(Started(c, pingX), Started(c, pingY)), [], {}, [], {}, run);
  }

  // ---------- What every run guarantees ----------

  /** A message of the outbox is too long to be sent again whole, and the channel was never given it. */
  ghost predicate Blocked(x: HostState) {
    exists r :: (r in x.sent || r in x.queued) && |r.msg| > UNCHUNKED && !Aired(x, r.msg)
  }

  lemma HiddenIsNotAired(x: HostState, s: seq<Bytes>, hx: set<nat>, id: nat)
    requires Emitted(x, SentPart(s, hx)) && id in hx && id < |s| < U32 && 1 <= |s[id]| <= UNCHUNKED
    ensures !Aired(x, Stamp(id, s[id]))
  {
    var m := Stamp(id, s[id]);
    StampIsStamped(s, id);
    assert !Fine(x, SentPart(s, hx), m);
  }

  lemma UnsentBlocks(x: HostState, p: seq<Bytes>, hx: set<nat>, y: HostState, q: seq<Bytes>, hy: set<nat>)
    requires Loose(x, p, hx, y, q, hy) && Remembered(x, y) && SomeUnsent(Stream(p), hx)
    ensures Blocked(x)
  {
    var s := Stream(p);
    var id: nat :| id in hx && id < |s| && |s[id]| > SAFE;
    assert !Got(y, id);
    HiddenIsNotAired(x, s, hx, id);
    var r := if Has(x.sent, id) then x.sent[Find(x.sent, id)] else x.queued[Find(x.queued, id)];
    assert Carries(r, s);
  }

  lemma UnblockedIsOrderly(x: HostState, p: seq<Bytes>, hx: set<nat>, y: HostState, q: seq<Bytes>, hy: set<nat>)
    requires Loose(x, p, hx, y, q, hy) && Remembered(x, y) && InOrder(x, Stream(p), hx, y) && !Blocked(x)
    ensures Orderly(x) && forall i :: 0 <= i < |x.sent| ==> Aired(x, x.sent[i].msg)
  {
    if SomeUnsent(Stream(p), hx) {
      UnsentBlocks(x, p, hx, y, q, hy);
    } else {
      QueuedOrUnsent(x, p, hx, y, q, hy);
    }
    forall i | 0 <= i < |x.sent|
      ensures Aired(x, x.sent[i].msg)
    {
      assert x.sent[i] in x.sent;
    }
  }

  /** In every reachable state, whatever the lengths, each message in flight that can be sent again whole is in the
      open cluster or on the wire. */
  lemma InFlightIsAired(z: System)
    requires Reachable(z)
    ensures ShortAired(z.left.h) && ShortAired(z.right.h)
  {
    var p, hx, q, hy := ReachableIsInOrder(z);
  }

  /** In every reachable state, whatever the lengths, the window holds unless some message of the outbox is too long
      to be sent again whole and was never given to the channel. */
  lemma WindowUnlessBlocked(z: System)
    requires Reachable(z)
    ensures Window(z.left.h) || Blocked(z.left.h)
    ensures Window(z.right.h) || Blocked(z.right.h)
  {
    var p, hx, q, hy := ReachableIsInOrder(z);
    NothingForgotten(z);
    if !Blocked(z.left.h) {
      UnblockedIsOrderly(z.left.h, p, hx, z.right.h, q, hy);
    }
    if !Blocked(z.right.h) {
      UnblockedIsOrderly(z.right.h, q, hy, z.left.h, p, hx);
    }
  }
}
