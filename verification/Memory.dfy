/** No message of a reliable stream is ever forgotten: it is in its sender's outbox until the peer has it,
    whatever the lengths of the messages, and whatever the channel does. */
module Memory {
  import opened Bytes
  import opened Reassembly
  import opened Transport
  import opened Session
  import opened Runs
  import opened AnyLength

  // ---------- One step ----------

  predicate InOutbox(x: HostState, id: nat) {
    Has(x.sent, id) || Has(x.queued, id)
  }

  /** From x to g: what was in the outbox, and what is new, is there unless y has it, and what has arrived stays so. */
  ghost predicate Minds(x: HostState, g: HostState, y: HostState) {
    && x.localStep <= g.localStep
    && (forall id: nat :: id < x.localStep && InOutbox(x, id) ==> InOutbox(g, id) || Got(y, id))
    && (forall id: nat :: x.localStep <= id < g.localStep ==> InOutbox(g, id) || Got(y, id))
    && (forall id: nat :: Got(x, id) ==> Got(g, id))
  }

  lemma MindsOn(x: HostState, g: HostState, f: HostState, y: HostState)
    requires Minds(x, g, y) && Minds(g, f, y)
    ensures Minds(x, f, y)
  {
  }

  lemma MindsRemembers(x: HostState, g: HostState, y: HostState)
    requires Minds(x, g, y) && Remembered(x, y) && Remembered(y, x)
    ensures Remembered(g, y) && Remembered(y, g)
  {
    forall id: nat | id < g.localStep
      ensures Has(g.sent, id) || Has(g.queued, id) || id < y.remoteStep || Has(y.received, id)
    {
      assert id < x.localStep ==> InOutbox(x, id) || Got(y, id);
      assert InOutbox(g, id) || Got(y, id);
    }
    forall id: nat | id < y.localStep
      ensures Has(y.sent, id) || Has(y.queued, id) || id < g.remoteStep || Has(g.received, id)
    {
      assert InOutbox(y, id) || Got(x, id);
      assert Got(x, id) ==> Got(g, id);
    }
  }

  /** A step that leaves the lists and counters as they are. */
  lemma SameListsMinds(x: HostState, g: HostState, y: HostState)
    requires g.localStep == x.localStep && g.sent == x.sent && g.queued == x.queued
    requires g.remoteStep == x.remoteStep && g.received == x.received
    ensures Minds(x, g, y)
  {
  }

  lemma PostOneMinds(x: HostState, p: Bytes, y: HostState, now: nat)
    requires x.localStep + 1 < U32
    ensures Minds(x, PostWhole(x, p, true, now), y)
    ensures PostWhole(x, p, true, now).localStep == x.localStep + 1
  {
    var s := Stamp(x.localStep, p);
    LongRoundTrip([0, 0x03], x.localStep, p);
    var r := Reliable(x.localStep, s, now);
    AppendHas(x.sent, r);
    AppendHas(x.queued, r);
  }

  lemma {:induction false} PostAllMinds(x: HostState, ms: seq<Bytes>, y: HostState, now: nat)
    requires x.localStep + |ms| < U32
    ensures Minds(x, PostAll(x, ms, now), y) && PostAll(x, ms, now).localStep == x.localStep + |ms|
    decreases |ms|
  {
    if ms != [] {
      var n := |ms| - 1;
      PostAllMinds(x, ms[..n], y, now);
      PostOneMinds(PostAll(x, ms[..n], now), ms[n], y, now);
      MindsOn(x, PostAll(x, ms[..n], now), PostAll(x, ms, now), y);
    }
  }

  lemma RepostMinds(x: HostState, m: Bytes, y: HostState, now: nat)
    requires |m| <= UNCHUNKED || (Refragmented(m) && x.localStep + 2 < U32)
    ensures Minds(x, Post(x, m, false, now), y)
  {
    if |m| > UNCHUNKED {
      TwoFragments(m);
      PostAllMinds(x, Fragments(m), y, now);
    } else {
      SameListsMinds(x, Emit(x, m), y);
    }
  }

  /** The i-th queued message moves into the list in flight. */
  lemma MoveUpMinds(x: HostState, i: nat, r: Reliable, next: nat, y: HostState)
    requires i < |x.queued| && Distinct(x.queued) && r.id == x.queued[i].id
    ensures Minds(x, x.(sent := x.sent + [r], localSent := next, queued := Remove(x.queued, i)), y)
  {
    AppendHas(x.sent, r);
    RemoveKeepsDistinct(x.queued, i);
  }

  lemma SendNextMinds(x: HostState, p: seq<Bytes>, hx: set<nat>, y: HostState, q: seq<Bytes>, hy: set<nat>, now: nat)
    requires Loose(x, p, hx, y, q, hy) && IdsLeft(x, 1)
    ensures Minds(x, SendNext(x, now), y)
  {
    var i := Find(x.queued, x.localSent);
    if i < |x.queued| {
      var m := x.queued[i];
      PostGrows(x, m.msg, false, now);
      RepostMinds(x, m.msg, y, now);
      var g := Post(x, m.msg, false, now);
      if |m.msg| > UNCHUNKED {
        var p', hx' := RepostStays(x, p, hx, y, q, hy, m, now);
      }
      assert g.queued[i] == m;
      MoveUpMinds(g, i, m.(lastSend := now), Next(g.localSent), y);
      MindsOn(x, g, SendNext(x, now), y);
    }
  }

  /** Taking an acknowledged message out forgets only it. */
  lemma DropMinds(x: HostState, i: nat, y: HostState)
    requires i < |x.sent| && Got(y, x.sent[i].id)
    ensures Minds(x, x.(sent := Remove(x.sent, i)), y)
  {
    var r := Remove(x.sent, i);
    forall id: nat | Has(x.sent, id) && id != x.sent[i].id
      ensures Has(r, id)
    {
      var j := Find(x.sent, id);
      assert r[if j < i then j else j - 1].id == id;
      HasIff(r, id);
    }
  }

  lemma CheckSentMinds(x: HostState, p: seq<Bytes>, hx: set<nat>, y: HostState, q: seq<Bytes>, hy: set<nat>,
                       id: nat, now: nat)
    requires Loose(x, p, hx, y, q, hy) && IdsLeft(x, 1) && Got(y, id)
    ensures Minds(x, CheckSent(x, id, now), y)
  {
    var i := Find(x.sent, id);
    if !(id > x.localSent || i == |x.sent|) {
      var g := x.(sent := Remove(x.sent, i));
      DropMinds(x, i, y);
      DropKeeps(x, Stream(p), hx, y, Stream(q), hy, i);
      DropCalm(x, i);
      SendNextMinds(g, p, hx, y, q, hy, now);
      MindsOn(x, g, CheckSent(x, id, now), y);
    }
  }

  lemma RestampMinds(x: HostState, i: nat, now: nat, y: HostState)
    requires i < |x.sent|
    ensures Minds(x, x.(sent := x.sent[i := x.sent[i].(lastSend := now)]), y)
  {
    var r := x.sent[i := x.sent[i].(lastSend := now)];
    forall id: nat | Has(x.sent, id)
      ensures Has(r, id)
    {
      assert r[Find(x.sent, id)].id == id;
      HasIff(r, id);
    }
  }

  lemma ResendMinds(x: HostState, p: seq<Bytes>, hx: set<nat>, y: HostState, q: seq<Bytes>, hy: set<nat>, i: nat,
                    now: nat)
    requires Loose(x, p, hx, y, q, hy) && i < |x.sent| && IdsLeft(x, 1)
    ensures Minds(x, Resend(x, i, now), y)
  {
    if Expired(x, x.sent[i], now) {
      var m := x.sent[i];
      PostGrows(x, m.msg, false, now);
      RepostMinds(x, m.msg, y, now);
      var g := Post(x, m.msg, false, now);
      RestampMinds(g, i, now, y);
      MindsOn(x, g, Resend(x, i, now), y);
    }
  }

  lemma {:induction false} ResendAllMinds(x: HostState, p: seq<Bytes>, hx: set<nat>, y: HostState, q: seq<Bytes>,
                                          hy: set<nat>, i: nat, now: nat)
    requires Loose(x, p, hx, y, q, hy) && i <= |x.sent| && IdsLeft(x, Slots(x) - i)
    ensures Minds(x, SendQueuedFrom(x, i, now), y)
    decreases Slots(x) - i
  {
    if i < |x.sent| {
      var g := Resend(x, i, now);
      ResendMinds(x, p, hx, y, q, hy, i, now);
      var p1, h1 := ResendStays(x, p, hx, y, q, hy, i, now);
      IdsStillLeft(x, p, hx, g, p1, h1, 1, Slots(x) - i - 1);
      ResendAllMinds(g, p1, h1, y, q, hy, i + 1, now);
      MindsOn(x, g, SendQueuedFrom(x, i, now), y);
    }
  }

  lemma ReliableMinds(x: HostState, s: seq<Bytes>, hx: set<nat>, y: HostState, t: seq<Bytes>, hy: set<nat>,
                      id: nat, now: nat)
    requires Both(x, s, hx, y, t, hy) && id < |t| && id !in hy
    ensures Minds(x, GotReliable(x, id, t[id], now), y) && Got(GotReliable(x, id, t[id], now), id)
  {
    var e := Emit(x, Ack(id));
    assert forall j :: Got(e, j) <==> Got(x, j);
    CheckReceivedDelivers(t, e, id, now);
  }

  lemma GotMessageMinds(x: HostState, p: seq<Bytes>, hx: set<nat>, y: HostState, q: seq<Bytes>, hy: set<nat>,
                        m: Bytes, now: nat)
    requires Loose(x, p, hx, y, q, hy) && IdsLeft(x, 1) && Fine(y, SentPart(Stream(q), hy), m)
    ensures Minds(x, GotMessage(x, m, now), y)
  {
    if IsApplication(m) {
      SameListsMinds(x, GotMessage(x, m, now), y);
    } else if IsStamped(m, SentPart(Stream(q), hy)) {
      SentStamp(Stream(q), hy, m);
      ReliableMinds(x, Stream(p), hx, y, Stream(q), hy, GetLong(m, 2), now);
    } else {
      CheckSentMinds(x, p, hx, y, q, hy, GetLong(m, 2), now);
    }
  }

  lemma {:induction false} GotMessagesMinds(x: HostState, p: seq<Bytes>, hx: set<nat>, y: HostState, q: seq<Bytes>,
                                            hy: set<nat>, ms: seq<Bytes>, now: nat)
    requires Loose(x, p, hx, y, q, hy) && IdsLeft(x, |ms|) && AllFine(y, SentPart(Stream(q), hy), ms)
    ensures Minds(x, GotMessages(x, ms, now), y)
    decreases |ms|
  {
    if ms != [] {
      var n := |ms| - 1;
      var g := GotMessages(x, ms[..n], now);
      GotMessagesMinds(x, p, hx, y, q, hy, ms[..n], now);
      var p1, h1 := GotMessagesStays(x, p, hx, y, q, hy, ms[..n], now);
      IdsStillLeft(x, p, hx, g, p1, h1, n, 1);
      GotMessageMinds(g, p1, h1, y, q, hy, ms[n], now);
      assert GotMessages(x, ms, now) == GotMessage(g, ms[n], now);
      MindsOn(x, g, GotMessages(x, ms, now), y);
    }
  }

  // ---------- Any run ----------

  lemma ReceiveMinds(x: Peer, p: seq<Bytes>, hx: set<nat>, y: Peer, q: seq<Bytes>, hy: set<nat>, e: Event, now: nat)
    requires Linked(x, p, hx, y, q, hy) && Allowed(x, y, e) && (e.ReceiveDatagram? || e.ReceiveMessage?)
    ensures Minds(x.h, Act(x, y, e, now).h, y.h)
  {
    var ms := Carried(x, y, e.i);
    assert FineDatagram(y.h, SentPart(Stream(q), hy), y.h.wire[e.i]);
    if e.ReceiveDatagram? {
      GotMessagesMinds(x.h, p, hx, y.h, q, hy, ms, now);
    } else {
      GotMessageMinds(x.h, p, hx, y.h, q, hy, ms[e.j], now);
    }
  }

  lemma PostMinds(x: HostState, m: Bytes, reliable: bool, y: HostState, now: nat)
    requires reliable || |m| > UNCHUNKED ==> x.localStep + |Payloads(m)| < U32
    ensures Minds(x, Post(x, m, reliable, now), y)
  {
    if |m| > UNCHUNKED {
      PostAllMinds(x, Fragments(m), y, now);
    } else if reliable {
      PostOneMinds(x, m, y, now);
    } else {
      SameListsMinds(x, Emit(x, m), y);
    }
  }

  lemma ActMinds(x: Peer, p: seq<Bytes>, hx: set<nat>, y: Peer, q: seq<Bytes>, hy: set<nat>, e: Event, now: nat)
    requires Linked(x, p, hx, y, q, hy) && Allowed(x, y, e)
    ensures Minds(x.h, Act(x, y, e, now).h, y.h)
  {
    match e
    case PostMessage(m, reliable) => PostMinds(x.h, m, reliable, y.h, now);
    case ReceiveDatagram(i) => ReceiveMinds(x, p, hx, y, q, hy, e, now);
    case ReceiveMessage(i, j) => ReceiveMinds(x, p, hx, y, q, hy, e, now);
    case AcknowledgeAgain(id) => SameListsMinds(x.h, Emit(x.h, Ack(id)), y.h);
    case ResendExpired => ResendAllMinds(x.h, p, hx, y.h, q, hy, 0, now);
    case StartCluster => SameListsMinds(x.h, BeginCluster(x.h), y.h);
    case FlushCluster =>
      EndClusterFine(x.h, SentPart(Stream(p), hx));
      SameListsMinds(x.h, EndCluster(x.h), y.h);
  }

  ghost predicate Mutual(x: HostState, y: HostState) {
    Remembered(x, y) && Remembered(y, x)
  }

  lemma {:induction false} RunMinds(z: System, p: seq<Bytes>, hx: set<nat>, q: seq<Bytes>, hy: set<nat>, run: seq<Step>)
    requires Linked(z.left, p, hx, z.right, q, hy) && IsRun(z, run) && Mutual(z.left.h, z.right.h)
    ensures Mutual(After(z, run).left.h, After(z, run).right.h)
    decreases |run|
  {
    if run != [] {
      var p1, h1, q1, k1, e := p, hx, q, hy, run[0];
      if e.left {
        ActMinds(z.left, p, hx, z.right, q, hy, e.event, e.now);
        MindsRemembers(z.left.h, Take(z, e).left.h, z.right.h);
        p1, h1 := ActStays(z.left, p, hx, z.right, q, hy, e.event, e.now);
      } else {
        ActMinds(z.right, q, hy, z.left, p, hx, e.event, e.now);
        MindsRemembers(z.right.h, Take(z, e).right.h, z.left.h);
        q1, k1 := ActStays(z.right, q, hy, z.left, p, hx, e.event, e.now);
      }
      RunMinds(Take(z, e), p1, h1, q1, k1, run[1..]);
    }
  }

  // ---------- What every run guarantees ----------

  /** In every reachable state every ACK_ID handed out is in the outbox, or has been delivered or buffered by
      the peer. */
  lemma NothingForgotten(z: System)
    requires Reachable(z)
    ensures Remembered(z.left.h, z.right.h) && Remembered(z.right.h, z.left.h)
  {
    var run :| Reaches(run, z);
    var c, pingX, pingY :|
      IsRun(System(Started(c, pingX), Started(c, pingY)), run)
      && After(System(Started(c, pingX), Started(c, pingY)), run) == z;
    StartIsLinked(c, pingX, pingY);
    RunMinds(System(Started(c, pingX), Started(c, pingY)), [], {}, [], {}, run);
  }

  /** A host that has every ID of the stream has it delivered, with nothing left in the inbox. */
  lemma AllGot(x: HostState, s: seq<Bytes>, y: HostState)
    requires x.localStep == |s| && Remembered(x, y) && x.sent == [] && x.queued == []
    requires Inbox(y) && Delivery(s, y)
    ensures y.remoteStep == |s| && y.received == []
  {
    assert y.received != [] ==> y.remoteStep < y.received[0].id < |s|;
    HasIff(y.received, y.remoteStep);
  }

  lemma QuietLinked(x: Peer, p: seq<Bytes>, hx: set<nat>, y: Peer, q: seq<Bytes>, hy: set<nat>)
    requires Linked(x, p, hx, y, q, hy) && Remembered(x.h, y.h) && x.h.sent == [] && x.h.queued == []
    ensures Everything(x, y)
  {
    AllGot(x.h, Stream(p), y.h);
    ApplicationsDelivered(p, |Stream(p)|);
  }

  /** In every reachable state, when a sender has nothing outstanding, its peer has everything. */
  lemma QuiescentMeansDelivered(z: System)
    requires Reachable(z)
    ensures z.left.h.sent == [] && z.left.h.queued == [] ==> Everything(z.left, z.right)
    ensures z.right.h.sent == [] && z.right.h.queued == [] ==> Everything(z.right, z.left)
  {
    NothingForgotten(z);
    var p, hx, q, hy := ReachableIsLinked(z);
    if z.left.h.sent == [] && z.left.h.queued == [] {
      QuietLinked(z.left, p, hx, z.right, q, hy);
    }
    if z.right.h.sent == [] && z.right.h.queued == [] {
      QuietLinked(z.right, q, hy, z.left, p, hx);
    }
  }
}
