/** What has been given to the channel. In every reachable state each message in flight that is short enough to be
    sent again whole is in the open cluster or in a datagram, and so is each message that has arrived; and the
    window holds unless an oversized message has never been sent. */
module Airing {
  import opened Bytes
  import opened Reassembly
  import opened Cluster
  import opened Encrypt
  import opened Transport
  import opened Session
  import opened Runs
  import opened Progress
  import opened AnyLength
  import opened Lost

  ghost predicate OnWire(x: HostState, m: Bytes) {
    exists k :: 0 <= k < |x.wire| && m in Unpack(Decrypted(x.cipher, x.wire[k]))
  }

  ghost predicate Aired(x: HostState, m: Bytes) {
    m in x.clustered || OnWire(x, m)
  }

  ghost predicate ShortAired(x: HostState) {
    forall i :: 0 <= i < |x.sent| && |x.sent[i].msg| <= UNCHUNKED ==> Aired(x, x.sent[i].msg)
  }

  /** From x to g, what was given to the channel stays so, and what is new in flight is given to it. */
  ghost predicate Airs(x: HostState, g: HostState) {
    && (forall m :: Aired(x, m) ==> Aired(g, m))
    && (ShortAired(x) ==> ShortAired(g))
  }

  lemma AirsOn(x: HostState, g: HostState, f: HostState)
    requires Airs(x, g) && Airs(g, f)
    ensures Airs(x, f)
  {
  }

  // ---------- One step ----------

  lemma SendAirs(x: HostState, d: Bytes, m: Bytes)
    ensures OnWire(x, m) || m in Unpack(d) ==> OnWire(Send(x, d), m)
  {
    var g := Send(x, d);
    MutualInverses(x.cipher, d);
    assert g.wire[|x.wire|] == Encrypted(x.cipher, d);
    if OnWire(x, m) {
      var k :| 0 <= k < |x.wire| && m in Unpack(Decrypted(x.cipher, x.wire[k]));
      assert g.wire[k] == x.wire[k];
    }
  }

  lemma EmitAirs(x: HostState, m: Bytes)
    requires Packable(m)
    ensures forall k :: Aired(x, k) || k == m ==> Aired(Emit(x, m), k)
  {
    forall k | Aired(x, k) || k == m
      ensures Aired(Emit(x, m), k)
    {
      SendAirs(x, m, k);
    }
  }

  lemma SameChannelAirs(x: HostState, g: HostState)
    requires g.clustered == x.clustered && g.wire == x.wire && g.cipher == x.cipher
    ensures forall m :: Aired(x, m) <==> Aired(g, m)
  {
  }

  /** A message of g is one of those in flight in x. */
  predicate IsSent(x: HostState, m: Bytes) {
    exists j :: 0 <= j < |x.sent| && x.sent[j].msg == m
  }

  /** m was emitted: it may be in flight from now on. */
  lemma SentAirs(x: HostState, e: HostState, g: HostState, m: Bytes)
    requires (forall k :: Aired(x, k) || k == m ==> Aired(e, k))
    requires g.clustered == e.clustered && g.wire == e.wire && g.cipher == e.cipher
    requires forall i :: 0 <= i < |g.sent| ==> g.sent[i].msg == m || IsSent(x, g.sent[i].msg)
    ensures Airs(x, g)
  {
    SameChannelAirs(e, g);
  }

  /** Nothing is emitted; only an oversized message may be in flight from now on. */
  lemma UnsentAirs(x: HostState, g: HostState)
    requires g.clustered == x.clustered && g.wire == x.wire && g.cipher == x.cipher
    requires forall i :: 0 <= i < |g.sent| ==> |g.sent[i].msg| > UNCHUNKED || IsSent(x, g.sent[i].msg)
    ensures Airs(x, g)
  {
    SameChannelAirs(x, g);
  }

  lemma AppendIsSent(x: HostState, rs: seq<Reliable>, r: Reliable)
    requires rs == x.sent + [r]
    ensures forall i :: 0 <= i < |rs| ==> rs[i].msg == r.msg || IsSent(x, rs[i].msg)
  {
    forall i | 0 <= i < |rs|
      ensures rs[i].msg == r.msg || IsSent(x, rs[i].msg)
    {
      assert i < |x.sent| ==> rs[i] == x.sent[i];
    }
  }

  lemma PostWholeAirs(x: HostState, p: Bytes, now: nat)
    requires |p| <= UNCHUNKED
    ensures Airs(x, PostWhole(x, p, true, now))
  {
    var m := Stamp(x.localStep, p);
    var q := Queue(x, m, now);
    var g := PostWhole(x, p, true, now);
    if |x.sent| < MAX_RELIABLE_IN_TRANSIT {
      EmitAirs(q, m);
      SameChannelAirs(x, q);
      AppendIsSent(x, g.sent, Reliable(GetLong(m, 2), m, now));
      SentAirs(x, g, g, m);
    } else {
      SameChannelAirs(x, g);
    }
  }

  lemma {:induction false} PostAllAirs(x: HostState, ms: seq<Bytes>, now: nat)
    requires forall i :: 0 <= i < |ms| ==> |ms[i]| <= UNCHUNKED
    ensures Airs(x, PostAll(x, ms, now))
    decreases |ms|
  {
    if ms != [] {
      var n := |ms| - 1;
      PostAllAirs(x, ms[..n], now);
      PostWholeAirs(PostAll(x, ms[..n], now), ms[n], now);
      AirsOn(x, PostAll(x, ms[..n], now), PostAll(x, ms, now));
    }
  }

  /** m is emitted and nothing new is in flight. */
  lemma OnlyEmitAirs(x: HostState, m: Bytes)
    requires Packable(m)
    ensures Airs(x, Emit(x, m))
  {
    EmitAirs(x, m);
  }

  lemma PostAirs(x: HostState, m: Bytes, reliable: bool, now: nat)
    requires |m| <= UNCHUNKED ==> Packable(m)
    ensures Airs(x, Post(x, m, reliable, now))
  {
    if |m| > UNCHUNKED {
      PostAllAirs(x, Fragments(m), now);
    } else if reliable {
      PostWholeAirs(x, m, now);
    } else {
      OnlyEmitAirs(x, m);
    }
  }

  /** A message of the stream is sent again, or for the first time, and takes its place in flight. */
  lemma RepostAirs(x: HostState, s: seq<Bytes>, r: Reliable, g: HostState, now: nat)
    requires Carries(r, s) && |s| < U32 && 1 <= |s[r.id]| <= UNCHUNKED
    requires var e := Post(x, r.msg, false, now);
             && g.clustered == e.clustered && g.wire == e.wire && g.cipher == e.cipher
             && forall i :: 0 <= i < |g.sent| ==> g.sent[i].msg == r.msg || IsSent(e, g.sent[i].msg)
    ensures Airs(x, g)
  {
    StampIsStamped(s, r.id);
    var e := Post(x, r.msg, false, now);
    if |r.msg| > UNCHUNKED {
      PostAirs(x, r.msg, false, now);
      UnsentAirs(e, g);
      AirsOn(x, e, g);
    } else {
      EmitAirs(x, r.msg);
      SentAirs(x, e, g, r.msg);
    }
  }

  lemma SendNextAirs(x: HostState, p: seq<Bytes>, hx: set<nat>, y: HostState, q: seq<Bytes>, hy: set<nat>, now: nat)
    requires Loose(x, p, hx, y, q, hy)
    ensures Airs(x, SendNext(x, now))
  {
    var i := Find(x.queued, x.localSent);
    if i < |x.queued| {
      var r, g := x.queued[i], SendNext(x, now);
      PostGrows(x, r.msg, false, now);
      AppendIsSent(Post(x, r.msg, false, now), g.sent, r.(lastSend := now));
      RepostAirs(x, Stream(p), r, g, now);
    }
  }

  lemma DropAirs(x: HostState, i: nat)
    requires i < |x.sent|
    ensures Airs(x, x.(sent := Remove(x.sent, i)))
  {
    var g := x.(sent := Remove(x.sent, i));
    forall j | 0 <= j < |g.sent|
      ensures IsSent(x, g.sent[j].msg)
    {
      assert g.sent[j] == x.sent[if j < i then j else j + 1];
    }
    UnsentAirs(x, g);
  }

  lemma CheckSentAirs(x: HostState, p: seq<Bytes>, hx: set<nat>, y: HostState, q: seq<Bytes>, hy: set<nat>, id: nat,
                      now: nat)
    requires Loose(x, p, hx, y, q, hy)
    ensures Airs(x, CheckSent(x, id, now))
  {
    var i := Find(x.sent, id);
    if i < |x.sent| {
      var g := x.(sent := Remove(x.sent, i));
      DropKeeps(x, Stream(p), hx, y, Stream(q), hy, i);
      DropAirs(x, i);
      SendNextAirs(g, p, hx, y, q, hy, now);
      AirsOn(x, g, SendNext(g, now));
    }
  }

  lemma ResendAirs(x: HostState, p: seq<Bytes>, hx: set<nat>, y: HostState, q: seq<Bytes>, hy: set<nat>, i: nat,
                   now: nat)
    requires Loose(x, p, hx, y, q, hy) && i < |x.sent|
    ensures Airs(x, Resend(x, i, now))
  {
    if Expired(x, x.sent[i], now) {
      var r, g := x.sent[i], Resend(x, i, now);
      PostGrows(x, r.msg, false, now);
      var e := Post(x, r.msg, false, now);
      forall j | 0 <= j < |g.sent|
        ensures g.sent[j].msg == r.msg || IsSent(e, g.sent[j].msg)
      {
        assert j != i ==> g.sent[j] == e.sent[j];
      }
      RepostAirs(x, Stream(p), r, g, now);
    }
  }

  lemma {:induction false} ResendAllAirs(x: HostState, p: seq<Bytes>, hx: set<nat>, y: HostState, q: seq<Bytes>,
                                         hy: set<nat>, i: nat, now: nat)
    requires Loose(x, p, hx, y, q, hy) && i <= |x.sent| && IdsLeft(x, Slots(x) - i)
    ensures Airs(x, SendQueuedFrom(x, i, now))
    decreases Slots(x) - i
  {
    if i < |x.sent| {
      var g := Resend(x, i, now);
      ResendAirs(x, p, hx, y, q, hy, i, now);
      var p1, h1 := ResendStays(x, p, hx, y, q, hy, i, now);
      IdsStillLeft(x, p, hx, g, p1, h1, 1, Slots(x) - i - 1);
      ResendAllAirs(g, p1, h1, y, q, hy, i + 1, now);
      AirsOn(x, g, SendQueuedFrom(g, i + 1, now));
    }
  }

  /** What an inbox does is of no concern to the channel. */
  lemma InboxAirs(x: HostState, g: HostState)
    requires SameButInbox(x, g)
    ensures Airs(x, g)
  {
    SameChannelAirs(x, g);
  }

  lemma ReliableAirs(x: HostState, id: nat, m: Bytes, now: nat)
    ensures Airs(x, GotReliable(x, id, m, now))
  {
    var e := Emit(x, Ack(id));
    OnlyEmitAirs(x, Ack(id));
    CheckReceivedInbox(e, id, m, now);
    InboxAirs(e, GotReliable(x, id, m, now));
    AirsOn(x, e, GotReliable(x, id, m, now));
  }

  lemma GotMessageAirs(x: HostState, p: seq<Bytes>, hx: set<nat>, y: HostState, q: seq<Bytes>, hy: set<nat>, m: Bytes,
                       now: nat)
    requires Loose(x, p, hx, y, q, hy)
    ensures Airs(x, GotMessage(x, m, now))
  {
    if IsApplication(m) {
      SameChannelAirs(x, GotMessage(x, m, now));
    } else if |m| >= 7 && m[1] == 0x03 {
      ReliableAirs(x, GetLong(m, 2), m[6..], now);
    } else if |m| == 6 && m[1] == 0x04 {
      CheckSentAirs(x, p, hx, y, q, hy, GetLong(m, 2), now);
    } else {
      InboxAirs(x, GotMessage(x, m, now));
    }
  }

  lemma {:induction false} GotMessagesAirs(x: HostState, p: seq<Bytes>, hx: set<nat>, y: HostState, q: seq<Bytes>,
                                           hy: set<nat>, ms: seq<Bytes>, now: nat)
    requires Loose(x, p, hx, y, q, hy) && IdsLeft(x, |ms|) && AllFine(y, SentPart(Stream(q), hy), ms)
    ensures Airs(x, GotMessages(x, ms, now))
    decreases |ms|
  {
    if ms != [] {
      var us, m := ms[..|ms| - 1], ms[|ms| - 1];
      var g := GotMessages(x, us, now);
      GotMessagesAirs(x, p, hx, y, q, hy, us, now);
      var p1, h1 := GotMessagesStays(x, p, hx, y, q, hy, us, now);
      GotMessageAirs(g, p1, h1, y, q, hy, m, now);
      AirsOn(x, g, GotMessage(g, m, now));
    }
  }

  // ---------- Clusters ----------

  lemma StaysOnWire(x: HostState, g: HostState, m: Bytes)
    requires OnWire(x, m) && x.wire <= g.wire && g.cipher == x.cipher
    ensures OnWire(g, m)
  {
    var k :| 0 <= k < |x.wire| && m in Unpack(Decrypted(x.cipher, x.wire[k]));
    assert g.wire[k] == x.wire[k];
  }

  lemma NowOnWire(g: HostState, n: nat, m: Bytes)
    requires n <= |g.wire| && m in Contents(g.cipher, g.wire[n..])
    ensures OnWire(g, m)
  {
    var ws := g.wire[n..];
    var k := FromContents(g.cipher, ws, m);
    assert g.wire[n + k] == ws[k];
  }

  /** What was in the cluster is on the wire once it is flushed. */
  lemma FlushAirs(x: HostState)
    requires forall i :: 0 <= i < |x.clustered| ==> Packable(x.clustered[i])
    ensures Airs(x, EndCluster(x))
  {
    var g := EndCluster(x);
    FlushContents(x);
    forall m | Aired(x, m)
      ensures Aired(g, m)
    {
      if OnWire(x, m) {
        StaysOnWire(x, g, m);
      } else {
        InPermutation(Contents(x.cipher, g.wire[|x.wire|..]), x.clustered, m);
        NowOnWire(g, |x.wire|, m);
      }
    }
  }

  // ---------- Any event ----------

  lemma ReceiveAirs(x: Peer, p: seq<Bytes>, hx: set<nat>, y: Peer, q: seq<Bytes>, hy: set<nat>, e: Event, now: nat)
    requires Linked(x, p, hx, y, q, hy) && Allowed(x, y, e) && Receives(e)
    ensures Airs(x.h, Act(x, y, e, now).h)
  {
    var ms := Carried(x, y, e.i);
    assert FineDatagram(y.h, SentPart(Stream(q), hy), y.h.wire[e.i]);
    if e.ReceiveDatagram? {
      GotMessagesAirs(x.h, p, hx, y.h, q, hy, ms, now);
    } else {
      GotMessageAirs(x.h, p, hx, y.h, q, hy, ms[e.j], now);
    }
  }

  lemma ActAirs(x: Peer, p: seq<Bytes>, hx: set<nat>, y: Peer, q: seq<Bytes>, hy: set<nat>, e: Event, now: nat)
    requires Linked(x, p, hx, y, q, hy) && Allowed(x, y, e)
    ensures Airs(x.h, Act(x, y, e, now).h)
  {
    match e
    case PostMessage(m, reliable) => PostAirs(x.h, m, reliable, now);
    case ReceiveDatagram(i) => ReceiveAirs(x, p, hx, y, q, hy, e, now);
    case ReceiveMessage(i, j) => ReceiveAirs(x, p, hx, y, q, hy, e, now);
    case AcknowledgeAgain(id) => OnlyEmitAirs(x.h, Ack(id));
    case ResendExpired => ResendAllAirs(x.h, p, hx, y.h, q, hy, 0, now);
    case StartCluster => SameChannelAirs(x.h, BeginCluster(x.h));
    case FlushCluster => FlushAirs(x.h);
  }
}
