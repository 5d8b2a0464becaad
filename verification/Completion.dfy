/** From which states everything promised can still be delivered: exactly from those in which every message that is
    too long to be sent again whole was given to the channel. */
module Completion {
  import opened Bytes
  import opened Reassembly
  import opened Cluster
  import opened Encrypt
  import opened Transport
  import opened Session
  import opened Runs
  import opened AnyLength
  import opened Memory
  import opened Progress
  import opened Oversized
  import opened Lost
  import opened Airing
  import opened Windows
  import opened Unaided

  // ---------- A host between two clusters ----------

  /** Nothing waits in a cluster, everything in flight was given to the channel, and the queue can be. */
  ghost predicate Clean(x: HostState) {
    && Orderly(x) && !x.clustering && x.clustered == []
    && (forall i :: 0 <= i < |x.sent| ==> Aired(x, x.sent[i].msg))
    && (forall i :: 0 <= i < |x.queued| ==> Packable(x.queued[i].msg))
  }

  /** Datagrams are not taken back, and the ping stays. */
  ghost predicate Later(x: HostState, g: HostState) {
    Extends(x, g) && g.syncPing == x.syncPing
  }

  /** From x to g a host has received something: the outbox has not grown. */
  ghost predicate Settles(x: HostState, g: HostState) {
    && Clean(g) && Later(x, g) && Outstanding(g) <= Outstanding(x)
    && g.localStep == x.localStep && (Calm(x) ==> Calm(g))
  }

  lemma SettlesOn(x: HostState, g: HostState, f: HostState)
    requires Settles(x, g) && Settles(g, f)
    ensures Settles(x, f)
  {
  }

  /** Emitting keeps a host clean. */
  lemma EmitSettles(x: HostState, m: Bytes)
    requires Clean(x) && Packable(m)
    ensures Settles(x, Emit(x, m)) && Aired(Emit(x, m), m)
  {
    EmitAirs(x, m);
    SameOutbox(x, Emit(x, m));
  }

  /** Nothing but the inbox and what is handed up changes. */
  lemma InboxSettles(x: HostState, g: HostState)
    requires Clean(x)
    requires g == x.(remoteStep := g.remoteStep, received := g.received, assembly := g.assembly, heard := g.heard)
    ensures Settles(x, g)
  {
    SameChannelAirs(x, g);
    SameOutbox(x, g);
  }

  /** Every message in flight in g is m or one that was in flight. */
  lemma StillAired(x: HostState, g: HostState, e: HostState, m: Bytes)
    requires forall k :: Aired(x, k) || k == m ==> Aired(e, k)
    requires forall j :: 0 <= j < |x.sent| ==> Aired(x, x.sent[j].msg)
    requires g.clustered == e.clustered && g.wire == e.wire && g.cipher == e.cipher
    requires forall j :: 0 <= j < |g.sent| ==> g.sent[j].msg == m || IsSent(x, g.sent[j].msg)
    ensures forall j :: 0 <= j < |g.sent| ==> Aired(g, g.sent[j].msg)
  {
    SameChannelAirs(e, g);
  }

  lemma RemainSent(x: HostState, i: nat)
    requires i < |x.sent|
    ensures forall j :: 0 <= j < |Remove(x.sent, i)| ==> IsSent(x, Remove(x.sent, i)[j].msg)
  {
    var r := Remove(x.sent, i);
    forall j | 0 <= j < |r|
      ensures IsSent(x, r[j].msg)
    {
      assert r[j] == x.sent[if j < i then j else j + 1];
    }
  }

  lemma RetiredIsClean(x: HostState, i: nat)
    requires Clean(x) && i < |x.sent| && Orderly(x.(sent := Remove(x.sent, i)))
    ensures Clean(x.(sent := Remove(x.sent, i)))
  {
    var g := x.(sent := Remove(x.sent, i));
    RemainSent(x, i);
    SameChannelAirs(x, g);
  }

  lemma PromotedIsClean(x: HostState, i: nat, g: HostState, now: nat)
    requires Clean(x) && i < |x.sent| && x.queued != [] && Orderly(g)
    requires g == Emit(x, x.queued[0].msg).(sent := Remove(x.sent, i) + [x.queued[0].(lastSend := now)],
                                            queued := x.queued[1..], localSent := x.localSent + 1)
    ensures Clean(g)
  {
    var m, r := x.queued[0].msg, Remove(x.sent, i);
    EmitAirs(x, m);
    RemainSent(x, i);
    forall j | 0 <= j < |g.sent|
      ensures g.sent[j].msg == m || IsSent(x, g.sent[j].msg)
    {
      assert j < |r| ==> g.sent[j] == r[j];
    }
    StillAired(x, g, Emit(x, m), m);
  }

  lemma CalmStays(x: HostState, id: nat, now: nat)
    requires Orderly(x) && Calm(x)
    ensures Calm(CheckSent(x, id, now))
  {
    CheckSentMoves(x, id, now);
    if Has(x.sent, id) {
      DropCalm(x, Find(x.sent, id));
    }
  }

  /** An acknowledgement takes a message off the outbox. */
  lemma CheckSentSettles(x: HostState, id: nat, now: nat)
    requires Clean(x)
    ensures var g := CheckSent(x, id, now);
            Settles(x, g) && (Has(x.sent, id) ==> Outstanding(g) == Outstanding(x) - 1)
  {
    var g := CheckSent(x, id, now);
    CheckSentMoves(x, id, now);
    CheckSentOrderly(x, id, now);
    CheckSentExtends(x, id, now);
    if Calm(x) {
      CalmStays(x, id, now);
    }
    if Has(x.sent, id) {
      var i := Find(x.sent, id);
      if x.queued == [] {
        RetiredIsClean(x, i);
      } else {
        PromotedIsClean(x, i, g, now);
      }
    }
  }

  // ---------- Receiving a datagram ----------

  predicate IsReliable(m: Bytes) {
    |m| >= 7 && m[0] == 0 && m[1] == 0x03
  }

  /** Message id was acknowledged in a datagram of its own, after the first n. */
  ghost predicate AckOut(y: HostState, n: nat, id: nat) {
    exists k :: n <= k < |y.wire| && y.wire[k] == Encrypted(y.cipher, Ack(id))
  }

  lemma ReliableSettles(y: HostState, id: nat, m: Bytes, now: nat)
    requires Clean(y)
    ensures var g := GotReliable(y, id, m, now); Settles(y, g) && AckOut(g, |y.wire|, id)
  {
    var e, g := Emit(y, Ack(id)), GotReliable(y, id, m, now);
    EmitSettles(y, Ack(id));
    CheckReceivedInbox(e, id, m, now);
    InboxSettles(e, g);
    SettlesOn(y, e, g);
    assert g.wire[|y.wire|] == Encrypted(y.cipher, Ack(id));
  }

  lemma MessageSettles(y: HostState, m: Bytes, now: nat)
    requires Clean(y)
    ensures var g := GotMessage(y, m, now);
            Settles(y, g) && (IsReliable(m) ==> AckOut(g, |y.wire|, GetLong(m, 2)))
  {
    if IsApplication(m) {
      InboxSettles(y, GotMessage(y, m, now));
    } else if |m| >= 7 && m[1] == 0x03 {
      ReliableSettles(y, GetLong(m, 2), m[6..], now);
    } else if |m| == 6 && m[1] == 0x04 {
      CheckSentSettles(y, GetLong(m, 2), now);
    } else {
      InboxSettles(y, GotMessage(y, m, now));
    }
  }

  lemma AckStaysOut(y: HostState, g: HostState, n: nat, id: nat)
    requires AckOut(y, n, id) && Extends(y, g)
    ensures AckOut(g, n, id)
  {
    var k :| n <= k < |y.wire| && y.wire[k] == Encrypted(y.cipher, Ack(id));
    assert g.wire[k] == y.wire[k];
  }

  lemma AckOutLater(y: HostState, n: nat, k: nat, id: nat)
    requires AckOut(y, k, id) && n <= k
    ensures AckOut(y, n, id)
  {
  }

  /** A datagram is taken in: each reliable message in it is acknowledged. */
  lemma {:induction false} MessagesSettle(y: HostState, ms: seq<Bytes>, m: Bytes, now: nat)
    requires Clean(y)
    ensures var g := GotMessages(y, ms, now);
            Settles(y, g) && (m in ms && IsReliable(m) ==> AckOut(g, |y.wire|, GetLong(m, 2)))
    decreases |ms|
  {
    if ms != [] {
      var us, k := ms[..|ms| - 1], ms[|ms| - 1];
      var h, g := GotMessages(y, us, now), GotMessages(y, ms, now);
      MessagesSettle(y, us, m, now);
      MessageSettles(h, k, now);
      SettlesOn(y, h, g);
      if m in us && IsReliable(m) {
        AckStaysOut(h, g, |y.wire|, GetLong(m, 2));
      } else if m == k && IsReliable(m) {
        AckOutLater(g, |y.wire|, |h.wire|, GetLong(m, 2));
      }
    }
  }

  /** A host takes in a datagram that is an acknowledgement. */
  lemma TakesAck(x: HostState, id: nat, now: nat)
    requires id < U32
    ensures Unpack(Decrypted(x.cipher, Encrypted(x.cipher, Ack(id)))) == [Ack(id)]
    ensures GotPacket(x, Encrypted(x.cipher, Ack(id)), now) == CheckSent(x, id, now)
  {
    MutualInverses(x.cipher, Ack(id));
    LongRoundTrip([0, 0x04], id, []);
    assert [0, 0x04] + Long(id) + [] == Ack(id);
    OneMessage(x, Ack(id), now);
    assert GotMessage(x, Ack(id), now) == CheckSent(x, id, now);
  }

  // ---------- One message is delivered and acknowledged ----------

  /** There are ACK_IDs left for taking in any datagram. */
  ghost predicate Roomy(h: HostState) {
    IdsLeft(h, PACKET_MAX_LENGTH)
  }

  ghost predicate Ready(z: System) {
    && Reachable(z) && Clean(z.left.h) && Clean(z.right.h) && Roomy(z.left.h) && Roomy(z.right.h)
  }

  lemma {:induction false} FewMessages(c: Bytes)
    requires |c| > 0
    ensures |UnpackCluster(c)| <= |c|
    decreases |c|
  {
    var length := c[0] as int;
    if 0 < length && 1 + length < |c| {
      FewMessages(c[1 + length..]);
    }
  }

  lemma FewCarried(z: System, k: nat)
    requires Reachable(z) && k < |z.left.h.wire|
    ensures |Carried(z.right, z.left, k)| <= PACKET_MAX_LENGTH && z.left.h.cipher == z.right.h.cipher
  {
    var p, hx, q, hy := ReachableIsLinked(z);
    assert FineDatagram(z.left.h, SentPart(Stream(p), hx), z.left.h.wire[k]);
    var d := Decrypted(z.right.h.cipher, z.left.h.wire[k]);
    if IsCluster(d) && |d| >= 6 {
      FewMessages(d[2..]);
    }
  }

  lemma SentIsReliable(z: System, i: nat)
    requires Reachable(z) && i < |z.left.h.sent|
    ensures var r := z.left.h.sent[i]; r.id < U32 && IsReliable(r.msg) && GetLong(r.msg, 2) == r.id
  {
    var p, hx, q, hy := ReachableIsLinked(z);
    assert Carries(z.left.h.sent[i], Stream(p));
    StampIsStamped(Stream(p), z.left.h.sent[i].id);
  }

  lemma LessRoom(h: HostState, n: nat)
    requires Roomy(h) && n <= PACKET_MAX_LENGTH
    ensures IdsLeft(h, n)
  {
  }

  /** The right host takes in a datagram that carries the first message the left one has in flight. */
  lemma RightTakes(z: System, k: nat, a: nat, b: nat, now: nat) returns (w: System)
    requires Ready(z) && z.left.h.sent != [] && a <= k < |z.left.h.wire| && b <= |z.right.h.wire|
    requires z.left.h.sent[0].msg in Carried(z.right, z.left, k)
    ensures Leads(z, w, a, b, now) && Ready(w) && w.left == z.left
    ensures AckOut(w.right.h, b, z.left.h.sent[0].id) && Outstanding(w.right.h) <= Outstanding(z.right.h)
    ensures Later(z.right.h, w.right.h)
  {
    var m := z.left.h.sent[0].msg;
    var step := Step(false, ReceiveDatagram(k), now);
    FewCarried(z, k);
    LessRoom(z.right.h, |Carried(z.right, z.left, k)|);
    MessagesSettle(z.right.h, Carried(z.right, z.left, k), m, now);
    SentIsReliable(z, 0);
    AckOutLater(GotPacket(z.right.h, z.left.h.wire[k], now), b, |z.right.h.wire|, z.left.h.sent[0].id);
    w := Take(z, step);
    LeadsOneStep(z, step, a, b);
    LeadsReaches(z, w, a, b, now);
  }

  /** The left host takes in the acknowledgement. */
  lemma LeftTakes(z: System, id: nat, a: nat, b: nat, now: nat) returns (w: System)
    requires Ready(z) && Has(z.left.h.sent, id) && id < U32 && AckOut(z.right.h, b, id)
    ensures Leads(z, w, a, b, now) && Ready(w) && w.right == z.right
    ensures Outstanding(w.left.h) == Outstanding(z.left.h) - 1 && Later(z.left.h, w.left.h)
  {
    var k :| b <= k < |z.right.h.wire| && z.right.h.wire[k] == Encrypted(z.right.h.cipher, Ack(id));
    var step := Step(true, ReceiveDatagram(k), now);
    SameCipher(z);
    TakesAck(z.left.h, id, now);
    LessRoom(z.left.h, 1);
    CheckSentSettles(z.left.h, id, now);
    w := Take(z, step);
    LeadsOneStep(z, step, a, b);
    LeadsReaches(z, w, a, b, now);
  }

  lemma SameCipher(z: System)
    requires Reachable(z)
    ensures z.left.h.cipher == z.right.h.cipher
  {
    var p, hx, q, hy := ReachableIsLinked(z);
  }

  /** A datagram of the left host that carries the first message in flight is taken in, and acknowledged. */
  lemma DeliverOne(z: System, k: nat, a: nat, b: nat, now: nat) returns (w: System)
    requires Ready(z) && z.left.h.sent != [] && a <= k < |z.left.h.wire| && b <= |z.right.h.wire|
    requires z.left.h.sent[0].msg in Carried(z.right, z.left, k)
    ensures Leads(z, w, a, b, now) && Ready(w) && Outstanding(w.left.h) == Outstanding(z.left.h) - 1
    ensures Outstanding(w.right.h) <= Outstanding(z.right.h)
    ensures Later(z.left.h, w.left.h) && Later(z.right.h, w.right.h)
  {
    var id := z.left.h.sent[0].id;
    SentIsReliable(z, 0);
    HasIff(z.left.h.sent, id);
    var u := RightTakes(z, k, a, b, now);
    w := LeftTakes(u, id, a, b, now);
    LeadsOn(z, u, w, a, b, now);
  }

  // ---------- Delivering everything ----------

  lemma UnblockedSide(z: System)
    requires Reachable(z) && !Blocked(z.left.h)
    ensures var x := z.left.h;
            && Orderly(x) && (forall i :: 0 <= i < |x.sent| ==> Aired(x, x.sent[i].msg))
            && (forall i :: 0 <= i < |x.queued| ==> Packable(x.queued[i].msg))
            && (forall i :: 0 <= i < |x.clustered| ==> Packable(x.clustered[i]))
  {
    var p, hx, q, hy := ReachableIsInOrder(z);
    NothingForgotten(z);
    UnblockedIsOrderly(z.left.h, p, hx, z.right.h, q, hy);
    forall i | 0 <= i < |z.left.h.queued|
      ensures Packable(z.left.h.queued[i].msg)
    {
      assert Carries(z.left.h.queued[i], Stream(p));
      StampIsStamped(Stream(p), z.left.h.queued[i].id);
    }
  }

  lemma SameRoom(x: HostState, g: HostState)
    requires g.sent == x.sent && g.queued == x.queued && g.localStep == x.localStep
    ensures Outstanding(g) == Outstanding(x) && (Roomy(x) ==> Roomy(g))
  {
  }

  lemma FlushCleans(x: HostState)
    requires Orderly(x) && forall i :: 0 <= i < |x.sent| ==> Aired(x, x.sent[i].msg)
    requires forall i :: 0 <= i < |x.queued| ==> Packable(x.queued[i].msg)
    requires forall i :: 0 <= i < |x.clustered| ==> Packable(x.clustered[i])
    ensures var g := EndCluster(x);
            Clean(g) && Later(x, g) && Outstanding(g) == Outstanding(x) && (Roomy(x) ==> Roomy(g))
  {
    var g := EndCluster(x);
    FlushAirs(x);
    EndClusterIs(x);
    EndClusterExtends(x);
    SameOutbox(x, g);
    SameRoom(x, g);
  }

  lemma FlushLeft(z: System, a: nat, b: nat, now: nat) returns (w: System)
    requires Reachable(z) && !Blocked(z.left.h) && Roomy(z.left.h)
    ensures Leads(z, w, a, b, now) && w.right == z.right
    ensures Clean(w.left.h) && Roomy(w.left.h) && Later(z.left.h, w.left.h)
    ensures Outstanding(w.left.h) == Outstanding(z.left.h)
  {
    var step := Step(true, FlushCluster, now);
    UnblockedSide(z);
    FlushCleans(z.left.h);
    LeadsOneStep(z, step, a, b);
    w := Take(z, step);
  }

  /** Both clusters are flushed. */
  lemma FlushBoth(z: System, a: nat, b: nat, now: nat) returns (w: System)
    requires Reachable(z) && !Blocked(z.left.h) && !Blocked(z.right.h) && Roomy(z.left.h) && Roomy(z.right.h)
    ensures Leads(z, w, a, b, now) && Ready(w)
    ensures Later(z.left.h, w.left.h) && Later(z.right.h, w.right.h)
    ensures Outstanding(w.left.h) == Outstanding(z.left.h) && Outstanding(w.right.h) == Outstanding(z.right.h)
  {
    var u := FlushLeft(z, a, b, now);
    LeadsReaches(z, u, a, b, now);
    SwapReachable(u);
    var v := FlushLeft(Swap(u), b, a, now);
    LeadsSwapped(Swap(u), v, b, a, now);
    w := Swap(v);
    LeadsOn(z, u, w, a, b, now);
    LeadsReaches(z, w, a, b, now);
  }

  lemma FirstCarried(z: System) returns (k: nat)
    requires Ready(z) && z.left.h.sent != []
    ensures k < |z.left.h.wire| && z.left.h.sent[0].msg in Carried(z.right, z.left, k)
  {
    var m := z.left.h.sent[0].msg;
    SameCipher(z);
    assert OnWire(z.left.h, m);
    k :| 0 <= k < |z.left.h.wire| && m in Unpack(Decrypted(z.left.h.cipher, z.left.h.wire[k]));
  }

  /** What the left host has outstanding is taken in and acknowledged, one datagram after the other. */
  lemma {:induction false} ClearLeft(z: System, now: nat) returns (w: System)
    requires Ready(z)
    ensures Leads(z, w, 0, 0, now) && Ready(w) && Outstanding(w.left.h) == 0
    ensures Outstanding(w.right.h) <= Outstanding(z.right.h)
    decreases Outstanding(z.left.h)
  {
    if z.left.h.sent == [] {
      LeadsNowhere(z, 0, 0, now);
      w := z;
    } else {
      var k := FirstCarried(z);
      var v := DeliverOne(z, k, 0, 0, now);
      w := ClearLeft(v, now);
      LeadsOn(z, v, w, 0, 0, now);
    }
  }

  lemma ReadySwapped(z: System)
    requires Ready(z)
    ensures Ready(Swap(z))
  {
    SwapReachable(z);
  }

  lemma ClearBoth(z: System, now: nat) returns (w: System)
    requires Ready(z)
    ensures Leads(z, w, 0, 0, now) && Ready(w) && Outstanding(w.left.h) == 0 && Outstanding(w.right.h) == 0
  {
    var u := ClearLeft(z, now);
    ReadySwapped(u);
    var v := ClearLeft(Swap(u), now);
    LeadsSwapped(Swap(u), v, 0, 0, now);
    w := Swap(v);
    LeadsOn(z, u, w, 0, 0, now);
    ReadySwapped(v);
  }

  // ---------- From any reachable state ----------

  /** y has all that x promised, and x all that y did. */
  ghost predicate Complete(z: System) {
    Everything(z.left, z.right) && Everything(z.right, z.left)
  }

  /** From a given time on, the hosts can deliver all that was promised, both ways, by themselves. */
  ghost predicate Completable(z: System, from: nat) {
    exists w, times ::
      Forward(times, from) && Through(z, w, 0, 0, times) && Complete(w)
      && w.left.promised == z.left.promised && w.right.promised == z.right.promised
  }

  lemma ClearIsComplete(z: System)
    requires Reachable(z) && Outstanding(z.left.h) == 0 && Outstanding(z.right.h) == 0
    ensures Complete(z)
  {
    QuiescentMeansDelivered(z);
  }

  lemma UnblockedIsCompletable(z: System, from: nat)
    requires Reachable(z) && !Blocked(z.left.h) && !Blocked(z.right.h) && Roomy(z.left.h) && Roomy(z.right.h)
    ensures Completable(z, from)
  {
    var u := FlushBoth(z, 0, 0, from);
    var w := ClearBoth(u, from);
    LeadsOn(z, u, w, 0, 0, from);
    ThroughOnce(z, w, 0, 0, from);
    ThroughPromises(z, w, 0, 0, [from]);
    ClearIsComplete(w);
    assert Forward([from], from);
  }

  /** What the channel was never given has not arrived. */
  lemma BlockedHasNotArrived(z: System, r: Reliable)
    requires Reachable(z) && r in z.left.h.sent && |r.msg| > UNCHUNKED && !Aired(z.left.h, r.msg)
    ensures !Got(z.right.h, r.id) && forall k :: 0 <= k < |z.left.h.wire| ==> r.msg !in Carried(z.right, z.left, k)
  {
    var p, hx, q, hy := ReachableIsInOrder(z);
    assert Carries(r, Stream(p));
  }

  /** A blocked sender never delivers everything, whatever happens. */
  lemma BlockedStalls(z: System, run: seq<Step>)
    requires Reachable(z) && Blocked(z.left.h) && IsRun(z, run)
    ensures |After(z, run).right.h.assembly.log| < |After(z, run).left.promised|
  {
    var x := z.left.h;
    var r :| (r in x.sent || r in x.queued) && |r.msg| > UNCHUNKED && !Aired(x, r.msg);
    if r in x.queued {
      StallsForever(z, r, run);
    } else {
      BlockedHasNotArrived(z, r);
      LostForGood(z, r, run);
    }
  }

  lemma BlockedIsNotCompletable(z: System, from: nat)
    requires Reachable(z) && Blocked(z.left.h)
    ensures !Completable(z, from)
  {
    forall w, times | Through(z, w, 0, 0, times)
      ensures !Complete(w)
    {
      var run := ThroughIsRun(z, w, 0, 0, times);
      BlockedStalls(z, run);
    }
  }

  lemma CompletableSwapped(z: System, from: nat)
    requires Completable(z, from)
    ensures Completable(Swap(z), from)
  {
    var w, times :|
      Forward(times, from) && Through(z, w, 0, 0, times) && Complete(w)
      && w.left.promised == z.left.promised && w.right.promised == z.right.promised;
    ThroughSwapped(z, w, 0, 0, times);
  }

  /** A reachable state can be completed exactly when each message in the outboxes that is too long to be sent again
      whole was given to the channel. */
  lemma CompletableIff(z: System, from: nat)
    requires Reachable(z) && Roomy(z.left.h) && Roomy(z.right.h)
    ensures Completable(z, from) <==> !Blocked(z.left.h) && !Blocked(z.right.h)
  {
    if Blocked(z.left.h) {
      BlockedIsNotCompletable(z, from);
    } else if Blocked(z.right.h) {
      SwapReachable(z);
      BlockedIsNotCompletable(Swap(z), from);
      if Completable(z, from) {
        CompletableSwapped(z, from);
      }
    } else {
      UnblockedIsCompletable(z, from);
    }
  }

  // ---------- By the length of what is posted ----------

  lemma RegularIsUnblocked(z: System)
    requires RegularlyReachable(z)
    ensures Reachable(z) && Calm(z.left.h) && Calm(z.right.h)
    ensures !Blocked(z.left.h) && !Blocked(z.right.h) && Roomy(z.left.h) && Roomy(z.right.h)
  {
    ReachableIsGood(z);
    GoodIsCalm(z.left, z.right);
  }

  /** Without reliable messages of 503 to 508 bytes every reachable state can be completed. */
  lemma RegularIsCompletable(z: System, from: nat)
    requires RegularlyReachable(z)
    ensures Completable(z, from)
  {
    RegularIsUnblocked(z);
    UnblockedIsCompletable(z, from);
  }

  lemma StalledIsNotCompletable(z: System, from: nat)
    requires Stalled(z)
    ensures !Completable(z, from)
  {
    forall w, times | Through(z, w, 0, 0, times)
      ensures !Complete(w)
    {
      var run := ThroughIsRun(z, w, 0, 0, times);
      assert |After(z, run).right.h.assembly.log| < |After(z, run).left.promised|;
    }
  }

  /** Wherever the hosts and the channel have got to, everything promised can still be delivered. */
  ghost predicate AlwaysCompletable(n: nat) {
    forall run, z, from :: Reaches(run, z) && OnlyLength(run, n) ==> Completable(z, from)
  }

  /** When all reliable messages have one length, every reachable state can be completed exactly when that
      length is not 503 to 508 bytes. */
  lemma CompletableIffNotOversized(n: nat)
    ensures AlwaysCompletable(n) <==> !(503 <= n <= 508)
  {
    if 503 <= n <= 508 {
      var run, z := StallOccurs(n);
      StalledIsNotCompletable(z, 0);
    } else {
      forall run, z, from | Reaches(run, z) && OnlyLength(run, n)
        ensures Completable(z, from)
      {
        assert AllRegular(run);
        RegularIsCompletable(z, from);
      }
    }
  }
}
