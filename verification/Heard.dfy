/** What a host hands to its application outside the reliable stream: exactly the unstamped application messages in
    the datagrams it takes in, and each of them was posted unreliably by the peer. */
module Heard {
  import opened Bytes
  import opened Reassembly
  import opened Cluster
  import opened Encrypt
  import opened Transport
  import opened Runs
  import opened AnyLength
  import opened Lost
  import opened Progress
  import Unaided

  // ---------- One datagram ----------

  lemma {:induction false} DrainHeard(h: HostState)
    ensures Drain(h).heard == h.heard
    decreases |h.received|
  {
    var i := Find(h.received, h.remoteStep);
    if i < |h.received| {
      DrainHeard(Accept(h, h.received[i].msg).(received := Remove(h.received, i)));
    }
  }

  /** A message is heard exactly if it does not begin with a zero byte. */
  lemma HeardOne(h: HostState, m: Bytes, now: nat)
    ensures GotMessage(h, m, now).heard == if m != [] && m[0] != 0 then h.heard + [m] else h.heard
  {
    if m != [] && m[0] != 0 {
    } else if |m| >= 7 && m[1] == 0x03 {
      var e := Emit(h, Ack(GetLong(m, 2)));
      DrainHeard(Accept(e, m[6..]));
    } else if |m| == 6 && m[1] == 0x04 {
      CheckSentInbox(h, GetLong(m, 2), now);
    }
  }

  /** Of the messages taken in, those that do not begin with a zero byte are heard, in order. */
  lemma {:induction false} MessagesHeard(h: HostState, ms: seq<Bytes>, now: nat)
    ensures GotMessages(h, ms, now).heard == h.heard + Applications(ms)
    decreases |ms|
  {
    if ms != [] {
      var n := |ms| - 1;
      MessagesHeard(h, ms[..n], now);
      HeardOne(GotMessages(h, ms[..n], now), ms[n], now);
    }
  }

  lemma {:induction false} InApplications(ms: seq<Bytes>, m: Bytes)
    ensures m in Applications(ms) <==> m in ms && m != [] && m[0] != 0
    decreases |ms|
  {
    if ms != [] {
      InApplications(ms[..|ms| - 1], m);
      SplitLast(ms);
    }
  }

  /** Taking in a datagram adds to what was heard exactly the messages in it that do not begin with a zero byte. */
  lemma DatagramHeard(x: Peer, y: Peer, i: nat, now: nat, m: Bytes)
    requires Allowed(x, y, ReceiveDatagram(i))
    ensures var heard := Act(x, y, ReceiveDatagram(i), now).h.heard;
            && heard == x.h.heard + Applications(Carried(x, y, i))
            && (m in heard <==> m in x.h.heard || (m in Carried(x, y, i) && m != [] && m[0] != 0))
  {
    MessagesHeard(x.h, Carried(x, y, i), now);
    InApplications(Carried(x, y, i), m);
  }

  // ---------- Any run ----------

  /** Only taking in messages adds to what was heard. */
  lemma ActHeard(x: Peer, y: Peer, e: Event, now: nat, m: Bytes)
    requires Allowed(x, y, e) && m in Act(x, y, e, now).h.heard && m !in x.h.heard
    ensures Receives(e) && m in Carried(x, y, e.i) && m != [] && m[0] != 0
  {
    match e
    case PostMessage(k, reliable) => PostInbox(x.h, k, reliable, now);
    case ReceiveDatagram(i) => DatagramHeard(x, y, i, now, m);
    case ReceiveMessage(i, j) => HeardOne(x.h, Carried(x, y, i)[j], now);
    case AcknowledgeAgain(k) =>
    case ResendExpired => ResendAllInbox(x.h, 0, now);
    case StartCluster =>
    case FlushCluster => FlushHeard(x.h);
  }

  lemma {:induction false} SendAllHeard(h: HostState, ds: seq<Bytes>)
    ensures SendAll(h, ds).heard == h.heard
    decreases |ds|
  {
    if ds != [] {
      SendAllHeard(h, ds[..|ds| - 1]);
    }
  }

  lemma FlushHeard(h: HostState)
    ensures EndCluster(h).heard == h.heard
  {
    SendAllHeard(h.(clustering := false), Pack(h.clustered));
  }

  /** The left host does not post m unreliably in this run. */
  ghost predicate NeverPosts(run: seq<Step>, m: Bytes) {
    forall k :: 0 <= k < |run| && run[k].left ==> !PostsUnreliably(run[k].event, m)
  }

  lemma StepUnheard(z: System, p: seq<Bytes>, hx: set<nat>, q: seq<Bytes>, hy: set<nat>, m: Bytes, step: Step)
    requires Linked(z.left, p, hx, z.right, q, hy) && Legal(z, step) && IsApplication(m)
    requires step.left ==> !PostsUnreliably(step.event, m)
    requires Silent(z.left.h, m, 0) && m !in z.right.h.heard
    ensures Silent(Take(z, step).left.h, m, 0) && m !in Take(z, step).right.h.heard
  {
    if step.left {
      ActHushed(z.left, p, hx, z.right, q, hy, m, 0, step.event, step.now);
      StillSilent(z.left.h, Take(z, step).left.h, m, 0);
    } else if m in Take(z, step).right.h.heard {
      ActHeard(z.right, z.left, step.event, step.now, m);
    }
  }

  lemma TakeStays(z: System, p: seq<Bytes>, hx: set<nat>, q: seq<Bytes>, hy: set<nat>, step: Step)
    returns (p': seq<Bytes>, hx': set<nat>, q': seq<Bytes>, hy': set<nat>)
    requires Linked(z.left, p, hx, z.right, q, hy) && Legal(z, step)
    ensures Linked(Take(z, step).left, p', hx', Take(z, step).right, q', hy')
  {
    p', hx', q', hy' := p, hx, q, hy;
    if step.left {
      p', hx' := ActStays(z.left, p, hx, z.right, q, hy, step.event, step.now);
    } else {
      q', hy' := ActStays(z.right, q, hy, z.left, p, hx, step.event, step.now);
    }
  }

  lemma {:induction false} NeverHeard(z: System, p: seq<Bytes>, hx: set<nat>, q: seq<Bytes>, hy: set<nat>, m: Bytes,
                                      run: seq<Step>)
    requires Linked(z.left, p, hx, z.right, q, hy) && IsRun(z, run) && IsApplication(m) && NeverPosts(run, m)
    requires Silent(z.left.h, m, 0) && m !in z.right.h.heard
    ensures m !in After(z, run).right.h.heard
    decreases |run|
  {
    if run != [] {
      StepUnheard(z, p, hx, q, hy, m, run[0]);
      var p1, h1, q1, k1 := TakeStays(z, p, hx, q, hy, run[0]);
      NeverHeard(Take(z, run[0]), p1, h1, q1, k1, m, run[1..]);
    }
  }

  lemma {:induction false} HeardAreApplications(z: System, run: seq<Step>)
    requires IsRun(z, run) && forall m :: m in z.right.h.heard ==> IsApplication(m)
    ensures forall m :: m in After(z, run).right.h.heard ==> IsApplication(m)
    decreases |run|
  {
    if run != [] {
      var w := Take(z, run[0]);
      forall m | m in w.right.h.heard
        ensures IsApplication(m)
      {
        if m !in z.right.h.heard {
          ActHeard(z.right, z.left, run[0].event, run[0].now, m);
        }
      }
      HeardAreApplications(w, run[1..]);
    }
  }

  /** Nothing is invented: each message heard was posted by the peer, unreliably and of at most 508 bytes. */
  lemma HeardWasPosted(run: seq<Step>, z: System, m: Bytes) returns (k: nat)
    requires Reaches(run, z) && m in z.right.h.heard
    ensures k < |run| && run[k].left && run[k].event == PostMessage(m, false) && |m| <= 508
  {
    var c, pingX, pingY :|
      IsRun(System(Started(c, pingX), Started(c, pingY)), run)
      && After(System(Started(c, pingX), Started(c, pingY)), run) == z;
    var start := System(Started(c, pingX), Started(c, pingY));
    HeardAreApplications(start, run);
    if NeverPosts(run, m) {
      StartIsLinked(c, pingX, pingY);
      NeverHeard(start, [], {}, [], {}, m, run);
      assert false;
    }
    k :| 0 <= k < |run| && run[k].left && PostsUnreliably(run[k].event, m);
  }

  // ---------- What was posted is heard ----------

  /** An unreliable message of at most 508 bytes is sent at once when no cluster is open; taking in that datagram
      hands up the message. */
  lemma PostedIsHeard(x: Peer, y: Peer, m: Bytes, now: nat)
    requires IsApplication(m) && |m| <= 508 && !x.h.clustering && x.h.cipher == y.h.cipher && IdsLeft(y.h, 1)
    ensures var g, i := Act(x, y, PostMessage(m, false), now), |x.h.wire|;
            && |g.h.wire| == i + 1 && Allowed(y, g, ReceiveDatagram(i))
            && Act(y, g, ReceiveDatagram(i), now).h.heard == y.h.heard + [m]
  {
    var g, i := Act(x, y, PostMessage(m, false), now), |x.h.wire|;
    assert Post(x.h, m, false, now) == Send(x.h, m);
    MutualInverses(x.h.cipher, m);
    assert Carried(y, g, i) == [m];
    MessagesHeard(y.h, [m], now);
    assert Applications([m][..0]) == [];
  }

  lemma {:induction false} CountApplications(ms: seq<Bytes>, m: Bytes)
    ensures multiset(Applications(ms))[m] == if IsApplication(m) then multiset(ms)[m] else 0
    decreases |ms|
  {
    if ms != [] {
      CountApplications(ms[..|ms| - 1], m);
      SplitLast(ms);
    }
  }

  lemma ApplicationsPermute(a: seq<Bytes>, b: seq<Bytes>)
    requires multiset(a) == multiset(b)
    ensures multiset(Applications(a)) == multiset(Applications(b))
  {
    forall m
      ensures multiset(Applications(a))[m] == multiset(Applications(b))[m]
    {
      CountApplications(a, m);
      CountApplications(b, m);
    }
  }

  lemma {:induction false} ApplicationsConcat(a: seq<Bytes>, b: seq<Bytes>)
    ensures Applications(a + b) == Applications(a) + Applications(b)
    decreases |b|
  {
    if b == [] {
      assert a + b == a;
    } else {
      var n := |b| - 1;
      assert (a + b)[..|a + b| - 1] == a + b[..n];
      ApplicationsConcat(a, b[..n]);
      ConcatAssociates(Applications(a), Applications(b[..n]), if IsApplication(b[n]) then [b[n]] else []);
    }
  }

  lemma PacketHeard(y: HostState, g: HostState, us: seq<Bytes>, w: Bytes, now: nat)
    requires g.cipher == y.cipher && g.heard == y.heard + Applications(Contents(y.cipher, us))
    ensures GotPacket(g, w, now).heard == y.heard + Applications(Contents(y.cipher, us + [w]))
  {
    var ms := Unpack(Decrypted(y.cipher, w));
    MessagesHeard(g, ms, now);
    ContentsAppend(y.cipher, us, w);
    ApplicationsConcat(Contents(y.cipher, us), ms);
    ConcatAssociates(y.heard, Applications(Contents(y.cipher, us)), Applications(ms));
  }

  lemma {:induction false} ReceivingHeard(y: HostState, ws: seq<Bytes>, now: nat)
    ensures Receiving(y, ws, now).heard == y.heard + Applications(Contents(y.cipher, ws))
    decreases |ws|
  {
    if ws != [] {
      var us, w := ws[..|ws| - 1], ws[|ws| - 1];
      ReceivingHeard(y, us, now);
      Unaided.ReceivingExtends(y, us, now);
      PacketHeard(y, Receiving(y, us, now), us, w, now);
      SplitLast(ws);
    }
  }

  /** While a cluster is open, what is posted waits in it. Once it is flushed and its datagrams are taken in, each
      application message in it is heard, as often as it was posted, and nothing else is. */
  lemma FlushedIsHeard(x: HostState, y: HostState, now: nat)
    requires x.cipher == y.cipher && forall i :: 0 <= i < |x.clustered| ==> Packable(x.clustered[i])
    ensures x.wire <= EndCluster(x).wire
    ensures multiset(Receiving(y, EndCluster(x).wire[|x.wire|..], now).heard)
         == multiset(y.heard) + multiset(Applications(x.clustered))
  {
    FlushContents(x);
    ReceivingHeard(y, EndCluster(x).wire[|x.wire|..], now);
    ApplicationsPermute(Contents(x.cipher, EndCluster(x).wire[|x.wire|..]), x.clustered);
  }
}
