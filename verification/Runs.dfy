/** Runs of two hosts over a channel that may lose, repeat and reorder datagrams, and what holds at
    the end of every one of them. */
module Runs {
  import opened Bytes
  import opened Reassembly
  import opened Cluster
  import opened Encrypt
  import opened Transport
  import opened Session

  /** What a host may do. A datagram is received by its place in everything the peer ever sent: it may arrive
      late, out of order, more than once, or never. Its messages may also be taken in one by one; and a host
      may acknowledge again what it has accepted, as it does for a reliable message that reaches it in
      fragments. */
  datatype Event =
    | PostMessage(m: Bytes, reliable: bool)
    | ReceiveDatagram(i: nat)
    | ReceiveMessage(i: nat, j: nat)
    | AcknowledgeAgain(id: nat)
    | ResendExpired
    | StartCluster
    | FlushCluster

  /** A host's state and the messages it was given that must be delivered. */
  datatype Peer = Peer(h: HostState, promised: seq<Bytes>)

  datatype Step = Step(left: bool, event: Event, now: nat)

  datatype System = System(left: Peer, right: Peer)

  /** No message in the outbox has to be fragmented to be sent again. */
  ghost predicate Calm(h: HostState) {
    && (forall i :: 0 <= i < |h.sent| ==> |h.sent[i].msg| <= UNCHUNKED)
    && (forall i :: 0 <= i < |h.queued| ==> |h.queued[i].msg| <= UNCHUNKED)
  }

  /** There are ACK_IDs left for sending n messages again, in two fragments each if need be. */
  ghost predicate IdsLeft(h: HostState, n: nat) {
    Calm(h) || h.localStep + 2 * n < U32
  }

  function Carried(p: Peer, peer: Peer, i: nat): seq<Bytes>
    requires i < |peer.h.wire|
  {
    Unpack(Decrypted(p.h.cipher, peer.h.wire[i]))
  }

  /** What the users of a host may ask of it: application messages of at most 5,000,000 bytes, and fewer than
      2^32 ACK_IDs in a session. */
  ghost predicate Allowed(p: Peer, peer: Peer, e: Event) {
    match e
    case PostMessage(m, reliable) =>
      && IsApplication(m) && |m| <= LARGE_LIMIT
      && (reliable || |m| > UNCHUNKED ==> p.h.localStep + |Payloads(m)| < U32)
    case ReceiveDatagram(i) => i < |peer.h.wire| && IdsLeft(p.h, |Carried(p, peer, i)|)
    case ReceiveMessage(i, j) => i < |peer.h.wire| && j < |Carried(p, peer, i)| && IdsLeft(p.h, 1)
    case AcknowledgeAgain(id) => id < p.h.remoteStep
    case ResendExpired => IdsLeft(p.h, |p.h.sent| + MAX_RELIABLE_IN_TRANSIT)
    case _ => true
  }

  ghost function Act(p: Peer, peer: Peer, e: Event, now: nat): Peer
    requires Allowed(p, peer, e)
  {
    match e
    case PostMessage(m, reliable) =>
      Peer(Post(p.h, m, reliable, now), if reliable || |m| > UNCHUNKED then p.promised + [m] else p.promised)
    case ReceiveDatagram(i) => p.(h := GotPacket(p.h, peer.h.wire[i], now))
    case ReceiveMessage(i, j) => p.(h := GotMessage(p.h, Carried(p, peer, i)[j], now))
    case AcknowledgeAgain(id) => p.(h := Emit(p.h, Ack(id)))
    case ResendExpired => p.(h := SendQueued(p.h, now))
    case StartCluster => p.(h := BeginCluster(p.h))
    case FlushCluster => p.(h := EndCluster(p.h))
  }

  ghost predicate Legal(z: System, step: Step) {
    if step.left then Allowed(z.left, z.right, step.event) else Allowed(z.right, z.left, step.event)
  }

  ghost function Take(z: System, step: Step): System
    requires Legal(z, step)
  {
    if step.left then z.(left := Act(z.left, z.right, step.event, step.now))
    else z.(right := Act(z.right, z.left, step.event, step.now))
  }

  /** A host as a session starts, once the handshake has agreed on a cipher. */
  function Started(c: Cipher, syncPing: nat): Peer {
    Peer(HostState(0, 0, [], [], 0, [], FRESH, [], false, [], [], c, syncPing), [])
  }

  ghost predicate IsRun(z: System, run: seq<Step>)
    decreases |run|
  {
    run == [] || (Legal(z, run[0]) && IsRun(Take(z, run[0]), run[1..]))
  }

  ghost function After(z: System, run: seq<Step>): System
    requires IsRun(z, run)
    decreases |run|
  {
    if run == [] then z else After(Take(z, run[0]), run[1..])
  }

  // ---------- Runs without messages that are sent again in fragments ----------

  /** No reliable message of 503 to 508 bytes is posted: short enough to be sent whole, but not with its header. */
  predicate Regular(e: Event) {
    e.PostMessage? && e.reliable ==> !(SAFE < |e.m| <= UNCHUNKED)
  }

  predicate AllRegular(run: seq<Step>) {
    forall i :: 0 <= i < |run| ==> Regular(run[i].event)
  }

  ghost predicate Good(x: Peer, y: Peer) {
    && Deliverable(x.promised) && Deliverable(y.promised)
    && Pair(x.h, Stream(x.promised), y.h, Stream(y.promised))
  }

  lemma DeliverableAppend(posted: seq<Bytes>, m: Bytes)
    requires Deliverable(posted) && IsApplication(m) && |m| <= LARGE_LIMIT
    ensures Deliverable(posted + [m])
  {
  }

  lemma PostMessageKeeps(x: Peer, y: Peer, m: Bytes, reliable: bool, now: nat)
    requires Good(x, y) && Allowed(x, y, PostMessage(m, reliable)) && Regular(PostMessage(m, reliable))
    ensures Good(Act(x, y, PostMessage(m, reliable), now), y)
  {
    var s, t := Stream(x.promised), Stream(y.promised);
    if reliable || |m| > UNCHUNKED {
      DeliverableAppend(x.promised, m);
      StreamAppend(x.promised, m);
      PostStreamKeeps(x.h, s, y.h, t, m, now);
      assert Post(x.h, m, reliable, now) == Post(x.h, m, true, now);
    } else {
      UnreliableKeeps(x.h, s, y.h, t, m);
    }
  }

  lemma PostStreamKeeps(x: HostState, s: seq<Bytes>, y: HostState, t: seq<Bytes>, m: Bytes, now: nat)
    requires Pair(x, s, y, t) && |m| >= 1 && !(SAFE < |m| <= UNCHUNKED) && |s| + |Payloads(m)| < U32
    ensures Pair(Post(x, m, true, now), s + Payloads(m), y, t)
  {
    if |m| > UNCHUNKED {
      PostAllKeeps(x, s, y, t, Fragments(m), now);
    } else {
      PostKeeps(x, s, y, t, m, now);
    }
  }

  lemma ActKeeps(x: Peer, y: Peer, e: Event, now: nat)
    requires Good(x, y) && Allowed(x, y, e) && Regular(e)
    ensures Good(Act(x, y, e, now), y)
  {
    var s, t := Stream(x.promised), Stream(y.promised);
    match e
    case PostMessage(m, reliable) => PostMessageKeeps(x, y, m, reliable, now);
    case ReceiveDatagram(i) =>
      assert FineDatagram(y.h, t, y.h.wire[i]);
      GotMessagesKeeps(x.h, s, y.h, t, Unpack(Decrypted(y.h.cipher, y.h.wire[i])), now);
    case ReceiveMessage(i, j) =>
      assert FineDatagram(y.h, t, y.h.wire[i]);
      GotMessageKeeps(x.h, s, y.h, t, Unpack(Decrypted(y.h.cipher, y.h.wire[i]))[j], now);
    case AcknowledgeAgain(id) =>
      AckIsAck(x.h, id);
      UnreliableKeeps(x.h, s, y.h, t, Ack(id));
    case ResendExpired => SendQueuedKeeps(x.h, s, y.h, t, 0, now);
    case StartCluster => ClusterKeeps(x.h, s, y.h, t);
    case FlushCluster => ClusterKeeps(x.h, s, y.h, t);
  }

  lemma StartIsGood(c: Cipher, pingX: nat, pingY: nat)
    ensures Good(Started(c, pingX), Started(c, pingY))
  {
  }

  lemma {:induction false} RunKeeps(z: System, run: seq<Step>)
    requires Good(z.left, z.right) && IsRun(z, run) && AllRegular(run)
    ensures Good(After(z, run).left, After(z, run).right)
    decreases |run|
  {
    if run != [] {
      assert Regular(run[0].event);
      if run[0].left {
        ActKeeps(z.left, z.right, run[0].event, run[0].now);
      } else {
        ActKeeps(z.right, z.left, run[0].event, run[0].now);
      }
      RunKeeps(Take(z, run[0]), run[1..]);
    }
  }

  // ---------- What every such run guarantees ----------

  /** z is where a run from the start of a session ends. */
  ghost predicate Reaches(run: seq<Step>, z: System) {
    exists c, pingX, pingY ::
      IsRun(System(Started(c, pingX), Started(c, pingY)), run)
      && After(System(Started(c, pingX), Started(c, pingY)), run) == z
  }

  ghost predicate Reachable(z: System) {
    exists run :: Reaches(run, z)
  }

  ghost predicate RegularlyReachable(z: System) {
    exists run :: Reaches(run, z) && AllRegular(run)
  }

  lemma ReachableIsGood(z: System)
    requires RegularlyReachable(z)
    ensures Good(z.left, z.right) && Good(z.right, z.left)
  {
    var run :| Reaches(run, z) && AllRegular(run);
    var c, pingX, pingY :|
      IsRun(System(Started(c, pingX), Started(c, pingY)), run)
      && After(System(Started(c, pingX), Started(c, pingY)), run) == z;
    StartIsGood(c, pingX, pingY);
    RunKeeps(System(Started(c, pingX), Started(c, pingY)), run);
  }

  /** In every such state at most 15 messages are in flight, and the queue holds exactly the IDs
      localSent .. localStep - 1 in order. */
  lemma WindowHolds(z: System)
    requires RegularlyReachable(z)
    ensures Window(z.left.h) && Window(z.right.h)
  {
    ReachableIsGood(z);
  }

  /** Every ACK_ID handed out is in the outbox, or has been delivered or buffered by the peer. */
  ghost predicate Remembered(x: HostState, y: HostState) {
    forall id: nat :: id < x.localStep ==>
      Has(x.sent, id) || Has(x.queued, id) || id < y.remoteStep || Has(y.received, id)
  }

  /** y has everything x promised: its inbox is empty, every ID was accepted, and its application has exactly
      what was promised, with no transfer half done. */
  ghost predicate Everything(x: Peer, y: Peer) {
    && y.h.received == [] && y.h.remoteStep == x.h.localStep
    && y.h.assembly == Assembly(None, None, 0, x.promised)
  }

  lemma AllArrived(x: HostState, s: seq<Bytes>, y: HostState)
    requires Outbox(x, s) && Inbox(y) && Delivery(s, y) && Kept(x, s, y)
    requires x.sent == [] && x.queued == []
    ensures y.remoteStep == |s| && y.received == []
  {
    assert y.received != [] ==> y.remoteStep < y.received[0].id < |s|;
    if y.remoteStep < |s| {
      assert Held(x, y.remoteStep) || Got(y, y.remoteStep);
      HasIff(y.received, y.remoteStep);
    }
  }

  // ---------- Longer runs ----------

  lemma ReachesMore(run: seq<Step>, z: System, step: Step)
    requires Reaches(run, z) && Legal(z, step)
    ensures Reaches(run + [step], Take(z, step))
  {
    var c, pingX, pingY :|
      IsRun(System(Started(c, pingX), Started(c, pingY)), run)
      && After(System(Started(c, pingX), Started(c, pingY)), run) == z;
    RunMore(System(Started(c, pingX), Started(c, pingY)), run, step);
  }

  lemma {:induction false} RunMore(z: System, run: seq<Step>, step: Step)
    requires IsRun(z, run) && Legal(After(z, run), step)
    ensures IsRun(z, run + [step]) && After(z, run + [step]) == Take(After(z, run), step)
    decreases |run|
  {
    var more := run + [step];
    if run == [] {
      assert more[1..] == [];
    } else {
      assert more[0] == run[0] && more[1..] == run[1..] + [step];
      RunMore(Take(z, run[0]), run[1..], step);
    }
  }

  lemma {:induction false} RunConcat(z: System, a: seq<Step>, b: seq<Step>)
    requires IsRun(z, a) && IsRun(After(z, a), b)
    ensures IsRun(z, a + b) && After(z, a + b) == After(After(z, a), b)
    decreases |a|
  {
    if a == [] {
      assert a + b == b;
    } else {
      assert (a + b)[0] == a[0] && (a + b)[1..] == a[1..] + b;
      RunConcat(Take(z, a[0]), a[1..], b);
    }
  }

  // ---------- The two hosts are alike ----------

  function Swap(z: System): System {
    System(z.right, z.left)
  }

  function Flip(run: seq<Step>): (r: seq<Step>)
    ensures |r| == |run| && forall i :: 0 <= i < |run| ==> r[i] == run[i].(left := !run[i].left)
  {
    seq(|run|, i requires 0 <= i < |run| => run[i].(left := !run[i].left))
  }

  lemma {:induction false} SwapRun(z: System, run: seq<Step>)
    requires IsRun(z, run)
    ensures IsRun(Swap(z), Flip(run)) && After(Swap(z), Flip(run)) == Swap(After(z, run))
    decreases |run|
  {
    if run != [] {
      assert Flip(run)[1..] == Flip(run[1..]);
      SwapRun(Take(z, run[0]), run[1..]);
    }
  }

  lemma SwapReaches(run: seq<Step>, z: System)
    requires Reaches(run, z)
    ensures Reaches(Flip(run), Swap(z))
  {
    var c, pingX, pingY :|
      IsRun(System(Started(c, pingX), Started(c, pingY)), run)
      && After(System(Started(c, pingX), Started(c, pingY)), run) == z;
    SwapRun(System(Started(c, pingX), Started(c, pingY)), run);
    assert Swap(System(Started(c, pingX), Started(c, pingY))) == System(Started(c, pingY), Started(c, pingX));
  }

  /** What is said of the left host as the sender holds of the right one too. */
  lemma SwapReachable(z: System)
    ensures Reachable(z) ==> Reachable(Swap(z))
    ensures RegularlyReachable(z) ==> RegularlyReachable(Swap(z))
  {
    if Reachable(z) {
      var run :| Reaches(run, z);
      SwapReaches(run, z);
    }
    if RegularlyReachable(z) {
      var run :| Reaches(run, z) && AllRegular(run);
      SwapReaches(run, z);
      assert AllRegular(Flip(run));
    }
  }
}
