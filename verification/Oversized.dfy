/** Reliable messages of 503 to 508 bytes: short enough to be posted whole, too long to be sent again whole
    with their header. Sending one out of the queue fragments it in the middle of the step. */
module Oversized {
  import opened Bytes
  import opened Reassembly
  import opened Cluster
  import opened Encrypt
  import opened Transport
  import opened Session
  import opened Runs
  import AnyLength

  // ---------- One acknowledgement ----------

  lemma {:induction false} PostAllFills(x: HostState, ms: seq<Bytes>, now: nat)
    requires |x.sent| == MAX_RELIABLE_IN_TRANSIT - 1 && ms != []
    ensures |PostAll(x, ms, now).sent| == MAX_RELIABLE_IN_TRANSIT
  {
    if |ms| > 1 {
      PostAllFills(x, ms[..|ms| - 1], now);
    } else {
      assert PostAll(x, ms[..0], now) == x;
    }
  }

  /** Sending a long message out of the queue takes two slots where one is free. */
  lemma LongNextOverfills(x: HostState, now: nat)
    requires x.queued != [] && x.queued[0].id == x.localSent && |x.queued[0].msg| > UNCHUNKED
    requires |x.sent| == MAX_RELIABLE_IN_TRANSIT - 1
    ensures |SendNext(x, now).sent| == MAX_RELIABLE_IN_TRANSIT + 1
  {
    assert Find(x.queued, x.localSent) == 0;
    PostAllFills(x, Fragments(x.queued[0].msg), now);
  }

  /** Sending a shorter one takes the free slot. */
  lemma ShortNextFills(x: HostState, h: HostState, now: nat)
    requires Window(x) && x.queued != [] && |x.queued[0].msg| <= UNCHUNKED
    requires h == x.(sent := h.sent) && |h.sent| == |x.sent| - 1 && Distinct(h.sent)
    requires forall i :: 0 <= i < |h.sent| ==> h.sent[i].id < x.localSent
    ensures Window(SendNext(h, now))
  {
    assert Find(h.queued, h.localSent) == 0;
    var m := h.queued[0];
    assert Post(h, m.msg, false, now) == Emit(h, m.msg);
    assert Remove(h.queued, 0) == h.queued[1..];
    var g := SendNext(h, now);
    assert g.sent == h.sent + [m.(lastSend := now)] && g.queued == h.queued[1..];
  }

  /** An acknowledgement keeps the window exactly when it does not send a message that has to be fragmented;
      otherwise a fragment takes the slot, and sixteen messages are in flight. */
  lemma AckKeepsWindowIff(x: HostState, id: nat, now: nat)
    requires Window(x)
    ensures Window(CheckSent(x, id, now))
       <==> !(Has(x.sent, id) && x.queued != [] && |x.queued[0].msg| > UNCHUNKED)
    ensures !Window(CheckSent(x, id, now)) ==> |CheckSent(x, id, now).sent| == MAX_RELIABLE_IN_TRANSIT + 1
  {
    var i := Find(x.sent, id);
    if i < |x.sent| {
      RemoveKeepsDistinct(x.sent, i);
      var h := x.(sent := Remove(x.sent, i));
      if x.queued != [] {
        assert x.queued[0].id == x.localSent;
        if |x.queued[0].msg| > UNCHUNKED {
          LongNextOverfills(h, now);
        } else {
          ShortNextFills(x, h, now);
        }
      }
    }
  }

  // ---------- Any run ----------

  /** Every reliable message posted in a run is n bytes long. */
  predicate OnlyLength(run: seq<Step>, n: nat) {
    forall i :: 0 <= i < |run| ==>
      run[i].event.PostMessage? && run[i].event.reliable ==> |run[i].event.m| == n
  }

  /** Whatever else the hosts and the channel do, in whatever order, both windows hold. */
  ghost predicate AlwaysInWindow(n: nat) {
    forall run, z :: Reaches(run, z) && OnlyLength(run, n) ==> Window(z.left.h) && Window(z.right.h)
  }

  // ---------- A run that breaks the window ----------

  /** After k posts of messages of one length: the first 15 are in flight, the others wait. */
  ghost predicate Waiting(x: HostState, k: nat, length: nat) {
    && Window(x) && x.localStep == k && |x.sent| == x.localSent == Min(k, MAX_RELIABLE_IN_TRANSIT)
    && (forall i :: 0 <= i < |x.sent| ==> x.sent[i].id == i)
    && (forall i :: 0 <= i < |x.queued| ==> |x.queued[i].msg| == length)
  }

  /** After k posts of m on a session of its own; the first was sent at once. */
  ghost predicate Posted(x: Peer, c: Cipher, m: Bytes, k: nat) {
    && Waiting(x.h, k, |m| + 6) && x.h.cipher == c && !x.h.clustering
    && (if k == 0 then x.h.wire == [] else x.h.wire != [] && x.h.wire[0] == Encrypted(c, Stamp(0, m)))
  }

  lemma QueueWaits(x: HostState, k: nat, s: Bytes, now: nat)
    requires Waiting(x, k, |s|) && |s| >= 6 && GetLong(s, 2) == k && k + 1 < U32
    ensures Waiting(Queue(x, s, now), k + 1, |s|)
  {
  }

  lemma PostedMore(x: Peer, y: Peer, c: Cipher, m: Bytes, k: nat)
    requires Posted(x, c, m, k) && k + 1 < U32 && IsApplication(m) && |m| <= UNCHUNKED
    ensures Allowed(x, y, PostMessage(m, true)) && Posted(Act(x, y, PostMessage(m, true), 0), c, m, k + 1)
  {
    LongRoundTrip([0, 0x03], k, m);
    var s := Stamp(k, m);
    QueueWaits(x.h, k, s, 0);
    var g := Post(x.h, m, true, 0);
    assert g == Queue(x.h, s, 0).(wire := g.wire);
    assert g.wire == x.h.wire || g.wire == x.h.wire + [Encrypted(c, s)];
  }

  lemma {:induction false} PostsReach(c: Cipher, m: Bytes, k: nat) returns (run: seq<Step>, z: System)
    requires k < U32 && IsApplication(m) && |m| <= UNCHUNKED
    ensures Reaches(run, z) && OnlyLength(run, |m|) && Posted(z.left, c, m, k) && z.right == Started(c, 0)
  {
    if k == 0 {
      run, z := [], System(Started(c, 0), Started(c, 0));
      assert IsRun(z, run) && After(z, run) == z;
    } else {
      var run', z' := PostsReach(c, m, k - 1);
      var step := Step(true, PostMessage(m, true), 0);
      PostedMore(z'.left, z'.right, c, m, k - 1);
      ReachesMore(run', z', step);
      run, z := run' + [step], Take(z', step);
    }
  }

  lemma OneMessage(h: HostState, m: Bytes, now: nat)
    ensures GotMessages(h, [m], now) == GotMessage(h, m, now)
  {
    var none: seq<Bytes> := [];
    assert [m][..0] == none;
  }

  /** A new host receives the first message of the stream and acknowledges it. */
  lemma FirstReceived(y: Peer, x: Peer, c: Cipher, m: Bytes, k: nat)
    requires Posted(x, c, m, k) && k > 0 && y == Started(c, 0) && IsApplication(m) && |m| <= UNCHUNKED
    ensures Allowed(y, x, ReceiveDatagram(0))
    ensures Act(y, x, ReceiveDatagram(0), 0).h.wire == [Encrypted(c, Ack(0))]
  {
    var s := Stamp(0, m);
    MutualInverses(c, s);
    LongRoundTrip([0, 0x03], 0, m);
    assert Unpack(Decrypted(c, x.h.wire[0])) == [s];
    OneMessage(y.h, s, 0);
    assert GotPacket(y.h, x.h.wire[0], 0) == GotMessage(y.h, s, 0) == GotReliable(y.h, 0, s[6..], 0);
  }

  /** The sender takes in that acknowledgement. */
  lemma FirstAcknowledged(x: Peer, y: Peer, c: Cipher)
    requires x.h.cipher == c && y.h.wire == [Encrypted(c, Ack(0))] && x.h.localStep + 2 < U32
    ensures Allowed(x, y, ReceiveDatagram(0)) && Act(x, y, ReceiveDatagram(0), 0).h == CheckSent(x.h, 0, 0)
  {
    var a := Ack(0);
    MutualInverses(c, a);
    LongRoundTrip([0, 0x04], 0, []);
    assert [0, 0x04] + Long(0) + [] == a;
    assert Unpack(Decrypted(c, y.h.wire[0])) == [a];
    OneMessage(x.h, a, 0);
    assert GotPacket(x.h, y.h.wire[0], 0) == GotMessage(x.h, a, 0) == CheckSent(x.h, 0, 0);
  }

  lemma OnlyLengthMore(run: seq<Step>, n: nat, step: Step)
    requires OnlyLength(run, n) && !step.event.PostMessage?
    ensures OnlyLength(run + [step], n)
  {
  }

  lemma BreaksWindow(c: Cipher, m: Bytes) returns (run: seq<Step>, z: System)
    requires IsApplication(m) && SAFE < |m| <= UNCHUNKED
    ensures Reaches(run, z) && OnlyLength(run, |m|) && !Window(z.left.h)
  {
    var k := MAX_RELIABLE_IN_TRANSIT + 1;
    var run0, z0 := PostsReach(c, m, k);
    FirstReceived(z0.right, z0.left, c, m, k);
    var receive, acknowledged := Step(false, ReceiveDatagram(0), 0), Step(true, ReceiveDatagram(0), 0);
    ReachesMore(run0, z0, receive);
    OnlyLengthMore(run0, |m|, receive);
    var z1 := Take(z0, receive);
    FirstAcknowledged(z1.left, z1.right, c);
    ReachesMore(run0 + [receive], z1, acknowledged);
    OnlyLengthMore(run0 + [receive], |m|, acknowledged);
    run, z := run0 + [receive] + [acknowledged], Take(z1, acknowledged);
    assert z0.left.h.sent[0].id == 0;
    HasIff(z0.left.h.sent, 0);
    AckKeepsWindowIff(z0.left.h, 0, 0);
  }

  /** When all reliable messages have one length, the window of both senders holds in every run, whatever the
      order of posts, acknowledgements and everything else, exactly when that length is not 503 to 508 bytes. */
  lemma WindowIffNotOversized(n: nat)
    ensures AlwaysInWindow(n) <==> !(503 <= n <= 508)
  {
    if 503 <= n <= 508 {
      var m: Bytes := seq(n, i => 1);
      var run, z := BreaksWindow(Cipher(ZERO, []), m);
    } else {
      forall run, z | Reaches(run, z) && OnlyLength(run, n)
        ensures Window(z.left.h) && Window(z.right.h)
      {
        assert AllRegular(run);
        WindowHolds(z);
      }
    }
  }

  /** Whatever happens from now on, the right application lacks a message it was promised. */
  ghost predicate Stalled(z: System) {
    forall run :: IsRun(z, run) ==> |After(z, run).right.h.assembly.log| < |After(z, run).left.promised|
  }

  /** For each of these lengths there is a run of posts of that length alone after which the stream is stalled
      for good. */
  lemma StallOccurs(n: nat) returns (run: seq<Step>, z: System)
    requires 503 <= n <= 508
    ensures Reaches(run, z) && OnlyLength(run, n) && Stalled(z)
  {
    var m: Bytes := seq(n, i => 1);
    run, z := PostsReach(Cipher(ZERO, []), m, MAX_RELIABLE_IN_TRANSIT + 1);
    var r := z.left.h.queued[0];
    forall more | IsRun(z, more)
      ensures |After(z, more).right.h.assembly.log| < |After(z, more).left.promised|
    {
      AnyLength.StallsForever(z, r, more);
    }
  }
}
