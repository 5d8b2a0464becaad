/** What a host gives to the channel, in plain numbers: fifteen reliable messages at first, the overdue ones again,
    an acknowledgement for each reliable message that comes in. */
module Sending {
  import opened Bytes
  import opened Reassembly
  import opened Encrypt
  import opened Transport
  import opened Progress

  function Enciphered(c: Cipher, ms: seq<Bytes>): seq<Bytes> {
    if ms == [] then [] else Enciphered(c, ms[..|ms| - 1]) + [Encrypted(c, ms[|ms| - 1])]
  }

  /** From h to g exactly these messages were given to the channel: into the open cluster, or each in a datagram of
      its own. */
  ghost predicate Gives(h: HostState, g: HostState, ms: seq<Bytes>) {
    && g.cipher == h.cipher && g.clustering == h.clustering
    && g.clustered == (if h.clustering then h.clustered + ms else h.clustered)
    && g.wire == (if h.clustering then h.wire else h.wire + Enciphered(h.cipher, ms))
  }

  function EmitAll(h: HostState, ms: seq<Bytes>): HostState {
    if ms == [] then h else Emit(EmitAll(h, ms[..|ms| - 1]), ms[|ms| - 1])
  }

  lemma {:induction false} EmitAllGives(h: HostState, ms: seq<Bytes>)
    ensures Gives(h, EmitAll(h, ms), ms)
    decreases |ms|
  {
    if ms == [] {
      ConcatEmpty(h.clustered);
      ConcatEmpty(h.wire);
    } else {
      var n := |ms| - 1;
      EmitAllGives(h, ms[..n]);
      SplitLast(ms);
      ConcatAssociates(h.clustered, ms[..n], [ms[n]]);
      ConcatAssociates(h.wire, Enciphered(h.cipher, ms[..n]), [Encrypted(h.cipher, ms[n])]);
    }
  }

  /** To the channel the two are the same. */
  predicate SameChannel(h: HostState, g: HostState) {
    h.cipher == g.cipher && h.clustering == g.clustering && h.clustered == g.clustered && h.wire == g.wire
  }

  lemma GivesSame(h: HostState, g: HostState, ms: seq<Bytes>)
    requires SameChannel(g, EmitAll(h, ms))
    ensures Gives(h, g, ms)
  {
    EmitAllGives(h, ms);
  }

  lemma EmitSame(h: HostState, g: HostState, m: Bytes)
    requires SameChannel(h, g)
    ensures SameChannel(Emit(h, m), Emit(g, m))
  {
  }

  lemma EmitOne(h: HostState, m: Bytes)
    ensures EmitAll(h, [m]) == Emit(h, m)
  {
    assert [m][..0] == [];
  }

  lemma EmitMore(h: HostState, ms: seq<Bytes>, m: Bytes)
    ensures EmitAll(h, ms + [m]) == Emit(EmitAll(h, ms), m)
  {
    assert (ms + [m])[..|ms|] == ms;
  }

  // ---------- The first fifteen ----------

  /** The stamped forms of the first k of these messages: 00 03, a 32-bit number from a on, low byte first, and the
      message. */
  function Stamped(ms: seq<Bytes>, a: nat, k: nat): (r: seq<Bytes>)
    requires k <= |ms|
    ensures |r| == k
  {
    seq(k, i requires 0 <= i < k => [0, 0x03] + Long(a + i) + ms[i])
  }

  function Numbered(ms: seq<Bytes>, a: nat, now: nat): (r: seq<Reliable>)
    ensures |r| == |ms|
  {
    seq(|ms|, i requires 0 <= i < |ms| => Reliable(a + i, [0, 0x03] + Long(a + i) + ms[i], now))
  }

  /** Messages posted to a host with an empty outbox: the first fifteen are in flight, sent now and numbered from
      localStep on; the others wait in the queue. */
  ghost predicate Opened(x: HostState, g: HostState, ms: seq<Bytes>, k: nat, now: nat) {
    && k == Min(|ms|, 15)
    && g.sent == Numbered(ms, x.localStep, now)[..k] && g.queued == Numbered(ms, x.localStep, now)[k..]
    && g.localStep == x.localStep + |ms| && g.localSent == x.localSent + k
  }

  lemma NumberedMore(ms: seq<Bytes>, m: Bytes, a: nat, now: nat)
    ensures Numbered(ms + [m], a, now) == Numbered(ms, a, now) + [Reliable(a + |ms|, Stamp(a + |ms|, m), now)]
  {
  }

  lemma StampedMore(ms: seq<Bytes>, m: Bytes, a: nat)
    ensures Stamped(ms + [m], a, |ms| + 1) == Stamped(ms, a, |ms|) + [Stamp(a + |ms|, m)]
  {
  }

  lemma StampedSame(ms: seq<Bytes>, m: Bytes, a: nat, k: nat)
    requires k <= |ms|
    ensures Stamped(ms + [m], a, k) == Stamped(ms, a, k)
  {
  }

  lemma StampNumber(id: nat, m: Bytes)
    requires id < U32
    ensures GetLong(Stamp(id, m), 2) == id
  {
    LongRoundTrip([0, 0x03], id, m);
  }

  lemma PostQueues(g: HostState, m: Bytes, now: nat)
    requires g.localStep + 1 < U32 && g.localSent + 1 < U32
    ensures var f, r := PostWhole(g, m, true, now), Reliable(g.localStep, Stamp(g.localStep, m), now);
            && f.localStep == g.localStep + 1
            && f.sent == (if |g.sent| < 15 then g.sent + [r] else g.sent)
            && f.queued == (if |g.sent| < 15 then g.queued else g.queued + [r])
            && f.localSent == if |g.sent| < 15 then g.localSent + 1 else g.localSent
  {
    StampNumber(g.localStep, m);
  }

  lemma Divided<T>(s: seq<T>, r: T, k: nat)
    requires k <= |s|
    ensures (s + [r])[..k] == s[..k] && (s + [r])[k..] == s[k..] + [r]
    ensures (s + [r])[..|s| + 1] == s + [r] && (s + [r])[|s| + 1..] == []
    ensures s[..|s|] == s && s[|s|..] == []
  {
  }

  /** One more message r, behind those of `all`. */
  lemma OneMoreOpened(g: HostState, f: HostState, all: seq<Reliable>, r: Reliable, k: nat)
    requires k == Min(|all|, 15) && g.sent == all[..k] && g.queued == all[k..]
    requires f.sent == (if k < 15 then g.sent + [r] else g.sent)
    requires f.queued == (if k < 15 then g.queued else g.queued + [r])
    ensures var k' := Min(|all| + 1, 15); f.sent == (all + [r])[..k'] && f.queued == (all + [r])[k'..]
  {
    Divided(all, r, k);
  }

  lemma OpenedMore(x: HostState, g: HostState, f: HostState, ms: seq<Bytes>, m: Bytes, k: nat, now: nat)
    requires f == PostWhole(g, m, true, now)
    requires Opened(x, g, ms, k, now) && x.localStep == x.localSent && x.localStep + |ms| + 1 < U32
    ensures Opened(x, f, ms + [m], Min(|ms| + 1, 15), now)
  {
    var r := Reliable(g.localStep, Stamp(g.localStep, m), now);
    PostQueues(g, m, now);
    NumberedMore(ms, m, x.localStep, now);
    OneMoreOpened(g, f, Numbered(ms, x.localStep, now), r, k);
  }

  /** What a post gives to the channel: the stamped message if fewer than fifteen are in flight. */
  lemma PostGives(g: HostState, m: Bytes, now: nat)
    ensures SameChannel(PostWhole(g, m, true, now), if |g.sent| < 15 then Emit(g, Stamp(g.localStep, m)) else g)
  {
  }

  lemma GivenMore(x: HostState, g: HostState, all: seq<Bytes>, m: Bytes, now: nat)
    requires SameChannel(g, EmitAll(x, all)) && |g.sent| < 15
    ensures SameChannel(PostWhole(g, m, true, now), EmitAll(x, all + [Stamp(g.localStep, m)]))
  {
    var s := Stamp(g.localStep, m);
    PostGives(g, m, now);
    EmitMore(x, all, s);
    EmitSame(g, EmitAll(x, all), s);
  }

  lemma FirstStep(x: HostState, g: HostState, ms: seq<Bytes>, m: Bytes, k: nat, now: nat)
    requires k == Min(|ms|, 15) == |g.sent| && g.localStep == x.localStep + |ms|
    requires SameChannel(g, EmitAll(x, Stamped(ms, x.localStep, k)))
    ensures SameChannel(PostWhole(g, m, true, now), EmitAll(x, Stamped(ms + [m], x.localStep, Min(|ms| + 1, 15))))
  {
    if |ms| < 15 {
      GivenMore(x, g, Stamped(ms, x.localStep, k), m, now);
      StampedMore(ms, m, x.localStep);
    } else {
      PostGives(g, m, now);
      StampedSame(ms, m, x.localStep, 15);
    }
  }

  lemma {:induction false} FirstGiven(x: HostState, ms: seq<Bytes>, k: nat, now: nat)
    requires x.sent == [] && x.queued == [] && x.localStep == x.localSent && x.localStep + |ms| < U32
    requires k == Min(|ms|, 15)
    ensures Opened(x, PostAll(x, ms, now), ms, k, now)
    ensures SameChannel(PostAll(x, ms, now), EmitAll(x, Stamped(ms, x.localStep, k)))
    decreases |ms|
  {
    if ms == [] {
      assert Stamped(ms, x.localStep, 0) == [];
    } else {
      var n, j := |ms| - 1, Min(|ms| - 1, 15);
      var g := PostAll(x, ms[..n], now);
      FirstGiven(x, ms[..n], j, now);
      SplitLast(ms);
      OpenedMore(x, g, PostAll(x, ms, now), ms[..n], ms[n], j, now);
      FirstStep(x, g, ms[..n], ms[n], j, now);
    }
  }

  /** Of the messages posted to a host with nothing in its outbox the first fifteen are in flight, and those and no
      others were given to the channel, in order. */
  lemma FirstFifteen(x: HostState, ms: seq<Bytes>, now: nat)
    requires x.sent == [] && x.queued == [] && x.localStep == x.localSent && x.localStep + |ms| < U32
    ensures Opened(x, PostAll(x, ms, now), ms, Min(|ms|, 15), now)
    ensures Gives(x, PostAll(x, ms, now), Stamped(ms, x.localStep, Min(|ms|, 15)))
  {
    FirstGiven(x, ms, Min(|ms|, 15), now);
    GivesSame(x, PostAll(x, ms, now), Stamped(ms, x.localStep, Min(|ms|, 15)));
  }

  // ---------- What is sent again ----------

  /** Not acknowledged for more than syncPing + 10 ticks of a 32-bit clock. */
  predicate Overdue(r: Reliable, syncPing: nat, now: nat) {
    (now - r.lastSend) % 0x1_0000_0000 > (syncPing + 10) % 0x1_0000_0000
  }

  /** The overdue ones of the first k, in order. */
  function AllOverdue(rs: seq<Reliable>, k: nat, syncPing: nat, now: nat): seq<Bytes>
    requires k <= |rs|
  {
    if k == 0 then []
    else AllOverdue(rs, k - 1, syncPing, now) + if Overdue(rs[k - 1], syncPing, now) then [rs[k - 1].msg] else []
  }

  /** Of the first k messages in flight the overdue ones count as sent now; nothing else changes but what is given to
      the channel. */
  ghost predicate Renewed(x: HostState, g: HostState, k: nat, now: nat) {
    && g == x.(sent := g.sent, clustered := g.clustered, wire := g.wire) && |g.sent| == |x.sent|
    && forall i :: 0 <= i < |x.sent| ==>
         g.sent[i] == if i < k && Overdue(x.sent[i], x.syncPing, now) then x.sent[i].(lastSend := now) else x.sent[i]
  }

  /** The message at place k is posted once more if it is overdue. */
  lemma ResendIs(g: HostState, k: nat, now: nat)
    requires k < |g.sent| && |g.sent[k].msg| <= 508
    ensures Resend(g, k, now) ==
              if Overdue(g.sent[k], g.syncPing, now) then
                Emit(g, g.sent[k].msg).(sent := g.sent[k := g.sent[k].(lastSend := now)])
              else g
  {
    assert Post(g, g.sent[k].msg, false, now) == Emit(g, g.sent[k].msg);
  }

  lemma RenewedOne(x: HostState, g: HostState, k: nat, now: nat)
    requires k < |x.sent| && |x.sent[k].msg| <= 508 && Renewed(x, g, k, now)
    ensures Renewed(x, Resend(g, k, now), k + 1, now)
  {
    ResendIs(g, k, now);
  }

  lemma GivesOverdue(x: HostState, g: HostState, k: nat, now: nat)
    requires k < |x.sent| == |g.sent| && x.sent[k] == g.sent[k] && x.syncPing == g.syncPing
    requires |x.sent[k].msg| <= 508 && SameChannel(g, EmitAll(x, AllOverdue(x.sent, k, x.syncPing, now)))
    ensures SameChannel(Resend(g, k, now), EmitAll(x, AllOverdue(x.sent, k + 1, x.syncPing, now)))
  {
    var all, m := AllOverdue(x.sent, k, x.syncPing, now), x.sent[k].msg;
    ResendIs(g, k, now);
    if Overdue(x.sent[k], x.syncPing, now) {
      EmitMore(x, all, m);
      EmitSame(g, EmitAll(x, all), m);
    } else {
      ConcatEmpty(all);
    }
  }

  lemma ResendFirst(g: HostState, k: nat, now: nat)
    requires k < |g.sent|
    ensures SendQueuedFrom(g, k, now) == SendQueuedFrom(Resend(g, k, now), k + 1, now)
  {
  }

  lemma {:induction false} RenewedFrom(x: HostState, g: HostState, k: nat, now: nat)
    requires k <= |x.sent| == |g.sent| && forall i :: 0 <= i < |x.sent| ==> |x.sent[i].msg| <= 508
    requires Renewed(x, g, k, now) && SameChannel(g, EmitAll(x, AllOverdue(x.sent, k, x.syncPing, now)))
    ensures Renewed(x, SendQueuedFrom(g, k, now), |x.sent|, now)
    ensures SameChannel(SendQueuedFrom(g, k, now), EmitAll(x, AllOverdue(x.sent, |x.sent|, x.syncPing, now)))
    decreases |x.sent| - k
  {
    if k < |x.sent| {
      var f := Resend(g, k, now);
      RenewedOne(x, g, k, now);
      GivesOverdue(x, g, k, now);
      ResendFirst(g, k, now);
      RenewedFrom(x, f, k + 1, now);
    }
  }

  /** Exactly the overdue messages are sent again, in order and once each. */
  lemma SentAgain(x: HostState, now: nat)
    requires forall i :: 0 <= i < |x.sent| ==> |x.sent[i].msg| <= 508
    ensures Renewed(x, SendQueued(x, now), |x.sent|, now)
    ensures Gives(x, SendQueued(x, now), AllOverdue(x.sent, |x.sent|, x.syncPing, now))
  {
    RenewedFrom(x, x, 0, now);
    GivesSame(x, SendQueued(x, now), AllOverdue(x.sent, |x.sent|, x.syncPing, now));
  }

  // ---------- What is said to a message ----------

  /** Each reliable message that comes in is acknowledged with 00 04 and its number, even if it came before; nothing
      else is. */
  lemma Acknowledged(x: HostState, m: Bytes, now: nat)
    requires |m| >= 7 && m[0] == 0 && m[1] == 0x03
    ensures Gives(x, GotMessage(x, m, now), [[0, 0x04] + Long(GetLong(m, 2))])
  {
    var id := GetLong(m, 2);
    CheckReceivedInbox(Emit(x, Ack(id)), id, m[6..], now);
    EmitOne(x, Ack(id));
    GivesSame(x, GotMessage(x, m, now), [Ack(id)]);
  }

  /** An acknowledgement of something that is not in flight changes nothing, and neither does a core message of
      another kind, beyond the transfer buffers. */
  lemma Ignored(x: HostState, m: Bytes, now: nat)
    requires m != [] ==> m[0] == 0
    ensures |m| == 6 && m[1] == 0x04 && !Has(x.sent, GetLong(m, 2)) ==> GotMessage(x, m, now) == x
    ensures |m| < 2 || (m[1] != 0x03 && m[1] != 0x04) || (m[1] == 0x03 && |m| < 7) || (m[1] == 0x04 && |m| != 6) ==>
              GotMessage(x, m, now) == x.(assembly := Deliver(x.assembly, m))
  {
  }

  /** With nothing to move up, an acknowledgement of a number up to localSent takes exactly the first message with it
      out of those in flight; one of a greater number changes nothing. */
  lemma Retires(x: HostState, id: nat, now: nat)
    requires !Has(x.queued, x.localSent)
    ensures var i := Find(x.sent, id);
            CheckSent(x, id, now) ==
              if id <= x.localSent && i < |x.sent| then x.(sent := x.sent[..i] + x.sent[i + 1..]) else x
  {
  }

  /** A message of more than 508 bytes is cut up and posted reliably, whatever was asked for; a shorter one that is
      posted unreliably is given to the channel as it is. */
  lemma Unreliably(x: HostState, m: Bytes, now: nat)
    ensures if |m| > 508 then Post(x, m, false, now) == PostAll(x, Payloads(m), now)
            else Gives(x, Post(x, m, false, now), [m])
  {
    if |m| <= 508 {
      EmitOne(x, m);
      GivesSame(x, Emit(x, m), [m]);
    }
  }
}
