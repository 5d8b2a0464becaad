/** Runs in which reliable messages of any length may be posted. A message of 503 to 508 bytes is posted whole,
    but its stamped form is too long to be sent again whole: it is posted a second time, in fragments with new
    ACK_IDs. What is delivered stays a prefix of what was promised, and such a message that had to wait in the
    queue is never delivered. */
module AnyLength {
  import opened Bytes
  import opened Reassembly
  import opened Encrypt
  import opened Transport
  import opened Session
  import opened Runs

  // ---------- The invariant ----------

  /** The stream without the messages that have never been sent: nothing on the wire carries those. */
  function SentPart(s: seq<Bytes>, hidden: set<nat>): (r: seq<Bytes>)
    ensures |r| == |s|
  {
    seq(|s|, i requires 0 <= i < |s| => if i in hidden then [] else s[i])
  }

  /** What the outbox holds is of the stream s. What waits in the queue was never sent; a message in flight
      that is short enough to be sent again was sent before. */
  ghost predicate Side(x: HostState, s: seq<Bytes>, hidden: set<nat>) {
    && x.localStep == |s| < U32
    && (forall i :: 0 <= i < |s| ==> 1 <= |s[i]| <= UNCHUNKED)
    && (forall i :: 0 <= i < |x.sent| ==>
          Carries(x.sent[i], s) && (|x.sent[i].msg| <= UNCHUNKED ==> x.sent[i].id !in hidden))
    && (forall i :: 0 <= i < |x.queued| ==> Carries(x.queued[i], s) && x.queued[i].id in hidden)
    && Distinct(x.queued)
    && Inbox(x) && Emitted(x, SentPart(s, hidden))
  }

  /** y has a prefix of s, some messages ahead of it, and none that was never sent. */
  ghost predicate Across(s: seq<Bytes>, hidden: set<nat>, y: HostState) {
    Delivery(s, y) && forall id :: id in hidden ==> id < |s| && !Got(y, id)
  }

  ghost predicate Both(x: HostState, s: seq<Bytes>, hx: set<nat>, y: HostState, t: seq<Bytes>, hy: set<nat>) {
    Side(x, s, hx) && Side(y, t, hy) && Across(s, hx, y) && Across(t, hy, x) && x.cipher == y.cipher
  }

  /** The stream grows, and what has to be fragmented to be sent at all stays unsent. */
  ghost predicate Grows(s: seq<Bytes>, hidden: set<nat>, s': seq<Bytes>, hidden': set<nat>) {
    s <= s' && forall id :: id in hidden && id < |s| && |s[id]| > SAFE ==> id in hidden'
  }

  lemma GrowsOn(a: seq<Bytes>, ha: set<nat>, b: seq<Bytes>, hb: set<nat>, c: seq<Bytes>, hc: set<nat>)
    requires Grows(a, ha, b, hb) && Grows(b, hb, c, hc)
    ensures Grows(a, ha, c, hc)
  {
  }

  // ---------- Posting ----------

  lemma SentGrows(s: seq<Bytes>, hidden: set<nat>, p: Bytes, hidden': set<nat>)
    requires forall id :: id in hidden' <==> id in hidden || (id == |s| && id in hidden')
    ensures SentPart(s, hidden) <= SentPart(s + [p], hidden')
  {
  }

  /** Messages that were never sent: after a post the new one is among them if it had to be queued. */
  function Hidden(x: HostState, s: seq<Bytes>, hx: set<nat>): set<nat> {
    if |x.sent| < MAX_RELIABLE_IN_TRANSIT then hx else hx + {|s|}
  }

  lemma OutboxGrows(x: HostState, s: seq<Bytes>, hx: set<nat>, p: Bytes, now: nat)
    requires Side(x, s, hx) && 1 <= |p| <= UNCHUNKED && |s| + 1 < U32 && forall id :: id in hx ==> id < |s|
    ensures Side(Queue(x, Stamp(x.localStep, p), now).(clustered := [], wire := []), s + [p], Hidden(x, s, hx))
  {
    StampIsStamped(s + [p], |s|);
  }

  lemma PostEmits(x: HostState, s: seq<Bytes>, hx: set<nat>, p: Bytes, now: nat)
    requires Side(x, s, hx) && 1 <= |p| <= UNCHUNKED && |s| + 1 < U32 && forall id :: id in hx ==> id < |s|
    ensures Emitted(PostWhole(x, p, true, now), SentPart(s + [p], Hidden(x, s, hx)))
  {
    var m, t := Stamp(x.localStep, p), SentPart(s + [p], Hidden(x, s, hx));
    var g := Queue(x, m, now);
    SentGrows(s, hx, p, Hidden(x, s, hx));
    EmittedStays(x, SentPart(s, hx), g, t);
    if |x.sent| < MAX_RELIABLE_IN_TRANSIT {
      StampIsStamped(t, |s|);
      EmitFine(g, t, m);
    }
  }

  lemma AcrossGrows(s: seq<Bytes>, hx: set<nat>, p: Bytes, x: HostState, y: HostState)
    requires Across(s, hx, y)
    ensures Across(s + [p], Hidden(x, s, hx), y)
  {
    assert (s + [p])[..y.remoteStep] == s[..y.remoteStep];
    HasIff(y.received, |s|);
  }

  /** A message enters the outbox: sent right away, or hidden in the queue. */
  lemma PostOne(x: HostState, s: seq<Bytes>, hx: set<nat>, y: HostState, t: seq<Bytes>, hy: set<nat>, p: Bytes,
                now: nat)
    returns (hx': set<nat>)
    requires Both(x, s, hx, y, t, hy) && 1 <= |p| <= UNCHUNKED && |s| + 1 < U32
    ensures Both(PostWhole(x, p, true, now), s + [p], hx', y, t, hy) && hx <= hx'
  {
    hx' := Hidden(x, s, hx);
    OutboxGrows(x, s, hx, p, now);
    PostEmits(x, s, hx, p, now);
    AcrossGrows(s, hx, p, x, y);
  }

  lemma {:induction false} PostMany(x: HostState, s: seq<Bytes>, hx: set<nat>, y: HostState, t: seq<Bytes>,
                                    hy: set<nat>, ms: seq<Bytes>, now: nat) returns (hx': set<nat>)
    requires Both(x, s, hx, y, t, hy) && |s| + |ms| < U32
    requires forall i :: 0 <= i < |ms| ==> 1 <= |ms[i]| <= UNCHUNKED
    ensures Both(PostAll(x, ms, now), s + ms, hx', y, t, hy) && hx <= hx'
    decreases |ms|
  {
    if ms == [] {
      assert s + ms == s;
      hx' := hx;
    } else {
      var n := |ms| - 1;
      var h := PostMany(x, s, hx, y, t, hy, ms[..n], now);
      hx' := PostOne(PostAll(x, ms[..n], now), s + ms[..n], h, y, t, hy, ms[n], now);
      SplitLast(ms);
      ConcatAssociates(s, ms[..n], [ms[n]]);
    }
  }

  lemma EmitKeeps(x: HostState, s: seq<Bytes>, hx: set<nat>, y: HostState, t: seq<Bytes>, hy: set<nat>, m: Bytes)
    requires Both(x, s, hx, y, t, hy) && Fine(x, SentPart(s, hx), m)
    ensures Both(Emit(x, m), s, hx, y, t, hy)
  {
    EmitFine(x, SentPart(s, hx), m);
  }

  // ---------- Sending a message again ----------

  /** A stamped message that is too long to be sent again takes two places in the stream. */
  lemma TwoFragments(m: Bytes)
    requires Refragmented(m)
    ensures |Fragments(m)| == 2 && Payloads(m) == Fragments(m)
  {
    var i := CHUNK_SIZE + 4;
    assert LittleFragments(m, 0) == [[0, 0x08] + m[0..i]] + LittleFragments(m, i);
    assert LittleFragments(m, i) == [[0, 0x09] + m[i..]];
  }

  /** It is posted in fragments. */
  lemma LongRepost(x: HostState, s: seq<Bytes>, hx: set<nat>, y: HostState, t: seq<Bytes>, hy: set<nat>,
                   r: Reliable, now: nat) returns (hx': set<nat>)
    requires Both(x, s, hx, y, t, hy) && Carries(r, s) && Refragmented(r.msg) && |s| + 2 < U32
    ensures Both(Post(x, r.msg, false, now), s + Payloads(r.msg), hx', y, t, hy) && hx <= hx'
  {
    TwoFragments(r.msg);
    hx' := PostMany(x, s, hx, y, t, hy, Fragments(r.msg), now);
  }

  /** A shorter one is sent as it is. */
  lemma ShortRepost(x: HostState, s: seq<Bytes>, hx: set<nat>, y: HostState, t: seq<Bytes>, hy: set<nat>,
                    r: Reliable, now: nat)
    requires Both(x, s, hx, y, t, hy) && Carries(r, s) && |r.msg| <= UNCHUNKED && r.id !in hx
    ensures Post(x, r.msg, false, now) == Emit(x, r.msg) && Both(Emit(x, r.msg), s, hx, y, t, hy)
  {
    StampIsStamped(SentPart(s, hx), r.id);
    EmitKeeps(x, s, hx, y, t, hy, r.msg);
  }

  /** The posted messages p' are p and stamped messages sent again, at most n of them. */
  ghost predicate Adds(p: seq<Bytes>, p': seq<Bytes>, n: nat) {
    && Streamable(p') && Applications(p') == Applications(p)
    && Stream(p) <= Stream(p') && |Stream(p')| <= |Stream(p)| + 2 * n
  }

  lemma AddsOn(p: seq<Bytes>, q: seq<Bytes>, r: seq<Bytes>, m: nat, n: nat)
    requires Adds(p, q, m) && Adds(q, r, n)
    ensures Adds(p, r, m + n)
  {
  }

  lemma AddsOne(p: seq<Bytes>, m: Bytes)
    requires Streamable(p) && Refragmented(m)
    ensures Adds(p, p + [m], 1) && Stream(p + [m]) == Stream(p) + Payloads(m)
  {
    TwoFragments(m);
    StreamAppend(p, m);
    ApplicationsAppend(p, m);
    StreamableAppend(p, m);
  }

  /** The invariant with the streams as streams of posted messages. */
  ghost predicate Loose(x: HostState, p: seq<Bytes>, hx: set<nat>, y: HostState, q: seq<Bytes>, hy: set<nat>) {
    Streamable(p) && Both(x, Stream(p), hx, y, Stream(q), hy)
  }

  /** What one step of x does to the invariant. */
  ghost predicate Stays(x: HostState, p: seq<Bytes>, hx: set<nat>, g: HostState, p': seq<Bytes>, hx': set<nat>,
                        n: nat)
  {
    && Adds(p, p', n) && Grows(Stream(p), hx, Stream(p'), hx')
    && (Calm(x) ==> Calm(g) && |Stream(p')| == |Stream(p)|)
  }

  lemma StaysOn(x: HostState, p: seq<Bytes>, hx: set<nat>, g: HostState, p1: seq<Bytes>, h1: set<nat>, n: nat,
                f: HostState, p2: seq<Bytes>, h2: set<nat>, k: nat)
    requires Stays(x, p, hx, g, p1, h1, n) && Stays(g, p1, h1, f, p2, h2, k)
    ensures Stays(x, p, hx, f, p2, h2, n + k)
  {
    AddsOn(p, p1, p2, n, k);
    GrowsOn(Stream(p), hx, Stream(p1), h1, Stream(p2), h2);
  }

  predicate Fits(s: seq<Bytes>, m: Bytes) {
    |m| > UNCHUNKED ==> |s| + 2 < U32
  }

  lemma RepostStays(x: HostState, p: seq<Bytes>, hx: set<nat>, y: HostState, q: seq<Bytes>, hy: set<nat>,
                    r: Reliable, now: nat) returns (p': seq<Bytes>, hx': set<nat>)
    requires Loose(x, p, hx, y, q, hy) && Carries(r, Stream(p)) && (|r.msg| <= UNCHUNKED ==> r.id !in hx)
    requires Fits(Stream(p), r.msg)
    ensures Loose(Post(x, r.msg, false, now), p', hx', y, q, hy) && Adds(p, p', 1) && hx <= hx'
    ensures |r.msg| <= UNCHUNKED ==> p' == p && hx' == hx && Post(x, r.msg, false, now) == Emit(x, r.msg)
  {
    if |r.msg| <= UNCHUNKED {
      ShortRepost(x, Stream(p), hx, y, Stream(q), hy, r, now);
      p', hx' := p, hx;
    } else {
      p' := p + [r.msg];
      AddsOne(p, r.msg);
      hx' := LongRepost(x, Stream(p), hx, y, Stream(q), hy, r, now);
    }
  }

  lemma RestampKeeps(x: HostState, s: seq<Bytes>, hx: set<nat>, y: HostState, t: seq<Bytes>, hy: set<nat>, i: nat,
                     now: nat)
    requires Both(x, s, hx, y, t, hy) && i < |x.sent|
    ensures Both(x.(sent := x.sent[i := x.sent[i].(lastSend := now)]), s, hx, y, t, hy)
  {
    var g := x.(sent := x.sent[i := x.sent[i].(lastSend := now)]);
    EmittedStays(x, SentPart(s, hx), g, SentPart(s, hx));
  }

  function Slots(x: HostState): nat {
    if |x.sent| > MAX_RELIABLE_IN_TRANSIT then |x.sent| else MAX_RELIABLE_IN_TRANSIT
  }

  lemma StaysHere(x: HostState, p: seq<Bytes>, hx: set<nat>, n: nat)
    requires Streamable(p)
    ensures Stays(x, p, hx, x, p, hx, n)
  {
  }

  lemma IdsStillLeft(x: HostState, p: seq<Bytes>, hx: set<nat>, g: HostState, p': seq<Bytes>, hx': set<nat>, n: nat,
                     k: nat)
    requires Stays(x, p, hx, g, p', hx', n) && IdsLeft(x, n + k)
    requires x.localStep == |Stream(p)| && g.localStep == |Stream(p')|
    ensures IdsLeft(g, k)
  {
  }

  lemma ResendStays(x: HostState, p: seq<Bytes>, hx: set<nat>, y: HostState, q: seq<Bytes>, hy: set<nat>, i: nat,
                    now: nat)
    returns (p': seq<Bytes>, hx': set<nat>)
    requires Loose(x, p, hx, y, q, hy) && i < |x.sent| && IdsLeft(x, 1)
    ensures Loose(Resend(x, i, now), p', hx', y, q, hy) && Stays(x, p, hx, Resend(x, i, now), p', hx', 1)
    ensures Slots(Resend(x, i, now)) == Slots(x) && |Resend(x, i, now).sent| >= |x.sent|
  {
    p', hx' := p, hx;
    if Expired(x, x.sent[i], now) {
      var m := x.sent[i];
      PostGrows(x, m.msg, false, now);
      p', hx' := RepostStays(x, p, hx, y, q, hy, m, now);
      RestampKeeps(Post(x, m.msg, false, now), Stream(p'), hx', y, Stream(q), hy, i, now);
    }
  }

  lemma {:induction false} ResendAllStays(x: HostState, p: seq<Bytes>, hx: set<nat>, y: HostState, q: seq<Bytes>,
      hy: set<nat>, i: nat, now: nat) returns (p': seq<Bytes>, hx': set<nat>)
    requires Loose(x, p, hx, y, q, hy) && i <= |x.sent| && IdsLeft(x, Slots(x) - i)
    ensures Loose(SendQueuedFrom(x, i, now), p', hx', y, q, hy)
    ensures Stays(x, p, hx, SendQueuedFrom(x, i, now), p', hx', Slots(x) - i)
    decreases Slots(x) - i
  {
    if i == |x.sent| {
      p', hx' := p, hx;
      StaysHere(x, p, hx, Slots(x) - i);
    } else {
      var g := Resend(x, i, now);
      var p1, h1 := ResendStays(x, p, hx, y, q, hy, i, now);
      IdsStillLeft(x, p, hx, g, p1, h1, 1, Slots(x) - i - 1);
      p', hx' := ResendAllStays(g, p1, h1, y, q, hy, i + 1, now);
      StaysOn(x, p, hx, g, p1, h1, 1, SendQueuedFrom(x, i, now), p', hx', Slots(x) - i - 1);
    }
  }

  // ---------- Acknowledgements ----------

  /** A message leaves the outbox. */
  lemma DropKeeps(x: HostState, s: seq<Bytes>, hx: set<nat>, y: HostState, t: seq<Bytes>, hy: set<nat>, i: nat)
    requires Both(x, s, hx, y, t, hy) && i < |x.sent|
    ensures Both(x.(sent := Remove(x.sent, i)), s, hx, y, t, hy)
  {
    var g := x.(sent := Remove(x.sent, i));
    EmittedStays(x, SentPart(s, hx), g, SentPart(s, hx));
    forall j | 0 <= j < |g.sent|
      ensures g.sent[j] == x.sent[if j < i then j else j + 1]
    {
    }
  }

  lemma DropCalm(x: HostState, i: nat)
    requires i < |x.sent|
    ensures Calm(x) ==> Calm(x.(sent := Remove(x.sent, i)))
  {
  }

  lemma TakeOutKeeps(x: HostState, s: seq<Bytes>, hx: set<nat>, y: HostState, t: seq<Bytes>, hy: set<nat>, i: nat)
    requires Both(x, s, hx, y, t, hy) && i < |x.queued|
    ensures Both(x.(queued := Remove(x.queued, i)), s, hx, y, t, hy)
    ensures forall j :: 0 <= j < |Remove(x.queued, i)| ==> Remove(x.queued, i)[j].id != x.queued[i].id
  {
    var g := x.(queued := Remove(x.queued, i));
    EmittedStays(x, SentPart(s, hx), g, SentPart(s, hx));
    RemoveKeepsDistinct(x.queued, i);
    forall j | 0 <= j < |g.queued|
      ensures g.queued[j] == x.queued[if j < i then j else j + 1]
    {
    }
  }

  /** A message that is in no queue any more may be sent. */
  lemma UnhideKeeps(x: HostState, s: seq<Bytes>, hx: set<nat>, y: HostState, t: seq<Bytes>, hy: set<nat>, id: nat)
    requires Both(x, s, hx, y, t, hy) && forall j :: 0 <= j < |x.queued| ==> x.queued[j].id != id
    ensures Both(x, s, hx - {id}, y, t, hy)
  {
    var a, b := SentPart(s, hx), SentPart(s, hx - {id});
    forall m | IsStamped(m, a)
      ensures IsStamped(m, b)
    {
      assert a[GetLong(m, 2)] != [];
    }
  }

  lemma TakeSlotKeeps(x: HostState, s: seq<Bytes>, hx: set<nat>, y: HostState, t: seq<Bytes>, hy: set<nat>,
                      r: Reliable, next: nat)
    requires Both(x, s, hx, y, t, hy) && Carries(r, s) && (|r.msg| <= UNCHUNKED ==> r.id !in hx)
    ensures Both(x.(sent := x.sent + [r], localSent := next), s, hx, y, t, hy)
  {
    var g := x.(sent := x.sent + [r], localSent := next);
    EmittedStays(x, SentPart(s, hx), g, SentPart(s, hx));
  }

  lemma SendNextStays(x: HostState, p: seq<Bytes>, hx: set<nat>, y: HostState, q: seq<Bytes>, hy: set<nat>, now: nat)
    returns (p': seq<Bytes>, hx': set<nat>)
    requires Loose(x, p, hx, y, q, hy) && IdsLeft(x, 1)
    ensures Loose(SendNext(x, now), p', hx', y, q, hy) && Stays(x, p, hx, SendNext(x, now), p', hx', 1)
  {
    var i := Find(x.queued, x.localSent);
    p', hx' := p, hx;
    if i < |x.queued| {
      var m := x.queued[i];
      if |m.msg| <= UNCHUNKED {
        hx' := ShortNext(x, Stream(p), hx, y, Stream(q), hy, i, now);
        ShortNextCalm(x, i, now);
      } else {
        p', hx' := LongNext(x, p, hx, y, q, hy, i, now);
      }
    }
  }

  lemma ShortNextCalm(x: HostState, i: nat, now: nat)
    requires i < |x.queued| && i == Find(x.queued, x.localSent) && |x.queued[i].msg| <= UNCHUNKED
    ensures Calm(x) ==> Calm(SendNext(x, now))
  {
    ShortNextIs(x, i, now);
    var m, g := x.queued[i].(lastSend := now), SendNext(x, now);
    assert g.sent == x.sent + [m] && g.queued == Remove(x.queued, i);
    assert forall j :: 0 <= j < |g.queued| ==> g.queued[j] == x.queued[if j < i then j else j + 1];
  }

  lemma ShortNextIs(x: HostState, i: nat, now: nat)
    requires i < |x.queued| && i == Find(x.queued, x.localSent) && |x.queued[i].msg| <= UNCHUNKED
    ensures var e := Emit(x.(queued := Remove(x.queued, i)), x.queued[i].msg);
            SendNext(x, now) == e.(sent := e.sent + [x.queued[i].(lastSend := now)], localSent := Next(e.localSent))
  {
    assert Post(x, x.queued[i].msg, false, now) == Emit(x, x.queued[i].msg);
  }

  /** The next message leaves the queue as it is; it has been sent from now on. */
  lemma ShortNext(x: HostState, s: seq<Bytes>, hx: set<nat>, y: HostState, t: seq<Bytes>, hy: set<nat>, i: nat,
                  now: nat)
    returns (hx': set<nat>)
    requires Both(x, s, hx, y, t, hy) && i < |x.queued| && i == Find(x.queued, x.localSent)
    requires |x.queued[i].msg| <= UNCHUNKED
    ensures Both(SendNext(x, now), s, hx', y, t, hy) && hx' == hx - {x.queued[i].id}
    ensures Carries(x.queued[i], s)
  {
    var m := x.queued[i];
    var g := x.(queued := Remove(x.queued, i));
    hx' := hx - {m.id};
    TakeOutKeeps(x, s, hx, y, t, hy, i);
    UnhideKeeps(g, s, hx, y, t, hy, m.id);
    ShortRepost(g, s, hx', y, t, hy, m, now);
    var e := Emit(g, m.msg);
    TakeSlotKeeps(e, s, hx', y, t, hy, m.(lastSend := now), Next(e.localSent));
    ShortNextIs(x, i, now);
  }

  /** The next message is fragmented; it stays unsent itself. */
  lemma LongNext(x: HostState, p: seq<Bytes>, hx: set<nat>, y: HostState, q: seq<Bytes>, hy: set<nat>, i: nat, now: nat)
    returns (p': seq<Bytes>, hx': set<nat>)
    requires Loose(x, p, hx, y, q, hy) && IdsLeft(x, 1) && i < |x.queued| && i == Find(x.queued, x.localSent)
    requires |x.queued[i].msg| > UNCHUNKED
    ensures Loose(SendNext(x, now), p', hx', y, q, hy) && Adds(p, p', 1) && hx <= hx'
  {
    var m := x.queued[i];
    PostGrows(x, m.msg, false, now);
    p', hx' := RepostStays(x, p, hx, y, q, hy, m, now);
    var g := Post(x, m.msg, false, now);
    assert g.queued[i] == m;
    TakeOutKeeps(g, Stream(p'), hx', y, Stream(q), hy, i);
    var e := g.(queued := Remove(g.queued, i));
    TakeSlotKeeps(e, Stream(p'), hx', y, Stream(q), hy, m.(lastSend := now), Next(g.localSent));
  }

  lemma CheckSentStays(x: HostState, p: seq<Bytes>, hx: set<nat>, y: HostState, q: seq<Bytes>, hy: set<nat>, id: nat,
                       now: nat)
    returns (p': seq<Bytes>, hx': set<nat>)
    requires Loose(x, p, hx, y, q, hy) && IdsLeft(x, 1)
    ensures Loose(CheckSent(x, id, now), p', hx', y, q, hy) && Stays(x, p, hx, CheckSent(x, id, now), p', hx', 1)
  {
    var i := Find(x.sent, id);
    if id > x.localSent || i == |x.sent| {
      p', hx' := p, hx;
      StaysHere(x, p, hx, 1);
    } else {
      var g := x.(sent := Remove(x.sent, i));
      DropKeeps(x, Stream(p), hx, y, Stream(q), hy, i);
      DropCalm(x, i);
      p', hx' := SendNextStays(g, p, hx, y, q, hy, now);
    }
  }

  // ---------- Receiving ----------

  lemma ReliableStays(x: HostState, s: seq<Bytes>, hx: set<nat>, y: HostState, t: seq<Bytes>, hy: set<nat>, id: nat,
                      now: nat)
    requires Both(x, s, hx, y, t, hy) && id < |t| && id !in hy
    ensures Both(GotReliable(x, id, t[id], now), s, hx, y, t, hy)
    ensures SameButInbox(Emit(x, Ack(id)), GotReliable(x, id, t[id], now))
  {
    var e := Emit(x, Ack(id));
    assert forall j :: Got(e, j) <==> Got(x, j);
    CheckReceivedDelivers(t, e, id, now);
    ReliableEmitted(x, SentPart(s, hx), id, CheckReceived(e, id, t[id], now));
  }

  lemma SentStamp(t: seq<Bytes>, hy: set<nat>, m: Bytes)
    requires IsStamped(m, SentPart(t, hy)) && |t| < U32
    ensures var id := GetLong(m, 2); id < |t| && id !in hy && m == Stamp(id, t[id]) && m[6..] == t[id]
  {
    assert m == Stamp(GetLong(m, 2), SentPart(t, hy)[GetLong(m, 2)]);
  }

  lemma GotMessageStays(x: HostState, p: seq<Bytes>, hx: set<nat>, y: HostState, q: seq<Bytes>, hy: set<nat>,
                        m: Bytes, now: nat)
    returns (p': seq<Bytes>, hx': set<nat>)
    requires Loose(x, p, hx, y, q, hy) && IdsLeft(x, 1) && Fine(y, SentPart(Stream(q), hy), m)
    ensures Loose(GotMessage(x, m, now), p', hx', y, q, hy) && Stays(x, p, hx, GotMessage(x, m, now), p', hx', 1)
  {
    p', hx' := p, hx;
    if IsApplication(m) {
      EmittedStays(x, SentPart(Stream(p), hx), GotMessage(x, m, now), SentPart(Stream(p), hx));
    } else if IsStamped(m, SentPart(Stream(q), hy)) {
      SentStamp(Stream(q), hy, m);
      ReliableStays(x, Stream(p), hx, y, Stream(q), hy, GetLong(m, 2), now);
    } else {
      p', hx' := CheckSentStays(x, p, hx, y, q, hy, GetLong(m, 2), now);
    }
  }

  lemma GotOneMore(x: HostState, p: seq<Bytes>, hx: set<nat>, g: HostState, p1: seq<Bytes>, h1: set<nat>,
                   y: HostState, q: seq<Bytes>, hy: set<nat>, n: nat, m: Bytes, now: nat)
    returns (p': seq<Bytes>, hx': set<nat>)
    requires x.localStep == |Stream(p)| && Loose(g, p1, h1, y, q, hy) && Stays(x, p, hx, g, p1, h1, n)
    requires IdsLeft(x, n + 1) && Fine(y, SentPart(Stream(q), hy), m)
    ensures Loose(GotMessage(g, m, now), p', hx', y, q, hy)
    ensures Stays(x, p, hx, GotMessage(g, m, now), p', hx', n + 1)
  {
    IdsStillLeft(x, p, hx, g, p1, h1, n, 1);
    p', hx' := GotMessageStays(g, p1, h1, y, q, hy, m, now);
    StaysOn(x, p, hx, g, p1, h1, n, GotMessage(g, m, now), p', hx', 1);
  }

  lemma {:induction false} GotMessagesStays(x: HostState, p: seq<Bytes>, hx: set<nat>, y: HostState, q: seq<Bytes>,
      hy: set<nat>, ms: seq<Bytes>, now: nat) returns (p': seq<Bytes>, hx': set<nat>)
    requires Loose(x, p, hx, y, q, hy) && IdsLeft(x, |ms|) && AllFine(y, SentPart(Stream(q), hy), ms)
    ensures Loose(GotMessages(x, ms, now), p', hx', y, q, hy)
    ensures Stays(x, p, hx, GotMessages(x, ms, now), p', hx', |ms|)
    decreases |ms|
  {
    if ms == [] {
      p', hx' := p, hx;
      StaysHere(x, p, hx, 0);
    } else {
      var n := |ms| - 1;
      var p1, h1 := GotMessagesStays(x, p, hx, y, q, hy, ms[..n], now);
      assert GotMessages(x, ms, now) == GotMessage(GotMessages(x, ms[..n], now), ms[n], now);
      p', hx' := GotOneMore(x, p, hx, GotMessages(x, ms[..n], now), p1, h1, y, q, hy, n, ms[n], now);
    }
  }

  // ---------- Runs ----------

  /** What links two peers: p and q are what was promised, with the messages that were sent again. */
  ghost predicate Linked(x: Peer, p: seq<Bytes>, hx: set<nat>, y: Peer, q: seq<Bytes>, hy: set<nat>) {
    && Loose(x.h, p, hx, y.h, q, hy) && Streamable(q)
    && Applications(p) == x.promised && Applications(q) == y.promised
  }

  lemma PromiseKeeps(x: Peer, p: seq<Bytes>, hx: set<nat>, y: Peer, q: seq<Bytes>, hy: set<nat>, m: Bytes, now: nat)
    returns (p': seq<Bytes>, hx': set<nat>)
    requires Linked(x, p, hx, y, q, hy) && IsApplication(m) && |m| <= LARGE_LIMIT && x.h.localStep + |Payloads(m)| < U32
    ensures Linked(Peer(Post(x.h, m, true, now), x.promised + [m]), p', hx', y, q, hy)
    ensures hx <= hx' && Stream(p) <= Stream(p')
  {
    p' := p + [m];
    StreamAppend(p, m);
    ApplicationsAppend(p, m);
    StreamableAppend(p, m);
    if |m| > UNCHUNKED {
      hx' := PostMany(x.h, Stream(p), hx, y.h, Stream(q), hy, Fragments(m), now);
    } else {
      hx' := PostOne(x.h, Stream(p), hx, y.h, Stream(q), hy, m, now);
    }
  }

  lemma ClusterStays(x: HostState, s: seq<Bytes>, hx: set<nat>, y: HostState, t: seq<Bytes>, hy: set<nat>)
    requires Both(x, s, hx, y, t, hy)
    ensures Both(BeginCluster(x), s, hx, y, t, hy) && Both(EndCluster(x), s, hx, y, t, hy)
  {
    var a := SentPart(s, hx);
    EmittedStays(x, a, BeginCluster(x), a);
    EndClusterFine(x, a);
  }

  lemma AcknowledgeStays(x: HostState, s: seq<Bytes>, hx: set<nat>, y: HostState, t: seq<Bytes>, hy: set<nat>, id: nat)
    requires Both(x, s, hx, y, t, hy) && id < x.remoteStep
    ensures Both(Emit(x, Ack(id)), s, hx, y, t, hy)
  {
    AckIsAck(x, id);
    EmitKeeps(x, s, hx, y, t, hy, Ack(id));
  }

  lemma ReceiveStays(x: Peer, p: seq<Bytes>, hx: set<nat>, y: Peer, q: seq<Bytes>, hy: set<nat>, e: Event, now: nat)
    returns (p': seq<Bytes>, hx': set<nat>)
    requires Linked(x, p, hx, y, q, hy) && Allowed(x, y, e) && (e.ReceiveDatagram? || e.ReceiveMessage?)
    ensures Linked(Act(x, y, e, now), p', hx', y, q, hy) && Grows(Stream(p), hx, Stream(p'), hx')
  {
    var ms := Carried(x, y, e.i);
    assert FineDatagram(y.h, SentPart(Stream(q), hy), y.h.wire[e.i]);
    if e.ReceiveDatagram? {
      p', hx' := GotMessagesStays(x.h, p, hx, y.h, q, hy, ms, now);
    } else {
      p', hx' := GotMessageStays(x.h, p, hx, y.h, q, hy, ms[e.j], now);
    }
  }

  lemma EventKeeps(x: Peer, p: seq<Bytes>, hx: set<nat>, y: Peer, q: seq<Bytes>, hy: set<nat>, e: Event, now: nat)
    returns (p': seq<Bytes>, hx': set<nat>)
    requires Linked(x, p, hx, y, q, hy) && Allowed(x, y, e) && !e.PostMessage?
    ensures Linked(Act(x, y, e, now), p', hx', y, q, hy)
    ensures Grows(Stream(p), hx, Stream(p'), hx')
  {
    p', hx' := p, hx;
    match e
    case ReceiveDatagram(i) => p', hx' := ReceiveStays(x, p, hx, y, q, hy, e, now);
    case ReceiveMessage(i, j) => p', hx' := ReceiveStays(x, p, hx, y, q, hy, e, now);
    case AcknowledgeAgain(id) => AcknowledgeStays(x.h, Stream(p), hx, y.h, Stream(q), hy, id);
    case ResendExpired => p', hx' := ResendAllStays(x.h, p, hx, y.h, q, hy, 0, now);
    case StartCluster => ClusterStays(x.h, Stream(p), hx, y.h, Stream(q), hy);
    case FlushCluster => ClusterStays(x.h, Stream(p), hx, y.h, Stream(q), hy);
  }

  lemma ActStays(x: Peer, p: seq<Bytes>, hx: set<nat>, y: Peer, q: seq<Bytes>, hy: set<nat>, e: Event, now: nat)
    returns (p': seq<Bytes>, hx': set<nat>)
    requires Linked(x, p, hx, y, q, hy) && Allowed(x, y, e)
    ensures Linked(Act(x, y, e, now), p', hx', y, q, hy)
    ensures Grows(Stream(p), hx, Stream(p'), hx')
  {
    if !e.PostMessage? {
      p', hx' := EventKeeps(x, p, hx, y, q, hy, e, now);
    } else if e.reliable || |e.m| > UNCHUNKED {
      p', hx' := PromiseKeeps(x, p, hx, y, q, hy, e.m, now);
      assert Post(x.h, e.m, e.reliable, now) == Post(x.h, e.m, true, now);
    } else {
      p', hx' := p, hx;
      EmitKeeps(x.h, Stream(p), hx, y.h, Stream(q), hy, e.m);
    }
  }

  lemma {:induction false} RunStays(z: System, p: seq<Bytes>, hx: set<nat>, q: seq<Bytes>, hy: set<nat>, run: seq<Step>)
    returns (p': seq<Bytes>, hx': set<nat>, q': seq<Bytes>, hy': set<nat>)
    requires Linked(z.left, p, hx, z.right, q, hy) && IsRun(z, run)
    ensures Linked(After(z, run).left, p', hx', After(z, run).right, q', hy')
    ensures Grows(Stream(p), hx, Stream(p'), hx') && Grows(Stream(q), hy, Stream(q'), hy')
    decreases |run|
  {
    p', hx', q', hy' := p, hx, q, hy;
    if run != [] {
      var p1, h1, q1, k1 := p, hx, q, hy;
      if run[0].left {
        p1, h1 := ActStays(z.left, p, hx, z.right, q, hy, run[0].event, run[0].now);
      } else {
        q1, k1 := ActStays(z.right, q, hy, z.left, p, hx, run[0].event, run[0].now);
      }
      p', hx', q', hy' := RunStays(Take(z, run[0]), p1, h1, q1, k1, run[1..]);
      GrowsOn(Stream(p), hx, Stream(p1), h1, Stream(p'), hx');
      GrowsOn(Stream(q), hy, Stream(q1), k1, Stream(q'), hy');
    }
  }

  lemma StartIsLinked(c: Cipher, pingX: nat, pingY: nat)
    ensures Linked(Started(c, pingX), [], {}, Started(c, pingY), [], {})
  {
  }

  lemma ReachableIsLinked(z: System) returns (p: seq<Bytes>, hx: set<nat>, q: seq<Bytes>, hy: set<nat>)
    requires Reachable(z)
    ensures Linked(z.left, p, hx, z.right, q, hy)
  {
    var run :| Reaches(run, z);
    var c, pingX, pingY :|
      IsRun(System(Started(c, pingX), Started(c, pingY)), run)
      && After(System(Started(c, pingX), Started(c, pingY)), run) == z;
    StartIsLinked(c, pingX, pingY);
    p, hx, q, hy := RunStays(System(Started(c, pingX), Started(c, pingY)), [], {}, [], {}, run);
  }

  // ---------- What every run guarantees ----------

  /** End to end: in every reachable state each host has handed up a prefix of what its peer was given to deliver. */
  lemma PrefixDelivered(z: System)
    requires Reachable(z)
    ensures z.right.h.assembly.log <= z.left.promised
    ensures z.left.h.assembly.log <= z.right.promised
  {
    var p, hx, q, hy := ReachableIsLinked(z);
    ApplicationsDelivered(p, z.right.h.remoteStep);
    ApplicationsDelivered(q, z.left.h.remoteStep);
  }

  lemma QueuedIsUnsent(x: Peer, p: seq<Bytes>, hx: set<nat>, y: Peer, q: seq<Bytes>, hy: set<nat>, r: Reliable)
    requires Linked(x, p, hx, y, q, hy) && r in x.h.queued && |r.msg| > UNCHUNKED
    ensures r.id in hx && r.id < |Stream(p)| && |Stream(p)[r.id]| > SAFE
  {
  }

  lemma UnsentIsLacking(x: Peer, p: seq<Bytes>, hx: set<nat>, y: Peer, q: seq<Bytes>, hy: set<nat>, id: nat)
    requires Linked(x, p, hx, y, q, hy) && id in hx && id < |Stream(p)| && |Stream(p)[id]| > SAFE
    ensures y.h.remoteStep <= id && |y.h.assembly.log| < |x.promised|
  {
    assert !Got(y.h, id);
    WholeMessageLacks(p, id, y.h.remoteStep);
  }

  /** A message that waits in the queue and is too long to be sent again whole is never delivered: whatever
      happens afterwards, the peer does not get past its ACK_ID, and lacks a message it was promised. */
  lemma StallsForever(z: System, r: Reliable, run: seq<Step>)
    requires Reachable(z) && r in z.left.h.queued && |r.msg| > UNCHUNKED && IsRun(z, run)
    ensures var w := After(z, run);
            w.right.h.remoteStep <= r.id && |w.right.h.assembly.log| < |w.left.promised|
  {
    var p, hx, q, hy := ReachableIsLinked(z);
    QueuedIsUnsent(z.left, p, hx, z.right, q, hy, r);
    var p', hx', q', hy' := RunStays(z, p, hx, q, hy, run);
    UnsentIsLacking(After(z, run).left, p', hx', After(z, run).right, q', hy', r.id);
  }
}
