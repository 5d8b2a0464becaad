/** Runs that the hosts make by themselves: nothing is posted, datagrams are taken in whole, and a message is
    acknowledged when it is taken in. The rounds of Progress are such runs. */
module Unaided {
  import opened Bytes
  import opened Reassembly
  import opened Cluster
  import opened Encrypt
  import opened Transport
  import opened Session
  import opened Runs
  import opened AnyLength
  import opened Progress

  /** A step at this time that takes in none of the first a datagrams of the left host and the first b of the
      right one. */
  predicate Plain(step: Step, a: nat, b: nat, now: nat) {
    && step.now == now
    && match step.event
       case ReceiveDatagram(i) => i >= if step.left then b else a
       case ResendExpired => true
       case StartCluster => true
       case FlushCluster => true
       case _ => false
  }

  predicate AllPlain(run: seq<Step>, a: nat, b: nat, now: nat) {
    forall i :: 0 <= i < |run| ==> Plain(run[i], a, b, now)
  }

  /** At one time, such a run leads from z to w. */
  ghost predicate Leads(z: System, w: System, a: nat, b: nat, now: nat) {
    exists run :: IsRun(z, run) && AllPlain(run, a, b, now) && After(z, run) == w
  }

  lemma LeadsNowhere(z: System, a: nat, b: nat, now: nat)
    ensures Leads(z, z, a, b, now)
  {
    var none: seq<Step> := [];
    assert IsRun(z, none) && AllPlain(none, a, b, now) && After(z, none) == z;
  }

  lemma LeadsOn(z: System, w: System, v: System, a: nat, b: nat, now: nat)
    requires Leads(z, w, a, b, now) && Leads(w, v, a, b, now)
    ensures Leads(z, v, a, b, now)
  {
    var r :| IsRun(z, r) && AllPlain(r, a, b, now) && After(z, r) == w;
    var s :| IsRun(w, s) && AllPlain(s, a, b, now) && After(w, s) == v;
    RunConcat(z, r, s);
    assert AllPlain(r + s, a, b, now);
  }

  lemma LeadsOneStep(z: System, step: Step, a: nat, b: nat)
    requires Legal(z, step) && Plain(step, a, b, step.now)
    ensures Leads(z, Take(z, step), a, b, step.now)
  {
    var none, run: seq<Step> := [], [step];
    assert run[0] == step && run[1..] == none;
    assert IsRun(Take(z, step), none) && After(Take(z, step), none) == Take(z, step);
    assert IsRun(z, run) && AllPlain(run, a, b, step.now) && After(z, run) == Take(z, step);
  }

  lemma LeadsOneMore(z: System, w: System, step: Step, a: nat, b: nat)
    requires Leads(z, w, a, b, step.now) && Legal(w, step) && Plain(step, a, b, step.now)
    ensures Leads(z, Take(w, step), a, b, step.now)
  {
    LeadsOneStep(w, step, a, b);
    LeadsOn(z, w, Take(w, step), a, b, step.now);
  }

  lemma LeadsSwapped(z: System, w: System, a: nat, b: nat, now: nat)
    requires Leads(z, w, a, b, now)
    ensures Leads(Swap(z), Swap(w), b, a, now)
  {
    var run :| IsRun(z, run) && AllPlain(run, a, b, now) && After(z, run) == w;
    SwapRun(z, run);
    assert AllPlain(Flip(run), b, a, now);
  }

  // ---------- At one time after another ----------

  /** Through the times in order, a run leads from z to w. */
  ghost predicate Through(z: System, w: System, a: nat, b: nat, times: seq<nat>)
    decreases |times|
  {
    if times == [] then z == w
    else exists v :: Leads(z, v, a, b, times[0]) && Through(v, w, a, b, times[1..])
  }

  /** The clock does not run backwards. */
  predicate Forward(times: seq<nat>, from: nat)
    decreases |times|
  {
    times == [] || (from <= times[0] && Forward(times[1..], times[0]))
  }

  lemma ThroughOnce(z: System, w: System, a: nat, b: nat, now: nat)
    requires Leads(z, w, a, b, now)
    ensures Through(z, w, a, b, [now])
  {
    assert Through(w, w, a, b, [now][1..]);
  }

  lemma ThroughFirst(z: System, w: System, v: System, a: nat, b: nat, now: nat, us: seq<nat>)
    requires Leads(z, w, a, b, now) && Through(w, v, a, b, us)
    ensures Through(z, v, a, b, [now] + us)
  {
    assert ([now] + us)[1..] == us;
  }

  lemma {:induction false} ThroughOn(z: System, w: System, v: System, a: nat, b: nat, ts: seq<nat>, us: seq<nat>)
    requires Through(z, w, a, b, ts) && Through(w, v, a, b, us)
    ensures Through(z, v, a, b, ts + us)
    decreases |ts|
  {
    if ts == [] {
      assert ts + us == us;
    } else {
      var u :| Leads(z, u, a, b, ts[0]) && Through(u, w, a, b, ts[1..]);
      assert (ts + us)[0] == ts[0] && (ts + us)[1..] == ts[1..] + us;
      ThroughOn(u, w, v, a, b, ts[1..], us);
    }
  }

  lemma {:induction false} ThroughSwapped(z: System, w: System, a: nat, b: nat, times: seq<nat>)
    requires Through(z, w, a, b, times)
    ensures Through(Swap(z), Swap(w), b, a, times)
    decreases |times|
  {
    if times != [] {
      var v :| Leads(z, v, a, b, times[0]) && Through(v, w, a, b, times[1..]);
      LeadsSwapped(z, v, a, b, times[0]);
      ThroughSwapped(v, w, a, b, times[1..]);
    }
  }

  /** Nothing is posted. */
  predicate NoPosts(run: seq<Step>) {
    forall i :: 0 <= i < |run| ==> !run[i].event.PostMessage?
  }

  lemma {:induction false} ThroughIsRun(z: System, w: System, a: nat, b: nat, times: seq<nat>) returns (run: seq<Step>)
    requires Through(z, w, a, b, times)
    ensures IsRun(z, run) && NoPosts(run) && After(z, run) == w
    decreases |times|
  {
    if times == [] {
      run := [];
    } else {
      var v :| Leads(z, v, a, b, times[0]) && Through(v, w, a, b, times[1..]);
      var r :| IsRun(z, r) && AllPlain(r, a, b, times[0]) && After(z, r) == v;
      var s := ThroughIsRun(v, w, a, b, times[1..]);
      RunConcat(z, r, s);
      run := r + s;
      assert NoPosts(r);
    }
  }

  lemma ReachesOn(run: seq<Step>, z: System, more: seq<Step>)
    requires Reaches(run, z) && IsRun(z, more)
    ensures Reaches(run + more, After(z, more))
  {
    var c, pingX, pingY :|
      IsRun(System(Started(c, pingX), Started(c, pingY)), run)
      && After(System(Started(c, pingX), Started(c, pingY)), run) == z;
    RunConcat(System(Started(c, pingX), Started(c, pingY)), run, more);
  }

  lemma StillRegular(run: seq<Step>, more: seq<Step>)
    requires AllRegular(run) && NoPosts(more)
    ensures AllRegular(run + more)
  {
  }

  lemma ThroughReaches(z: System, w: System, a: nat, b: nat, times: seq<nat>)
    requires Through(z, w, a, b, times) && Reachable(z)
    ensures Reachable(w) && (RegularlyReachable(z) ==> RegularlyReachable(w))
  {
    var more := ThroughIsRun(z, w, a, b, times);
    var run :| Reaches(run, z);
    ReachesOn(run, z, more);
    if RegularlyReachable(z) {
      var regular :| Reaches(regular, z) && AllRegular(regular);
      ReachesOn(regular, z, more);
      StillRegular(regular, more);
    }
  }

  lemma LeadsReaches(z: System, w: System, a: nat, b: nat, now: nat)
    requires Leads(z, w, a, b, now) && Reachable(z)
    ensures Reachable(w) && (RegularlyReachable(z) ==> RegularlyReachable(w))
  {
    ThroughOnce(z, w, a, b, now);
    ThroughReaches(z, w, a, b, [now]);
  }

  lemma {:induction false} RunPromises(z: System, run: seq<Step>)
    requires IsRun(z, run) && NoPosts(run)
    ensures After(z, run).left.promised == z.left.promised && After(z, run).right.promised == z.right.promised
    decreases |run|
  {
    if run != [] {
      assert !run[0].event.PostMessage?;
      RunPromises(Take(z, run[0]), run[1..]);
    }
  }

  lemma ThroughPromises(z: System, w: System, a: nat, b: nat, times: seq<nat>)
    requires Through(z, w, a, b, times)
    ensures w.left.promised == z.left.promised && w.right.promised == z.right.promised
  {
    var run := ThroughIsRun(z, w, a, b, times);
    RunPromises(z, run);
  }

  // ---------- Datagrams are not taken back ----------

  /** The wire of g has that of x at its start. */
  ghost predicate Extends(x: HostState, g: HostState) {
    g.cipher == x.cipher && x.wire <= g.wire
  }

  lemma {:induction false} PostAllExtends(x: HostState, ms: seq<Bytes>, now: nat)
    ensures Extends(x, PostAll(x, ms, now))
    decreases |ms|
  {
    if ms != [] {
      PostAllExtends(x, ms[..|ms| - 1], now);
    }
  }

  lemma PostExtends(x: HostState, m: Bytes, reliable: bool, now: nat)
    ensures Extends(x, Post(x, m, reliable, now))
  {
    if |m| > UNCHUNKED {
      PostAllExtends(x, Fragments(m), now);
    }
  }

  lemma CheckSentExtends(x: HostState, id: nat, now: nat)
    ensures Extends(x, CheckSent(x, id, now))
  {
    var i := Find(x.sent, id);
    if i < |x.sent| {
      var h := x.(sent := Remove(x.sent, i));
      var j := Find(h.queued, h.localSent);
      if j < |h.queued| {
        PostGrows(h, h.queued[j].msg, false, now);
        PostExtends(h, h.queued[j].msg, false, now);
      }
    }
  }

  lemma ResendExtends(x: HostState, i: nat, now: nat)
    requires i < |x.sent|
    ensures Extends(x, Resend(x, i, now))
  {
    PostGrows(x, x.sent[i].msg, false, now);
    PostExtends(x, x.sent[i].msg, false, now);
  }

  lemma {:induction false} ResendAllExtends(x: HostState, i: nat, now: nat)
    requires i <= |x.sent|
    ensures Extends(x, SendQueuedFrom(x, i, now))
    decreases Slots(x) - i
  {
    if i < |x.sent| {
      ResendExtends(x, i, now);
      ResendAllExtends(Resend(x, i, now), i + 1, now);
    }
  }

  lemma GotMessageExtends(x: HostState, m: Bytes, now: nat)
    ensures Extends(x, GotMessage(x, m, now))
  {
    if IsApplication(m) {
    } else if |m| >= 7 && m[1] == 0x03 {
      CheckReceivedInbox(Emit(x, Ack(GetLong(m, 2))), GetLong(m, 2), m[6..], now);
    } else if |m| == 6 && m[1] == 0x04 {
      CheckSentExtends(x, GetLong(m, 2), now);
    }
  }

  lemma {:induction false} GotMessagesExtends(x: HostState, ms: seq<Bytes>, now: nat)
    ensures Extends(x, GotMessages(x, ms, now))
    decreases |ms|
  {
    if ms != [] {
      GotMessagesExtends(x, ms[..|ms| - 1], now);
      GotMessageExtends(GotMessages(x, ms[..|ms| - 1], now), ms[|ms| - 1], now);
    }
  }

  lemma {:induction false} ReceivingExtends(x: HostState, ws: seq<Bytes>, now: nat)
    ensures Extends(x, Receiving(x, ws, now))
    decreases |ws|
  {
    if ws != [] {
      var h, w := Receiving(x, ws[..|ws| - 1], now), ws[|ws| - 1];
      ReceivingExtends(x, ws[..|ws| - 1], now);
      GotMessagesExtends(h, Unpack(Decrypted(h.cipher, w)), now);
    }
  }

  lemma EndClusterExtends(x: HostState)
    ensures Extends(x, EndCluster(x))
  {
    SendAllContents(x.(clustering := false), Pack(x.clustered));
  }

  lemma ResentExtends(x: HostState, now: nat)
    ensures Extends(x, Resent(x, now))
  {
    ResendAllExtends(BeginCluster(x), 0, now);
    EndClusterExtends(SendQueued(BeginCluster(x), now));
  }

  lemma AnsweredExtends(x: HostState, ws: seq<Bytes>, now: nat)
    ensures Extends(x, Answered(x, ws, now))
  {
    ReceivingExtends(BeginCluster(x), ws, now);
    EndClusterExtends(Receiving(BeginCluster(x), ws, now));
  }

  lemma RoundExtends(x: HostState, y: HostState, now: nat)
    ensures Extends(x, Round(x, y, now).0) && Extends(y, Round(x, y, now).1)
  {
    var x1 := Resent(x, now);
    var y1 := Answered(y, Since(x1, |x.wire|), now);
    ResentExtends(x, now);
    AnsweredExtends(y, Since(x1, |x.wire|), now);
    AnsweredExtends(x1, Since(y1, |y.wire|), now);
  }

  // ---------- Rounds are such runs ----------

  lemma GoodIsCalm(x: Peer, y: Peer)
    requires Good(x, y)
    ensures Calm(x.h) && Calm(y.h)
  {
    OutboxIsCalm(x.h, Stream(x.promised));
    OutboxIsCalm(y.h, Stream(y.promised));
  }

  lemma OutboxIsCalm(x: HostState, s: seq<Bytes>)
    requires Outbox(x, s)
    ensures Calm(x)
  {
    forall i | 0 <= i < |x.sent|
      ensures |x.sent[i].msg| <= UNCHUNKED
    {
      assert Carries(x.sent[i], s);
    }
    forall i | 0 <= i < |x.queued|
      ensures |x.queued[i].msg| <= UNCHUNKED
    {
      assert Carries(x.queued[i], s);
    }
  }

  lemma GoodMore(z: System, w: System, step: Step, a: nat, b: nat)
    requires Leads(z, w, a, b, step.now) && Good(w.left, w.right) && Legal(w, step) && Plain(step, a, b, step.now)
    ensures Leads(z, Take(w, step), a, b, step.now) && Good(Take(w, step).left, Take(w, step).right)
  {
    if step.left {
      ActKeeps(w.left, w.right, step.event, step.now);
    } else {
      ActKeeps(w.right, w.left, step.event, step.now);
    }
    LeadsOneMore(z, w, step, a, b);
  }

  /** z leads to the left host being g, and the hosts are good then. */
  ghost predicate LeftBecomes(z: System, g: HostState, a: nat, b: nat, now: nat) {
    Leads(z, z.(left := z.left.(h := g)), a, b, now) && Good(z.left.(h := g), z.right)
  }

  lemma OneReceipt(z: System, g: HostState, i: nat, w: Bytes, a: nat, b: nat, now: nat)
    requires LeftBecomes(z, g, a, b, now) && b <= i < |z.right.h.wire| && w == z.right.h.wire[i]
    ensures LeftBecomes(z, GotPacket(g, w, now), a, b, now)
  {
    GoodIsCalm(z.left.(h := g), z.right);
    GoodMore(z, z.(left := z.left.(h := g)), Step(true, ReceiveDatagram(i), now), a, b);
  }

  lemma Apart<T>(s: seq<T>, before: seq<T>, us: seq<T>, after: seq<T>) returns (rest: seq<T>, u: T)
    requires s == before + us + after && us != []
    ensures u == us[|us| - 1] && s == before + us[..|us| - 1] + rest
    ensures |before| + |us| <= |s| && s[|before| + |us| - 1] == u
  {
    u := us[|us| - 1];
    rest := [u] + after;
    assert us == us[..|us| - 1] + [u];
  }

  lemma CutAt<T>(s: seq<T>, n: nat)
    requires n <= |s|
    ensures s == s[..n] + s[n..] + []
  {
  }

  /** The left host receives the datagrams ws from the wire of its peer. */
  lemma {:induction false} ReceivingIsRun(z: System, before: seq<Bytes>, ws: seq<Bytes>, after: seq<Bytes>, a: nat,
                                          b: nat, now: nat)
    requires Good(z.left, z.right) && z.right.h.wire == before + ws + after && b <= |before|
    ensures LeftBecomes(z, Receiving(z.left.h, ws, now), a, b, now)
    decreases |ws|
  {
    if ws == [] {
      LeadsNowhere(z, a, b, now);
    } else {
      var us := ws[..|ws| - 1];
      var rest, w := Apart(z.right.h.wire, before, ws, after);
      ReceivingIsRun(z, before, us, rest, a, b, now);
      OneReceipt(z, Receiving(z.left.h, us, now), |before| + |ws| - 1, w, a, b, now);
    }
  }

  lemma ResentIsRun(z: System, a: nat, b: nat, now: nat)
    requires Good(z.left, z.right)
    ensures LeftBecomes(z, Resent(z.left.h, now), a, b, now)
  {
    LeadsNowhere(z, a, b, now);
    GoodMore(z, z, Step(true, StartCluster, now), a, b);
    var w := Take(z, Step(true, StartCluster, now));
    GoodIsCalm(w.left, w.right);
    GoodMore(z, w, Step(true, ResendExpired, now), a, b);
    GoodMore(z, Take(w, Step(true, ResendExpired, now)), Step(true, FlushCluster, now), a, b);
  }

  lemma AnsweredIsRun(z: System, n: nat, a: nat, b: nat, now: nat)
    requires Good(z.left, z.right) && b <= n <= |z.right.h.wire|
    ensures LeftBecomes(z, Answered(z.left.h, Since(z.right.h, n), now), a, b, now)
  {
    LeadsNowhere(z, a, b, now);
    GoodMore(z, z, Step(true, StartCluster, now), a, b);
    var w := Take(z, Step(true, StartCluster, now));
    CutAt(z.right.h.wire, n);
    ReceivingIsRun(w, z.right.h.wire[..n], Since(z.right.h, n), [], a, b, now);
    FlushAfter(z, w, Receiving(w.left.h, Since(z.right.h, n), now), a, b, now);
  }

  lemma FlushAfter(z: System, w: System, g: HostState, a: nat, b: nat, now: nat)
    requires Leads(z, w, a, b, now) && LeftBecomes(w, g, a, b, now)
    ensures Leads(z, w.(left := w.left.(h := EndCluster(g))), a, b, now)
    ensures Good(w.left.(h := EndCluster(g)), w.right)
  {
    var v := w.(left := w.left.(h := g));
    LeadsOn(z, w, v, a, b, now);
    GoodMore(z, v, Step(true, FlushCluster, now), a, b);
  }

  lemma GoodIsSymmetric(x: Peer, y: Peer)
    requires Good(x, y)
    ensures Good(y, x)
  {
    PairIsSymmetric(x.h, Stream(x.promised), y.h, Stream(y.promised));
  }

  lemma AnsweredBySwapped(z: System, n: nat, a: nat, b: nat, now: nat)
    requires Good(z.left, z.right) && a <= n <= |z.left.h.wire|
    ensures var w := z.(right := z.right.(h := Answered(z.right.h, Since(z.left.h, n), now)));
            Leads(z, w, a, b, now) && Good(w.left, w.right)
  {
    var w := z.(right := z.right.(h := Answered(z.right.h, Since(z.left.h, n), now)));
    GoodIsSymmetric(z.left, z.right);
    AnsweredIsRun(Swap(z), n, b, a, now);
    LeadsSwapped(Swap(z), Swap(w), b, a, now);
    GoodIsSymmetric(w.right, w.left);
  }

  /** A round, begun by the left host, is a run that takes in only what is sent in it. */
  lemma RoundIsRun(z: System, a: nat, b: nat, now: nat)
    requires Good(z.left, z.right) && a <= |z.left.h.wire| && b <= |z.right.h.wire|
    ensures var (x, y) := Round(z.left.h, z.right.h, now);
            var w := System(z.left.(h := x), z.right.(h := y));
            Leads(z, w, a, b, now) && Good(w.left, w.right)
  {
    var n, m := |z.left.h.wire|, |z.right.h.wire|;
    var x1 := Resent(z.left.h, now);
    var z1 := z.(left := z.left.(h := x1));
    ResentIsRun(z, a, b, now);
    ResentExtends(z.left.h, now);
    AnsweredBySwapped(z1, n, a, b, now);
    var y1 := Answered(z1.right.h, Since(x1, n), now);
    var z2 := z1.(right := z1.right.(h := y1));
    LeadsOn(z, z1, z2, a, b, now);
    AnsweredExtends(z.right.h, Since(x1, n), now);
    AnsweredIsRun(z2, m, a, b, now);
    LeadsOn(z, z2, z2.(left := z2.left.(h := Answered(x1, Since(y1, m), now))), a, b, now);
  }

  /** Rounds that the left host begins are a run through their times. */
  lemma {:induction false} RoundsAreRun(z: System, a: nat, b: nat, times: seq<nat>)
    requires Good(z.left, z.right) && a <= |z.left.h.wire| && b <= |z.right.h.wire|
    ensures var (x, y) := Rounds(z.left.h, z.right.h, times);
            Through(z, System(z.left.(h := x), z.right.(h := y)), a, b, times)
    decreases |times|
  {
    if times != [] {
      var (x, y) := Round(z.left.h, z.right.h, times[0]);
      RoundIsRun(z, a, b, times[0]);
      RoundExtends(z.left.h, z.right.h, times[0]);
      RoundsAreRun(System(z.left.(h := x), z.right.(h := y)), a, b, times[1..]);
    }
  }

  /** Where a host's rounds lead: the system with both hosts as the rounds leave them. */
  function AfterRounds(z: System, left: bool, times: seq<nat>): System {
    if left then
      var (x, y) := Rounds(z.left.h, z.right.h, times); System(z.left.(h := x), z.right.(h := y))
    else
      var (y, x) := Rounds(z.right.h, z.left.h, times); System(z.left.(h := x), z.right.(h := y))
  }

  /** The rounds of either host, at whatever times, are a run that the hosts make by themselves, taking in only
      datagrams sent in the rounds, and end in a reachable state. */
  lemma RoundsReach(z: System, left: bool, times: seq<nat>)
    requires RegularlyReachable(z)
    ensures var w := AfterRounds(z, left, times);
            Through(z, w, |z.left.h.wire|, |z.right.h.wire|, times) && RegularlyReachable(w)
  {
    var a, b, w := |z.left.h.wire|, |z.right.h.wire|, AfterRounds(z, left, times);
    ReachableIsGood(z);
    if left {
      RoundsAreRun(z, a, b, times);
    } else {
      RoundsAreRun(Swap(z), b, a, times);
      ThroughSwapped(Swap(z), Swap(w), b, a, times);
    }
    ThroughReaches(z, w, a, b, times);
  }
}
