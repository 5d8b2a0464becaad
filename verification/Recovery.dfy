/** Recovery from loss: when every datagram sent so far is lost, sending again delivers everything promised, exactly
    when the retransmission timers can expire at all. */
module Recovery {
  import opened Bytes
  import opened Reassembly
  import opened Cluster
  import opened Encrypt
  import opened Transport
  import opened Session
  import opened Runs
  import opened Progress
  import opened Lost
  import opened Airing
  import opened Windows
  import opened Unaided
  import opened Completion

  // ---------- Sending again ----------

  /** Messages in flight are sent again; nothing else changes. */
  ghost predicate Renews(x: HostState, g: HostState) {
    && Clean(g) && Later(x, g) && g.queued == x.queued && g.localStep == x.localStep && |g.sent| == |x.sent|
    && forall j :: 0 <= j < |x.sent| ==> g.sent[j].id == x.sent[j].id && g.sent[j].msg == x.sent[j].msg
  }

  /** Each message in flight can be sent as it is. */
  ghost predicate Resendable(x: HostState) {
    forall j :: 0 <= j < |x.sent| ==> |x.sent[j].msg| <= UNCHUNKED && Packable(x.sent[j].msg)
  }

  lemma RenewsOn(x: HostState, g: HostState, f: HostState)
    requires Renews(x, g) && Renews(g, f)
    ensures Renews(x, f)
  {
  }

  lemma RestampIsClean(x: HostState, i: nat, now: nat)
    requires Clean(x) && i < |x.sent|
    ensures Renews(x, x.(sent := x.sent[i := x.sent[i].(lastSend := now)]))
  {
    var g := x.(sent := x.sent[i := x.sent[i].(lastSend := now)]);
    RestampOrderly(x, i, now);
    SameChannelAirs(x, g);
  }

  lemma ResendRenews(x: HostState, i: nat, now: nat)
    requires Clean(x) && Resendable(x) && i < |x.sent|
    ensures Renews(x, Resend(x, i, now))
    ensures Expired(x, x.sent[i], now) ==>
              Resend(x, i, now).wire == x.wire + [Encrypted(x.cipher, x.sent[i].msg)]
  {
    if Expired(x, x.sent[i], now) {
      var m := x.sent[i].msg;
      assert Post(x, m, false, now) == Emit(x, m);
      EmitSettles(x, m);
      RestampIsClean(Emit(x, m), i, now);
    }
  }

  lemma {:induction false} ResendAllRenews(x: HostState, i: nat, now: nat)
    requires Clean(x) && Resendable(x) && i <= |x.sent|
    ensures Renews(x, SendQueuedFrom(x, i, now))
    decreases |x.sent| - i
  {
    if i < |x.sent| {
      var g := Resend(x, i, now);
      ResendRenews(x, i, now);
      ResendAllRenews(g, i + 1, now);
      RenewsOn(x, g, SendQueuedFrom(g, i + 1, now));
    }
  }

  /** When its timer has expired, the first message in flight is in the next datagram. */
  lemma FirstIsResent(x: HostState, now: nat)
    requires Clean(x) && Resendable(x) && x.sent != [] && Expired(x, x.sent[0], now)
    ensures var g := SendQueued(x, now);
            Renews(x, g) && |g.wire| > |x.wire| && g.wire[|x.wire|] == Encrypted(x.cipher, x.sent[0].msg)
  {
    var g := Resend(x, 0, now);
    ResendRenews(x, 0, now);
    ResendAllRenews(g, 1, now);
    RenewsOn(x, g, SendQueuedFrom(g, 1, now));
  }

  // ---------- Timers ----------

  /** How long a timer waits, on the 32-bit clock. */
  function Wait(syncPing: nat): nat {
    (syncPing + 10) % U32 + 1
  }

  /** Some elapsed time is longer. */
  predicate TimersExpire(syncPing: nat) {
    Wait(syncPing) < U32
  }

  lemma TimeToResend(x: HostState, r: Reliable, from: nat) returns (now: nat)
    requires TimersExpire(x.syncPing)
    ensures from <= now <= from + Wait(x.syncPing) && Expired(x, r, now)
  {
    var passed := (from - r.lastSend) % U32;
    now := if passed >= Wait(x.syncPing) then from else from + (Wait(x.syncPing) - passed);
    assert from - r.lastSend == (from - r.lastSend) / U32 * U32 + passed;
  }

  /** Times in order from a given one on, each at most so long after the one before. */
  predicate Onward(times: seq<nat>, from: nat, wait: nat)
    decreases |times|
  {
    times == [] || (from <= times[0] <= from + wait && Onward(times[1..], times[0], wait))
  }

  function Until(times: seq<nat>, from: nat): nat {
    if times == [] then from else times[|times| - 1]
  }

  lemma {:induction false} OnwardOn(ts: seq<nat>, us: seq<nat>, from: nat, wait: nat)
    requires Onward(ts, from, wait) && Onward(us, Until(ts, from), wait)
    ensures Onward(ts + us, from, wait)
    decreases |ts|
  {
    if ts == [] {
      assert ts + us == us;
    } else {
      assert (ts + us)[1..] == ts[1..] + us;
      OnwardOn(ts[1..], us, ts[0], wait);
    }
  }

  // ---------- One message is sent again, delivered and acknowledged ----------

  lemma RegularIsResendable(z: System)
    requires RegularlyReachable(z)
    ensures Resendable(z.left.h) && Calm(z.left.h) && Calm(z.right.h)
  {
    var s := Stream(z.left.promised);
    ReachableIsGood(z);
    GoodIsCalm(z.left, z.right);
    forall j | 0 <= j < |z.left.h.sent|
      ensures Packable(z.left.h.sent[j].msg)
    {
      assert Carries(z.left.h.sent[j], s);
      StampIsStamped(s, z.left.h.sent[j].id);
    }
  }

  lemma CarriedAlone(z: System, k: nat, m: Bytes)
    requires Reachable(z) && k < |z.left.h.wire| && Packable(m) && z.left.h.wire[k] == Encrypted(z.left.h.cipher, m)
    ensures m in Carried(z.right, z.left, k)
  {
    SameCipher(z);
    MutualInverses(z.left.h.cipher, m);
  }

  /** The state of both hosts, of which none of the first a and b datagrams will be taken in. */
  ghost predicate Recovering(z: System, a: nat, b: nat) {
    Ready(z) && RegularlyReachable(z) && a <= |z.left.h.wire| && b <= |z.right.h.wire|
  }

  /** The left host sends its first message in flight again when its timer has expired. */
  lemma SendAgain(z: System, a: nat, b: nat, now: nat) returns (w: System)
    requires Recovering(z, a, b) && z.left.h.sent != [] && Expired(z.left.h, z.left.h.sent[0], now)
    ensures Leads(z, w, a, b, now) && Recovering(w, a, b) && w.right == z.right && Later(z.left.h, w.left.h)
    ensures Outstanding(w.left.h) == Outstanding(z.left.h) && w.left.h.sent != []
    ensures |w.left.h.wire| > |z.left.h.wire| && w.left.h.sent[0].msg in Carried(w.right, w.left, |z.left.h.wire|)
  {
    var step := Step(true, ResendExpired, now);
    RegularIsResendable(z);
    FirstIsResent(z.left.h, now);
    w := Take(z, step);
    LeadsOneStep(z, step, a, b);
    LeadsReaches(z, w, a, b, now);
    RegularIsResendable(w);
    CarriedAlone(w, |z.left.h.wire|, w.left.h.sent[0].msg);
  }

  lemma RecoverOne(z: System, a: nat, b: nat, from: nat) returns (w: System, now: nat)
    requires Recovering(z, a, b) && z.left.h.sent != [] && TimersExpire(z.left.h.syncPing)
    ensures from <= now <= from + Wait(z.left.h.syncPing) && Leads(z, w, a, b, now) && Recovering(w, a, b)
    ensures Outstanding(w.left.h) == Outstanding(z.left.h) - 1 && Outstanding(w.right.h) <= Outstanding(z.right.h)
    ensures Later(z.left.h, w.left.h) && Later(z.right.h, w.right.h)
  {
    now := TimeToResend(z.left.h, z.left.h.sent[0], from);
    var u := SendAgain(z, a, b, now);
    w := DeliverOne(u, |z.left.h.wire|, a, b, now);
    LeadsReaches(u, w, a, b, now);
    LeadsOn(z, u, w, a, b, now);
  }

  /** One message after the other. */
  lemma {:induction false} RecoverLeft(z: System, a: nat, b: nat, from: nat, wait: nat)
    returns (w: System, times: seq<nat>)
    requires Recovering(z, a, b) && TimersExpire(z.left.h.syncPing) && Wait(z.left.h.syncPing) <= wait
    ensures Onward(times, from, wait) && |times| == Outstanding(z.left.h) && Through(z, w, a, b, times)
    ensures Recovering(w, a, b) && Outstanding(w.left.h) == 0
    ensures Outstanding(w.right.h) <= Outstanding(z.right.h) && w.right.h.syncPing == z.right.h.syncPing
    decreases Outstanding(z.left.h)
  {
    if z.left.h.sent == [] {
      NothingInFlight(z.left.h);
      w, times := z, [];
    } else {
      var u, now := RecoverOne(z, a, b, from);
      var later;
      w, later := RecoverLeft(u, a, b, now, wait);
      times := [now] + later;
      ThroughFirst(z, u, w, a, b, now, later);
      assert times[1..] == later;
    }
  }

  lemma NothingInFlight(x: HostState)
    requires Clean(x) && x.sent == []
    ensures Outstanding(x) == 0
  {
  }

  lemma RecoveringSwapped(z: System, a: nat, b: nat)
    requires Recovering(z, a, b)
    ensures Recovering(Swap(z), b, a)
  {
    SwapReachable(z);
  }

  // ---------- From any state ----------

  function Longer(m: nat, n: nat): nat {
    if m < n then n else m
  }

  /** From a given time on, the hosts can deliver all that was promised, both ways, by themselves, and without any
      datagram that has been sent so far: in as many steps of time as messages are outstanding and one, none longer
      than the timers wait. */
  ghost predicate Recoverable(z: System, from: nat) {
    exists w, times ::
      && Onward(times, from, Longer(Wait(z.left.h.syncPing), Wait(z.right.h.syncPing)))
      && |times| <= 1 + Outstanding(z.left.h) + Outstanding(z.right.h)
      && Through(z, w, |z.left.h.wire|, |z.right.h.wire|, times) && Complete(w)
      && w.left.promised == z.left.promised && w.right.promised == z.right.promised
  }

  lemma RecoverBoth(z: System, a: nat, b: nat, from: nat, wait: nat) returns (w: System, times: seq<nat>)
    requires Recovering(z, a, b) && TimersExpire(z.left.h.syncPing) && TimersExpire(z.right.h.syncPing)
    requires Wait(z.left.h.syncPing) <= wait && Wait(z.right.h.syncPing) <= wait
    ensures Onward(times, from, wait) && |times| <= Outstanding(z.left.h) + Outstanding(z.right.h)
    ensures Through(z, w, a, b, times) && Reachable(w)
    ensures Outstanding(w.left.h) == 0 && Outstanding(w.right.h) == 0
  {
    var u, ts := RecoverLeft(z, a, b, from, wait);
    RecoveringSwapped(u, a, b);
    var v, us := RecoverLeft(Swap(u), b, a, Until(ts, from), wait);
    ThroughSwapped(Swap(u), v, b, a, us);
    RecoveringSwapped(v, b, a);
    w, times := Swap(v), ts + us;
    ThroughOn(z, u, w, a, b, ts, us);
    OnwardOn(ts, us, from, wait);
  }

  /** Both clusters are flushed first. */
  lemma RecoverAll(z: System, from: nat, wait: nat) returns (w: System, times: seq<nat>)
    requires RegularlyReachable(z) && TimersExpire(z.left.h.syncPing) && TimersExpire(z.right.h.syncPing)
    requires Wait(z.left.h.syncPing) <= wait && Wait(z.right.h.syncPing) <= wait
    ensures Onward(times, from, wait) && |times| <= 1 + Outstanding(z.left.h) + Outstanding(z.right.h)
    ensures Through(z, w, |z.left.h.wire|, |z.right.h.wire|, times) && Reachable(w)
    ensures Outstanding(w.left.h) == 0 && Outstanding(w.right.h) == 0
  {
    var a, b := |z.left.h.wire|, |z.right.h.wire|;
    RegularIsUnblocked(z);
    var u := FlushBoth(z, a, b, from);
    LeadsReaches(z, u, a, b, from);
    var later;
    w, later := RecoverBoth(u, a, b, from, wait);
    times := [from] + later;
    ThroughFirst(z, u, w, a, b, from, later);
    assert times[1..] == later;
  }

  /** Without reliable messages of 503 to 508 bytes, and with timers that can expire, every reachable state recovers
      from the loss of everything sent so far. */
  lemma RegularIsRecoverable(z: System, from: nat)
    requires RegularlyReachable(z) && TimersExpire(z.left.h.syncPing) && TimersExpire(z.right.h.syncPing)
    ensures Recoverable(z, from)
  {
    var w, times := RecoverAll(z, from, Longer(Wait(z.left.h.syncPing), Wait(z.right.h.syncPing)));
    ThroughPromises(z, w, |z.left.h.wire|, |z.right.h.wire|, times);
    ClearIsComplete(w);
  }

  // ---------- Timers that never expire ----------

  /** Nothing but whether a cluster is open has changed. */
  ghost predicate Idle(z: System, u: System) {
    && u.left == z.left.(h := z.left.h.(clustering := u.left.h.clustering))
    && u.right == z.right.(h := z.right.h.(clustering := u.right.h.clustering))
  }

  /** One message is in flight in one datagram, and no timer expires. */
  ghost predicate Silenced(z: System) {
    && |z.left.h.wire| == 1 && z.right.h.wire == [] && z.left.h.clustered == [] && z.right.h.clustered == []
    && |z.left.h.sent| == 1 && z.right.h.sent == [] && !TimersExpire(z.left.h.syncPing)
  }

  lemma NothingExpires(x: HostState, now: nat)
    requires |x.sent| == 1 && !TimersExpire(x.syncPing)
    ensures SendQueued(x, now) == x
  {
    assert !Expired(x, x.sent[0], now);
    assert SendQueuedFrom(x, 1, now) == x;
  }

  lemma NothingFlushed(x: HostState)
    requires x.clustered == []
    ensures EndCluster(x) == x.(clustering := false)
  {
  }

  lemma StaysIdle(z: System, u: System, step: Step)
    requires Silenced(z) && Idle(z, u) && Legal(u, step) && Plain(step, 1, 0, step.now)
    ensures Idle(z, Take(u, step))
  {
    if step.event.ResendExpired? {
      if step.left {
        NothingExpires(u.left.h, step.now);
      } else {
        assert SendQueued(u.right.h, step.now) == u.right.h;
      }
    } else if step.event.FlushCluster? {
      NothingFlushed(if step.left then u.left.h else u.right.h);
    }
  }

  lemma {:induction false} RunIsIdle(z: System, u: System, run: seq<Step>, now: nat)
    requires Silenced(z) && Idle(z, u) && IsRun(u, run) && AllPlain(run, 1, 0, now)
    ensures Idle(z, After(u, run))
    decreases |run|
  {
    if run != [] {
      assert Plain(run[0], 1, 0, now);
      StaysIdle(z, u, run[0]);
      RunIsIdle(z, Take(u, run[0]), run[1..], now);
    }
  }

  lemma {:induction false} ThroughIsIdle(z: System, u: System, w: System, times: seq<nat>)
    requires Silenced(z) && Idle(z, u) && Through(u, w, 1, 0, times)
    ensures Idle(z, w)
    decreases |times|
  {
    if times != [] {
      var v :| Leads(u, v, 1, 0, times[0]) && Through(v, w, 1, 0, times[1..]);
      var run :| IsRun(u, run) && AllPlain(run, 1, 0, times[0]) && After(u, run) == v;
      RunIsIdle(z, u, run, times[0]);
      ThroughIsIdle(z, v, w, times[1..]);
    }
  }

  /** A session whose timers never expire has posted one message; if that datagram is lost, so is the message. */
  lemma SilencedOccurs(ping: nat) returns (z: System)
    requires !TimersExpire(ping)
    ensures RegularlyReachable(z) && z.left.h.syncPing == ping && z.right.h.syncPing == ping && !Recoverable(z, 0)
  {
    var c, m: Bytes := Cipher(ZERO, []), [1];
    var run;
    run, z := FirstReaches(c, ping, m);
    FirstPost(c, ping, m, z);
    assert AllRegular(run);
    forall w, times | Through(z, w, 1, 0, times)
      ensures !Complete(w)
    {
      ThroughIsIdle(z, z, w, times);
    }
  }

  /** Every state reachable without reliable messages of 503 to 508 bytes recovers. */
  ghost predicate AlwaysRecoverable(ping: nat) {
    forall z, from ::
      RegularlyReachable(z) && z.left.h.syncPing == ping && z.right.h.syncPing == ping ==> Recoverable(z, from)
  }

  /** By sending again, the hosts recover from the loss of everything sent so far, in every such state and from any
      time on, exactly when the timers can expire: when the ping plus 10 is not 2^32 - 1 on the 32-bit clock. */
  lemma RecoverableIffTimersExpire(ping: nat)
    ensures AlwaysRecoverable(ping) <==> (ping + 10) % U32 != U32 - 1
  {
    if TimersExpire(ping) {
      forall z, from | RegularlyReachable(z) && z.left.h.syncPing == ping && z.right.h.syncPing == ping
        ensures Recoverable(z, from)
      {
        RegularIsRecoverable(z, from);
      }
    } else {
      var z := SilencedOccurs(ping);
    }
  }

  // ---------- In rounds ----------

  /** Two times as far apart as this cannot both come before a timer expires. */
  lemma ApartInTime(passed: int, d: nat, w: nat)
    requires w <= d <= U32 - w && passed % U32 < w
    ensures (passed + d) % U32 >= w
  {
    assert passed == passed / U32 * U32 + passed % U32;
    assert passed + d == passed / U32 * U32 + (passed % U32 + d);
  }

  predicate Early(r: Reliable, from: nat, k: nat, w: nat) {
    (from + k * w - r.lastSend) % U32 < w
  }

  lemma EarlyOnce(r: Reliable, from: nat, j: nat, k: nat, w: nat)
    requires j < k < 16 && 16 * w <= U32 && Early(r, from, j, w)
    ensures !Early(r, from, k, w)
  {
    var d := (k - j) * w;
    assert k * w == j * w + d;
    assert w <= d && d + w <= 16 * w by {
      Scaled(1, k - j, w);
      Scaled(k - j + 1, 16, w);
    }
    ApartInTime(from + j * w - r.lastSend, d, w);
  }

  lemma Scaled(i: nat, j: nat, w: nat)
    requires i <= j
    ensures i * w <= j * w
  {
  }

  function Numbers(n: nat): (s: set<nat>)
    ensures |s| == n && forall k: nat :: k in s <==> k < n
  {
    if n == 0 then {} else Numbers(n - 1) + {n - 1}
  }

  /** Each message rules out at most one of the times: with more times than messages, one is late enough for all. */
  lemma {:induction false} LateEnough(rs: seq<Reliable>, slots: set<nat>, from: nat, w: nat) returns (k: nat)
    requires |rs| < |slots| && 16 * w <= U32 && forall j :: j in slots ==> j < 16
    ensures k in slots && forall i :: 0 <= i < |rs| ==> !Early(rs[i], from, k, w)
    decreases |rs|
  {
    if rs == [] {
      k :| k in slots;
    } else {
      var rest, r := rs[..|rs| - 1], rs[|rs| - 1];
      if j :| j in slots && Early(r, from, j, w) {
        k := LateEnough(rest, slots - {j}, from, w);
        if k < j && Early(r, from, k, w) {
          EarlyOnce(r, from, k, j, w);
        } else if j < k {
          EarlyOnce(r, from, j, k, w);
        }
      } else {
        k := LateEnough(rest, slots, from, w);
      }
    }
  }

  lemma LateIsExpired(x: HostState, r: Reliable, from: nat, k: nat, now: nat)
    requires !Early(r, from, k, Wait(x.syncPing)) && now == from + k * Wait(x.syncPing)
    ensures Expired(x, r, now)
  {
  }

  lemma LateSlot(rs: seq<Reliable>, from: nat, w: nat, n: nat) returns (k: nat)
    requires |rs| < n <= 16 && 16 * w <= U32
    ensures k < n && forall i :: 0 <= i < |rs| ==> !Early(rs[i], from, k, w)
  {
    k := LateEnough(rs, Numbers(n), from, w);
  }

  /** Some time at which all timers of a sender have expired. */
  lemma TimeForAll(x: HostState, from: nat) returns (now: nat)
    requires |x.sent| <= MAX_RELIABLE_IN_TRANSIT && 16 * Wait(x.syncPing) <= U32
    ensures from <= now <= from + 15 * Wait(x.syncPing) && AllExpired(x, now)
  {
    var w := Wait(x.syncPing);
    var k := LateSlot(x.sent, from, w, 16);
    Scaled(k, 15, w);
    now := from + k * w;
    forall i | 0 <= i < |x.sent|
      ensures Expired(x, x.sent[i], now)
    {
      LateIsExpired(x, x.sent[i], from, k, now);
    }
  }

  /** n times, one as long after the other as the timers wait. */
  function Spread(from: nat, wait: nat, n: nat): (times: seq<nat>)
    ensures |times| == n && (n > 0 ==> times[0] == from)
    decreases n
  {
    if n == 0 then [] else [from] + Spread(from + wait, wait, n - 1)
  }

  lemma SpacedMore(syncPing: nat, now: nat, later: seq<nat>)
    requires Spaced(syncPing, later) && (later != [] ==> (later[0] - now) % U32 > (syncPing + 10) % U32)
    ensures Spaced(syncPing, [now] + later)
  {
    var times := [now] + later;
    forall i, j | 0 <= i && i + 1 == j < |times|
      ensures (times[j] - times[i]) % U32 > (syncPing + 10) % U32
    {
      assert times[j] == later[i];
    }
  }

  lemma {:induction false} SpreadIsSpaced(from: nat, syncPing: nat, n: nat)
    requires TimersExpire(syncPing)
    ensures Spaced(syncPing, Spread(from, Wait(syncPing), n))
    ensures Onward(Spread(from, Wait(syncPing), n), from, Wait(syncPing))
    decreases n
  {
    if n > 0 {
      var w := Wait(syncPing);
      var later := Spread(from + w, w, n - 1);
      SpreadIsSpaced(from + w, syncPing, n - 1);
      SpacedMore(syncPing, from, later);
      assert Spread(from, w, n)[1..] == later;
    }
  }

  lemma {:induction false} OnwardWider(times: seq<nat>, first: nat, from: nat, wait: nat, longer: nat)
    requires Onward(times, first, wait) && wait <= longer && (times != [] ==> from <= times[0] <= from + longer)
    ensures Onward(times, from, longer)
    decreases |times|
  {
    if |times| > 1 {
      OnwardWider(times[1..], times[0], times[0], wait, longer);
    }
  }

  function RoundsFor(n: nat): nat {
    (n + MAX_RELIABLE_IN_TRANSIT - 1) / MAX_RELIABLE_IN_TRANSIT
  }

  lemma TimesForRounds(x: HostState, from: nat) returns (times: seq<nat>)
    requires |x.sent| <= MAX_RELIABLE_IN_TRANSIT && 16 * Wait(x.syncPing) <= U32
    ensures |times| == RoundsFor(Outstanding(x)) && Onward(times, from, 15 * Wait(x.syncPing))
    ensures (times != [] ==> AllExpired(x, times[0])) && Spaced(x.syncPing, times)
  {
    var first := TimeForAll(x, from);
    times := Spread(first, Wait(x.syncPing), RoundsFor(Outstanding(x)));
    SpreadIsSpaced(first, x.syncPing, |times|);
    OnwardWider(times, first, from, Wait(x.syncPing), 15 * Wait(x.syncPing));
  }

  /** In rounds it takes a fifteenth of that: with timers that wait at most 2^28 ticks, from every such state between
      two clusters there are times at which ceil(n / 15) rounds deliver all that a sender has outstanding, taking in
      only what is sent in them. */
  lemma RoundsSuffice(z: System, left: bool, from: nat) returns (times: seq<nat>)
    requires RegularlyReachable(z) && z.left.h.clustered == [] && z.right.h.clustered == []
    requires 16 * Wait((if left then z.left else z.right).h.syncPing) <= U32
    ensures var x := (if left then z.left else z.right).h;
            && |times| == RoundsFor(Outstanding(x))
            && Onward(times, from, 15 * Wait(x.syncPing))
    ensures var w := AfterRounds(z, left, times);
            && Through(z, w, |z.left.h.wire|, |z.right.h.wire|, times)
            && Outstanding((if left then w.left else w.right).h) == 0
            && if left then Everything(w.left, w.right) else Everything(w.right, w.left)
  {
    ReachableIsGood(z);
    times := TimesForRounds((if left then z.left else z.right).h, from);
    RoundsDeliverEverything(z, left, times);
    RoundsReach(z, left, times);
  }
}
