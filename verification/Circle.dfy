/** Going round a list of players (mervbot/host.cpp, spectateNext): which one is visited after which. */
module Circle {
  import opened Bytes

  /** The number of trues. */
  function Population(s: seq<bool>): nat {
    if s == [] then 0 else Population(s[..|s| - 1]) + if s[|s| - 1] then 1 else 0
  }

  /** The place i steps on from place f on a circle of n. */
  function Around(f: nat, i: nat, n: nat): (g: nat)
    requires f < n && i <= n
    ensures g < n
  {
    if f + i < n then f + i else f + i - n
  }

  /** How far it is from place f to the next flying player, or all the way round if no other player flies;
      fewer than i steps are already known not to be enough. */
  function Distance(flying: seq<bool>, f: nat, i: nat): (d: nat)
    requires f < |flying| && 1 <= i <= |flying|
    ensures i <= d <= |flying|
    ensures d < |flying| ==> flying[Around(f, d, |flying|)]
    ensures forall j :: i <= j < d ==> !flying[Around(f, j, |flying|)]
    decreases |flying| - i
  {
    if i == |flying| || flying[Around(f, i, |flying|)] then i else Distance(flying, f, i + 1)
  }

  /** The place that is visited after place f. */
  function Next(flying: seq<bool>, f: nat): (g: nat)
    requires f < |flying|
    ensures g < |flying|
  {
    Around(f, Distance(flying, f, 1), |flying|)
  }

  /** The place visited j calls after place f. */
  function Orbit(flying: seq<bool>, f: nat, j: nat): (g: nat)
    requires f < |flying|
    ensures g < |flying|
  {
    if j == 0 then f else Next(flying, Orbit(flying, f, j - 1))
  }

  // ---------- The circle cut open after f ----------

  function Opened(flying: seq<bool>, f: nat): (r: seq<bool>)
    requires f < |flying|
    ensures |r| == |flying|
  {
    flying[f + 1..] + flying[..f + 1]
  }

  lemma OpenedAt(flying: seq<bool>, f: nat, i: nat)
    requires f < |flying| && 1 <= i <= |flying|
    ensures Opened(flying, f)[i - 1] == flying[Around(f, i, |flying|)]
  {
  }

  lemma {:induction false} PopulationSum(a: seq<bool>, b: seq<bool>)
    ensures Population(a + b) == Population(a) + Population(b)
  {
    if b == [] {
      ConcatEmpty(a);
    } else {
      assert (a + b)[..|a + b| - 1] == a + b[..|b| - 1];
      PopulationSum(a, b[..|b| - 1]);
    }
  }

  lemma SwapPopulation(s: seq<bool>, a: seq<bool>, b: seq<bool>)
    requires s == a + b
    ensures Population(b + a) == Population(s)
  {
    PopulationSum(b, a);
    PopulationSum(a, b);
  }

  lemma OpenedPopulation(flying: seq<bool>, f: nat)
    requires f < |flying|
    ensures Population(Opened(flying, f)) == Population(flying)
  {
    SwapPopulation(flying, flying[..f + 1], flying[f + 1..]);
  }

  /** The players flying among the first i places after f. */
  function Passed(flying: seq<bool>, f: nat, i: nat): nat
    requires f < |flying| && i <= |flying|
  {
    Population(Opened(flying, f)[..i])
  }

  lemma PassedAll(flying: seq<bool>, f: nat)
    requires f < |flying|
    ensures Passed(flying, f, |flying|) == Population(flying) && Passed(flying, f, 0) == 0
  {
    OpenedPopulation(flying, f);
    assert Opened(flying, f)[..|flying|] == Opened(flying, f);
  }

  lemma PassedNext(flying: seq<bool>, f: nat, i: nat)
    requires f < |flying| && 1 <= i <= |flying|
    ensures Passed(flying, f, i) == Passed(flying, f, i - 1) + if flying[Around(f, i, |flying|)] then 1 else 0
  {
    OpenedAt(flying, f, i);
    var r := Opened(flying, f);
    assert r[..i][..i - 1] == r[..i - 1];
  }

  lemma {:induction false} PassedGrows(flying: seq<bool>, f: nat, i: nat, i': nat)
    requires f < |flying| && i <= i' <= |flying|
    ensures Passed(flying, f, i) <= Passed(flying, f, i')
    ensures i < i' && flying[Around(f, i', |flying|)] ==> Passed(flying, f, i) < Passed(flying, f, i')
    decreases i'
  {
    if i < i' {
      PassedNext(flying, f, i');
      PassedGrows(flying, f, i, i' - 1);
    }
  }

  // ---------- Where j calls lead ----------

  /** As long as flying players are left on the way round, calls go from one of them to the next. */
  lemma {:induction false} CallsPass(flying: seq<bool>, f: nat, j: nat) returns (t: nat)
    requires f < |flying| && j <= Population(flying)
    ensures t <= |flying| && Orbit(flying, f, j) == Around(f, t, |flying|) && Passed(flying, f, t) == j
    ensures j > 0 ==> t > 0 && flying[Around(f, t, |flying|)]
    decreases j
  {
    PassedAll(flying, f);
    if j == 0 {
      t := 0;
    } else {
      var s := CallsPass(flying, f, j - 1);
      var d := OneCall(flying, f, s);
      t := s + d;
    }
  }

  lemma OneCall(flying: seq<bool>, f: nat, t: nat) returns (d: nat)
    requires f < |flying| && t <= |flying| && Passed(flying, f, t) < Population(flying)
    ensures 1 <= d == Distance(flying, Around(f, t, |flying|), 1) && t + d <= |flying|
    ensures Next(flying, Around(f, t, |flying|)) == Around(f, t + d, |flying|)
    ensures flying[Around(f, t + d, |flying|)] && Passed(flying, f, t + d) == Passed(flying, f, t) + 1
  {
    var n := |flying|;
    var e := FirstFlying(flying, f, t, t + 1);
    d := e - t;
    forall j | 1 <= j <= d
      ensures Around(Around(f, t, n), j, n) == Around(f, t + j, n)
    {
      AroundTwice(f, t, j, n);
    }
    DistanceIs(flying, Around(f, t, n), d);
  }

  lemma DistanceIs(flying: seq<bool>, g: nat, d: nat)
    requires g < |flying| && 1 <= d <= |flying| && flying[Around(g, d, |flying|)]
    requires forall j :: 1 <= j < d ==> !flying[Around(g, j, |flying|)]
    ensures Distance(flying, g, 1) == d
  {
  }

  lemma AroundTwice(f: nat, t: nat, d: nat, n: nat)
    requires f < n && t + d <= n
    ensures Around(Around(f, t, n), d, n) == Around(f, t + d, n)
  {
  }

  /** The first flying place more than t after f, if those before i are not. */
  lemma {:induction false} FirstFlying(flying: seq<bool>, f: nat, t: nat, i: nat) returns (e: nat)
    requires f < |flying| && t < i && t <= |flying| && Passed(flying, f, t) < Population(flying)
    requires i <= |flying| + 1 && Passed(flying, f, i - 1) == Passed(flying, f, t)
    requires forall j :: t < j < i ==> !flying[Around(f, j, |flying|)]
    ensures t < e <= |flying| && flying[Around(f, e, |flying|)] && Passed(flying, f, e) == Passed(flying, f, t) + 1
    ensures forall j :: t < j < e ==> !flying[Around(f, j, |flying|)]
    decreases |flying| + 1 - i
  {
    PassedAll(flying, f);
    if i <= |flying| {
      PassedNext(flying, f, i);
      if flying[Around(f, i, |flying|)] {
        e := i;
      } else {
        e := FirstFlying(flying, f, t, i + 1);
      }
    }
  }

  lemma VisitIs(flying: seq<bool>, f: nat, e: nat, j: nat)
    requires f < |flying| && 1 <= e <= |flying| && flying[Around(f, e, |flying|)]
    requires 1 <= j <= Population(flying)
    ensures Orbit(flying, f, j) == Around(f, e, |flying|) <==> j == Passed(flying, f, e)
  {
    var t := CallsPass(flying, f, j);
    if t < e {
      PassedGrows(flying, f, t, e);
    } else if e < t {
      PassedGrows(flying, f, e, t);
    }
  }

  predicate Visits(flying: seq<bool>, f: nat, j: nat, p: nat)
    requires f < |flying|
  {
    1 <= j <= Population(flying) && Orbit(flying, f, j) == p
  }

  /** k calls in a row visit each of the k flying players exactly once, wherever they start. */
  lemma EachVisitedOnce(flying: seq<bool>, f: nat, p: nat)
    requires f < |flying| && p < |flying| && flying[p]
    ensures exists j: nat :: Visits(flying, f, j, p) && forall i: nat :: Visits(flying, f, i, p) ==> i == j
  {
    var n := |flying|;
    var e := if p > f then p - f else p + n - f;
    PassedAll(flying, f);
    PassedGrows(flying, f, 0, e);
    PassedGrows(flying, f, e, n);
    var k := Passed(flying, f, e);
    VisitIs(flying, f, e, k);
    forall i: nat | Visits(flying, f, i, p)
      ensures i == k
    {
      VisitIs(flying, f, e, i);
    }
    assert Visits(flying, f, k, p);
  }

  /** If nobody flies, or only the player at f does, a call stays. */
  lemma StaysIff(flying: seq<bool>, f: nat)
    requires f < |flying|
    ensures Next(flying, f) == f <==> forall p :: 0 <= p < |flying| && p != f ==> !flying[p]
  {
    var n, d := |flying|, Distance(flying, f, 1);
    if d == n {
      forall p | 0 <= p < n && p != f
        ensures !flying[p]
      {
        assert p == Around(f, if p > f then p - f else p + n - f, n);
      }
    }
  }

  /** A call goes to the first flying player behind f in the list; if there is none, to the first one at all. */
  lemma NextIs(flying: seq<bool>, f: nat, p: nat)
    requires f < |flying| && p < |flying| && flying[p]
    ensures var g := Next(flying, f);
            if f < p then f < g <= p && flying[g] && forall q :: f < q < g ==> !flying[q]
            else f < g || (g <= p && flying[g] && forall q :: 0 <= q < g || f < q < |flying| ==> !flying[q])
  {
    var n, g, d := |flying|, Next(flying, f), Distance(flying, f, 1);
    var e := if f < p then p - f else p + n - f;
    assert Around(f, e, n) == p && d <= e;
    forall q | 0 <= q < n && if q > f then q - f < d else q + n - f < d
      ensures !flying[q]
    {
      assert q == Around(f, if q > f then q - f else q + n - f, n);
    }
  }

  // ---------- Asking for positions ----------

  /** A position asked for from the player with an ident. */
  datatype Request = Request(who: nat, time: nat)

  /** When a position was last asked for, when each player was last heard of, and all requests so far. */
  datatype Watch = Watch(lastSpec: nat, heard: seq<nat>, asked: seq<Request>)

  /** The clock is a 32-bit counter. */
  function Elapsed(since: nat, now: nat): nat {
    (now - since) % U32
  }

  predicate Due(lastSpec: nat, heard: nat, time: nat) {
    Elapsed(heard, time) > 100 && Elapsed(lastSpec, time) > 20
  }

  /** The player at place g is looked at, and asked for a position if that is wanted and due. */
  function LookAt(w: Watch, g: nat, who: nat, wanted: bool, time: nat): (r: Watch)
    requires g < |w.heard|
    ensures |r.heard| == |w.heard|
  {
    if wanted && Due(w.lastSpec, w.heard[g], time) then Watch(time, w.heard[g := time], w.asked + [Request(who, time)])
    else w
  }

  /** A call at each time, the first from place f; only flying players are asked. */
  function Looks(w: Watch, flying: seq<bool>, ids: seq<nat>, f: nat, noisy: bool, times: seq<nat>): (r: Watch)
    requires f < |flying| == |ids| == |w.heard|
    ensures |r.heard| == |w.heard|
  {
    if times == [] then w
    else
      var n := |times| - 1;
      var g := Orbit(flying, f, n + 1);
      LookAt(Looks(w, flying, ids, f, noisy, times[..n]), g, ids[g], noisy && flying[g], times[n])
  }

  /** Requests are more than 20 ticks apart, and those to one player more than 100. */
  predicate Paced(asked: seq<Request>) {
    forall i, j :: 0 <= i < j < |asked| ==>
      asked[j].time - asked[i].time > if asked[j].who == asked[i].who then 100 else 20
  }

  predicate Monotone(times: seq<nat>) {
    forall i, j :: 0 <= i < j < |times| ==> times[i] <= times[j]
  }

  /** Idents differ, the requests so far are paced, and the records of when somebody was asked or heard of are up
      to date. */
  ghost predicate Recorded(w: Watch, ids: seq<nat>, now: nat)
    requires |ids| == |w.heard|
  {
    && (forall i, j :: 0 <= i < j < |ids| ==> ids[i] != ids[j])
    && Paced(w.asked) && w.lastSpec <= now
    && (forall k :: 0 <= k < |ids| ==> w.heard[k] <= now)
    && (forall i :: 0 <= i < |w.asked| ==> w.asked[i].time <= w.lastSpec)
    && (forall i, k :: 0 <= i < |w.asked| && 0 <= k < |ids| && w.asked[i].who == ids[k] ==>
          w.asked[i].time <= w.heard[k])
  }

  lemma ElapsedAtMost(since: nat, now: nat)
    requires since <= now
    ensures Elapsed(since, now) <= now - since
  {
  }

  lemma LookRecorded(w: Watch, ids: seq<nat>, g: nat, wanted: bool, now: nat, time: nat)
    requires g < |w.heard| == |ids| && Recorded(w, ids, now) && now <= time
    ensures Recorded(LookAt(w, g, ids[g], wanted, time), ids, time)
  {
    if Due(w.lastSpec, w.heard[g], time) {
      ElapsedAtMost(w.heard[g], time);
      ElapsedAtMost(w.lastSpec, time);
    }
  }

  /** However often spectateNext is called, with a clock that does not go back, it asks for a position only
      when more than 20 ticks have gone by since it last did, and more than 100 for the same player. */
  lemma {:induction false} RequestsPaced(w: Watch, flying: seq<bool>, ids: seq<nat>, f: nat, noisy: bool,
                                         times: seq<nat>, now: nat)
    requires f < |flying| == |ids| == |w.heard| && Recorded(w, ids, now) && Monotone([now] + times)
    ensures Recorded(Looks(w, flying, ids, f, noisy, times), ids, if times == [] then now else times[|times| - 1])
    ensures Paced(Looks(w, flying, ids, f, noisy, times).asked)
  {
    if times != [] {
      var n := |times| - 1;
      var g := Orbit(flying, f, n + 1);
      var before := if n == 0 then now else times[n - 1];
      assert before == ([now] + times)[n] && times[n] == ([now] + times)[n + 1];
      assert [now] + times[..n] == ([now] + times)[..n + 1];
      RequestsPaced(w, flying, ids, f, noisy, times[..n], now);
      LookRecorded(Looks(w, flying, ids, f, noisy, times[..n]), ids, g, noisy && flying[g], before, times[n]);
    }
  }

  /** More than so many ticks of a 32-bit clock lie between. */
  predicate Later(since: int, now: int, ticks: int) {
    (now - since) % 0x1_0000_0000 > ticks
  }

  /** A further call at time t asks the next flying player exactly if that is wanted, more than 100 ticks after this
      player was last heard of and more than 20 after the last request. */
  lemma NextAsked(w: Watch, flying: seq<bool>, ids: seq<nat>, f: nat, noisy: bool, times: seq<nat>, t: nat)
    requires f < |flying| == |ids| == |w.heard|
    ensures var v, g := Looks(w, flying, ids, f, noisy, times), Orbit(flying, f, |times| + 1);
            Looks(w, flying, ids, f, noisy, times + [t]) ==
              if noisy && flying[g] && Later(v.heard[g], t, 100) && Later(v.lastSpec, t, 20)
              then Watch(t, v.heard[g := t], v.asked + [Request(ids[g], t)])
              else v
  {
    assert (times + [t])[..|times|] == times;
  }

  lemma OrbitDistinct(flying: seq<bool>, f: nat, i: nat, j: nat)
    requires f < |flying| && 1 <= i < j <= Population(flying)
    ensures Orbit(flying, f, i) != Orbit(flying, f, j)
  {
    var t := CallsPass(flying, f, j);
    var p := Orbit(flying, f, j);
    EachVisitedOnce(flying, f, p);
    assert Visits(flying, f, i, p) <==> Orbit(flying, f, i) == p;
    assert Visits(flying, f, j, p);
  }

  /** Nobody was heard of within 100 ticks of any of these times, and they are more than 20 ticks apart. */
  predicate Quiet(w: Watch, times: seq<nat>) {
    && (forall i, g :: 0 <= i < |times| && 0 <= g < |w.heard| ==> Later(w.heard[g], times[i], 100))
    && (forall i :: 0 <= i < |times| ==> Later(LastTime(w, times, i), times[i], 20))
  }

  function LastTime(w: Watch, times: seq<nat>, i: nat): nat
    requires i <= |times|
  {
    if i == 0 then w.lastSpec else times[i - 1]
  }

  /** After these calls each was answered with a request to the player it led to. */
  ghost predicate Asked(w: Watch, v: Watch, flying: seq<bool>, ids: seq<nat>, f: nat, times: seq<nat>)
    requires f < |flying| == |ids| == |w.heard|
  {
    && |v.asked| == |w.asked| + |times| && w.asked <= v.asked
    && (forall k :: 0 <= k < |times| ==>
          v.asked[|w.asked| + k] == Request(ids[Orbit(flying, f, k + 1)], times[k]))
    && v.lastSpec == (if times == [] then w.lastSpec else times[|times| - 1])
    && Untouched(w.heard, v.heard, flying, f, |times|)
  }

  /** Only of the players that n calls lead to something was heard. */
  ghost predicate Untouched(a: seq<nat>, b: seq<nat>, flying: seq<bool>, f: nat, n: nat)
    requires f < |flying|
  {
    |b| == |a| && forall g :: 0 <= g < |a| && (forall k :: 1 <= k <= n ==> Orbit(flying, f, k) != g) ==> b[g] == a[g]
  }

  lemma TouchedOne(a: seq<nat>, b: seq<nat>, flying: seq<bool>, f: nat, n: nat, g: nat, t: nat)
    requires f < |flying| && Untouched(a, b, flying, f, n) && g < |b| && g == Orbit(flying, f, n + 1)
    ensures Untouched(a, b[g := t], flying, f, n + 1)
  {
  }

  lemma AskedMore(w: Watch, v: Watch, flying: seq<bool>, ids: seq<nat>, f: nat, times: seq<nat>, g: nat, t: nat)
    requires f < |flying| == |ids| == |w.heard| && g < |ids| && g == Orbit(flying, f, |times| + 1)
    requires Asked(w, v, flying, ids, f, times)
    ensures Asked(w, Watch(t, v.heard[g := t], v.asked + [Request(ids[g], t)]), flying, ids, f, times + [t])
  {
    TouchedOne(w.heard, v.heard, flying, f, |times|, g, t);
  }

  /** The next one was not heard of by these calls. */
  lemma NextIsQuiet(w: Watch, v: Watch, flying: seq<bool>, ids: seq<nat>, f: nat, n: nat, times: seq<nat>)
    requires f < |flying| == |ids| == |w.heard| && n + 1 == |times| <= Population(flying) && Quiet(w, times)
    requires Asked(w, v, flying, ids, f, times[..n])
    ensures var g := Orbit(flying, f, n + 1);
            flying[g] && Later(v.heard[g], times[n], 100) && Later(v.lastSpec, times[n], 20)
  {
    var g := Orbit(flying, f, n + 1);
    forall k | 1 <= k <= n
      ensures Orbit(flying, f, k) != g
    {
      OrbitDistinct(flying, f, k, n + 1);
    }
    assert v.heard[g] == w.heard[g] && v.lastSpec == LastTime(w, times, n);
    var t := CallsPass(flying, f, n + 1);
  }

  /** One round of calls asks each flying player once, in the order of the list, if nobody was asked lately. */
  lemma {:induction false} RoundAsksEach(w: Watch, flying: seq<bool>, ids: seq<nat>, f: nat, times: seq<nat>)
    requires f < |flying| == |ids| == |w.heard| && |times| <= Population(flying) && Quiet(w, times)
    ensures Asked(w, Looks(w, flying, ids, f, true, times), flying, ids, f, times)
    decreases |times|
  {
    if times != [] {
      var n := |times| - 1;
      var v := Looks(w, flying, ids, f, true, times[..n]);
      assert forall i :: 0 <= i < n ==> LastTime(w, times[..n], i) == LastTime(w, times, i);
      RoundAsksEach(w, flying, ids, f, times[..n]);
      NextIsQuiet(w, v, flying, ids, f, n, times);
      NextAsked(w, flying, ids, f, true, times[..n], times[n]);
      AskedMore(w, v, flying, ids, f, times[..n], Orbit(flying, f, n + 1), times[n]);
      SplitLast(times);
    }
  }
}
