/** The logged chat queue and its limit on how fast messages are posted (mervbot/host.cpp, addChatLog,
    sendNextLoggedChat and doChatLog). */
module ChatLimiter {
  import opened Bytes

  const WINDOW: nat := 150
  const PER_WINDOW: nat := 2

  datatype Chat = Chat(mode: Byte, snd: Byte, ident: nat, msg: string)

  /** A message that was posted: when, and when the counting window it was posted in had begun. */
  datatype Sent = Sent(chat: Chat, time: nat, window: nat)

  datatype Limiter = Limiter(chatLog: seq<Chat>, lastChatSend: nat, countChatSend: nat, posted: seq<Sent>)

  function Initial(): Limiter {
    Limiter([], 0, 0, [])
  }

  function Logged(s: Limiter, c: Chat): Limiter {
    s.(chatLog := s.chatLog + [c])
  }

  /** A new window begins when more than WINDOW ticks have passed, in 32-bit unsigned arithmetic. */
  function Opened(s: Limiter, time: nat): Limiter {
    if (time - s.lastChatSend) % U32 > WINDOW then s.(lastChatSend := time, countChatSend := 0) else s
  }

  function Posted(s: Limiter, time: nat): Limiter
    requires s.chatLog != []
  {
    s.(chatLog := s.chatLog[1..], posted := s.posted + [Sent(s.chatLog[0], time, s.lastChatSend)])
  }

  function PostSome(s: Limiter, time: nat): (r: Limiter)
    ensures r.chatLog == [] || r.countChatSend >= PER_WINDOW
    decreases |s.chatLog|
  {
    if s.countChatSend >= PER_WINDOW || s.chatLog == [] then s
    else PostSome(Posted(s, time).(countChatSend := s.countChatSend + 1), time)
  }

  function Flushed(s: Limiter, time: nat): Limiter {
    PostSome(Opened(s, time), time)
  }

  // ---------- Runs ----------

  datatype Event = Add(chat: Chat) | Tick(time: nat)

  function React(s: Limiter, e: Event): Limiter {
    match e
    case Add(c) => Logged(s, c)
    case Tick(t) => Flushed(s, t)
  }

  function Run(es: seq<Event>): Limiter {
    if es == [] then Initial() else React(Run(es[..|es| - 1]), es[|es| - 1])
  }

  function Enqueued(es: seq<Event>): seq<Chat> {
    if es == [] then []
    else Enqueued(es[..|es| - 1]) + match es[|es| - 1] { case Add(c) => [c] case Tick(_) => [] }
  }

  /** The reading of the clock at the last tick. */
  function Now(es: seq<Event>): nat {
    if es == [] then 0 else match es[|es| - 1] { case Tick(t) => t case Add(_) => Now(es[..|es| - 1]) }
  }

  /** The clock does not run backwards and does not wrap around. */
  predicate Monotone(es: seq<Event>) {
    es == [] || (Monotone(es[..|es| - 1])
                 && (es[|es| - 1].Tick? ==> Now(es[..|es| - 1]) <= es[|es| - 1].time < U32))
  }

  // ---------- Order: nothing is lost, repeated or overtaken ----------

  function Chats(p: seq<Sent>): (cs: seq<Chat>)
    ensures |cs| == |p|
  {
    seq(|p|, i requires 0 <= i < |p| => p[i].chat)
  }

  function AllChats(s: Limiter): seq<Chat> {
    Chats(s.posted) + s.chatLog
  }

  lemma PostedKeepsAll(s: Limiter, time: nat)
    requires s.chatLog != []
    ensures AllChats(Posted(s, time)) == AllChats(s)
  {
    SplitFirst(s.chatLog);
    assert Chats(Posted(s, time).posted) == Chats(s.posted) + [s.chatLog[0]];
  }

  lemma {:induction false} PostSomeKeepsAll(s: Limiter, time: nat)
    ensures AllChats(PostSome(s, time)) == AllChats(s)
    decreases |s.chatLog|
  {
    if !(s.countChatSend >= PER_WINDOW || s.chatLog == []) {
      PostedKeepsAll(s, time);
      PostSomeKeepsAll(Posted(s, time).(countChatSend := s.countChatSend + 1), time);
    }
  }

  /** Whatever the clock does, what was posted, followed by what still waits, is what was enqueued. */
  lemma {:induction false} PostedInOrder(es: seq<Event>)
    ensures Chats(Run(es).posted) + Run(es).chatLog == Enqueued(es)
  {
    if es != [] {
      var s, e := Run(es[..|es| - 1]), es[|es| - 1];
      PostedInOrder(es[..|es| - 1]);
      match e
      case Add(c) => ConcatAssociates(Chats(s.posted), s.chatLog, [c]);
      case Tick(t) => PostSomeKeepsAll(Opened(s, t), t);
    }
  }

  // ---------- Rate ----------

  ghost predicate Paced(s: Limiter, now: nat) {
    var p, old' := s.posted, |s.posted| - s.countChatSend;
    && s.lastChatSend <= now < U32 && s.countChatSend <= PER_WINDOW && 0 <= old'
    && (forall i :: 0 <= i < |p| ==> p[i].window <= p[i].time <= now)
    && (forall i :: old' <= i < |p| ==> p[i].window == s.lastChatSend)
    && (forall i :: 0 <= i < old' ==> p[i].window + WINDOW < s.lastChatSend && p[i].time <= s.lastChatSend)
    && (forall i, j :: 0 <= i < j < |p| ==> p[i].time <= p[j].time)
    && (forall i, j :: 0 <= i && i + 2 == j < |p| ==>
          p[i].window + WINDOW < p[j].window && p[i].time <= p[j].window)
  }

  lemma OpenedKeepsPace(s: Limiter, now: nat, time: nat)
    requires Paced(s, now) && now <= time < U32
    ensures Paced(Opened(s, time), time)
  {
    assert (time - s.lastChatSend) % U32 == time - s.lastChatSend;
    forall i | 0 <= i < |s.posted|
      ensures s.posted[i].window <= s.lastChatSend
    {
    }
  }

  lemma PostedKeepsPace(s: Limiter, time: nat)
    requires Paced(s, time) && s.chatLog != [] && s.countChatSend < PER_WINDOW
    ensures Paced(Posted(s, time).(countChatSend := s.countChatSend + 1), time)
  {
  }

  lemma {:induction false} PostSomeKeepsPace(s: Limiter, time: nat)
    requires Paced(s, time)
    ensures Paced(PostSome(s, time), time)
    decreases |s.chatLog|
  {
    if !(s.countChatSend >= PER_WINDOW || s.chatLog == []) {
      PostedKeepsPace(s, time);
      PostSomeKeepsPace(Posted(s, time).(countChatSend := s.countChatSend + 1), time);
    }
  }

  lemma {:induction false} RunKeepsPace(es: seq<Event>)
    requires Monotone(es)
    ensures Now(es) < U32 && Paced(Run(es), Now(es))
  {
    if es != [] {
      var before, e := es[..|es| - 1], es[|es| - 1];
      RunKeepsPace(before);
      if e.Tick? {
        OpenedKeepsPace(Run(before), Now(before), e.time);
        PostSomeKeepsPace(Opened(Run(before), e.time), e.time);
      }
    }
  }

  /** The messages posted in the 151 consecutive ticks from t on. */
  ghost function During(p: seq<Sent>, t: nat): set<int> {
    set i | 0 <= i < |p| && t <= p[i].time <= t + 150
  }

  lemma FourApart(s: Limiter, now: nat, i: nat, j: nat)
    requires Paced(s, now) && i + 4 <= j < |s.posted|
    ensures s.posted[i].time + WINDOW < s.posted[j].time
  {
    var p := s.posted;
    assert p[i].time <= p[i + 2].window;
    assert p[i + 2].window + WINDOW < p[i + 2 + 2].window <= p[i + 4].time;
    assert j > i + 4 ==> p[i + 4].time <= p[j].time;
  }

  /** At most four messages are posted in any 151 consecutive ticks. */
  lemma AtMostFour(es: seq<Event>, t: nat)
    requires Monotone(es)
    ensures |During(Run(es).posted, t)| <= 4
  {
    var s := Run(es);
    RunKeepsPace(es);
    var m := FirstDuring(s.posted, t, 0);
    var four := {m, m + 1, m + 2, m + 3};
    forall i | i in During(s.posted, t)
      ensures i in four
    {
      if i > m + 3 {
        FourApart(s, Now(es), m, i);
      }
    }
    Subset(During(s.posted, t), four);
  }

  /** The first message posted in those ticks, if there is one. */
  lemma {:induction false} FirstDuring(p: seq<Sent>, t: nat, i: nat) returns (m: nat)
    requires i <= |p| && forall j :: 0 <= j < i ==> j !in During(p, t)
    ensures i <= m <= |p| && (m < |p| ==> m in During(p, t)) && forall j :: 0 <= j < m ==> j !in During(p, t)
    decreases |p| - i
  {
    if i == |p| || i in During(p, t) {
      m := i;
    } else {
      m := FirstDuring(p, t, i + 1);
    }
  }

  lemma {:induction false} Subset<T>(a: set<T>, b: set<T>)
    requires a <= b
    ensures |a| <= |b|
  {
    if a == {} {
    } else {
      var x :| x in a;
      Subset(a - {x}, b - {x});
    }
  }

  lemma {:induction false} WindowsAddUp(s: Limiter, now: nat, i: nat)
    requires Paced(s, now) && i < |s.posted|
    ensures s.posted[i].window >= (WINDOW + 1) * (i / 2)
  {
    if i >= 2 {
      WindowsAddUp(s, now, i - 2);
      assert s.posted[i - 2].window + WINDOW < s.posted[i].window;
    }
  }

  lemma TwoPerWindow(n: nat, now: nat)
    requires n > 0 && (WINDOW + 1) * ((n - 1) / 2) <= now
    ensures n <= 2 * (now / (WINDOW + 1)) + 2
  {
    var k := (n - 1) / 2;
    assert now / (WINDOW + 1) >= k;
  }

  /** By time T at most 2 * (T div 151) + 2 messages have been posted. */
  lemma PostedBy(es: seq<Event>)
    requires Monotone(es)
    ensures |Run(es).posted| <= 2 * (Now(es) / 151) + 2
  {
    var s := Run(es);
    RunKeepsPace(es);
    var n := |s.posted|;
    if n > 0 {
      WindowsAddUp(s, Now(es), n - 1);
      assert s.posted[n - 1].window <= Now(es);
      TwoPerWindow(n, Now(es));
    }
  }

  // ---------- What a tick posts ----------

  function Lesser(a: nat, b: nat): nat {
    if a < b then a else b
  }

  lemma {:induction false} PostSomePosts(s: Limiter, time: nat)
    requires s.countChatSend <= 2
    ensures var (r, n) := (PostSome(s, time), Lesser(2 - s.countChatSend, |s.chatLog|));
            && r.chatLog == s.chatLog[n..] && r.countChatSend == s.countChatSend + n
            && r.lastChatSend == s.lastChatSend && s.posted <= r.posted
            && |r.posted| == |s.posted| + n
            && forall i :: 0 <= i < n ==> r.posted[|s.posted| + i] == Sent(s.chatLog[i], time, s.lastChatSend)
    decreases |s.chatLog|
  {
    if s.countChatSend < 2 && s.chatLog != [] {
      var next := Posted(s, time).(countChatSend := s.countChatSend + 1);
      PostSomePosts(next, time);
      PostedFirst(s, next, PostSome(next, time), time);
    }
  }

  /** One message is posted, and then some more. */
  lemma PostedFirst(s: Limiter, next: Limiter, r: Limiter, time: nat)
    requires s.countChatSend < 2 && s.chatLog != []
    requires next == Posted(s, time).(countChatSend := s.countChatSend + 1)
    requires var n := Lesser(2 - next.countChatSend, |next.chatLog|);
             && r.chatLog == next.chatLog[n..] && next.posted <= r.posted
             && |r.posted| == |next.posted| + n
             && forall i :: 0 <= i < n ==> r.posted[|next.posted| + i] == Sent(next.chatLog[i], time, s.lastChatSend)
    ensures var n := Lesser(2 - s.countChatSend, |s.chatLog|);
            && r.chatLog == s.chatLog[n..] && s.posted <= r.posted && |r.posted| == |s.posted| + n
            && forall i :: 0 <= i < n ==> r.posted[|s.posted| + i] == Sent(s.chatLog[i], time, s.lastChatSend)
  {
    var n, m := Lesser(2 - s.countChatSend, |s.chatLog|), Lesser(2 - next.countChatSend, |next.chatLog|);
    assert n == m + 1 && next.chatLog[m..] == s.chatLog[n..];
    forall i | 0 <= i < n
      ensures r.posted[|s.posted| + i] == Sent(s.chatLog[i], time, s.lastChatSend)
    {
      if i == 0 {
        assert r.posted[|s.posted|] == next.posted[|s.posted|];
      } else {
        assert r.posted[|next.posted| + (i - 1)] == Sent(next.chatLog[i - 1], time, s.lastChatSend);
      }
    }
  }

  /** A tick more than 150 after the last opening posts the first two messages, as far as there are any; any other
      tick as many as are left of two. */
  lemma TickPosts(s: Limiter, time: nat)
    requires s.countChatSend <= 2
    ensures var (r, opens) := (React(s, Tick(time)), (time - s.lastChatSend) % 0x1_0000_0000 > 150);
            var n := Lesser(if opens then 2 else 2 - s.countChatSend, |s.chatLog|);
            && r.chatLog == s.chatLog[n..] && s.posted <= r.posted && |r.posted| == |s.posted| + n
            && r.lastChatSend == (if opens then time else s.lastChatSend)
            && r.countChatSend == (if opens then 0 else s.countChatSend) + n
            && forall i :: 0 <= i < n ==> r.posted[|s.posted| + i] == Sent(s.chatLog[i], time, r.lastChatSend)
  {
    PostSomePosts(Opened(s, time), time);
  }

  /** Whatever the clock does, at most two are counted. */
  lemma {:induction false} TwoAtMost(es: seq<Event>)
    ensures Run(es).countChatSend <= 2
  {
    if es != [] {
      var s, e := Run(es[..|es| - 1]), es[|es| - 1];
      TwoAtMost(es[..|es| - 1]);
      if e.Tick? {
        TickPosts(s, e.time);
      }
    }
  }

  function Ticks(s: Limiter, times: seq<nat>): Limiter
    decreases |times|
  {
    if times == [] then s else Ticks(React(s, Tick(times[0])), times[1..])
  }

  /** Each of the ticks is more than 150 after the one before, the first after the last opening. */
  predicate Apart(last: nat, times: seq<nat>)
    decreases |times|
  {
    times == [] || ((times[0] - last) % 0x1_0000_0000 > 150 && Apart(times[0], times[1..]))
  }

  /** Such ticks post exactly two messages each, until none are left: k of them are enough for n messages if and only
      if 2 * k >= n. */
  lemma {:induction false} TicksPost(s: Limiter, times: seq<nat>)
    requires s.countChatSend <= 2 && Apart(s.lastChatSend, times)
    ensures var r := Ticks(s, times);
            && r.chatLog == s.chatLog[Lesser(2 * |times|, |s.chatLog|)..]
            && |r.posted| == |s.posted| + Lesser(2 * |times|, |s.chatLog|)
            && (r.chatLog == [] <==> 2 * |times| >= |s.chatLog|)
    decreases |times|
  {
    if times != [] {
      var next := React(s, Tick(times[0]));
      TickPosts(s, times[0]);
      TicksPost(next, times[1..]);
      DropTwice(s.chatLog, Lesser(2, |s.chatLog|), Lesser(2 * |times[1..]|, |next.chatLog|));
    }
  }

  lemma DropTwice<T>(q: seq<T>, m: nat, n: nat)
    requires m + n <= |q|
    ensures q[m..][n..] == q[m + n..]
  {
  }

  // ---------- The object ----------

  class ChatQueue {
    var chatLog: seq<Chat>
    var lastChatSend: nat
    var countChatSend: nat
    var posted: seq<Sent>

    function State(): Limiter
      reads this
    {
      Limiter(chatLog, lastChatSend, countChatSend, posted)
    }

    constructor ()
      ensures State() == Initial()
    {
      chatLog, lastChatSend, countChatSend, posted := [], 0, 0, [];
    }

    method AddChatLog(c: Chat)
      modifies this
      ensures State() == Logged(old(State()), c)
    {
      chatLog := chatLog + [c];
    }

    /** Posts the first message; false if there is none. */
    method SendNextLoggedChat(time: nat) returns (sent: bool)
      modifies this
      ensures sent == (old(chatLog) != [])
      ensures State() == if sent then Posted(old(State()), time) else old(State())
    {
      if chatLog == [] { return false; }
      posted := posted + [Sent(chatLog[0], time, lastChatSend)];
      chatLog := chatLog[1..];
      return true;
    }

    method DoChatLog(time: nat)
      modifies this
      ensures State() == Flushed(old(State()), time)
    {
      if (time - lastChatSend) % U32 > WINDOW {
        lastChatSend := time;
        countChatSend := 0;
      }
      while countChatSend < PER_WINDOW
        invariant PostSome(State(), time) == Flushed(old(State()), time)
        decreases |chatLog|
      {
        var sent := SendNextLoggedChat(time);
        if !sent { break; }
        countChatSend := countChatSend + 1;
      }
    }
  }
}
