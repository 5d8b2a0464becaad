/** Promises, futures and continuations (include/aegis/futures.hpp), one atomic step at a time: a chain of `then`
    calls on the future of a promise, with the queue of tasks posted to the event loop. An object's address stands
    for the object: moving an object gives it a new one. */
module Futures {
  import opened Bytes

  datatype Outcome = Ok(value: int) | Failed(error: int)

  /** What a function given to `then` may return: a value, or a future that is ready, or throw; or a future
      whose promise is still to be set. */
  datatype Reply = Now(outcome: Outcome) | Later

  type Func = int -> Reply

  /** A future state: without a result yet, with one, or moved from. */
  datatype Cell = Waiting | Done(outcome: Outcome) | Moved

  /** The promise end. Its state pointer is null once the state went with a posted task. */
  datatype Promise = Promise(addr: nat, future: Option<nat>, state: Option<Cell>, task: Option<Task>)

  /** A continuation: the function of one `then` call, by its number, and the promise of the future it returned. */
  datatype Task = Task(func: nat, down: Promise)

  datatype Future = Future(addr: nat, promise: Option<nat>, local: Cell)

  datatype Posted = Posted(task: Task, outcome: Outcome)

  /** The promise the program is to set next, until it is destroyed; the future the last `then` returned; the
      posted tasks; the functions given to `then` so far, and the numbers of those that were called. */
  datatype Chain = Chain(next: nat, source: Option<Promise>, last: Future, queue: seq<Posted>,
                         funcs: seq<Func>, calls: seq<nat>)

  // ---------- Moves ----------

  /** The promise at the end of a nest of continuations: the only one a future can be attached to. */
  function End(p: Promise): Promise {
    match p.task
    case None => p
    case Some(t) => End(t.down)
  }

  /** The future that p is attached to is told of p's address. */
  function Retarget(f: Future, p: Promise): Future {
    if p.future == Some(f.addr) then f.(promise := Some(p.addr)) else f
  }

  function MovePromise(s: Chain): Chain
    requires s.source.Some?
  {
    var p := s.source.value.(addr := s.next);
    s.(next := s.next + 1, source := Some(p), last := Retarget(s.last, p))
  }

  /** A nest whose end is told of the new address of its future. */
  function Reattach(p: Promise, was: nat, addr: nat): Promise {
    match p.task
    case None => if p.future == Some(was) then p.(future := Some(addr)) else p
    case Some(t) => p.(task := Some(t.(down := Reattach(t.down, was, addr))))
  }

  function MoveFuture(s: Chain): Chain {
    var f := s.last.(addr := s.next);
    if s.last.promise.None? then s.(next := s.next + 1, last := f)
    else
      s.(next := s.next + 1, last := f,
         source := if s.source.Some? then Some(Reattach(s.source.value, s.last.addr, s.next)) else None,
         queue := ReattachAll(s.queue, s.last.addr, s.next))
  }

  function ReattachAll(q: seq<Posted>, was: nat, addr: nat): (r: seq<Posted>)
    ensures |r| == |q|
  {
    seq(|q|, i requires 0 <= i < |q| =>
      q[i].(task := q[i].task.(down := Reattach(q[i].task.down, was, addr))))
  }

  // ---------- Making ready, running, abandoning ----------

  /** What is left when a promise is destroyed: its state goes to its future, if there is one. */
  function Abandoned(f: Future, p: Promise): Future {
    if p.future == Some(f.addr) && p.state.Some? then f.(local := p.state.value, promise := None) else f
  }

  /** The promise that a continuation holds is set and destroyed with the continuation. Setting an exception
      urgently runs the next continuation at once, otherwise it is posted. */
  function Settle(s: Chain, p: Promise, o: Outcome, urgent: bool): Chain
    decreases p, 1
  {
    match p.task
    case None => s.(last := Abandoned(s.last, p.(state := Some(Done(o)))))
    case Some(t) => if urgent then Run(s, t, o) else s.(queue := s.queue + [Posted(t, o)])
  }

  /** A pending future is forwarded to p: its promise is replaced by p, moved to where that promise was. */
  function Forward(s: Chain, p: Promise): Chain {
    var moved := p.(addr := s.next);
    s.(next := s.next + 2, source := Some(moved), last := Retarget(s.last, moved))
  }

  /** The body of a continuation: an exception is passed on, a value is given to the function. */
  function Run(s: Chain, t: Task, o: Outcome): Chain
    decreases t, 0
  {
    match o
    case Failed(_) => Settle(s, t.down, o, false)
    case Ok(v) =>
      if t.func >= |s.funcs| then s
      else
        var called := s.(calls := s.calls + [t.func]);
        match s.funcs[t.func](v)
        case Now(r) => Settle(called, t.down, r, r.Failed?)
        case Later => Forward(called, t.down)
  }

  // ---------- The user's steps ----------

  datatype Event = Set(outcome: Outcome) | Then(func: Func) | MoveP | MoveF | Drop | Execute

  /** The state that the last future sees: its own, or that of the promise it is attached to. */
  function Seen(s: Chain): Cell {
    if s.last.promise.None? then s.last.local
    else if s.source.Some? && End(s.source.value).addr == s.last.promise.value && End(s.source.value).state.Some?
    then End(s.source.value).state.value
    else Waiting
  }

  /** What the program may do: set a promise once, destroy it after that, run a task that is posted. */
  predicate Legal(s: Chain, e: Event) {
    match e
    case Set(_) => s.source.Some? && s.source.value.state == Some(Waiting)
    case Drop => s.source.Some? && s.source.value.state != Some(Waiting)
    case MoveP => s.source.Some?
    case Execute => s.queue != []
    case _ => true
  }

  function SetSource(s: Chain, o: Outcome): Chain
    requires s.source.Some?
  {
    var p := s.source.value;
    match p.task
    case None => s.(source := Some(p.(state := Some(Done(o)))))
    case Some(t) => s.(source := Some(p.(state := None, task := None)), queue := s.queue + [Posted(t, o)])
  }

  /** `then` on a future whose result is there: the state is taken out, the function called at once. */
  function ThenNow(s: Chain, f: Func, o: Outcome): Chain {
    var p := if s.source.Some? && s.last.promise == Some(s.source.value.addr)
             then Some(s.source.value.(future := None, state := Some(Moved))) else s.source;
    var a, r := s.next, s.(next := s.next + 2, source := p, funcs := s.funcs + [f]);
    match o
    case Failed(_) => r.(last := Future(a, None, Done(o)))
    case Ok(v) =>
      var called := r.(calls := s.calls + [|s.funcs|]);
      match f(v)
      case Now(q) => called.(last := Future(a, None, Done(q)))
      case Later => called.(last := Future(a + 1, Some(a), Waiting),
                            source := Some(Promise(a, Some(a + 1), Some(Waiting), None)))
  }

  /** A continuation is hung at the end of a nest; the future there is let go. */
  function Hang(p: Promise, was: nat, t: Task): Promise {
    match p.task
    case None => if p.future == Some(was) then p.(future := None, state := Some(Waiting), task := Some(t)) else p
    case Some(u) => p.(task := Some(u.(down := Hang(u.down, was, t))))
  }

  function HangAll(q: seq<Posted>, was: nat, t: Task): (r: seq<Posted>)
    ensures |r| == |q|
  {
    seq(|q|, i requires 0 <= i < |q| => q[i].(task := q[i].task.(down := Hang(q[i].task.down, was, t))))
  }

  /** `then` before the result: a new promise, moved into the function object and with it into the continuation,
      and the future got from it before those moves. */
  function ThenLater(s: Chain, f: Func): Chain {
    var a := s.next;
    var made := Promise(a, Some(a + 1), Some(Waiting), None);
    var got := Future(a + 1, Some(a), Waiting);
    var moved := made.(addr := a + 2);
    var held := moved.(addr := a + 3);
    var t := Task(|s.funcs|, held);
    s.(next := a + 4, funcs := s.funcs + [f], last := Retarget(Retarget(got, moved), held),
       source := if s.source.Some? then Some(Hang(s.source.value, s.last.addr, t)) else None,
       queue := HangAll(s.queue, s.last.addr, t))
  }

  function Take(s: Chain, e: Event): Chain
    requires Legal(s, e)
  {
    match e
    case Set(o) => SetSource(s, o)
    case Then(f) => if Seen(s).Done? then ThenNow(s, f, Seen(s).outcome) else ThenLater(s, f)
    case MoveP => MovePromise(s)
    case MoveF => MoveFuture(s)
    case Drop => s.(source := None, last := Abandoned(s.last, s.source.value))
    case Execute => Run(s.(queue := s.queue[1..]), s.queue[0].task, s.queue[0].outcome)
  }

  // ---------- Runs ----------

  /** A promise and the future got from it. */
  function Initial(): Chain {
    Chain(2, Some(Promise(0, Some(1), Some(Waiting), None)), Future(1, Some(0), Waiting), [], [], [])
  }

  predicate IsRun(es: seq<Event>)
    decreases |es|, 0
  {
    es == [] || (IsRun(es[..|es| - 1]) && Legal(After(es[..|es| - 1]), es[|es| - 1]))
  }

  function After(es: seq<Event>): Chain
    requires IsRun(es)
    decreases |es|, 1
  {
    if es == [] then Initial() else Take(After(es[..|es| - 1]), es[|es| - 1])
  }

  /** What the promises were set to, in order. */
  function Answers(es: seq<Event>): seq<Outcome> {
    if es == [] then []
    else Answers(es[..|es| - 1]) + if es[|es| - 1].Set? then [es[|es| - 1].outcome] else []
  }

  // ---------- The meaning of a chain ----------

  /** What a chain of functions has come to with the answers given so far: an outcome, if it is known, and how many
      answers were used. */
  datatype Result = Result(outcome: Option<Outcome>, used: nat)

  function Ask(answers: seq<Outcome>, used: nat): Result {
    if used < |answers| then Result(Some(answers[used]), used + 1) else Result(None, used)
  }

  function Apply(f: Func, r: Result, answers: seq<Outcome>): Result {
    if r.outcome == None || r.outcome.value.Failed? then r
    else
      match f(r.outcome.value.value)
      case Now(o) => Result(Some(o), r.used)
      case Later => Ask(answers, r.used)
  }

  /** One function after another, up to the first exception or the first answer that is missing. */
  function Compose(answers: seq<Outcome>, fs: seq<Func>): Result {
    if fs == [] then Ask(answers, 0)
    else Apply(fs[|fs| - 1], Compose(answers, fs[..|fs| - 1]), answers)
  }

  predicate GetsValue(answers: seq<Outcome>, fs: seq<Func>, i: nat)
    requires i <= |fs|
  {
    var r := Compose(answers, fs[..i]);
    r.outcome.Some? && r.outcome.value.Ok?
  }

  /** The numbers of the functions among the first k that get a value. */
  function Called(answers: seq<Outcome>, fs: seq<Func>, k: nat): (c: seq<nat>)
    requires k <= |fs|
  {
    if k == 0 then []
    else Called(answers, fs, k - 1) + if GetsValue(answers, fs, k - 1) then [k - 1] else []
  }

  lemma ComposeTake(answers: seq<Outcome>, fs: seq<Func>, k: nat)
    requires k < |fs|
    ensures Compose(answers, fs[..k + 1]) == Apply(fs[k], Compose(answers, fs[..k]), answers)
  {
    assert fs[..k + 1][..k] == fs[..k];
  }

  /** More functions do not change what the first ones make. */
  lemma {:induction false} CalledMore(answers: seq<Outcome>, fs: seq<Func>, f: Func, k: nat)
    requires k <= |fs|
    ensures (fs + [f])[..k] == fs[..k] && Called(answers, fs + [f], k) == Called(answers, fs, k)
  {
    if k > 0 {
      CalledMore(answers, fs, f, k - 1);
    }
  }

  /** Once nothing is known, it stays so. */
  lemma {:induction false} StaysUnknown(answers: seq<Outcome>, fs: seq<Func>, k: nat)
    requires k <= |fs| && Compose(answers, fs[..k]).outcome == None
    ensures Compose(answers, fs) == Compose(answers, fs[..k]) && Called(answers, fs, |fs|) == Called(answers, fs, k)
    decreases |fs| - k
  {
    if k < |fs| {
      ComposeTake(answers, fs, k);
      StaysUnknown(answers, fs, k + 1);
    } else {
      assert fs[..k] == fs;
    }
  }

  /** An answer that comes later changes nothing that was known. */
  lemma {:induction false} KnownStays(answers: seq<Outcome>, fs: seq<Func>, o: Outcome)
    requires Compose(answers, fs).outcome.Some?
    ensures Compose(answers + [o], fs) == Compose(answers, fs)
  {
    if fs != [] {
      KnownStays(answers, fs[..|fs| - 1], o);
    }
  }

  /** The first k functions come to nothing yet, for want of the next answer. */
  predicate Stuck(answers: seq<Outcome>, fs: seq<Func>, k: nat)
    requires k <= |fs|
  {
    && Compose(answers, fs[..k]) == Result(None, |answers|)
    && (k > 0 ==> Compose(answers, fs[..k - 1]).outcome.Some?)
  }

  lemma AnswerComes(answers: seq<Outcome>, fs: seq<Func>, k: nat, o: Outcome)
    requires k <= |fs| && Stuck(answers, fs, k)
    ensures Compose(answers + [o], fs[..k]) == Result(Some(o), |answers| + 1)
    ensures Called(answers + [o], fs, k) == Called(answers, fs, k)
  {
    if k > 0 {
      ComposeTake(answers, fs, k - 1);
      ComposeTake(answers + [o], fs, k - 1);
      KnownStays(answers, fs[..k - 1], o);
      CalledStays(answers, fs, k - 1, o);
    }
  }

  lemma {:induction false} CalledStays(answers: seq<Outcome>, fs: seq<Func>, k: nat, o: Outcome)
    requires k <= |fs| && Compose(answers, fs[..k]).outcome.Some?
    ensures Called(answers + [o], fs, k) == Called(answers, fs, k)
  {
    if k > 0 {
      ComposeTake(answers, fs, k - 1);
      CalledStays(answers, fs, k - 1, o);
      KnownStays(answers, fs[..k - 1], o);
    }
  }

  // ---------- The invariant ----------

  /** The promises from p down: those of the functions k to n - 1, and at the end the one with the future f. */
  predicate Nest(p: Promise, k: nat, n: nat, f: Future) {
    && p.state == Some(Waiting)
    && match p.task
       case None => k == n && p.future == Some(f.addr) && f.promise == Some(p.addr)
       case Some(t) => p.future == None && t.func == k < n && Nest(t.down, k + 1, n, f)
  }

  /** A promise that has done its work. */
  predicate Spent(p: Option<Promise>) {
    p.Some? ==> p.value.future == None && p.value.task == None && p.value.state != Some(Waiting)
  }

  /** The promise to be set next stands for function k - 1, or for none. */
  predicate Unset(s: Chain, answers: seq<Outcome>, k: nat) {
    && k <= |s.funcs| && s.source.Some? && Nest(s.source.value, k, |s.funcs|, s.last)
    && s.queue == [] && Stuck(answers, s.funcs, k) && s.calls == Called(answers, s.funcs, k)
  }

  predicate Reached(s: Chain, answers: seq<Outcome>, k: nat, o: Outcome) {
    && k <= |s.funcs| && Compose(answers, s.funcs[..k]) == Result(Some(o), |answers|)
    && s.calls == Called(answers, s.funcs, k)
  }

  /** The result is known up to function k, whose continuation is posted. */
  predicate Running(s: Chain, answers: seq<Outcome>) {
    && |s.queue| == 1 && Spent(s.source)
    && var t := s.queue[0].task;
       && t.func < |s.funcs| && Nest(t.down, t.func + 1, |s.funcs|, s.last)
       && Reached(s, answers, t.func, s.queue[0].outcome)
  }

  predicate Ready(s: Chain, answers: seq<Outcome>) {
    && s.queue == [] && Spent(s.source) && s.last.promise == None && s.last.local.Done?
    && Reached(s, answers, |s.funcs|, s.last.local.outcome)
  }

  /** Set, with the last future still attached. */
  predicate Held(s: Chain, answers: seq<Outcome>) {
    && s.queue == [] && s.source.Some?
    && var p := s.source.value;
       && p.task == None && p.future == Some(s.last.addr) && s.last.promise == Some(p.addr)
       && p.state.Some? && p.state.value.Done? && Reached(s, answers, |s.funcs|, p.state.value.outcome)
  }

  predicate Fresh(s: Chain) {
    && s.last.addr < s.next && (s.last.promise.Some? ==> s.last.promise.value < s.next)
    && (s.source.Some? ==> s.source.value.addr < s.next)
    && (s.source.Some? && s.source.value.future == None ==> s.last.promise != Some(s.source.value.addr))
  }

  ghost predicate Awaiting(s: Chain, answers: seq<Outcome>) {
    exists k: nat :: Unset(s, answers, k)
  }

  ghost predicate Good(s: Chain, answers: seq<Outcome>) {
    Fresh(s) && (Awaiting(s, answers) || Running(s, answers) || Ready(s, answers) || Held(s, answers))
  }

  // ---------- Nests under the steps ----------

  lemma {:induction false} NestEnd(p: Promise, k: nat, n: nat, f: Future)
    requires Nest(p, k, n, f)
    ensures f.promise == Some(End(p).addr) && End(p).state == Some(Waiting) && End(p).future == Some(f.addr)
    ensures k <= n
  {
    if p.task.Some? {
      NestEnd(p.task.value.down, k + 1, n, f);
    }
  }

  lemma {:induction false} NestReattached(p: Promise, k: nat, n: nat, f: Future, addr: nat)
    requires Nest(p, k, n, f)
    ensures Nest(Reattach(p, f.addr, addr), k, n, f.(addr := addr))
  {
    if p.task.Some? {
      NestReattached(p.task.value.down, k + 1, n, f, addr);
    }
  }

  lemma {:induction false} NestHung(p: Promise, k: nat, n: nat, f: Future, held: Promise, f': Future)
    requires Nest(p, k, n, f) && Nest(held, n + 1, n + 1, f')
    ensures Nest(Hang(p, f.addr, Task(n, held)), k, n + 1, f')
    ensures Hang(p, f.addr, Task(n, held)).addr == p.addr
  {
    if p.task.Some? {
      NestHung(p.task.value.down, k + 1, n, f, held, f');
    }
  }

  // ---------- Every step keeps the invariant ----------

  predicate Between(s: Chain) {
    Fresh(s) && s.queue == [] && Spent(s.source)
  }

  /** When function k - 1 is done, the rest of the nest takes over, or the future becomes ready. */
  lemma {:induction false} SettleKeeps(s: Chain, answers: seq<Outcome>, p: Promise, k: nat, r: Outcome, urgent: bool)
    requires Between(s) && Reached(s, answers, k, r) && Nest(p, k, |s.funcs|, s.last)
    ensures Good(Settle(s, p, r, urgent), answers)
    decreases p, 1
  {
    match p.task
    case None => assert Ready(Settle(s, p, r, urgent), answers);
    case Some(t) =>
      if urgent {
        RunKeeps(s, answers, t, r);
      } else {
        assert Running(Settle(s, p, r, urgent), answers);
      }
  }

  lemma {:induction false} RunKeeps(s: Chain, answers: seq<Outcome>, t: Task, r: Outcome)
    requires Between(s) && t.func < |s.funcs| && Nest(t.down, t.func + 1, |s.funcs|, s.last)
    requires Reached(s, answers, t.func, r)
    ensures Good(Run(s, t, r), answers)
    decreases t, 0
  {
    var k := t.func;
    ComposeTake(answers, s.funcs, k);
    match r
    case Failed(_) => SettleKeeps(s, answers, t.down, k + 1, r, false);
    case Ok(v) =>
      var called := s.(calls := s.calls + [k]);
      match s.funcs[k](v)
      case Now(q) => SettleKeeps(called, answers, t.down, k + 1, q, q.Failed?);
      case Later => ForwardKeeps(called, answers, t.down, k + 1);
  }

  lemma ForwardKeeps(s: Chain, answers: seq<Outcome>, p: Promise, k: nat)
    requires Between(s) && k <= |s.funcs| && Nest(p, k, |s.funcs|, s.last)
    requires Stuck(answers, s.funcs, k) && s.calls == Called(answers, s.funcs, k)
    ensures Good(Forward(s, p), answers)
  {
    NestEnd(p, k, |s.funcs|, s.last);
    assert Unset(Forward(s, p), answers, k);
  }

  lemma SetKeeps(s: Chain, answers: seq<Outcome>, k: nat, o: Outcome)
    requires Fresh(s) && Unset(s, answers, k)
    ensures Good(SetSource(s, o), answers + [o])
  {
    var p, r := s.source.value, SetSource(s, o);
    AnswerComes(answers, s.funcs, k, o);
    if p.task.Some? {
      assert Running(r, answers + [o]);
    } else {
      assert Held(r, answers + [o]);
    }
  }

  /** A program sees the outcome of the chain or nothing. */
  lemma SeenIs(s: Chain, answers: seq<Outcome>)
    requires Good(s, answers)
    ensures Awaiting(s, answers) || Running(s, answers) ==> Seen(s) == Waiting
    ensures Seen(s) == Waiting ==> Awaiting(s, answers) || Running(s, answers)
    ensures Seen(s) != Waiting ==> Seen(s).Done? && Reached(s, answers, |s.funcs|, Seen(s).outcome)
  {
    if k: nat :| Unset(s, answers, k) {
      NestEnd(s.source.value, k, |s.funcs|, s.last);
    }
    if Running(s, answers) {
      NestEnd(s.queue[0].task.down, s.queue[0].task.func + 1, |s.funcs|, s.last);
    }
  }

  /** What one more function makes of a known result. */
  lemma ComposeMore(answers: seq<Outcome>, fs: seq<Func>, f: Func)
    ensures Compose(answers, fs + [f]) == Apply(f, Compose(answers, fs), answers)
  {
    assert (fs + [f])[..|fs|] == fs;
  }

  lemma CalledOneMore(answers: seq<Outcome>, fs: seq<Func>, f: Func)
    ensures Called(answers, fs + [f], |fs| + 1)
         == Called(answers, fs, |fs|) + if GetsValue(answers, fs, |fs|) then [|fs|] else []
  {
    CalledMore(answers, fs, f, |fs|);
  }

  lemma OneMore(answers: seq<Outcome>, fs: seq<Func>, f: Func, o: Outcome)
    requires Compose(answers, fs) == Result(Some(o), |answers|)
    ensures Compose(answers, fs + [f]) == Apply(f, Result(Some(o), |answers|), answers)
    ensures Called(answers, fs + [f], |fs| + 1) == Called(answers, fs, |fs|) + if o.Ok? then [|fs|] else []
    ensures (fs + [f])[..|fs| + 1] == fs + [f] && Compose(answers, (fs + [f])[..|fs|]) == Result(Some(o), |answers|)
  {
    TakeAll(fs, |fs|);
    TakeAll(fs + [f], |fs| + 1);
    CalledMore(answers, fs, f, |fs|);
    ComposeMore(answers, fs, f);
    CalledOneMore(answers, fs, f);
  }

  lemma TakeAll<T>(s: seq<T>, n: nat)
    requires n == |s|
    ensures s[..n] == s
  {
  }

  lemma ThenNowKeeps(s: Chain, f: Func, answers: seq<Outcome>, o: Outcome)
    requires Fresh(s) && (Ready(s, answers) || Held(s, answers))
    requires Compose(answers, s.funcs) == Result(Some(o), |answers|) && s.calls == Called(answers, s.funcs, |s.funcs|)
    ensures Good(ThenNow(s, f, o), answers)
  {
    var r := ThenNow(s, f, o);
    OneMore(answers, s.funcs, f, o);
    if o.Ok? && f(o.value).Later? {
      assert Unset(r, answers, |s.funcs| + 1);
    } else {
      assert Ready(r, answers);
    }
  }

  lemma HungWhileUnset(s: Chain, f: Func, answers: seq<Outcome>, k: nat)
    requires Fresh(s) && Unset(s, answers, k)
    ensures Unset(ThenLater(s, f), answers, k)
  {
    var r, n := ThenLater(s, f), |s.funcs|;
    var held := Promise(s.next + 3, Some(s.next + 1), Some(Waiting), None);
    NestHung(s.source.value, k, n, s.last, held, r.last);
    CalledMore(answers, s.funcs, f, k);
    if k > 0 {
      CalledMore(answers, s.funcs, f, k - 1);
    }
  }

  lemma HungWhileRunning(s: Chain, f: Func, answers: seq<Outcome>)
    requires Fresh(s) && Running(s, answers)
    ensures Running(ThenLater(s, f), answers)
  {
    var r, n, t := ThenLater(s, f), |s.funcs|, s.queue[0].task;
    var held := Promise(s.next + 3, Some(s.next + 1), Some(Waiting), None);
    NestHung(t.down, t.func + 1, n, s.last, held, r.last);
    CalledMore(answers, s.funcs, f, t.func);
  }

  lemma ThenLaterKeeps(s: Chain, f: Func, answers: seq<Outcome>)
    requires Good(s, answers) && (Awaiting(s, answers) || Running(s, answers))
    ensures Good(ThenLater(s, f), answers)
  {
    if k: nat :| Unset(s, answers, k) {
      HungWhileUnset(s, f, answers, k);
    } else {
      HungWhileRunning(s, f, answers);
    }
  }

  lemma MoveFutureKeeps(s: Chain, answers: seq<Outcome>)
    requires Good(s, answers)
    ensures Good(MoveFuture(s), answers)
  {
    var r := MoveFuture(s);
    if k: nat :| Unset(s, answers, k) {
      NestEnd(s.source.value, k, |s.funcs|, s.last);
      NestReattached(s.source.value, k, |s.funcs|, s.last, s.next);
      assert Unset(r, answers, k);
    } else if Running(s, answers) {
      var t := s.queue[0].task;
      NestEnd(t.down, t.func + 1, |s.funcs|, s.last);
      NestReattached(t.down, t.func + 1, |s.funcs|, s.last, s.next);
      assert Running(r, answers);
    } else if Ready(s, answers) {
      assert Ready(r, answers);
    } else {
      assert Held(r, answers);
    }
  }

  lemma MovePromiseKeeps(s: Chain, answers: seq<Outcome>)
    requires Good(s, answers) && s.source.Some?
    ensures Good(MovePromise(s), answers)
  {
    var r := MovePromise(s);
    if k: nat :| Unset(s, answers, k) {
      NestEnd(s.source.value, k, |s.funcs|, s.last);
      assert Unset(r, answers, k);
    } else if Running(s, answers) {
      assert Running(r, answers);
    } else if Ready(s, answers) {
      assert Ready(r, answers);
    } else {
      assert Held(r, answers);
    }
  }

  lemma DropKeeps(s: Chain, answers: seq<Outcome>)
    requires Good(s, answers) && Legal(s, Drop)
    ensures Good(Take(s, Drop), answers)
  {
    var r := Take(s, Drop);
    if Running(s, answers) {
      assert Running(r, answers);
    } else {
      assert Ready(r, answers);
    }
  }

  lemma ExecuteKeeps(s: Chain, answers: seq<Outcome>)
    requires Good(s, answers) && Legal(s, Execute)
    ensures Good(Take(s, Execute), answers)
  {
    RunKeeps(s.(queue := s.queue[1..]), answers, s.queue[0].task, s.queue[0].outcome);
  }

  lemma StepKeeps(s: Chain, answers: seq<Outcome>, e: Event)
    requires Good(s, answers) && Legal(s, e)
    ensures Good(Take(s, e), if e.Set? then answers + [e.outcome] else answers)
  {
    match e
    case Set(o) =>
      var k: nat :| Unset(s, answers, k);
      SetKeeps(s, answers, k, o);
    case Then(f) =>
      SeenIs(s, answers);
      if Seen(s).Done? {
        assert s.funcs[..|s.funcs|] == s.funcs;
        ThenNowKeeps(s, f, answers, Seen(s).outcome);
      } else {
        ThenLaterKeeps(s, f, answers);
      }
    case MoveP => MovePromiseKeeps(s, answers);
    case MoveF => MoveFutureKeeps(s, answers);
    case Drop => DropKeeps(s, answers);
    case Execute => ExecuteKeeps(s, answers);
  }

  // ---------- All runs ----------

  lemma {:induction false} RunKeepsGood(es: seq<Event>)
    requires IsRun(es)
    ensures Good(After(es), Answers(es))
  {
    if es == [] {
      assert Unset(Initial(), [], 0);
    } else {
      RunKeepsGood(es[..|es| - 1]);
      StepKeeps(After(es[..|es| - 1]), Answers(es[..|es| - 1]), es[|es| - 1]);
      assert Answers(es[..|es| - 1]) + [] == Answers(es[..|es| - 1]);
    }
  }

  /** Whatever the order of setting, attaching, moving and running tasks: a result that is seen is the composition
      of the functions, and with no task left to run nothing is seen only while an answer is missing. */
  lemma ChainComposes(es: seq<Event>)
    requires IsRun(es)
    ensures var s, r := After(es), Compose(Answers(es), After(es).funcs);
            && (Seen(s) == Waiting || (Seen(s).Done? && r.outcome == Some(Seen(s).outcome)))
            && (s.queue == [] ==> (Seen(s) == Waiting <==> r.outcome == None))
  {
    var s := After(es);
    RunKeepsGood(es);
    SeenIs(s, Answers(es));
    assert s.funcs[..|s.funcs|] == s.funcs;
    if k: nat :| Unset(s, Answers(es), k) {
      StaysUnknown(Answers(es), s.funcs, k);
    }
  }

  lemma {:induction false} CalledIs(answers: seq<Outcome>, fs: seq<Func>, k: nat)
    requires k <= |fs|
    ensures forall i, j :: 0 <= i < j < |Called(answers, fs, k)| ==>
              Called(answers, fs, k)[i] < Called(answers, fs, k)[j]
    ensures forall i :: 0 <= i < |Called(answers, fs, k)| ==> Called(answers, fs, k)[i] < k
    ensures forall i: nat :: i in Called(answers, fs, k) <==> i < k && GetsValue(answers, fs, i)
  {
    if k > 0 {
      CalledIs(answers, fs, k - 1);
    }
  }

  /** Functions run in order, each at most once, and only on the value that the ones before it made: none runs after
      an exception. With no task left to run, every function that gets a value has run. */
  lemma EachRunsOnce(es: seq<Event>)
    requires IsRun(es)
    ensures forall i, j :: 0 <= i < j < |After(es).calls| ==> After(es).calls[i] < After(es).calls[j]
    ensures forall i: nat :: i in After(es).calls ==>
              i < |After(es).funcs| && GetsValue(Answers(es), After(es).funcs, i)
    ensures After(es).queue == [] ==>
      forall i: nat :: i < |After(es).funcs| && GetsValue(Answers(es), After(es).funcs, i) ==> i in After(es).calls
  {
    var s, answers := After(es), Answers(es);
    RunKeepsGood(es);
    var k: nat;
    if k': nat :| Unset(s, answers, k') {
      k := k';
      StaysUnknown(answers, s.funcs, k);
      CalledIs(answers, s.funcs, |s.funcs|);
    } else if Running(s, answers) {
      k := s.queue[0].task.func;
    } else {
      k := |s.funcs|;
    }
    CalledIs(answers, s.funcs, k);
  }

  /** The promises that a chain holds: the program's, and those that continuations hold. */
  ghost predicate Within(p: Promise, q: Promise)
    decreases q
  {
    p == q || (q.task.Some? && Within(p, q.task.value.down))
  }

  ghost predicate HeldBy(p: Promise, s: Chain) {
    || (s.source.Some? && Within(p, s.source.value))
    || (exists i :: 0 <= i < |s.queue| && Within(p, s.queue[i].task.down))
  }

  lemma {:induction false} NestPointers(p: Promise, q: Promise, k: nat, n: nat, f: Future)
    requires Nest(q, k, n, f) && Within(p, q) && p.future.Some?
    ensures p.future == Some(f.addr) && f.promise == Some(p.addr)
    decreases q
  {
    if p != q {
      NestPointers(p, q.task.value.down, k + 1, n, f);
    }
  }

  lemma {:induction false} EndWithin(q: Promise)
    ensures Within(End(q), q)
    decreases q
  {
    if q.task.Some? {
      EndWithin(q.task.value.down);
    }
  }

  /** In every reachable state the pointers are symmetric: a promise that points to a future points to the last one
      and is pointed back to, and a promise that the last future points to is held somewhere and points back. */
  lemma PointersSymmetric(es: seq<Event>, p: Promise)
    requires IsRun(es)
    ensures HeldBy(p, After(es)) && p.future.Some? ==>
      p.future == Some(After(es).last.addr) && After(es).last.promise == Some(p.addr)
    ensures After(es).last.promise.Some? ==>
      exists q: Promise :: HeldBy(q, After(es)) && q.future == Some(After(es).last.addr)
                           && After(es).last.promise == Some(q.addr)
  {
    var s, answers := After(es), Answers(es);
    RunKeepsGood(es);
    if k: nat :| Unset(s, answers, k) {
      UnsetPointers(s, answers, k, p);
    } else if Running(s, answers) {
      RunningPointers(s, answers, p);
    } else if s.source.Some? {
      EndWithin(s.source.value);
      assert HeldBy(s.source.value, s);
    }
  }

  lemma UnsetPointers(s: Chain, answers: seq<Outcome>, k: nat, p: Promise)
    requires Unset(s, answers, k)
    ensures HeldBy(p, s) && p.future.Some? ==> p.future == Some(s.last.addr) && s.last.promise == Some(p.addr)
    ensures exists q: Promise :: HeldBy(q, s) && q.future == Some(s.last.addr) && s.last.promise == Some(q.addr)
  {
    var q := s.source.value;
    NestEnd(q, k, |s.funcs|, s.last);
    EndWithin(q);
    assert HeldBy(End(q), s);
    if HeldBy(p, s) && p.future.Some? {
      NestPointers(p, q, k, |s.funcs|, s.last);
    }
  }

  lemma RunningPointers(s: Chain, answers: seq<Outcome>, p: Promise)
    requires Running(s, answers)
    ensures HeldBy(p, s) && p.future.Some? ==> p.future == Some(s.last.addr) && s.last.promise == Some(p.addr)
    ensures exists q: Promise :: HeldBy(q, s) && q.future == Some(s.last.addr) && s.last.promise == Some(q.addr)
  {
    var t := s.queue[0].task;
    NestEnd(t.down, t.func + 1, |s.funcs|, s.last);
    EndWithin(t.down);
    assert HeldBy(End(t.down), s);
    if HeldBy(p, s) && p.future.Some? {
      if Within(p, t.down) {
        NestPointers(p, t.down, t.func + 1, |s.funcs|, s.last);
      }
    }
  }

  // ---------- Progress ----------

  /** The functions that the posted task and those after it still stand for. */
  function Left(s: Chain): nat {
    if s.queue == [] then 0 else if s.queue[0].task.func < |s.funcs| then |s.funcs| - s.queue[0].task.func else 0
  }

  lemma {:induction false} SettleShrinks(s: Chain, p: Promise, k: nat, r: Outcome, urgent: bool)
    requires s.queue == [] && k <= |s.funcs| && Nest(p, k, |s.funcs|, s.last)
    ensures Left(Settle(s, p, r, urgent)) <= |s.funcs| - k && Settle(s, p, r, urgent).funcs == s.funcs
    decreases p, 1
  {
    match p.task
    case None =>
    case Some(t) => if urgent { RunShrinks(s, t, r); }
  }

  lemma {:induction false} RunShrinks(s: Chain, t: Task, r: Outcome)
    requires s.queue == [] && t.func < |s.funcs| && Nest(t.down, t.func + 1, |s.funcs|, s.last)
    ensures Left(Run(s, t, r)) < |s.funcs| - t.func && Run(s, t, r).funcs == s.funcs
    decreases t, 0
  {
    var k := t.func;
    match r
    case Failed(_) => SettleShrinks(s, t.down, k + 1, r, false);
    case Ok(v) =>
      match s.funcs[k](v)
      case Now(q) => SettleShrinks(s.(calls := s.calls + [k]), t.down, k + 1, q, q.Failed?);
      case Later =>
  }

  /** Executing a task leaves fewer functions to run: the event loop comes to rest. */
  lemma ExecutingEnds(es: seq<Event>)
    requires IsRun(es) && After(es).queue != []
    ensures Left(After(es)) > 0 && Left(Take(After(es), Execute)) < Left(After(es))
  {
    var s := After(es);
    RunKeepsGood(es);
    RunShrinks(s.(queue := s.queue[1..]), s.queue[0].task, s.queue[0].outcome);
  }

  // ---------- What a step does at once ----------

  /** The continuation of function d is posted with this outcome; without such a function the last future has it. */
  predicate Passed(s: Chain, d: nat, o: Outcome) {
    if d < |s.funcs| then |s.queue| == 1 && s.queue[0].task.func == d && s.queue[0].outcome == o
    else s.queue == [] && Seen(s) == Done(o)
  }

  lemma SettlePasses(s: Chain, p: Promise, k: nat, o: Outcome)
    requires s.queue == [] && k <= |s.funcs| && Nest(p, k, |s.funcs|, s.last)
    ensures Passed(Settle(s, p, o, false), k, o) && Settle(s, p, o, false).calls == s.calls
  {
  }

  lemma ThrowPasses(s: Chain, p: Promise, k: nat, o: Outcome)
    requires s.queue == [] && k <= |s.funcs| && Nest(p, k, |s.funcs|, s.last) && o.Failed?
    ensures Passed(Settle(s, p, o, true), if k < |s.funcs| then k + 1 else k, o)
    ensures Settle(s, p, o, true).calls == s.calls
  {
    if p.task.Some? {
      SettlePasses(s, p.task.value.down, k + 1, o);
    } else {
      SettlePasses(s, p, k, o);
    }
  }

  /** What a posted task leaves, given its outcome, and what its function replies to a value. */
  predicate Ran(s: Chain, w: Chain, k: nat, o: Outcome)
    requires k < |s.funcs|
  {
    && w.calls == (if o.Ok? then s.calls + [k] else s.calls)
    && if o.Failed? then Passed(w, k + 1, o)
       else
         var reply := s.funcs[k](o.value);
         if reply.Later? then w.queue == [] && w.source.Some? && w.source.value.state == Some(Waiting)
         else if reply.outcome.Ok? then Passed(w, k + 1, reply.outcome)
         else Passed(w, if k + 1 < |s.funcs| then k + 2 else k + 1, reply.outcome)
  }

  lemma RunPasses(s: Chain, t: Task, o: Outcome)
    requires s.queue == [] && t.func < |s.funcs| && Nest(t.down, t.func + 1, |s.funcs|, s.last)
    ensures Ran(s, Run(s, t, o), t.func, o)
  {
    var k := t.func;
    match o
    case Failed(_) => SettlePasses(s, t.down, k + 1, o);
    case Ok(v) =>
      var called := s.(calls := s.calls + [k]);
      NestEnd(t.down, k + 1, |s.funcs|, s.last);
      match s.funcs[k](v)
      case Now(r) =>
        if r.Ok? {
          SettlePasses(called, t.down, k + 1, r);
        } else {
          ThrowPasses(called, t.down, k + 1, r);
        }
      case Later =>
  }

  /** Executing a posted task calls its function, if it has a value for it, and no other. The next continuation is
      posted with the outcome, or with the exception that was passed on; an exception that the function throws
      passes over the next function at once. A promise that is still to be set is left for the program to set. */
  lemma Executed(es: seq<Event>)
    requires IsRun(es) && After(es).queue != []
    ensures After(es).queue[0].task.func < |After(es).funcs| && Take(After(es), Execute).funcs == After(es).funcs
    ensures Ran(After(es), Take(After(es), Execute), After(es).queue[0].task.func, After(es).queue[0].outcome)
  {
    var s := After(es);
    RunKeepsGood(es);
    var rest, t, o := s.(queue := s.queue[1..]), s.queue[0].task, s.queue[0].outcome;
    RunPasses(rest, t, o);
    RunShrinks(rest, t, o);
  }

  /** Setting a promise calls nothing: a continuation that waits for it is posted, or else the future has the
      outcome. */
  lemma SetPosts(es: seq<Event>, o: Outcome)
    requires IsRun(es) && Legal(After(es), Set(o))
    ensures var (s, w) := (After(es), Take(After(es), Set(o)));
            && w.calls == s.calls && w.funcs == s.funcs && s.queue == []
            && match s.source.value.task
               case None => w.queue == [] && Seen(w) == Done(o)
               case Some(t) => w.queue == [Posted(t, o)] && t.func < |s.funcs| && Seen(w) == Waiting
  {
    var s, answers := After(es), Answers(es);
    RunKeepsGood(es);
    var k: nat :| Unset(s, answers, k);
    NestEnd(s.source.value, k, |s.funcs|, s.last);
    if s.source.value.task.Some? {
      NestEnd(s.source.value.task.value.down, k + 1, |s.funcs|, s.last);
    }
  }

  /** A move gives the promise or the future an address that nothing had before, and changes nothing that is seen. */
  lemma NewAddress(es: seq<Event>, e: Event)
    requires IsRun(es) && Legal(After(es), e) && (e.MoveP? || e.MoveF?)
    ensures var (s, w) := (After(es), Take(After(es), e));
            && Seen(w) == Seen(s) && w.calls == s.calls && w.funcs == s.funcs && |w.queue| == |s.queue|
            && (forall i :: 0 <= i < |s.queue| ==> w.queue[i].outcome == s.queue[i].outcome)
            && s.last.addr < s.next && (s.source.Some? ==> s.source.value.addr < s.next)
            && if e.MoveP? then s.next <= w.source.value.addr < w.next && w.last.addr == s.last.addr
               else s.next <= w.last.addr < w.next && (s.source.Some? ==> w.source.value.addr == s.source.value.addr)
  {
    var s := After(es);
    RunKeepsGood(es);
    StepKeeps(s, Answers(es), e);
    SeenIs(s, Answers(es));
    SeenIs(Take(s, e), Answers(es));
  }
}
