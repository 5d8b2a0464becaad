/** The promise and future objects themselves (include/aegis/futures.hpp): what each method does to the pointers
    between them and to the states they own. Futures tells what chains of these steps come to. */
module Handles {
  import opened Futures

  /** future_state. */
  class State {
    var cell: Cell

    constructor ()
      ensures cell == Waiting
    {
      cell := Waiting;
    }

    method Set(o: Outcome)
      requires cell == Waiting
      modifies this
      ensures cell == Done(o)
    {
      cell := Done(o);
    }

    /** The move assignment of future_state. */
    method MoveFrom(x: State)
      modifies this, x
      ensures cell == old(x.cell) && (x != this ==> x.cell == Moved)
    {
      if this != x {
        cell := x.cell;
        x.cell := Moved;
      }
    }
  }

  /** A continuation: its function, the promise of the future that `then` returned, and the state that the
      function is to be given. */
  class Continuation {
    const func: nat
    const down: Promise?
    const state: State

    constructor (func: nat, down: Promise?)
      ensures this.func == func && this.down == down && fresh(state) && state.cell == Waiting
    {
      this.func, this.down := func, down;
      state := new State();
    }
  }

  class Promise {
    var future: Future?
    const local: State
    var state: State?
    var task: Continuation?

    /** The pointers between a promise and its future agree; a task has taken the place of the future. */
    ghost predicate Valid()
      reads this, future
    {
      && (future != null ==> future.promise == this && task == null && state == local && future.local != local)
      && (task != null ==> state == task.state && task.state != local)
    }

    constructor ()
      ensures Valid() && future == null && task == null && state == local && local.cell == Waiting
      ensures fresh(local)
    {
      local := new State();
      state := local;
      future, task := null, null;
    }

    method GetFuture() returns (f: Future)
      requires Valid() && future == null && state == local && task == null
      modifies `future
      ensures Valid() && fresh(f) && future == f && f.Valid()
    {
      f := new Future.Of(this);
      future := f;
    }

    /** The move constructor: the future, if there is one, is told of the new address. */
    constructor MovedFrom(x: Promise)
      requires x.Valid()
      modifies x, x.local, x.future
      ensures Valid() && x.Valid() && x.future == null && x.state == null && x.task == null
      ensures future == old(x.future) && task == old(x.task) && fresh(local)
      ensures old(x.state) == x.local ==> state == local && local.cell == old(x.local.cell) && x.local.cell == Moved
      ensures old(x.state) != x.local ==> state == old(x.state) && x.local.cell == old(x.local.cell)
    {
      local := new State();
      future, state, task := x.future, x.state, x.task;
      new;
      if future != null {
        future.promise := this;
      }
      if state == x.local {
        state := local;
        local.MoveFrom(x.local);
      }
      x.future, x.state, x.task := null, null, null;
    }

    /** set_value and set_exception; the task that was waiting is handed out to be posted or run. */
    method SetOutcome(o: Outcome) returns (ready: Continuation?)
      requires Valid() && state != null && state.cell == Waiting
      modifies `state, `task, state
      ensures Valid() && old(state).cell == Done(o) && future == old(future)
      ensures ready == old(task) && task == null && state == if ready == null then old(state) else null
      ensures ready != null ==> ready.state.cell == Done(o)
    {
      state.Set(o);
      ready := task;
      if task != null {
        state, task := null, null;
      }
    }

    /** A continuation takes the place of the local state. */
    method Schedule(func: nat, down: Promise?)
      requires Valid()
      modifies `state, `task
      ensures task != null && fresh(task) && task.func == func && task.down == down
      ensures state == task.state && state.cell == Waiting && fresh(state)
    {
      task := new Continuation(func, down);
      state := task.state;
    }

    /** What the destructor does: the state goes to the future. */
    method Abandoned()
      requires Valid()
      modifies future, if future == null then {} else {future.local, local}
      ensures future != null ==>
                future.promise == null && future.local.cell == old(local.cell) && local.cell == Moved
    {
      if future != null {
        future.local.MoveFrom(state);
        future.promise := null;
      }
    }
  }

  /** A continuation waits on a promise that no future is attached to. */
  ghost predicate Scheduled(p: Promise, func: nat, down: Promise?)
    reads p, p.future, if p.task == null then {} else {p.task.state}
  {
    && p.Valid() && p.future == null && p.task != null && p.task.func == func && p.task.down == down
    && p.state == p.task.state && p.task.state.cell == Waiting
  }

  class Future {
    var promise: Promise?
    const local: State

    /** The pointers between a future and its promise agree. */
    ghost predicate Valid()
      reads this, promise
    {
      promise != null ==> promise.future == this && promise.state == promise.local && promise.task == null
                          && local != promise.local
    }

    constructor Of(p: Promise)
      ensures promise == p && fresh(local) && local.cell == Waiting
    {
      promise := p;
      local := new State();
    }

    /** make_ready_future and make_exception_future. */
    constructor Ready(o: Outcome)
      ensures Valid() && promise == null && fresh(local) && local.cell == Done(o)
    {
      promise := null;
      local := new State();
      new;
      local.Set(o);
    }

    /** The state that state() gives. */
    ghost function Current(): State
      requires Valid()
      reads this, promise
    {
      if promise != null then promise.local else local
    }

    /** The move constructor: the promise, if there is one, is told of the new address. */
    constructor MovedFrom(x: Future)
      requires x.Valid() && (x.promise != null ==> x.promise.Valid())
      modifies x, x.local, x.promise
      ensures Valid() && x.promise == null && promise == old(x.promise) && fresh(local)
      ensures promise != null ==> promise.Valid() && promise.future == this && x.local.cell == old(x.local.cell)
      ensures promise == null ==> local.cell == old(x.local.cell) && x.local.cell == Moved
    {
      promise := x.promise;
      local := new State();
      new;
      if promise == null {
        local.MoveFrom(x.local);
      }
      x.promise := null;
      if promise != null {
        promise.future := this;
      }
    }

    method StateOf() returns (s: State)
      requires Valid()
      ensures s == Current()
    {
      if promise != null {
        s := promise.state;
      } else {
        s := local;
      }
    }

    /** Takes the state out and lets the promise go. */
    method GetAvailableState() returns (c: Cell)
      requires Valid() && (promise != null ==> promise.Valid())
      modifies this, promise, Current()
      ensures promise == null && Valid() && c == old(Current().cell) && old(Current()).cell == Moved
      ensures old(promise) != null ==> old(promise).Valid() && old(promise).future == null
    {
      var st := StateOf();
      if promise != null {
        promise.future := null;
        promise := null;
      }
      c := st.cell;
      st.cell := Moved;
    }

    /** When the result is there it is taken out, to be posted with the function; the future stays attached.
        Otherwise a continuation is scheduled on the promise, and the two let each other go. */
    method Schedule(func: nat, down: Promise?) returns (posted: Cell)
      requires Valid() && (promise != null ==> promise.Valid())
      requires Current().cell.Done? || promise != null
      modifies this, promise, Current()
      ensures Valid() && posted == (if old(Current().cell).Done? then old(Current().cell) else Waiting)
      ensures posted.Done? ==> promise == old(promise) && old(Current()).cell == Moved
      ensures posted.Done? && promise != null ==> promise.Valid()
      ensures !posted.Done? ==> promise == null && old(Current()).cell == old(Current().cell)
      ensures !posted.Done? ==> Scheduled(old(promise), func, down)
    {
      var st := StateOf();
      if st.cell.Done? {
        posted := st.cell;
        st.cell := Moved;
      } else {
        posted := Waiting;
        promise.Schedule(func, down);
        promise.future := null;
        promise := null;
      }
    }

    /** A result that is there is given to another promise, an exception urgently. A pending future is forwarded:
        its promise's place is taken by that promise, with that one's future or task. */
    method ForwardTo(pr: Promise) returns (taken: Promise?, ready: Continuation?)
      requires Valid() && (promise != null ==> promise.Valid()) && pr.Valid() && pr != promise && pr.future != this
      requires Current().cell.Done? || promise != null
      requires Current().cell.Done? ==> pr.state != null && pr.state != Current() && pr.state.cell == Waiting
      modifies this, promise, pr, pr.local, pr.future, pr.state, Current()
      ensures (taken == null) == old(Current().cell).Done?
      ensures taken == null ==>
                && promise == old(promise) && old(Current()).cell == Moved
                && pr.Valid() && ready == old(pr.task) && old(pr.state).cell == old(Current().cell)
                && (ready != null ==> ready.state.cell == old(Current().cell))
      ensures taken != null ==>
                && ready == null && promise == null && old(promise).future == null
                && taken.Valid() && taken.future == old(pr.future) && taken.task == old(pr.task)
                && pr.future == null && pr.task == null
                && (old(pr.state) == pr.local ==> taken.state == taken.local && taken.local.cell == old(pr.local.cell))
                && (old(pr.state) != pr.local ==> taken.state == old(pr.state))
    {
      var st := StateOf();
      taken, ready := null, null;
      if st.cell.Done? {
        ready := pr.SetOutcome(st.cell.outcome);
        st.cell := Moved;
      } else {
        promise.future := null;
        promise := null;
        taken := new Promise.MovedFrom(pr);
      }
    }

    /** The pending half of `then`: the future it returns belongs to a promise that is moved into the function
        object and with it into the continuation. */
    method ThenLater(func: nat) returns (fut: Future, held: Promise)
      requires Valid() && promise != null && promise.Valid() && !Current().cell.Done?
      modifies this, promise, Current()
      ensures Valid() && promise == null && fresh(fut) && fresh(held)
      ensures fut.Valid() && held.Valid() && fut.promise == held && held.future == fut && held.local.cell == Waiting
      ensures Scheduled(old(promise), func, held)
    {
      var pr := new Promise();
      fut := pr.GetFuture();
      var moved := new Promise.MovedFrom(pr);
      held := new Promise.MovedFrom(moved);
      var posted := Schedule(func, held);
    }

    /** `then` on a future whose result is there: an exception is passed on, a value given to the function at once. */
    method ThenNow(f: Func) returns (fut: Future)
      requires Valid() && (promise != null ==> promise.Valid()) && Current().cell.Done?
      modifies this, promise, Current()
      ensures Valid() && promise == null && old(Current()).cell == Moved
      ensures old(promise) != null ==> old(promise).Valid() && old(promise).future == null
      ensures fresh(fut) && fut.Valid()
      ensures var o := old(Current().cell).outcome;
              match if o.Failed? then Now(o) else f(o.value)
              case Now(q) => fut.promise == null && fut.local.cell == Done(q)
              case Later => fut.promise != null && fresh(fut.promise) && fut.promise.Valid()
                            && fut.promise.future == fut && fut.promise.local.cell == Waiting
    {
      var c := GetAvailableState();
      var reply := if c.outcome.Failed? then Now(c.outcome) else f(c.outcome.value);
      if reply.Now? {
        fut := new Future.Ready(reply.outcome);
      } else {
        var pr := new Promise();
        fut := pr.GetFuture();
      }
    }
  }
}
