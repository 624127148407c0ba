/**
 * The generator as the program runs it: a `Wrapper` whose fields are the handle and
 * the state of the coroutine frame it owns, changed in place by the body and by `get`,
 * and the process-wide `Harness`.  Every method is proved against the value model in
 * module `Coroutine`.
 */
module Eager {
  import opened Basics
  import opened Instrumentation
  import opened Coroutine

  /** A `wrapper` together with the coroutine frame its handle refers to. */
  class Wrapper {
    const harness: Harness
    const params: Params
    var handle: bool     // `handle != nullptr`
    var done: bool       // `handle.done()`
    var lastYield: int   // `handle.promise().last_yield`
    var i: int           // the body's loop variable

    ghost function State(): Coro
      reads this
    {
      if !handle then NoHandle else if done then Done else Suspended(i, lastYield)
    }

    ghost predicate Valid()
      reads this
    {
      WellFormed(State(), params)
    }

    /** `wrapper()`: a wrapper with a null handle. */
    constructor Empty(h: Harness)
      ensures harness == h && State() == NoHandle && Valid()
    {
      harness := h;
      params := Params(0, 0, None);
      handle := false;
      done := false;
      lastYield := NoValueCode;
      i := 0;
    }

    /**
     * The start of a call of `generator`: the frame and its promise are created, with
     * `last_yield` at `no_value`, and `get_return_object` wraps the handle.
     */
    constructor Ramp(h: Harness, p: Params)
      ensures harness == h && params == p
      ensures handle && !done && lastYield == NoValueCode && i == p.from
    {
      harness := h;
      params := p;
      handle := true;
      done := false;
      lastYield := NoValueCode;
      i := p.from;
    }

    /** `promise_type::yield_value`. */
    method YieldValue(v: int)
      modifies this`lastYield
      ensures lastYield == v
    {
      lastYield := v;
    }

    /** The guard's destructor runs as many times as the unwinding `u` runs it. */
    method UnwindLocals(u: Unwinding)
      modifies harness
      ensures harness.Snapshot() == GuardDownTimes(old(harness.Snapshot()), Destructions(u))
    {
      ghost var g := harness.Snapshot();
      match u {
        case Leaks =>
        case DestroysOnce =>
          harness.DestroyGuard();
          assert GuardDownTimes(g, 1) == GuardDown(g);
        case DestroysTwice =>
          harness.DestroyGuard();
          harness.DestroyGuard();
          assert GuardDownTimes(g, 2) == GuardDownTimes(GuardDown(g), 1) == GuardDown(GuardDown(g));
      }
    }

    /**
     * The body from its loop head with the current index until it next suspends:
     * `co_yield i`, the end of the loop (the guard leaves scope and the frame parks at
     * `final_suspend`), or the throw (the guard is unwound, `unhandled_exception`
     * rethrows, and the coroutine counts as finished).
     */
    method RunToSuspension(u: Unwinding) returns (thrown: Option<string>)
      requires handle && !done
      modifies this, harness
      ensures (State(), harness.Snapshot(), thrown) == Continue(old(i), params, old(harness.Snapshot()), u)
    {
      if i < params.to {
        if ThrowsAt(params, i) {
          UnwindLocals(u);
          done := true;
          thrown := Some(ThrowMessage(i));
        } else {
          YieldValue(i);
          thrown := None;
        }
      } else {
        harness.DestroyGuard();
        done := true;
        thrown := None;
      }
    }

    /** `wrapper::get`. */
    method Get() returns (r: Reply)
      requires Valid()
      modifies this, harness
      ensures Valid()
      ensures (Machine(State(), harness.Snapshot()), r) == Coroutine.Get(Machine(old(State()), old(harness.Snapshot())), params)
    {
      if !handle {
        return NoHandleSentinel;
      }
      if done {
        return DoneSentinel;
      }
      var ret := lastYield;
      // `handle.resume()`: the loop goes on after the `co_yield` with `++i`
      i := i + 1;
      var thrown := RunToSuspension(DestroysOnce);
      r := if thrown.Some? then Exception(thrown.value) else Value(ret);
    }

    /** `~wrapper`: the frame is destroyed; the wrapper is left without a handle. */
    method Destroy()
      modifies this, harness
      ensures harness.Snapshot() == Coroutine.Destroy(Machine(old(State()), old(harness.Snapshot())))
      ensures State() == NoHandle
    {
      if handle {
        if !done {
          harness.DestroyGuard();
        }
        handle := false;
      }
    }
  }

  /** A call of `generator` hands back a wrapper or lets an exception out. */
  datatype Launch = Launched(w: Wrapper) | Threw(msg: string)

  /**
   * `generator(from, to, throw_on)`: the guard is constructed and, since
   * `initial_suspend` never suspends, the body runs before anything is returned.
   */
  method Generator(h: Harness, p: Params, u: Unwinding) returns (r: Launch)
    modifies h
    ensures match Generate(p, u, old(h.Snapshot()))
      case Handle(m) =>
        && r.Launched? && fresh(r.w) && r.w.harness == h && r.w.params == p
        && r.w.Valid() && r.w.State() == m.coro && h.Snapshot() == m.log
      case Raised(msg, g) => r == Threw(msg) && h.Snapshot() == g
  {
    var w := new Wrapper.Ramp(h, p);
    h.ConstructGuard();
    var thrown := w.RunToSuspension(u);
    if thrown.Some? {
      r := Threw(thrown.value);
    } else {
      r := Launched(w);
    }
  }

  /** `generator(0, 10)`, with `throw_on` at its default of -1. */
  const NoThrowsParams: Params := Params(0, 10, Some(-1))

  /**
   * `no_throws`: ten calls of `get` on `generator(0, 10)`, whose results the program
   * prints and the model collects in `shown`, then `~wrapper`.
   */
  method NoThrows(h: Harness) returns (shown: seq<int>)
    modifies h
    ensures shown == seq(10, k => k)
    ensures h.living == old(h.living)
    ensures h.errors == old(h.errors) + (if old(h.living) == -1 then [DoubleDestruction] else [])
  {
    ghost var g := h.Snapshot();
    var launch := Generator(h, NoThrowsParams, DestroysOnce);
    var gen := launch.w;
    shown := [];
    for k := 0 to 10
      invariant gen.harness == h && gen.params == NoThrowsParams && gen.Valid()
      invariant gen.State() == if k < 10 then Suspended(k, k) else Done
      invariant h.Snapshot() == if k < 10 then GuardUp(g) else GuardDown(GuardUp(g))
      invariant shown == seq(k, j => j)
    {
      var v := gen.Get();
      shown := shown + [ReplyCode(v)];
    }
    gen.Destroy();
  }

  /**
   * `run(no_throws, "no_throws")` as `main` calls it: the scenario passes exactly
   * when no guard was alive beforehand, and the counter ends where it began.
   */
  method RunNoThrows(h: Harness) returns (shown: seq<int>, pass: bool)
    modifies h
    ensures shown == seq(10, k => k)
    ensures h.living == old(h.living)
    ensures h.errors == (if old(h.living) == -1 then [DoubleDestruction] else [])
                        + (if old(h.living) != 0 then [NotDestroyed] else [])
    ensures pass <==> h.errors == []
    ensures pass <==> old(h.living) == 0
  {
    h.EnterScenario();
    shown := NoThrows(h);
    pass := h.ExitScenario();
  }

  /** `main`: the one scenario, run against the freshly initialised static state, passes. */
  method Program() returns (shown: seq<int>, pass: bool)
    ensures shown == seq(10, k => k)
    ensures pass
  {
    var h := new Harness();
    shown, pass := RunNoThrows(h);
  }
}
