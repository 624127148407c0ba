/**
 * The eager generator `generator(from, to, throw_on)` and its `wrapper`, as values.
 *
 * The coroutine is one of: no handle at all, suspended at `co_yield` with loop index
 * `i` and the promise's `last_yield`, or parked at its final suspend point.  A call of
 * `generator` runs the body at once (`initial_suspend` is `suspend_never`); `get`
 * hands out the stored value and only then resumes the body.  Every step also carries
 * the instrumentation `Log`, since the body's local `dtor_guard` lives exactly while
 * the coroutine is suspended at a `co_yield`.
 */
module Coroutine {
  import opened Basics
  import opened Decimal
  import opened Instrumentation

  /** The `invalid_values` sentinels that `wrapper::get` returns as plain `int`s. */
  const NoValueCode: int := -1
  const NoHandleCode: int := -2
  const HandleDoneCode: int := -3

  /** The arguments of `generator`; `None` stands for "never throw". */
  datatype Params = Params(from: Int32, to: Int32, throwOn: Option<Int32>)

  datatype Coro = NoHandle | Suspended(i: int, lastYield: int) | Done

  /** What the body does when it runs from its loop head: yield, fall off the end, or throw. */
  datatype Event = Yield(v: int) | Return | Throw(msg: string)

  /** What `get` gives its caller: a value, a sentinel, or an exception. */
  datatype Reply = Value(v: int) | NoHandleSentinel | DoneSentinel | Exception(msg: string)

  /**
   * How many times the body's local guard is destroyed when an exception leaves the
   * body during the eager first run, before any handle reaches the caller.  The C++20
   * rules say once; a compiler that gets this wrong leaks it or destroys it twice.
   */
  datatype Unwinding = Leaks | DestroysOnce | DestroysTwice

  datatype Machine = Machine(coro: Coro, log: Log)

  /** The outcome of calling `generator`: a wrapper, or the exception it let out. */
  datatype Started = Handle(m: Machine) | Raised(msg: string, log: Log)

  function Destructions(u: Unwinding): nat {
    match u
    case Leaks => 0
    case DestroysOnce => 1
    case DestroysTwice => 2
  }

  predicate ThrowsAt(p: Params, i: int) {
    p.throwOn.Some? && p.throwOn.value == i
  }

  const ThrowPrefix: string := "throwing on "

  /** The `std::runtime_error` message for index `i`. */
  function ThrowMessage(i: int): string {
    ThrowPrefix + DecimalText(i)
  }

  /** The index a `ThrowMessage` names. */
  function ThrownIndex(msg: string): Option<int> {
    if |msg| >= |ThrowPrefix| && msg[..|ThrowPrefix|] == ThrowPrefix then ParseDecimal(msg[|ThrowPrefix|..])
    else None
  }

  /** The message names the index the body threw on, so messages of different indices differ. */
  lemma ThrownIndexRoundTrip(i: int)
    ensures ThrownIndex(ThrowMessage(i)) == Some(i)
  {
    DecimalRoundTrip(i);
    assert ThrowMessage(i)[|ThrowPrefix|..] == DecimalText(i);
  }

  /** The states a run of the body can be in: at a `co_yield`, `last_yield` holds the index just yielded. */
  ghost predicate WellFormed(c: Coro, p: Params) {
    c.Suspended? ==> c.lastYield == c.i && p.from <= c.i < p.to && !ThrowsAt(p, c.i)
  }

  /** The loop head of the body with index `i`: the `i < to` test, the `throw_on` test, then `co_yield i`. */
  function Body(i: int, p: Params): (e: Event)
    ensures e.Yield? <==> i < p.to && !ThrowsAt(p, i)
    ensures e.Throw? <==> i < p.to && ThrowsAt(p, i)
    ensures e.Return? <==> p.to <= i
    ensures e.Yield? ==> e.v == i
    ensures e.Throw? ==> e.msg == ThrowMessage(i)
  {
    if i < p.to then
      if ThrowsAt(p, i) then Throw(ThrowMessage(i)) else Yield(i)
    else Return
  }

  /**
   * Runs the body from its loop head with index `i` to its next suspension.  A yield
   * stores the value in `last_yield`; falling off the end destroys the guard and parks
   * the frame at `final_suspend`; a throw unwinds the guard (as `u` says),
   * `unhandled_exception` rethrows, and the coroutine counts as finished.
   */
  function Continue(i: int, p: Params, g: Log, u: Unwinding): (res: (Coro, Log, Option<string>))
    ensures res.0.Suspended? <==> Body(i, p).Yield?
    ensures res.0.Suspended? ==> res.0 == Suspended(i, i) && res.1 == g
    ensures !res.0.Suspended? ==> res.0 == Done
    ensures res.2.Some? <==> i < p.to && ThrowsAt(p, i)
    ensures res.2.Some? ==> res.2.value == ThrowMessage(i)
    ensures Body(i, p).Return? ==> res.1 == GuardDown(g)
    ensures Body(i, p).Throw? ==> res.1 == GuardDownTimes(g, Destructions(u))
  {
    match Body(i, p)
    case Yield(v) => (Suspended(i, v), g, None)
    case Return => (Done, GuardDown(g), None)
    case Throw(msg) => (Done, GuardDownTimes(g, Destructions(u)), Some(msg))
  }

  /**
   * `generator(from, to, throw_on)`: the guard is constructed and the body runs
   * eagerly until it first yields, finishes, or throws; a throw reaches the caller
   * instead of a wrapper.
   */
  function Generate(p: Params, u: Unwinding, g: Log): (s: Started)
    ensures s.Raised? <==> p.from < p.to && ThrowsAt(p, p.from)
    ensures s.Raised? ==> s.msg == ThrowMessage(p.from) && s.log == GuardDownTimes(GuardUp(g), Destructions(u))
    ensures s.Handle? ==> WellFormed(s.m.coro, p) && !s.m.coro.NoHandle?
    ensures p.from < p.to && !ThrowsAt(p, p.from) ==> s == Handle(Machine(Suspended(p.from, p.from), GuardUp(g)))
    ensures p.to <= p.from ==> s == Handle(Machine(Done, GuardDown(GuardUp(g))))
  {
    var (c, g', thrown) := Continue(p.from, p, GuardUp(g), u);
    if thrown.Some? then Raised(thrown.value, g') else Handle(Machine(c, g'))
  }

  /**
   * `wrapper::get`: a sentinel for an empty or finished handle, and otherwise the
   * stored `last_yield`, captured before the body is resumed.  An exception thrown
   * by the resumed body leaves `get` in place of the captured value.
   */
  function Get(m: Machine, p: Params): (res: (Machine, Reply))
    ensures res.1 == NoHandleSentinel <==> m.coro == NoHandle
    ensures res.1 == DoneSentinel <==> m.coro == Done
    ensures !m.coro.Suspended? ==> res.0 == m
    ensures m.coro.Suspended? ==> res.1 == Value(m.coro.lastYield) || res.1 == Exception(ThrowMessage(m.coro.i + 1))
    ensures m.coro.Suspended? ==> (res.1.Exception? <==> m.coro.i + 1 < p.to && ThrowsAt(p, m.coro.i + 1))
    ensures WellFormed(m.coro, p) ==> WellFormed(res.0.coro, p)
    ensures WellFormed(m.coro, p) && res.1.Value? ==> p.from <= res.1.v < p.to
    ensures WellFormed(m.coro, p) && res.1.Value? && res.0.coro.Suspended? ==> res.0.coro.lastYield == res.1.v + 1
  {
    match m.coro
    case NoHandle => (m, NoHandleSentinel)
    case Done => (m, DoneSentinel)
    case Suspended(i, lastYield) =>
      var (c, g, thrown) := Continue(i + 1, p, m.log, DestroysOnce);
      (Machine(c, g), if thrown.Some? then Exception(thrown.value) else Value(lastYield))
  }

  /** `~wrapper`: `destroy()` on a frame parked at a `co_yield` destroys the guard still in scope. */
  function Destroy(m: Machine): (g: Log)
    ensures g.living == m.log.living - (if m.coro.Suspended? then 1 else 0)
    ensures !m.coro.Suspended? ==> g == m.log
    ensures m.coro.Suspended? && m.log.living != 0 ==> g.errors == m.log.errors
    ensures m.coro.Suspended? && m.log.living == 0 ==> g.errors == m.log.errors + [DoubleDestruction]
  {
    if m.coro.Suspended? then GuardDown(m.log) else m.log
  }

  /** `n` calls of `get` in a row, with their replies in order. */
  function Drain(m: Machine, p: Params, n: nat): (res: (Machine, seq<Reply>))
    ensures |res.1| == n
    decreases n
  {
    if n == 0 then (m, [])
    else
      var step := Get(m, p);
      var rest := Drain(step.0, p, n - 1);
      (rest.0, [step.1] + rest.1)
  }

  /** The replies `Value(i), ..., Value(j - 1)`. */
  function Values(i: int, j: int): seq<Reply> {
    if i < j then seq(j - i, k => Value(i + k)) else []
  }

  /** The int that `wrapper::get` returns in C++ for a reply that is not an exception. */
  function ReplyCode(r: Reply): int
    requires !r.Exception?
  {
    match r
    case Value(v) => v
    case NoHandleSentinel => NoHandleCode
    case DoneSentinel => HandleDoneCode
  }

  /** Draining first `a` and then `b` replies is draining `a + b`. */
  lemma {:induction false} DrainSplit(m: Machine, p: Params, a: nat, b: nat)
    ensures Drain(m, p, a + b).0 == Drain(Drain(m, p, a).0, p, b).0
    ensures Drain(m, p, a + b).1 == Drain(m, p, a).1 + Drain(Drain(m, p, a).0, p, b).1
    decreases a
  {
    if a > 0 {
      var step := Get(m, p);
      DrainSplit(step.0, p, a - 1, b);
      var first := Drain(step.0, p, a - 1);
      var second := Drain(first.0, p, b);
      assert Drain(m, p, a + b).1 == [step.1] + (first.1 + second.1);
      assert [step.1] + (first.1 + second.1) == ([step.1] + first.1) + second.1;
    }
  }

  /** An empty or finished handle gives the same sentinel on every call and never changes. */
  lemma {:induction false} TerminalRepliesRepeat(m: Machine, p: Params, n: nat)
    requires m.coro == NoHandle || m.coro == Done
    ensures Drain(m, p, n).0 == m
    ensures forall k :: 0 <= k < n ==> Drain(m, p, n).1[k] == (if m.coro == NoHandle then NoHandleSentinel else DoneSentinel)
    decreases n
  {
    if n > 0 {
      TerminalRepliesRepeat(m, p, n - 1);
    }
  }

  /**
   * From a suspension at index `i`, with no throw on the way to `j`, the next
   * `j - i` calls return `i, ..., j - 1` and leave the body suspended at `j`:
   * each call returns the value stored before it, never the one it produces.
   */
  lemma {:induction false} DrainWithin(m: Machine, p: Params, j: int)
    requires m.coro.Suspended? && m.coro.lastYield == m.coro.i && m.coro.i <= j < p.to
    requires forall k :: m.coro.i < k <= j ==> !ThrowsAt(p, k)
    ensures Drain(m, p, j - m.coro.i).0 == Machine(Suspended(j, j), m.log)
    ensures Drain(m, p, j - m.coro.i).1 == Values(m.coro.i, j)
    decreases j - m.coro.i
  {
    var i := m.coro.i;
    if i < j {
      var m1 := Machine(Suspended(i + 1, i + 1), m.log);
      assert Get(m, p) == (m1, Value(i));
      DrainWithin(m1, p, j);
      assert Values(i, j) == [Value(i)] + Values(i + 1, j);
    }
  }

  /**
   * With `throw_on` outside `[from, to)`, `to - from` calls of `get` return
   * `from, ..., to - 1` in order and the next call returns the done sentinel;
   * the guard has then been constructed and destroyed once.
   */
  lemma FullDrain(p: Params, u: Unwinding, g: Log)
    requires p.from <= p.to
    requires forall k :: p.from <= k < p.to ==> !ThrowsAt(p, k)
    ensures Generate(p, u, g).Handle?
    ensures Drain(Generate(p, u, g).m, p, p.to - p.from + 1).0 == Machine(Done, GuardDown(GuardUp(g)))
    ensures Drain(Generate(p, u, g).m, p, p.to - p.from + 1).1 == Values(p.from, p.to) + [DoneSentinel]
  {
    var m := Generate(p, u, g).m;
    if p.from == p.to {
      assert Get(m, p) == (m, DoneSentinel);
      assert Drain(m, p, 1).1 == [DoneSentinel] + [];
      assert Values(p.from, p.to) + [DoneSentinel] == [DoneSentinel];
    } else {
      var j := p.to - 1;
      DrainWithin(m, p, j);
      var mj := Machine(Suspended(j, j), GuardUp(g));
      var md := Machine(Done, GuardDown(GuardUp(g)));
      assert Get(mj, p) == (md, Value(j));
      assert Drain(md, p, 1).1 == [DoneSentinel] + [];
      assert Drain(mj, p, 2).1 == [Value(j)] + [DoneSentinel];
      DrainSplit(m, p, j - p.from, 2);
      assert Values(p.from, j) + [Value(j), DoneSentinel] == Values(p.from, p.to) + [DoneSentinel];
    }
  }

  /**
   * A throw after the first suspension: `t - from - 1` calls return `from, ..., t - 2`
   * and leave `t - 1` yielded and stored; the next call resumes into the throw, so
   * `t - 1` is never returned and the exception names `t`; from then on the handle is done.
   */
  lemma ThrowAfterSuspension(p: Params, u: Unwinding, g: Log, t: int)
    requires p.from < t < p.to && ThrowsAt(p, t)
    ensures Generate(p, u, g).Handle?
    ensures Drain(Generate(p, u, g).m, p, t - 1 - p.from).0 == Machine(Suspended(t - 1, t - 1), GuardUp(g))
    ensures Drain(Generate(p, u, g).m, p, t - 1 - p.from).1 == Values(p.from, t - 1)
    ensures Drain(Generate(p, u, g).m, p, t - p.from + 1).0 == Machine(Done, GuardDown(GuardUp(g)))
    ensures Drain(Generate(p, u, g).m, p, t - p.from + 1).1 == Values(p.from, t - 1) + [Exception(ThrowMessage(t)), DoneSentinel]
  {
    var m := Generate(p, u, g).m;
    var j := t - 1;
    DrainWithin(m, p, j);
    var mj := Machine(Suspended(j, j), GuardUp(g));
    var md := Machine(Done, GuardDown(GuardUp(g)));
    assert GuardDownTimes(GuardUp(g), 1) == GuardDown(GuardUp(g));
    assert Get(mj, p) == (md, Exception(ThrowMessage(t)));
    assert Drain(md, p, 1).1 == [DoneSentinel] + [];
    assert Drain(mj, p, 2).1 == [Exception(ThrowMessage(t))] + [DoneSentinel];
    DrainSplit(m, p, j - p.from, 2);
  }

  /**
   * A throw before the first suspension: no wrapper reaches the caller, and a scenario
   * opened with no guard alive passes exactly when the unwinding destroys the guard
   * once; a leak is reported as "coro vars not destroyed" and a second destruction
   * as "double destruction of coro vars".
   */
  lemma EagerThrowVerdict(p: Params, u: Unwinding, g: Log)
    requires p.from < p.to && ThrowsAt(p, p.from)
    requires g.living == 0 && g.errors == []
    ensures Generate(p, u, g).Raised? && Generate(p, u, g).msg == ThrowMessage(p.from)
    ensures var end := ScenarioEnd(Generate(p, u, g).log);
            && (Passed(end) <==> u == DestroysOnce)
            && (DoubleDestruction in end.errors <==> u == DestroysTwice)
            && (NotDestroyed in end.errors <==> u != DestroysOnce)
  {
    GuardDownTimesLog(GuardUp(g), Destructions(u));
  }

  /** The guard is alive exactly while the coroutine is suspended at a `co_yield`, and the log is untouched. */
  ghost predicate Accounted(m: Machine, base: Log) {
    && m.log.errors == base.errors
    && m.log.living == base.living + (if m.coro.Suspended? then 1 else 0)
  }

  /** Every call of `get` keeps the guard accounted for. */
  lemma {:induction false} DrainKeepsAccount(m: Machine, p: Params, n: nat, base: Log)
    requires base.living >= 0 && WellFormed(m.coro, p) && Accounted(m, base)
    ensures WellFormed(Drain(m, p, n).0.coro, p) && Accounted(Drain(m, p, n).0, base)
    decreases n
  {
    if n > 0 {
      var m1 := Get(m, p).0;
      if m.coro.Suspended? {
        assert GuardDownTimes(m.log, 1) == GuardDown(m.log);
      }
      assert Accounted(m1, base);
      DrainKeepsAccount(m1, p, n - 1, base);
    }
  }

  /** What one generator does to the instrumentation: construction, `n` calls of `get`, and `~wrapper`. */
  function Session(p: Params, u: Unwinding, g: Log, n: nat): Log {
    match Generate(p, u, g)
    case Raised(_, g') => g'
    case Handle(m) => Destroy(Drain(m, p, n).0)
  }

  /**
   * Every construction of the body's guard is matched by exactly one destruction,
   * whenever the wrapper is dropped: the instrumentation ends as it began.  The one
   * exception is a throw before the first suspension, where the balance depends on
   * the unwinding alone.
   */
  lemma Balance(p: Params, u: Unwinding, g: Log, n: nat)
    requires g.living >= 0
    ensures Session(p, u, g, n) == g <==> u == DestroysOnce || !(p.from < p.to && ThrowsAt(p, p.from))
  {
    match Generate(p, u, g)
    case Raised(_, g') =>
      GuardDownTimesLog(GuardUp(g), Destructions(u));
    case Handle(m) =>
      assert Accounted(m, g);
      DrainKeepsAccount(m, p, n, g);
  }
}
