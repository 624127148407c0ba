# Eager integer generator and its lifetime instrumentation

This project models `main.cpp` of a small C++20 program. The program builds an
*eager* coroutine generator: `initial_suspend` never suspends, so the body of
`generator(from, to, throw_on)` runs before the caller gets a `wrapper`. The body
yields `from, ..., to - 1`, or throws `"throwing on " + to_string(i)` when it
reaches `i == throw_on`. `wrapper::get` returns one of the `invalid_values`
sentinels for an empty or finished handle. Otherwise it returns the stored
`last_yield` and only then resumes the body. The body holds one local
`dtor_guard`. That guard counts its live copies in a static counter and logs a
double destruction. An `error_guard` opens and closes a scenario over the global
error log.

The model has two layers:

- `Coroutine` and `Instrumentation` describe each step as a function on values:
  the coroutine state `NoHandle | Suspended(i, lastYield) | Done` and the log
  `Log(living, errors)`. The lemmas state what the program promises about
  sequences of steps.
- `Eager.Wrapper` and `Instrumentation.Harness` are classes whose fields change in
  place as in the program: the handle, `done()`, the promise's `last_yield`, the
  loop index, `dtor_guard::living` and `errors`. Each method is proved to
  perform exactly the step the value layer describes.

The body's loop does not run inside one call. Each resumption runs one pass of it
from the loop head (`Coroutine.Continue`, `Eager.Wrapper.RunToSuspension`). The
loop the model keeps as a loop is the one in `no_throws`, and
`Eager.NoThrows` models it with a `for` loop and its invariants.

Exceptions are values. `Generate` returns `Raised(msg, log)` in place of a wrapper,
and `get` returns `Exception(msg)`. When the body throws after it has been
resumed, the guard is unwound once and `unhandled_exception` rethrows. Under the
C++20 rules the coroutine then counts as suspended at its final suspend point, so
later calls of `get` return the done sentinel. When the body throws during the
eager first run, the C++20 rules destroy the guard once; a compiler that gets
this wrong leaks it or destroys it twice, and detecting that is what the program
is for. The model therefore takes it as a parameter,
`Unwinding = Leaks | DestroysOnce | DestroysTwice`.

Two consequences of `main.cpp` as written:

- `get` resumes the body before it returns the value it captured, and an
  exception from the resumed body leaves `get` in place of that value. With
  `throw_on = t`, the calls return `from, ..., t - 2` and the next call raises:
  the value `t - 1` is stored but never returned (`Coroutine.ThrowAfterSuspension`).
- `error_guard` clears only the log and leaves `dtor_guard::living` as it is, so
  `no_throws` passes exactly when no guard was alive before it started
  (`Eager.RunNoThrows`).

## Model

| member | source | states |
|---|---|---|
| `Decimal.Digits` | main.cpp:93 | the digits of a natural number are non-empty, all decimal digits, and start with '0' only for zero |
| `Decimal.DecimalText` | main.cpp:93 | `to_string` of an int: a leading '-' exactly for negative numbers, followed by digits |
| `Decimal.DigitsRoundTrip` | main.cpp:93 | reading the digits of `n` back gives `n` |
| `Decimal.DecimalRoundTrip` | main.cpp:93 | parsing `to_string(n)` gives back `n`, so different indices produce different texts |
| `Coroutine.ThrownIndexRoundTrip` | main.cpp:93 | the message `"throwing on " + to_string(i)` names exactly the index `i` the body threw on |
| `Instrumentation.ScenarioStart` | main.cpp:28-30 | entering a scenario empties the log and leaves the live counter as it was |
| `Instrumentation.ScenarioEnd` | main.cpp:31-45 | leaving a scenario appends "coro vars not destroyed" exactly when the counter is non-zero; the scenario passes iff the log was empty and the counter zero |
| `Instrumentation.GuardDownTimesLog` | main.cpp:18-23 | `k` guard destructions lower the counter by `k`; "double destruction of coro vars" is logged once exactly when the counter is at 0 before one of them |
| `Instrumentation.Harness.constructor` | main.cpp:25 | the static state starts with no live guard and an empty log |
| `Instrumentation.Harness.ConstructGuard` | main.cpp:17 | the guard's constructor increments the live counter and leaves the log alone |
| `Instrumentation.Harness.DestroyGuard` | main.cpp:18-23 | the guard's destructor logs a double destruction when the counter is 0, then decrements |
| `Instrumentation.Harness.EnterScenario` | main.cpp:28-30 | `error_guard()` clears the log in place |
| `Instrumentation.Harness.ExitScenario` | main.cpp:31-45 | `~error_guard()` reports surviving guards, and its verdict is PASS iff the log is then empty |
| `Coroutine.Body` | main.cpp:91-96 | at loop index `i` the body yields `i` iff `i < to` and `i != throw_on`; it throws, with the message for `i`, iff `i == throw_on < to`; it returns iff `to <= i` |
| `Coroutine.Continue` | main.cpp:59-61 | one run from the loop head suspends at `i` with `last_yield == i` iff the body yields, otherwise the coroutine is finished; it reports an exception iff the body throws; the log is unchanged on a yield, gets one guard destruction when the body returns, and as many as the unwinding runs when it throws |
| `Coroutine.Generate` | main.cpp:89-97 | eager start: with `from < to` and no throw at `from`, the body is already suspended with `last_yield == from`; with `from >= to` it has already finished; it raises the message for `from` iff it throws at `from < to` |
| `Coroutine.Get` | main.cpp:80-86 | `get` returns `no_handle` iff there is no handle and `handle_done` iff the body finished, changing nothing in both cases; otherwise it returns the `last_yield` stored before the call (never the value the resumption produces), or, exactly when the resumed body reaches `i + 1 == throw_on < to`, that exception; returned values lie in `[from, to)` |
| `Coroutine.Destroy` | main.cpp:74-78 | `~wrapper` lowers the counter by one exactly when the frame is parked at a `co_yield`, logging a double destruction iff the counter was 0, and otherwise changes nothing |
| `Coroutine.TerminalRepliesRepeat` | main.cpp:81-82 | on an empty or finished handle every call returns the same sentinel and no state changes |
| `Coroutine.DrainWithin` | main.cpp:83-85 | from a suspension at `i`, with no throw up to `j`, `j - i` calls return `i, ..., j - 1` and leave the body suspended at `j` |
| `Coroutine.FullDrain` | main.cpp:89-97 | with `throw_on` outside `[from, to)`, `to - from` calls return `from, ..., to - 1` in order and the next returns `handle_done` |
| `Coroutine.ThrowAfterSuspension` | main.cpp:91-95 | with `from < t < to` and `throw_on = t`, the calls return `from, ..., t - 2`, then `t - 1` is stored but the next call raises the message for `t`, and later calls return `handle_done` |
| `Coroutine.EagerThrowVerdict` | main.cpp:89-93 | a throw at `from` reaches the caller instead of a wrapper, and the scenario passes iff the unwinding destroys the guard exactly once (a leak or a second destruction is logged) |
| `Coroutine.DrainKeepsAccount` | main.cpp:15-23 | through any number of `get` calls the guard is counted live exactly while the body is suspended at a `co_yield`, and nothing is logged |
| `Coroutine.Balance` | main.cpp:74-78 | construction, any number of `get` calls and `~wrapper` leave counter and log as they were, except on a throw during the eager run, where this holds iff the guard is destroyed exactly once |
| `Eager.Wrapper.Empty` | main.cpp:73 | a default wrapper (`wrapper()`, handle `nullptr`) has no handle and is well formed |
| `Eager.Wrapper.Ramp` | main.cpp:50-54 | a new frame has `last_yield == no_value` and its handle is wrapped |
| `Eager.Wrapper.YieldValue` | main.cpp:59-62 | `yield_value` stores the value in `last_yield` |
| `Eager.Wrapper.UnwindLocals` | main.cpp:90-93 | the guard's destructor runs as often as the unwinding says |
| `Eager.Wrapper.RunToSuspension` | main.cpp:91-96 | one run of the body from its loop head changes the fields and the instrumentation exactly as `Coroutine.Continue` describes |
| `Eager.Wrapper.Get` | main.cpp:80-86 | the in-place `get` gives the reply and the new state of `Coroutine.Get`, and keeps the wrapper well formed |
| `Eager.Wrapper.Destroy` | main.cpp:74-78 | `~wrapper` destroys the guard iff the frame is parked at a `co_yield` |
| `Eager.Generator` | main.cpp:89-97 | a call of `generator` returns a fresh well-formed wrapper, or the exception, exactly as `Coroutine.Generate` says |
| `Eager.NoThrows` | main.cpp:99-104 | ten calls on `generator(0, 10)` return 0..9; the counter ends where it began |
| `Eager.RunNoThrows` | main.cpp:106-111 | the scenario shows 0..9; its log afterwards is exactly a double destruction if the counter started at -1, then "coro vars not destroyed" if it started non-zero; it passes iff that log is empty, i.e. iff no guard was alive when it started |
| `Eager.Program` | main.cpp:115-118 | from the initial static state the one scenario shows 0..9 and passes |
| `Findings.SentinelCollision` | main.cpp:7-11 | as written, `generator(-3, 0)` makes `get` return -3, the code for `handle_done` |
| `Findings.RepliesUnambiguous` | main.cpp:80-86 | replies keep values apart from the sentinels, and every value lies in `[from, to)`; for `from >= 0` the int codes agree with the sentinels and `no_value` is never returned |
| `Findings.DefaultThrowOnFires` | main.cpp:89 | as written, `generator(-2, 1)` without `throw_on` throws "throwing on -1" from its first `get` |
| `Findings.OmittedThrowOnNeverRaises` | main.cpp:89-93 | with `throw_on` left out, no call of `get` ever raises |
| `Findings.DefaultAgreesFromZero` | main.cpp:89-92 | for `from >= 0`, the written default -1 behaves exactly like no `throw_on` |

## Left out

- `run-on-ce.rb` sends the source to a compiler service over HTTP. It is network I/O with nothing to verify.
- Console output (`printf`, `puts`) of `error_guard`, `run`, `no_throws` and `main` is left out. `Eager.NoThrows` returns the printed values as `shown`, and the PASS/FAIL verdict is a boolean.
- Coroutine frame allocation and `std::coroutine_handle` internals are left out. The instrumentation counts only the body's `dtor_guard`, and the model counts only that guard.
- During the eager first run, which code destroys the guard when the body throws is left to the compiler. The model takes it as the `Unwinding` parameter rather than deciding it.
- `dtor_guard::living` is an unbounded integer. Overflow would need more than 2^31 live guards.
- The loop variable cannot overflow: it is incremented only while it is below `to`. Generator arguments are 32-bit (`Basics.Int32`).
- `Eager.Wrapper.Destroy`: the C++ object no longer exists after `~wrapper`. The model marks the wrapper as having no handle instead.
- Copying and moving a `wrapper` are not modelled. The program never does either.
- At most one generator and one scenario are active at a time, as in the program.

## Findings

| source | as written | input that shows it | evidently intended | confidence | as-written member | corrected member |
|---|---|---|---|---|---|---|
| main.cpp:7-11, 80-86 | `get` returns yielded values and the negative `invalid_values` sentinels in one `int` | `generator(-3, 0)`: the first `get` returns -3, the same as `handle_done` | sentinels distinct from every produced value | medium, not executed | `Findings.SentinelCollision` | `Findings.RepliesUnambiguous` |
| main.cpp:89-92 | the default `throw_on = -1` is also a valid loop index | `generator(-2, 1)`: the first `get` throws "throwing on -1" although no `throw_on` was given | leaving out `throw_on` means the body never throws | medium, not executed | `Findings.DefaultThrowOnFires` | `Findings.OmittedThrowOnNeverRaises` |
