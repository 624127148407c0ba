/**
 * The lifetime instrumentation: `dtor_guard`, which counts the live copies of the
 * generator body's local, and `error_guard`, which opens and closes a scenario over
 * the global error log.  `Log` is the value of that process-wide state; `Harness`
 * is the state itself, updated in place.
 */
module Instrumentation {

  const DoubleDestruction: string := "double destruction of coro vars"
  const NotDestroyed: string := "coro vars not destroyed"

  /** `dtor_guard::living` and the global `errors` vector. */
  datatype Log = Log(living: int, errors: seq<string>)

  /** `dtor_guard`'s constructor. */
  function GuardUp(g: Log): Log {
    g.(living := g.living + 1)
  }

  /** `dtor_guard`'s destructor: it complains when no guard is alive, then decrements regardless. */
  function GuardDown(g: Log): Log {
    Log(g.living - 1, if g.living == 0 then g.errors + [DoubleDestruction] else g.errors)
  }

  /** `k` guard destructions in a row. */
  function GuardDownTimes(g: Log, k: nat): Log
    decreases k
  {
    if k == 0 then g else GuardDownTimes(GuardDown(g), k - 1)
  }

  /** `error_guard`'s constructor clears the log; the counter is left as it is. */
  function ScenarioStart(g: Log): (r: Log)
    ensures r.living == g.living && r.errors == []
  {
    g.(errors := [])
  }

  /** `error_guard`'s destructor: a guard still alive is reported before the verdict is taken. */
  function ScenarioEnd(g: Log): (r: Log)
    ensures r.living == g.living
    ensures g.errors <= r.errors
    ensures NotDestroyed in r.errors[|g.errors|..] <==> g.living != 0
    ensures |r.errors| == |g.errors| + (if g.living != 0 then 1 else 0)
    ensures Passed(r) <==> Passed(g) && g.living == 0
  {
    if g.living != 0 then g.(errors := g.errors + [NotDestroyed]) else g
  }

  /** The scenario prints PASS exactly when the log is empty. */
  predicate Passed(g: Log) {
    g.errors == []
  }

  /**
   * Destroying `k` guards lowers the counter by `k`, and the log gains one
   * "double destruction" entry exactly when the counter passes through zero on the
   * way; once it is negative, further destructions go unreported.
   */
  lemma {:induction false} GuardDownTimesLog(g: Log, k: nat)
    ensures GuardDownTimes(g, k).living == g.living - k
    ensures GuardDownTimes(g, k).errors == g.errors + (if 0 <= g.living < k then [DoubleDestruction] else [])
    decreases k
  {
    if k > 0 {
      GuardDownTimesLog(GuardDown(g), k - 1);
    }
  }

  /** The process-wide instrumentation state, changed in place as the program runs. */
  class Harness {
    var living: int
    var errors: seq<string>

    function Snapshot(): Log
      reads this
    {
      Log(living, errors)
    }

    /** Static initialisation: `living = 0` and an empty `errors` vector. */
    constructor ()
      ensures Snapshot() == Log(0, [])
    {
      living := 0;
      errors := [];
    }

    /** `dtor_guard() { ++living; }` */
    method ConstructGuard()
      modifies this
      ensures Snapshot() == GuardUp(old(Snapshot()))
    {
      living := living + 1;
    }

    /** `~dtor_guard()` */
    method DestroyGuard()
      modifies this
      ensures Snapshot() == GuardDown(old(Snapshot()))
    {
      if living == 0 {
        errors := errors + [DoubleDestruction];
      }
      living := living - 1;
    }

    /** `error_guard()` */
    method EnterScenario()
      modifies this
      ensures Snapshot() == ScenarioStart(old(Snapshot()))
    {
      errors := [];
    }

    /** `~error_guard()`, without its console output; `pass` is the PASS/FAIL verdict. */
    method ExitScenario() returns (pass: bool)
      modifies this
      ensures Snapshot() == ScenarioEnd(old(Snapshot()))
      ensures pass <==> Passed(Snapshot())
    {
      if living != 0 {
        errors := errors + [NotDestroyed];
      }
      pass := errors == [];
    }
  }
}
