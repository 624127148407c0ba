/**
 * Two places where `main.cpp` gives a value two meanings.  For each, a lemma shows
 * the clash on a concrete input, and a lemma proves the intended property of the
 * form the rest of the model uses.
 */
module Findings {
  import opened Basics
  import opened Instrumentation
  import opened Coroutine

  /**
   * As written, `wrapper::get` returns a plain `int`, so the sentinels share their
   * range with the values: `generator(-3, 0)` yields -3 first, and the caller
   * receives the very code that means "handle done".
   */
  lemma SentinelCollision()
    ensures var p := DefaultAsWritten(-3, 0);
            var s := Generate(p, DestroysOnce, Log(0, []));
            && s.Handle?
            && Get(s.m, p).1 == Value(-3)
            && ReplyCode(Get(s.m, p).1) == ReplyCode(DoneSentinel) == HandleDoneCode
  {
  }

  /**
   * With the reply kept apart from its sentinels, a done reply, a no-handle reply
   * and a value are told apart by every caller; and as long as the range starts at
   * zero or above, the `int` codes agree with that distinction, and no call ever
   * returns `no_value`.
   */
  lemma {:induction false} RepliesUnambiguous(m: Machine, p: Params, n: nat)
    requires WellFormed(m.coro, p)
    ensures forall k :: 0 <= k < n ==>
      var r := Drain(m, p, n).1[k];
      && (r.Value? ==> p.from <= r.v < p.to)
      && (p.from >= 0 && !r.Exception? ==>
            && (ReplyCode(r) == HandleDoneCode <==> r == DoneSentinel)
            && (ReplyCode(r) == NoHandleCode <==> r == NoHandleSentinel)
            && ReplyCode(r) != NoValueCode)
    decreases n
  {
    if n > 0 {
      var step := Get(m, p);
      RepliesUnambiguous(step.0, p, n - 1);
      assert Drain(m, p, n).1 == [step.1] + Drain(step.0, p, n - 1).1;
    }
  }

  /** `throw_on` as the caller leaves it out: `int throw_on = -1`. */
  function DefaultAsWritten(from: Int32, to: Int32): Params {
    Params(from, to, Some(-1))
  }

  /** `throw_on` left out, meaning "never throw". */
  function DefaultIntended(from: Int32, to: Int32): Params {
    Params(from, to, None)
  }

  /**
   * As written, the default -1 is itself a loop index: `generator(-2, 1)`, with no
   * `throw_on` given, yields -2 and then throws "throwing on -1" from the first `get`.
   */
  lemma DefaultThrowOnFires()
    ensures var p := DefaultAsWritten(-2, 1);
            var s := Generate(p, DestroysOnce, Log(0, []));
            && s.Handle?
            && Get(s.m, p).1 == Exception(ThrowMessage(-1))
  {
  }

  /** With no `throw_on`, no call of `get`, however many, ever raises. */
  lemma {:induction false} OmittedThrowOnNeverRaises(m: Machine, from: Int32, to: Int32, n: nat)
    ensures forall k :: 0 <= k < n ==> !Drain(m, DefaultIntended(from, to), n).1[k].Exception?
    decreases n
  {
    var p := DefaultIntended(from, to);
    if n > 0 {
      var step := Get(m, p);
      OmittedThrowOnNeverRaises(step.0, from, to, n - 1);
      assert Drain(m, p, n).1 == [step.1] + Drain(step.0, p, n - 1).1;
    }
  }

  /** For ranges starting at zero or above, the written default behaves as intended. */
  lemma {:induction false} DefaultAgreesFromZero(m: Machine, from: Int32, to: Int32, n: nat)
    requires from >= 0 && WellFormed(m.coro, DefaultAsWritten(from, to))
    ensures Drain(m, DefaultAsWritten(from, to), n) == Drain(m, DefaultIntended(from, to), n)
    decreases n
  {
    if n > 0 {
      var step := Get(m, DefaultAsWritten(from, to));
      assert step == Get(m, DefaultIntended(from, to));
      DefaultAgreesFromZero(step.0, from, to, n - 1);
    }
  }
}
