/** The `retry` decorator: call the wrapped function up to `max_attempts`
    times, sleeping `delay` between attempts, catching only the configured
    exception classes and re-raising the last one when the budget runs out.

    The wrapped function is an oracle: `func(i)` is what its (i+1)-th call
    returns or raises. Delays are in milliseconds. */
module Retry {
  import opened Common

  /** How the wrapper ends: with the function's value, by falling off the
      loop (Python returns None), or by raising. */
  datatype Outcome<T> = Returned(value: T) | ReturnedNone | Raised(error: Error)

  /** Observable effects: a call of the function (0-based) or a sleep. */
  datatype Event = Invoked(attempt: nat) | Slept(ms: int)

  datatype Run<T> = Run(outcome: Outcome<T>, events: seq<Event>)

  const DefaultMaxAttempts: int := 3
  const DefaultDelayMs: int := 1000

  /** The behaviour of the loop from the point where `attempts` failed calls
      have been caught. */
  function RetryFrom<T>(attempts: nat, maxAttempts: int, delay: int, catching: CatchSpec,
                        func: nat -> Result<T>): Run<T>
    decreases maxAttempts - attempts
  {
    if attempts >= maxAttempts then Run(ReturnedNone, [])
    else match func(attempts)
      case Ok(v) => Run(Returned(v), [Invoked(attempts)])
      case Err(e) =>
        if !Catches(catching, e) || attempts + 1 == maxAttempts then
          Run(Raised(e), [Invoked(attempts)])
        else if delay < 0 then
          Run(Raised(NegativeSleep), [Invoked(attempts)])
        else
          var rest := RetryFrom(attempts + 1, maxAttempts, delay, catching, func);
          Run(rest.outcome, [Invoked(attempts), Slept(delay)] + rest.events)
  }

  /** `n` failed calls starting at call `from`, each followed by a sleep. */
  function Backoff(from: nat, n: nat, delay: int): (events: seq<Event>)
    decreases n
  {
    if n == 0 then [] else [Invoked(from), Slept(delay)] + Backoff(from + 1, n - 1, delay)
  }

  function Calls(events: seq<Event>): nat {
    if events == [] then 0 else (if events[0].Invoked? then 1 else 0) + Calls(events[1..])
  }

  function Sleeps(events: seq<Event>): nat {
    if events == [] then 0 else (if events[0].Slept? then 1 else 0) + Sleeps(events[1..])
  }

  /** The loop seen part-way: the events so far, then the rest. */
  ghost predicate SoFar<T>(spec: Run<T>, events: seq<Event>, attempts: nat, maxAttempts: int,
                           delay: int, catching: CatchSpec, func: nat -> Result<T>)
  {
    var rest := RetryFrom(attempts, maxAttempts, delay, catching, func);
    spec == Run(rest.outcome, events + rest.events)
  }

  /** The decorated function as the source runs it. */
  method Wrapper<T>(func: nat -> Result<T>, maxAttempts: int := DefaultMaxAttempts,
                    delay: int := DefaultDelayMs, catching: CatchSpec := AnyException)
    returns (outcome: Outcome<T>, events: seq<Event>)
    ensures Run(outcome, events) == RetryFrom(0, maxAttempts, delay, catching, func)
    ensures maxAttempts <= 0 ==> outcome == ReturnedNone && events == []
  {
    var attempts: nat := 0;
    events := [];
    ghost var spec := RetryFrom(0, maxAttempts, delay, catching, func);
    assert SoFar(spec, events, 0, maxAttempts, delay, catching, func);
    while attempts < maxAttempts
      invariant SoFar(spec, events, attempts, maxAttempts, delay, catching, func)
      decreases maxAttempts - attempts
    {
      var r := func(attempts);
      RetryEnds(spec, events, attempts, maxAttempts, delay, catching, func);
      if r.Ok? {
        return Returned(r.value), events + [Invoked(attempts)];
      }
      if !Catches(catching, r.error) || attempts + 1 == maxAttempts {
        return Raised(r.error), events + [Invoked(attempts)];
      }
      if delay < 0 {
        return Raised(NegativeSleep), events + [Invoked(attempts)];
      }
      RetryContinues(spec, events, attempts, maxAttempts, delay, catching, func);
      events := events + [Invoked(attempts), Slept(delay)];
      attempts := attempts + 1;
    }
    RetryExpires(spec, events, attempts, maxAttempts, delay, catching, func);
    return ReturnedNone, events;
  }

  /** A call that returns, raises something not caught, uses up the budget,
      or is followed by an impossible sleep ends the loop. */
  lemma RetryEnds<T>(spec: Run<T>, events: seq<Event>, attempts: nat, maxAttempts: int,
                     delay: int, catching: CatchSpec, func: nat -> Result<T>)
    requires attempts < maxAttempts
    requires SoFar(spec, events, attempts, maxAttempts, delay, catching, func)
    ensures var done := events + [Invoked(attempts)];
      match func(attempts)
      case Ok(v) => spec == Run(Returned(v), done)
      case Err(e) =>
        && (!Catches(catching, e) || attempts + 1 == maxAttempts ==> spec == Run(Raised(e), done))
        && (delay < 0 ==> spec.outcome.Raised? && spec.events == done)
  {
  }

  /** A caught failure with budget left sleeps and moves the loop on. */
  lemma RetryContinues<T>(spec: Run<T>, events: seq<Event>, attempts: nat, maxAttempts: int,
                          delay: int, catching: CatchSpec, func: nat -> Result<T>)
    requires attempts + 1 < maxAttempts && delay >= 0
    requires func(attempts).Err? && Catches(catching, func(attempts).error)
    requires SoFar(spec, events, attempts, maxAttempts, delay, catching, func)
    ensures SoFar(spec, events + [Invoked(attempts), Slept(delay)], attempts + 1,
                  maxAttempts, delay, catching, func)
  {
    var rest := RetryFrom(attempts + 1, maxAttempts, delay, catching, func);
    assert events + ([Invoked(attempts), Slept(delay)] + rest.events)
        == events + [Invoked(attempts), Slept(delay)] + rest.events;
  }

  /** Once the budget is spent the loop falls through and returns None. */
  lemma RetryExpires<T>(spec: Run<T>, events: seq<Event>, attempts: nat, maxAttempts: int,
                        delay: int, catching: CatchSpec, func: nat -> Result<T>)
    requires attempts >= maxAttempts
    requires SoFar(spec, events, attempts, maxAttempts, delay, catching, func)
    ensures spec == Run(ReturnedNone, events)
  {
  }

  /** One turn of the loop, as the specification takes it. */
  lemma RetryStep<T>(attempts: nat, maxAttempts: int, delay: int, catching: CatchSpec,
                     func: nat -> Result<T>)
    requires attempts < maxAttempts
    ensures var here := RetryFrom(attempts, maxAttempts, delay, catching, func);
      match func(attempts)
      case Ok(v) => here == Run(Returned(v), [Invoked(attempts)])
      case Err(e) =>
        if !Catches(catching, e) || attempts + 1 == maxAttempts then
          here == Run(Raised(e), [Invoked(attempts)])
        else if delay < 0 then
          here == Run(Raised(NegativeSleep), [Invoked(attempts)])
        else
          var rest := RetryFrom(attempts + 1, maxAttempts, delay, catching, func);
          here.outcome == rest.outcome && here.events == [Invoked(attempts), Slept(delay)] + rest.events
  {
  }

  lemma {:induction false} CallsAppend(a: seq<Event>, b: seq<Event>)
    ensures Calls(a + b) == Calls(a) + Calls(b)
    ensures Sleeps(a + b) == Sleeps(a) + Sleeps(b)
    decreases |a|
  {
    if a != [] {
      CallsAppend(a[1..], b);
      assert (a + b)[1..] == a[1..] + b;
    } else {
      assert a + b == b;
    }
  }

  /** `n` caught failures cost `n` calls and `n` sleeps. */
  lemma {:induction false} BackoffCounts(from: nat, n: nat, delay: int)
    ensures Calls(Backoff(from, n, delay)) == n
    ensures Sleeps(Backoff(from, n, delay)) == n
    decreases n
  {
    if n > 0 {
      BackoffCounts(from + 1, n - 1, delay);
      CallsAppend([Invoked(from), Slept(delay)], Backoff(from + 1, n - 1, delay));
    }
  }

  /** The attempt counter never passes `maxAttempts`: the function is
      called at most that many times, and one more call than sleeps
      whenever it is called at all. */
  lemma {:induction false} CallsBounded<T>(n: nat, maxAttempts: int, delay: int,
                                         catching: CatchSpec, func: nat -> Result<T>)
    ensures var events := RetryFrom(n, maxAttempts, delay, catching, func).events;
      && Calls(events) <= (if n < maxAttempts then maxAttempts - n else 0)
      && Calls(events) == (if n < maxAttempts then Sleeps(events) + 1 else 0)
    decreases if n < maxAttempts then maxAttempts - n else 0
  {
    if n < maxAttempts {
      RetryStep(n, maxAttempts, delay, catching, func);
      if func(n).Err? && Catches(catching, func(n).error) && n + 1 != maxAttempts && delay >= 0 {
        var rest := RetryFrom(n + 1, maxAttempts, delay, catching, func);
        CallsBounded(n + 1, maxAttempts, delay, catching, func);
        CallsAppend([Invoked(n), Slept(delay)], rest.events);
      }
    }
  }

  /** If call `k` is the first to succeed and every earlier one raised a
      caught exception, its value is returned after exactly k+1 calls and
      k sleeps. */
  lemma {:induction false} SucceedsOnAttempt<T>(n: nat, k: nat, maxAttempts: int, delay: int,
                                              catching: CatchSpec, func: nat -> Result<T>)
    requires n <= k < maxAttempts && delay >= 0
    requires func(k).Ok?
    requires forall i :: n <= i < k ==> func(i).Err? && Catches(catching, func(i).error)
    ensures RetryFrom(n, maxAttempts, delay, catching, func)
         == Run(Returned(func(k).value), Backoff(n, k - n, delay) + [Invoked(k)])
    decreases k - n
  {
    if n < k {
      SucceedsOnAttempt(n + 1, k, maxAttempts, delay, catching, func);
    }
  }

  /** If every call raises a caught exception, the function is called
      exactly `maxAttempts` times with a sleep between consecutive calls, and
      the last exception is re-raised unchanged. */
  lemma {:induction false} ExhaustsBudget<T>(n: nat, maxAttempts: int, delay: int,
                                           catching: CatchSpec, func: nat -> Result<T>)
    requires n < maxAttempts && delay >= 0
    requires forall i :: n <= i < maxAttempts ==> func(i).Err? && Catches(catching, func(i).error)
    ensures RetryFrom(n, maxAttempts, delay, catching, func)
         == Run(Raised(func(maxAttempts - 1).error),
                Backoff(n, maxAttempts - 1 - n, delay) + [Invoked(maxAttempts - 1)])
    decreases maxAttempts - n
  {
    if n + 1 < maxAttempts {
      ExhaustsBudget(n + 1, maxAttempts, delay, catching, func);
    }
  }

  /** An exception the wrapper does not catch propagates from the call that
      raises it: no further call and no sleep after it. */
  lemma {:induction false} UncaughtPropagates<T>(n: nat, k: nat, maxAttempts: int, delay: int,
                                               catching: CatchSpec, func: nat -> Result<T>)
    requires n <= k < maxAttempts && delay >= 0
    requires func(k).Err? && !Catches(catching, func(k).error)
    requires forall i :: n <= i < k ==> func(i).Err? && Catches(catching, func(i).error)
    ensures RetryFrom(n, maxAttempts, delay, catching, func)
         == Run(Raised(func(k).error), Backoff(n, k - n, delay) + [Invoked(k)])
    decreases k - n
  {
    if n < k {
      UncaughtPropagates(n + 1, k, maxAttempts, delay, catching, func);
    }
  }

  /** The wrapper returns None only when the loop never runs; with a positive
      budget it always returns the function's value or raises. */
  lemma {:induction false} NoneOnlyWithoutBudget<T>(n: nat, maxAttempts: int, delay: int,
                                                   catching: CatchSpec, func: nat -> Result<T>)
    ensures RetryFrom(n, maxAttempts, delay, catching, func).outcome == ReturnedNone
        <==> n >= maxAttempts
    ensures n >= maxAttempts ==> RetryFrom(n, maxAttempts, delay, catching, func).events == []
    decreases if n < maxAttempts then maxAttempts - n else 0
  {
    if n < maxAttempts && func(n).Err? && Catches(catching, func(n).error) && n + 1 != maxAttempts
       && delay >= 0 {
      NoneOnlyWithoutBudget(n + 1, maxAttempts, delay, catching, func);
    }
  }
}
