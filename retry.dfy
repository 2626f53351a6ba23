/** The retry combinator: a strategy with capped exponential backoff, the
    retrying wrapper around a call, and the retry context whose attempts are
    driven by a `for ... with` loop.  The wrapped call is an oracle giving the
    outcome of each attempt; sleeping is recorded, not performed. */
module Retry {
  import opened Wrappers

  /** A raised exception: the names of every class it is an instance of (its
      class and all its bases) and its message. */
  datatype Error = Error(classes: set<string>, message: string)

  /** What `with_retry` raises when it never captured an exception. */
  const NoAttemptError := Error({"RuntimeError", "Exception"}, "Retry logic failed without capturing exception")

  /** The configuration of `RetryStrategy`; `exceptions` names the classes to retry on. */
  datatype Strategy = Strategy(maxAttempts: int, initialDelay: real, backoffFactor: real,
                               maxDelay: real, exceptions: set<string>)

  /** The defaults: 3 attempts, 1 s doubling up to 10 s, any `Exception`. */
  const DefaultStrategy := Strategy(3, 1.0, 2.0, 10.0, {"Exception"})

  function Pow(b: real, n: nat): real {
    if n == 0 then 1.0 else b * Pow(b, n - 1)
  }

  /** `calculate_delay(attempt)`: the exponential delay, capped at `maxDelay`. */
  function CalculateDelay(s: Strategy, attempt: nat): (d: real)
    ensures d <= s.maxDelay
    ensures d <= s.initialDelay * Pow(s.backoffFactor, attempt)
    ensures d == s.maxDelay || d == s.initialDelay * Pow(s.backoffFactor, attempt)
  {
    var delay := s.initialDelay * Pow(s.backoffFactor, attempt);
    if s.maxDelay < delay then s.maxDelay else delay
  }

  lemma {:induction false} PowAtLeastOne(b: real, n: nat)
    requires b >= 1.0
    ensures Pow(b, n) >= 1.0
  {
    if n > 0 {
      PowAtLeastOne(b, n - 1);
      assert b * Pow(b, n - 1) >= 1.0 * Pow(b, n - 1);
    }
  }

  /** With a non-negative initial delay and a factor of at least 1, delays
      never shrink from one attempt to the next. */
  lemma DelayNondecreasing(s: Strategy, attempt: nat)
    requires s.initialDelay >= 0.0 && s.backoffFactor >= 1.0
    ensures CalculateDelay(s, attempt) <= CalculateDelay(s, attempt + 1)
  {
    PowAtLeastOne(s.backoffFactor, attempt);
    var p := Pow(s.backoffFactor, attempt);
    assert Pow(s.backoffFactor, attempt + 1) == s.backoffFactor * p;
    assert s.backoffFactor * p >= p by {
      assert (s.backoffFactor - 1.0) * p >= 0.0;
    }
    assert s.initialDelay * (s.backoffFactor * p) >= s.initialDelay * p by {
      assert s.initialDelay * (s.backoffFactor * p - p) >= 0.0;
    }
  }

  /** With the defaults the delays are 1, 2, 4, 8 and then 10 s for good. */
  lemma DefaultDelays()
    ensures CalculateDelay(DefaultStrategy, 0) == 1.0 && CalculateDelay(DefaultStrategy, 1) == 2.0
    ensures CalculateDelay(DefaultStrategy, 2) == 4.0 && CalculateDelay(DefaultStrategy, 3) == 8.0
    ensures CalculateDelay(DefaultStrategy, 4) == 10.0
  {
    assert Pow(2.0, 4) == 16.0 by {
      assert Pow(2.0, 1) == 2.0;
      assert Pow(2.0, 2) == 4.0;
      assert Pow(2.0, 3) == 8.0;
    }
  }

  /** `should_retry(e)`: `isinstance(e, exceptions)`. */
  predicate ShouldRetry(s: Strategy, e: Error) {
    e.classes * s.exceptions != {}
  }

  /** The outcome of one call of the wrapped function. */
  datatype Call<T> = Returned(value: T) | Raised(error: Error)

  /** An attempt that ends the retrying: a success or a non-retryable error. */
  predicate Final<T>(s: Strategy, c: Call<T>) {
    c.Returned? || !ShouldRetry(s, c.error)
  }

  /** The attempt, counting from `k`, at which the retrying stops: the first
      final one, or the last allowed one. */
  function StopAt<T>(s: Strategy, calls: nat -> Call<T>, k: nat): (r: nat)
    requires k < s.maxAttempts
    ensures k <= r < s.maxAttempts
    ensures forall j :: k <= j < r ==> !Final(s, calls(j))
    ensures r < s.maxAttempts - 1 ==> Final(s, calls(r))
    decreases s.maxAttempts - k
  {
    if k + 1 >= s.maxAttempts || Final(s, calls(k)) then k
    else StopAt(s, calls, k + 1)
  }

  /** A retry announced to `on_retry` and then slept: the attempt number it
      reports (counting from 1), the exception and the delay. */
  datatype RetryEvent = RetryEvent(attempt: int, error: Error, delay: real)

  /** The `with_retry` wrapper: calls the function until it returns, raises
      something not to be retried, or `maxAttempts` calls have failed. */
  method WithRetry<T>(s: Strategy, calls: nat -> Call<T>) returns (result: Call<T>, made: nat, events: seq<RetryEvent>)
    ensures s.maxAttempts <= 0 ==> made == 0 && events == [] && result == Raised(NoAttemptError)
    ensures s.maxAttempts > 0 ==> made == StopAt(s, calls, 0) + 1 && result == calls(made - 1)
    ensures made <= if s.maxAttempts < 0 then 0 else s.maxAttempts
    ensures |events| == if made == 0 then 0 else made - 1
    ensures forall k :: 0 <= k < |events| ==>
      events[k] == RetryEvent(k + 1, calls(k).error, CalculateDelay(s, k)) && ShouldRetry(s, calls(k).error)
  {
    made := 0;
    events := [];
    var lastException: Option<Error> := None;
    var attempt := 0;
    while attempt < s.maxAttempts
      invariant 0 <= attempt && made == attempt
      invariant s.maxAttempts > 0 ==> attempt <= s.maxAttempts
      invariant attempt > 0 ==> attempt < s.maxAttempts && StopAt(s, calls, 0) == StopAt(s, calls, attempt)
      invariant attempt > 0 ==> lastException.Some?
      invariant forall j :: 0 <= j < attempt ==> !Final(s, calls(j))
      invariant |events| == attempt
      invariant forall k :: 0 <= k < |events| ==>
        events[k] == RetryEvent(k + 1, calls(k).error, CalculateDelay(s, k)) && ShouldRetry(s, calls(k).error)
      decreases s.maxAttempts - attempt
    {
      made := made + 1;
      var c := calls(attempt);
      if c.Returned? {
        return c, made, events;
      }
      lastException := Some(c.error);
      if !ShouldRetry(s, c.error) {
        return c, made, events;
      }
      if attempt < s.maxAttempts - 1 {
        events := events + [RetryEvent(attempt + 1, c.error, CalculateDelay(s, attempt))];
        attempt := attempt + 1;
      } else {
        return c, made, events;
      }
    }
    return Raised(NoAttemptError), made, events;
  }

  /** What `RetryContext.__next__` does. */
  datatype Step = NextAttempt | StopIteration | RaiseLast(error: Error)

  /** `RetryContext`: counts the attempts it hands out and remembers the last
      retryable exception. */
  class RetryContext {
    const strategy: Strategy
    var currentAttempt: int
    var lastException: Option<Error>

    constructor (strategy: Strategy)
      ensures this.strategy == strategy && currentAttempt == 0 && lastException == None
    {
      this.strategy := strategy;
      currentAttempt := 0;
      lastException := None;
    }

    /** `__iter__`: restarts the count. */
    method Iter()
      modifies this`currentAttempt
      ensures currentAttempt == 0
    {
      currentAttempt := 0;
    }

    /** `__next__`: another attempt while fewer than `maxAttempts` were handed
        out; afterwards the last exception is raised, or the iteration stops. */
    method Next() returns (step: Step)
      modifies this`currentAttempt
      ensures old(currentAttempt) < strategy.maxAttempts ==>
        step == NextAttempt && currentAttempt == old(currentAttempt) + 1
      ensures old(currentAttempt) >= strategy.maxAttempts ==> (currentAttempt == old(currentAttempt)
        && step == (if lastException.Some? then RaiseLast(lastException.value) else StopIteration))
    {
      if currentAttempt >= strategy.maxAttempts {
        if lastException.Some? {
          return RaiseLast(lastException.value);
        }
        return StopIteration;
      }
      currentAttempt := currentAttempt + 1;
      step := NextAttempt;
    }

    /** `_RetryAttempt.__exit__` for the attempt just handed out (so the count
        is at least 1): success is swallowed; a retryable failure is
        remembered and swallowed, with a sleep, only while attempts remain;
        anything else propagates. */
    method ExitAttempt(failure: Option<Error>) returns (suppress: bool, slept: Option<real>)
      requires currentAttempt >= 1
      modifies this`lastException
      ensures failure.None? ==> suppress && slept == None && lastException == old(lastException)
      ensures failure.Some? && !ShouldRetry(strategy, failure.value) ==>
        !suppress && slept == None && lastException == old(lastException)
      ensures failure.Some? && ShouldRetry(strategy, failure.value) ==>
        lastException == failure && (suppress <==> currentAttempt < strategy.maxAttempts)
        && slept == (if suppress then Some(CalculateDelay(strategy, currentAttempt - 1)) else None)
    {
      slept := None;
      if failure.None? {
        return true, slept;
      }
      if !ShouldRetry(strategy, failure.value) {
        return false, slept;
      }
      lastException := failure;
      if currentAttempt < strategy.maxAttempts {
        slept := Some(CalculateDelay(strategy, currentAttempt - 1));
        return true, slept;
      }
      return false, slept;
    }
  }

  /** How the documented `for attempt in retry: with attempt: ...; break`
      loop ends. */
  datatype LoopEnd = Succeeded | Propagated(error: Error) | Stopped

  /** The documented use of a fresh `RetryContext`: the body's outcome on the
      `k`-th attempt is `bodies(k)` (`None` when it completes and breaks).
      With at least one attempt allowed it ends exactly as the wrapper does:
      the same number of attempts, and the same exception when it fails.
      With none allowed the loop body never runs and the loop just stops,
      where the wrapper raises its RuntimeError. */
  method RunContext(s: Strategy, bodies: nat -> Call<()>) returns (end: LoopEnd, made: nat)
    ensures s.maxAttempts <= 0 ==> made == 0 && end == Stopped
    ensures s.maxAttempts > 0 ==> (made == StopAt(s, bodies, 0) + 1
      && end == (if bodies(made - 1).Returned? then Succeeded else Propagated(bodies(made - 1).error)))
  {
    var ctx := new RetryContext(s);
    ctx.Iter();
    made := 0;
    while true
      invariant ctx.strategy == s && ctx.currentAttempt == made
      invariant made > 0 ==> made < s.maxAttempts && StopAt(s, bodies, 0) == StopAt(s, bodies, made)
      invariant forall j :: 0 <= j < made ==> !Final(s, bodies(j))
      invariant made > 0 <==> ctx.lastException.Some?
      invariant made > 0 ==> ctx.lastException == Some(bodies(made - 1).error)
      decreases s.maxAttempts - made
    {
      var step := ctx.Next();
      if step == StopIteration {
        return Stopped, made;
      }
      if step.RaiseLast? {
        // The loop always leaves before the count reaches the limit.
        assert false;
      }
      var k := made;
      made := made + 1;
      var outcome := bodies(k);
      var failure := if outcome.Returned? then None else Some(outcome.error);
      var suppress, slept := ctx.ExitAttempt(failure);
      if outcome.Returned? {
        return Succeeded, made;
      }
      if !suppress {
        return Propagated(outcome.error), made;
      }
    }
  }
}
