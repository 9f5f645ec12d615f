/**
 * The retry controller of `NetworkResilientLLM.completion`
 * (`patchpal/llm_resilience.py`), over an abstract sequence of call
 * outcomes: call `k` of `litellm.completion` is described by `call(k)`.
 */
module LlmResilience {
  import opened Wrappers
  import opened PyStr

  /** The substrings of a lower-cased error message that mark it as
    * transient. */
  const RetryablePatterns := [
    "timeout", "timed out", "connection reset", "connection refused",
    "connection error", "broken pipe", "read timeout", "connect timeout",
    "socket", "network", "temporary failure", "503", "502", "504", "429"]

  /** `_is_retryable_error`, on the text `str(error)`. */
  predicate IsRetryableError(message: string)
  {
    AnyIn(Lower(message), RetryablePatterns)
  }

  /** `any(p in text for p in patterns)`. */
  predicate AnyIn(text: string, patterns: seq<string>)
  {
    patterns != [] && (Contains(text, patterns[0]) || AnyIn(text, patterns[1..]))
  }

  lemma {:induction false} AnyInIff(text: string, patterns: seq<string>)
    ensures AnyIn(text, patterns) <==> exists k :: 0 <= k < |patterns| && Contains(text, patterns[k])
  {
    if patterns != [] {
      AnyInIff(text, patterns[1..]);
      if Contains(text, patterns[0]) {
      } else if AnyIn(text, patterns[1..]) {
        var k :| 0 <= k < |patterns[1..]| && Contains(text, patterns[1..][k]);
        assert patterns[k + 1] == patterns[1..][k];
      } else {
        forall k | 0 <= k < |patterns| ensures !Contains(text, patterns[k]) {
          if k > 0 {
            assert patterns[k] == patterns[1..][k - 1];
          }
        }
      }
    }
  }

  /** What one call of `litellm.completion` does. */
  datatype CallOutcome =
    | Returned(response: string)
    | Interrupted
    | Raised(message: string)

  /** How `completion` ends: it returns a response, re-raises an error,
    * or raises `Exception("LLM API call failed after N retries: ...")`. */
  datatype Completion =
    | Response(response: string)
    | Reraised(message: string)
    | KeyboardInterrupt
    | RetriesExhausted(maxRetries: int, lastError: Option<string>)

  /** The message of the final exception; `str(None)` is `None`. */
  function ExhaustedMessage(maxRetries: int, lastError: Option<string>): string
  {
    "LLM API call failed after " + IntToString(maxRetries) + " retries: "
    + (if lastError.Some? then lastError.value else "None")
  }

  /** The outcome, the number of calls made, and the delays slept before
    * jitter is added, in order. */
  datatype Run = Run(result: Completion, calls: nat, delays: seq<real>)

  function Pow2(k: nat): (r: nat)
    ensures r >= 1
  {
    if k == 0 then 1 else 2 * Pow2(k - 1)
  }

  /** `min(self.base_delay * (2 ** (attempt - 1)), self.max_delay)`. */
  function Backoff(baseDelay: real, maxDelay: real, attempt: nat): (d: real)
    requires attempt >= 1
    ensures d <= maxDelay
  {
    var grown := baseDelay * Pow2(attempt - 1) as real;
    if grown <= maxDelay then grown else maxDelay
  }

  /** The loop from attempt `attempt` on, with `last_error` so far. */
  function Loop(maxRetries: int, baseDelay: real, maxDelay: real, call: nat -> CallOutcome,
                retryable: string -> bool, attempt: nat, lastError: Option<string>): Run
    decreases if attempt <= maxRetries then maxRetries + 1 - attempt else 0
  {
    if attempt > maxRetries then Run(RetriesExhausted(maxRetries, lastError), attempt, [])
    else
      match call(attempt)
      case Returned(response) => Run(Response(response), attempt + 1, [])
      case Interrupted => Run(KeyboardInterrupt, attempt + 1, [])
      case Raised(m) =>
        if !retryable(m) then Run(Reraised(m), attempt + 1, [])
        else if attempt + 1 > maxRetries then Run(RetriesExhausted(maxRetries, Some(m)), attempt + 1, [])
        else
          var rest := Loop(maxRetries, baseDelay, maxDelay, call, retryable, attempt + 1, Some(m));
          Run(rest.result, rest.calls, [Backoff(baseDelay, maxDelay, attempt + 1)] + rest.delays)
  }

  /** `completion`, from its first attempt. */
  function CompletionSpec(maxRetries: int, baseDelay: real, maxDelay: real, call: nat -> CallOutcome,
                          retryable: string -> bool): Run
  {
    Loop(maxRetries, baseDelay, maxDelay, call, retryable, 0, None)
  }

  /** `delays` slept before the rest of the run. */
  function WithDelays(delays: seq<real>, run: Run): Run
  {
    Run(run.result, run.calls, delays + run.delays)
  }

  /** The `while attempt <= self.max_retries` loop. */
  method CompletionLoop(maxRetries: int, baseDelay: real, maxDelay: real, call: nat -> CallOutcome)
    returns (result: Completion, calls: nat, delays: seq<real>)
    ensures Run(result, calls, delays) == CompletionSpec(maxRetries, baseDelay, maxDelay, call, IsRetryableError)
  {
    var lastError: Option<string> := None;
    var attempt: nat := 0;
    delays := [];
    while attempt <= maxRetries
      invariant CompletionSpec(maxRetries, baseDelay, maxDelay, call, IsRetryableError)
                == WithDelays(delays, Loop(maxRetries, baseDelay, maxDelay, call, IsRetryableError, attempt, lastError))
      decreases maxRetries + 1 - attempt
    {
      LoopStep(maxRetries, baseDelay, maxDelay, call, IsRetryableError, attempt, lastError);
      match call(attempt)
      case Returned(response) =>
        return Response(response), attempt + 1, delays;
      case Interrupted =>
        return KeyboardInterrupt, attempt + 1, delays;
      case Raised(m) =>
        lastError := Some(m);
        attempt := attempt + 1;
        if !IsRetryableError(m) {
          return Reraised(m), attempt, delays;
        }
        if attempt > maxRetries {
          break;
        }
        var delay := Backoff(baseDelay, maxDelay, attempt);
        delays := delays + [delay];
    }
    result := RetriesExhausted(maxRetries, lastError);
    calls := attempt;
  }

  /** One turn of the loop, case by case. */
  lemma LoopStep(maxRetries: int, baseDelay: real, maxDelay: real, call: nat -> CallOutcome,
                 retryable: string -> bool, attempt: nat, lastError: Option<string>)
    requires attempt <= maxRetries
    ensures var run := Loop(maxRetries, baseDelay, maxDelay, call, retryable, attempt, lastError);
      match call(attempt)
      case Returned(response) => run == Run(Response(response), attempt + 1, [])
      case Interrupted => run == Run(KeyboardInterrupt, attempt + 1, [])
      case Raised(m) =>
        if !retryable(m) then run == Run(Reraised(m), attempt + 1, [])
        else if attempt + 1 > maxRetries then run == Run(RetriesExhausted(maxRetries, Some(m)), attempt + 1, [])
        else (forall ds :: WithDelays(ds, run)
                == WithDelays(ds + [Backoff(baseDelay, maxDelay, attempt + 1)],
                              Loop(maxRetries, baseDelay, maxDelay, call, retryable, attempt + 1, Some(m))))
  {
  }

  // ---------------------------------------------------------------------
  // Properties
  // ---------------------------------------------------------------------

  /** A first call that returns is the only call. */
  lemma FirstCallReturns(maxRetries: int, baseDelay: real, maxDelay: real, call: nat -> CallOutcome,
      retryable: string -> bool)
    requires maxRetries >= 0 && call(0).Returned?
    ensures CompletionSpec(maxRetries, baseDelay, maxDelay, call, retryable) == Run(Response(call(0).response), 1, [])
  {
  }

  /** A non-retryable error, or an interrupt, on the first call is raised
    * again after that one call. */
  lemma FirstCallFails(maxRetries: int, baseDelay: real, maxDelay: real, call: nat -> CallOutcome,
      retryable: string -> bool)
    requires maxRetries >= 0
    requires call(0).Interrupted? || (call(0).Raised? && !retryable(call(0).message))
    ensures var run := CompletionSpec(maxRetries, baseDelay, maxDelay, call, retryable);
      run.calls == 1 && run.delays == []
      && run.result == if call(0).Interrupted? then KeyboardInterrupt else Reraised(call(0).message)
  {
  }

  /** From any attempt on, at most one call per remaining attempt, and one
    * backoff delay after every failed call but the last. */
  lemma {:induction false} LoopCalls(maxRetries: int, baseDelay: real, maxDelay: real, call: nat -> CallOutcome,
                                     retryable: string -> bool, attempt: nat, lastError: Option<string>)
    ensures var run := Loop(maxRetries, baseDelay, maxDelay, call, retryable, attempt, lastError);
      && (attempt <= maxRetries ==> attempt + 1 <= run.calls <= maxRetries + 1 && |run.delays| == run.calls - attempt - 1)
      && (attempt > maxRetries ==> run.calls == attempt && run.delays == [])
    decreases if attempt <= maxRetries then maxRetries + 1 - attempt else 0
  {
    if attempt <= maxRetries && call(attempt).Raised? && retryable(call(attempt).message)
       && attempt + 1 <= maxRetries {
      LoopCalls(maxRetries, baseDelay, maxDelay, call, retryable, attempt + 1, Some(call(attempt).message));
    }
  }

  /** The delays follow the backoff schedule, counted from `attempt + 1`. */
  lemma {:induction false} LoopDelays(maxRetries: int, baseDelay: real, maxDelay: real, call: nat -> CallOutcome,
                                      retryable: string -> bool, attempt: nat, lastError: Option<string>)
    ensures forall i :: 0 <= i < |Loop(maxRetries, baseDelay, maxDelay, call, retryable, attempt, lastError).delays| ==>
      Loop(maxRetries, baseDelay, maxDelay, call, retryable, attempt, lastError).delays[i]
      == Backoff(baseDelay, maxDelay, attempt + i + 1)
    decreases if attempt <= maxRetries then maxRetries + 1 - attempt else 0
  {
    if attempt <= maxRetries && call(attempt).Raised? && retryable(call(attempt).message)
       && attempt + 1 <= maxRetries {
      var m := call(attempt).message;
      var next: nat := attempt + 1;
      LoopDelays(maxRetries, baseDelay, maxDelay, call, retryable, next, Some(m));
      var rest := Loop(maxRetries, baseDelay, maxDelay, call, retryable, next, Some(m));
      var run := Loop(maxRetries, baseDelay, maxDelay, call, retryable, attempt, lastError);
      assert run.delays == [Backoff(baseDelay, maxDelay, attempt + 1)] + rest.delays;
      forall i | 0 < i < |run.delays|
        ensures run.delays[i] == Backoff(baseDelay, maxDelay, attempt + i + 1)
      {
        assert run.delays[i] == rest.delays[i - 1];
      }
    }
  }

  /** Running out of retries means every remaining attempt was used. */
  lemma {:induction false} LoopExhausted(maxRetries: int, baseDelay: real, maxDelay: real, call: nat -> CallOutcome,
                                         retryable: string -> bool, attempt: nat, lastError: Option<string>)
    ensures var run := Loop(maxRetries, baseDelay, maxDelay, call, retryable, attempt, lastError);
      run.result.RetriesExhausted? ==> run.calls == if attempt > maxRetries then attempt else maxRetries + 1
    decreases if attempt <= maxRetries then maxRetries + 1 - attempt else 0
  {
    if attempt <= maxRetries && call(attempt).Raised? && retryable(call(attempt).message)
       && attempt + 1 <= maxRetries {
      LoopExhausted(maxRetries, baseDelay, maxDelay, call, retryable, attempt + 1, Some(call(attempt).message));
    }
  }

  /** Over the whole call: at most `max_retries + 1` calls, at least one
    * when `max_retries >= 0`, and the delays are the backoff schedule
    * `min(base * 2**(k-1), max)` for `k = 1, 2, ...`, one fewer than the calls. */
  lemma CompletionShape(maxRetries: int, baseDelay: real, maxDelay: real, call: nat -> CallOutcome,
      retryable: string -> bool)
    ensures var run := CompletionSpec(maxRetries, baseDelay, maxDelay, call, retryable);
      && (maxRetries >= 0 ==> 1 <= run.calls <= maxRetries + 1 && |run.delays| == run.calls - 1)
      && (maxRetries < 0 ==> run == Run(RetriesExhausted(maxRetries, None), 0, []))
      && (run.result.RetriesExhausted? && maxRetries >= 0 ==> run.calls == maxRetries + 1)
    ensures forall i :: 0 <= i < |CompletionSpec(maxRetries, baseDelay, maxDelay, call, retryable).delays| ==>
      CompletionSpec(maxRetries, baseDelay, maxDelay, call, retryable).delays[i] == Backoff(baseDelay, maxDelay, i + 1)
  {
    LoopCalls(maxRetries, baseDelay, maxDelay, call, retryable, 0, None);
    LoopDelays(maxRetries, baseDelay, maxDelay, call, retryable, 0, None);
    LoopExhausted(maxRetries, baseDelay, maxDelay, call, retryable, 0, None);
  }

  /** Calls that keep failing with retryable errors are made exactly
    * `max_retries + 1` times, and the run ends with the last error. */
  lemma {:induction false} AlwaysFailing(maxRetries: int, baseDelay: real, maxDelay: real, call: nat -> CallOutcome,
                                         retryable: string -> bool, attempt: nat, lastError: Option<string>)
    requires forall k :: call(k).Raised? && retryable(call(k).message)
    requires attempt <= maxRetries
    ensures var run := Loop(maxRetries, baseDelay, maxDelay, call, retryable, attempt, lastError);
      run.calls == maxRetries + 1
      && run.result == RetriesExhausted(maxRetries, Some(call(maxRetries).message))
    decreases maxRetries - attempt
  {
    if attempt + 1 <= maxRetries {
      AlwaysFailing(maxRetries, baseDelay, maxDelay, call, retryable, attempt + 1, Some(call(attempt).message));
    }
  }

  lemma PersistentFailure(maxRetries: int, baseDelay: real, maxDelay: real, call: nat -> CallOutcome,
      retryable: string -> bool)
    requires forall k :: call(k).Raised? && retryable(call(k).message)
    requires maxRetries >= 0
    ensures var run := CompletionSpec(maxRetries, baseDelay, maxDelay, call, retryable);
      run.calls == maxRetries + 1 && |run.delays| == maxRetries
      && run.result == RetriesExhausted(maxRetries, Some(call(maxRetries).message))
  {
    AlwaysFailing(maxRetries, baseDelay, maxDelay, call, retryable, 0, None);
    CompletionShape(maxRetries, baseDelay, maxDelay, call, retryable);
  }

  /** One retryable failure, then a response: two calls, one delay of
    * `base_delay` (capped). */
  lemma RetryThenReturn(maxRetries: int, baseDelay: real, maxDelay: real, call: nat -> CallOutcome,
      retryable: string -> bool)
    requires maxRetries >= 1
    requires call(0).Raised? && retryable(call(0).message) && call(1).Returned?
    ensures CompletionSpec(maxRetries, baseDelay, maxDelay, call, retryable)
            == Run(Response(call(1).response), 2, [Backoff(baseDelay, maxDelay, 1)])
  {
    var rest := Loop(maxRetries, baseDelay, maxDelay, call, retryable, 1, Some(call(0).message));
    assert rest == Run(Response(call(1).response), 2, []);
  }

  // ---------------------------------------------------------------------
  // Backoff
  // ---------------------------------------------------------------------

  lemma {:induction false} Pow2Monotone(j: nat, k: nat)
    requires j <= k
    ensures Pow2(j) <= Pow2(k)
    decreases k
  {
    if j < k {
      Pow2Monotone(j, k - 1);
    }
  }

  lemma ScaleMonotone(b: real, x: real, y: real)
    requires 0.0 <= b && x <= y
    ensures b * x <= b * y
  {
  }

  /** The pre-jitter delay never decreases from one attempt to the next
    * and never exceeds `max_delay`. */
  lemma BackoffMonotone(baseDelay: real, maxDelay: real, j: nat, k: nat)
    requires baseDelay >= 0.0 && 1 <= j <= k
    ensures Backoff(baseDelay, maxDelay, j) <= Backoff(baseDelay, maxDelay, k) <= maxDelay
  {
    var gj := baseDelay * Pow2(j - 1) as real;
    var gk := baseDelay * Pow2(k - 1) as real;
    assert gj <= gk by {
      Pow2Monotone(j - 1, k - 1);
      ScaleMonotone(baseDelay, Pow2(j - 1) as real, Pow2(k - 1) as real);
    }
    assert Backoff(baseDelay, maxDelay, j) == if gj <= maxDelay then gj else maxDelay;
    assert Backoff(baseDelay, maxDelay, k) == if gk <= maxDelay then gk else maxDelay;
  }

  /** Below the cap the delay doubles from one attempt to the next. */
  lemma BackoffDoubles(baseDelay: real, maxDelay: real, k: nat)
    requires k >= 1 && baseDelay * Pow2(k) as real <= maxDelay
    requires baseDelay >= 0.0
    ensures Backoff(baseDelay, maxDelay, k + 1) == 2.0 * Backoff(baseDelay, maxDelay, k)
  {
    Pow2Monotone(k - 1, k);
    ScaleMonotone(baseDelay, Pow2(k - 1) as real, Pow2(k) as real);
    assert Pow2(k) as real == 2.0 * Pow2(k - 1) as real;
  }

  // ---------------------------------------------------------------------
  // Retryable errors
  // ---------------------------------------------------------------------

  lemma PatternsLowerCase(k: int)
    requires 0 <= k < |RetryablePatterns|
    ensures Lower(RetryablePatterns[k]) == RetryablePatterns[k]
  {
    var p := RetryablePatterns[k];
    forall i | 0 <= i < |p| ensures LowerChar(p[i]) == p[i] {
    }
  }

  /** A message holding one of the patterns anywhere is retryable; the
    * surrounding text is lower-cased too, so its case does not matter. */
  lemma PatternAnywhere(x: string, y: string, k: int)
    requires 0 <= k < |RetryablePatterns|
    ensures IsRetryableError(x + RetryablePatterns[k] + y)
  {
    var p := RetryablePatterns[k];
    LowerAppend(x + p, y);
    LowerAppend(x, p);
    PatternsLowerCase(k);
    var low := Lower(x + p + y);
    assert low == Lower(x) + p + Lower(y);
    assert OccursAt(low, p, |Lower(x)|) by {
      assert low[|Lower(x)|..|Lower(x)| + |p|] == p;
    }
    ContainsIff(low, p);
    AnyInIff(low, RetryablePatterns);
  }
}
