/** The retry loop shared by the four fetch routines of script.js: up to `retries`
    sequential attempts, stopping at the first success, with a linear backoff of
    `1000 * attempt` ms after every failed attempt that is not the last. */
module Retry {
  import opened Wrappers

  /** The `retries = 3` default; no caller passes another value. */
  const Retries: nat := 3

  /** The backoff base: after the k-th failed attempt the loop waits k times this. */
  const BackoffBaseMs: nat := 1000

  /** The outcome of the attempt with 0-based index `k`; attempts past the end of
      the script fail. */
  function AttemptAt<T>(script: seq<Outcome<T>>, k: nat): Outcome<T>
  {
    if k < |script| then script[k] else Fail
  }

  /** What one run of the retry loop produced: the value (None when every attempt
      failed), the number of attempts made and the total backoff requested. */
  datatype Run<T> = Run(result: Option<T>, attempts: nat, waitedMs: nat)

  /** The loop from the state `attempt` (failed attempts so far) and `waited`. */
  function RunFrom<T>(script: seq<Outcome<T>>, retries: nat, attempt: nat, waited: nat): Run<T>
    decreases retries - attempt
  {
    if attempt >= retries then Run(None, attempt, waited)
    else match AttemptAt(script, attempt)
      case Ok(v) => Run(Some(v), attempt + 1, waited)
      case Fail =>
        if attempt + 1 == retries then Run(None, attempt + 1, waited)
        else RunFrom(script, retries, attempt + 1, waited + BackoffBaseMs * (attempt + 1))
  }

  /** A whole retry loop over `script` with at most `retries` attempts. */
  function RunRetries<T>(script: seq<Outcome<T>>, retries: nat): Run<T>
  {
    RunFrom(script, retries, 0, 0)
  }

  /** The loop's promise, stated without reference to how it runs: at most `retries`
      attempts (at least one when `retries > 0`); every attempt before the last one
      made failed; a result is the value of the last attempt made; no result means
      that all `retries` attempts failed; and the waits add up to
      1000 * (1 + 2 + ... + (attempts - 1)) ms, so nothing is waited after the last attempt. */
  ghost predicate Characterizes<T>(script: seq<Outcome<T>>, retries: nat, run: Run<T>)
  {
    && run.attempts <= retries
    && (retries > 0 ==> 1 <= run.attempts)
    && (forall k :: 0 <= k < run.attempts - 1 ==> AttemptAt(script, k).Fail?)
    && (run.result.Some? ==> 1 <= run.attempts && AttemptAt(script, run.attempts - 1) == Ok(run.result.value))
    && (run.result.None? ==> run.attempts == retries && forall k :: 0 <= k < retries ==> AttemptAt(script, k).Fail?)
    && 2 * run.waitedMs == BackoffBaseMs * run.attempts * (run.attempts - 1)
  }

  lemma {:induction false} RunFromCharacterized<T>(script: seq<Outcome<T>>, retries: nat, attempt: nat, waited: nat)
    requires attempt < retries || attempt == retries == 0
    requires forall k :: 0 <= k < attempt ==> AttemptAt(script, k).Fail?
    requires 2 * waited == BackoffBaseMs * attempt * (attempt + 1)
    ensures Characterizes(script, retries, RunFrom(script, retries, attempt, waited))
    decreases retries - attempt
  {
    if attempt < retries {
      match AttemptAt(script, attempt)
      case Ok(v) =>
      case Fail =>
        if attempt + 1 < retries {
          var w := waited + BackoffBaseMs * (attempt + 1);
          assert 2 * w == BackoffBaseMs * (attempt + 1) * (attempt + 2) by {
            assert BackoffBaseMs * (attempt + 1) * (attempt + 2)
                == BackoffBaseMs * attempt * (attempt + 1) + 2 * BackoffBaseMs * (attempt + 1);
          }
          RunFromCharacterized(script, retries, attempt + 1, w);
        }
    }
  }

  /** The retry loop keeps the promise stated by `Characterizes`. */
  lemma RetryCharacterized<T>(script: seq<Outcome<T>>, retries: nat)
    ensures Characterizes(script, retries, RunRetries(script, retries))
  {
    RunFromCharacterized(script, retries, 0, 0);
  }

  /** The loop yields a value exactly when one of the first `retries` attempts succeeds. */
  lemma RetrySucceedsIff<T>(script: seq<Outcome<T>>, retries: nat)
    ensures RunRetries(script, retries).result.Some? <==> exists k :: 0 <= k < retries && AttemptAt(script, k).Ok?
  {
    RetryCharacterized(script, retries);
  }

  /** With the default of three attempts and a source that always fails: three attempts,
      no value, and 1000 + 2000 ms of backoff. */
  lemma AlwaysFailingThreeAttempts<T>(script: seq<Outcome<T>>)
    requires forall k :: 0 <= k < Retries ==> AttemptAt(script, k).Fail?
    ensures RunRetries(script, Retries) == Run(None, 3, 3000)
  {
    RetryCharacterized(script, Retries);
  }

  /** The `while (attempt < retries)` loop of script.js. The per-attempt outcome is read
      from `script`; the requested `setTimeout` delays are summed into the ghost `waitedMs`. */
  method RetryLoop<T>(script: seq<Outcome<T>>, retries: nat) returns (r: Option<T>, attempts: nat, ghost waitedMs: nat)
    ensures Run(r, attempts, waitedMs) == RunRetries(script, retries)
  {
    var attempt := 0;
    waitedMs := 0;
    while attempt < retries
      invariant attempt <= retries
      invariant RunFrom(script, retries, attempt, waitedMs) == RunRetries(script, retries)
      decreases retries - attempt
    {
      match AttemptAt(script, attempt)
      case Ok(v) =>
        return Some(v), attempt + 1, waitedMs;
      case Fail =>
        attempt := attempt + 1;
        if attempt == retries {
          return None, attempt, waitedMs;
        }
        waitedMs := waitedMs + BackoffBaseMs * attempt;
    }
    // Reached only when `retries == 0`: the source then resolves to `undefined`.
    r, attempts := None, attempt;
  }
}
