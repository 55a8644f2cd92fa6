/** The bounded retry loop around a flaky browser operation. The operation is
    a script: `action(i)` is what its (i+1)-th call does. Sleeping is not
    performed; each completed `Thread.sleep(delayMs)` is recorded in
    `slept`. */
module RetryExecutor {

  /** A Java `Throwable`: an `Exception` (what `catch (Exception e)` catches)
      or an `Error` (which escapes the loop at once). The tag stands for the
      object's identity: "rethrown unchanged" means the same tag comes out. */
  datatype Throwable = Exception(tag: string) | Error(tag: string)

  /** `new IllegalStateException("Retry exhausted")`. */
  const RETRY_EXHAUSTED: Throwable := Exception("java.lang.IllegalStateException: Retry exhausted")
  /** What `Thread.sleep` throws for a negative delay; `sleep` only catches
      `InterruptedException`, so it leaves the loop. */
  const NEGATIVE_SLEEP: Throwable := Exception("java.lang.IllegalArgumentException: timeout value is negative")

  const DEFAULT_RETRY_COUNT: int := 3
  const DEFAULT_DELAY_MS: int := 1000

  /** What one call of the operation does. */
  datatype Attempt<T> = Returned(value: T) | Threw(ex: Throwable)

  /** How a retry method ends for its caller. */
  datatype Outcome<T> = Success(value: T) | Raised(ex: Throwable)

  /** How the shared `for` loop ends: an early `return`, an exception leaving
      it, or running past its last index (only when there is no iteration). */
  datatype Exit<T> = Normal(value: T) | Thrown(ex: Throwable) | FellOut

  datatype Trace<T> = Trace(exit: Exit<T>, attempts: nat, slept: seq<int>)

  predicate Retryable<T>(a: Attempt<T>) {
    a.Threw? && a.ex.Exception?
  }

  /** `k` sleeps of `d` milliseconds each. */
  function Delays(d: int, k: nat): (s: seq<int>)
    ensures |s| == k && forall j :: 0 <= j < k ==> s[j] == d
  {
    seq(k, _ => d)
  }

  /** The loop from iteration `i` on: the reference behaviour the methods
      below are proved to follow. */
  function RetryLoop<T>(action: nat -> Attempt<T>, retryCount: int, delayMs: int, i: nat): Trace<T>
    decreases retryCount - i
  {
    if retryCount <= i then Trace(FellOut, 0, [])
    else match action(i)
      case Returned(v) => Trace(Normal(v), 1, [])
      case Threw(e) =>
        if e.Error? || i == retryCount - 1 then Trace(Thrown(e), 1, [])
        else if delayMs < 0 then Trace(Thrown(NEGATIVE_SLEEP), 1, [])
        else
          var rest := RetryLoop(action, retryCount, delayMs, i + 1);
          Trace(rest.exit, rest.attempts + 1, [delayMs] + rest.slept)
  }

  /** `runWithRetry`: running past the loop is a normal return. */
  function RunView(t: Trace<()>): Outcome<()> {
    match t.exit
    case Normal(v) => Success(v)
    case Thrown(e) => Raised(e)
    case FellOut => Success(())
  }

  /** `getWithRetry`: running past the loop throws "Retry exhausted". */
  function GetView<T>(t: Trace<T>): Outcome<T> {
    match t.exit
    case Normal(v) => Success(v)
    case Thrown(e) => Raised(e)
    case FellOut => Raised(RETRY_EXHAUSTED)
  }

  // ---------------------------------------------------------------------
  // The loop, shared by both Java methods

  method Retry<T>(action: nat -> Attempt<T>, retryCount: int, delayMs: int)
    returns (exit: Exit<T>, attempts: nat, slept: seq<int>)
    ensures Trace(exit, attempts, slept) == RetryLoop(action, retryCount, delayMs, 0)
    ensures attempts <= if retryCount < 0 then 0 else retryCount
    ensures slept == Delays(delayMs, if attempts == 0 then 0 else attempts - 1)
  {
    var i: nat := 0;
    attempts, slept := 0, [];
    while i < retryCount
      invariant attempts == i && slept == Delays(delayMs, i)
      invariant i > 0 ==> delayMs >= 0 && i < retryCount
      invariant RetryLoop(action, retryCount, delayMs, 0) == Shift(RetryLoop(action, retryCount, delayMs, i), i, delayMs)
      decreases retryCount - i
    {
      attempts := attempts + 1;
      match action(i)
      case Returned(v) =>
        exit := Normal(v);
        return;
      case Threw(e) =>
        if e.Error? || i == retryCount - 1 {
          exit := Thrown(e);
          return;
        }
        if delayMs < 0 {
          exit := Thrown(NEGATIVE_SLEEP);
          return;
        }
        slept := slept + [delayMs];
        ShiftStep(action, retryCount, delayMs, i);
      i := i + 1;
    }
    exit := FellOut;
  }

  /** The trace of iterations `i..` seen from iteration 0, when the first `i`
      iterations each failed and slept. */
  function Shift<T>(t: Trace<T>, i: nat, d: int): Trace<T> {
    Trace(t.exit, t.attempts + i, Delays(d, i) + t.slept)
  }

  lemma ShiftStep<T>(action: nat -> Attempt<T>, retryCount: int, delayMs: int, i: nat)
    requires i < retryCount - 1 && delayMs >= 0 && Retryable(action(i))
    ensures Shift(RetryLoop(action, retryCount, delayMs, i), i, delayMs)
         == Shift(RetryLoop(action, retryCount, delayMs, i + 1), i + 1, delayMs)
  {
    var rest := RetryLoop(action, retryCount, delayMs, i + 1);
    assert Delays(delayMs, i) + ([delayMs] + rest.slept) == Delays(delayMs, i + 1) + rest.slept;
  }

  method RunWithRetry(action: nat -> Attempt<()>, retryCount: int, delayMs: int)
    returns (outcome: Outcome<()>, attempts: nat, slept: seq<int>)
    ensures var t := RetryLoop(action, retryCount, delayMs, 0);
            outcome == RunView(t) && attempts == t.attempts && slept == t.slept
    ensures attempts <= if retryCount < 0 then 0 else retryCount
    ensures retryCount <= 0 ==> outcome == Success(()) && attempts == 0
  {
    var exit;
    exit, attempts, slept := Retry(action, retryCount, delayMs);
    outcome := RunView(Trace(exit, attempts, slept));
  }

  /** The one-argument `runWithRetry`. */
  method RunWithRetryDefaults(action: nat -> Attempt<()>)
    returns (outcome: Outcome<()>, attempts: nat, slept: seq<int>)
    ensures var t := RetryLoop(action, DEFAULT_RETRY_COUNT, DEFAULT_DELAY_MS, 0);
            outcome == RunView(t) && attempts == t.attempts && slept == t.slept
    ensures 1 <= attempts <= 3 && slept == Delays(1000, attempts - 1)
  {
    outcome, attempts, slept := RunWithRetry(action, DEFAULT_RETRY_COUNT, DEFAULT_DELAY_MS);
    RetryShape(action, DEFAULT_RETRY_COUNT, DEFAULT_DELAY_MS, 0);
  }

  method GetWithRetry<T>(supplier: nat -> Attempt<T>, retryCount: int, delayMs: int)
    returns (outcome: Outcome<T>, attempts: nat, slept: seq<int>)
    ensures var t := RetryLoop(supplier, retryCount, delayMs, 0);
            outcome == GetView(t) && attempts == t.attempts && slept == t.slept
    ensures attempts <= if retryCount < 0 then 0 else retryCount
    ensures retryCount <= 0 ==> outcome == Raised(RETRY_EXHAUSTED) && attempts == 0
  {
    var exit;
    exit, attempts, slept := Retry(supplier, retryCount, delayMs);
    outcome := GetView(Trace(exit, attempts, slept));
  }

  /** The one-argument `getWithRetry`. */
  method GetWithRetryDefaults<T>(supplier: nat -> Attempt<T>)
    returns (outcome: Outcome<T>, attempts: nat, slept: seq<int>)
    ensures var t := RetryLoop(supplier, DEFAULT_RETRY_COUNT, DEFAULT_DELAY_MS, 0);
            outcome == GetView(t) && attempts == t.attempts && slept == t.slept
    ensures 1 <= attempts <= 3 && slept == Delays(1000, attempts - 1)
  {
    outcome, attempts, slept := GetWithRetry(supplier, DEFAULT_RETRY_COUNT, DEFAULT_DELAY_MS);
    RetryShape(supplier, DEFAULT_RETRY_COUNT, DEFAULT_DELAY_MS, 0);
  }

  // ---------------------------------------------------------------------
  // What the loop promises

  /** General shape of every run from iteration `i`: at most `retryCount - i`
      attempts and at least one when an iteration is left; one sleep of
      `delayMs` between consecutive attempts and none after the last; every
      attempt but the last threw a retryable exception; the last attempt
      decides the exit (its value, its throwable unchanged, or the
      negative-sleep failure), and the loop falls out only when it made no
      attempt. */
  lemma {:induction false} RetryShape<T>(action: nat -> Attempt<T>, retryCount: int, delayMs: int, i: nat)
    ensures var t := RetryLoop(action, retryCount, delayMs, i);
      && (i < retryCount ==> 1 <= t.attempts <= retryCount - i)
      && (retryCount <= i <==> t.attempts == 0)
      && (t.exit.FellOut? <==> t.attempts == 0)
      && t.slept == Delays(delayMs, if t.attempts == 0 then 0 else t.attempts - 1)
      && (forall j :: i <= j < i + t.attempts - 1 ==> Retryable(action(j)))
      && (t.exit.Normal? ==> action(i + t.attempts - 1) == Returned(t.exit.value))
      && (t.exit.Thrown? ==>
            action(i + t.attempts - 1) == Threw(t.exit.ex)
            || (t.exit.ex == NEGATIVE_SLEEP && delayMs < 0 && t.attempts == 1))
    decreases retryCount - i
  {
    if i < retryCount && Retryable(action(i)) && i != retryCount - 1 && delayMs >= 0 {
      RetryShape(action, retryCount, delayMs, i + 1);
      var rest := RetryLoop(action, retryCount, delayMs, i + 1);
      assert [delayMs] + Delays(delayMs, rest.attempts - 1) == Delays(delayMs, rest.attempts);
    }
  }

  /** If attempts `i..k-1` throw exceptions and attempt `k` (within the
      budget) returns `v`, the run returns `v` after exactly `k - i + 1`
      attempts and `k - i` sleeps of `delayMs`. */
  lemma {:induction false} SucceedsAtFirstSuccess<T>(action: nat -> Attempt<T>, retryCount: int, delayMs: int, i: nat, k: nat)
    requires i <= k < retryCount
    requires forall j :: i <= j < k ==> Retryable(action(j))
    requires action(k).Returned?
    requires delayMs >= 0 || k == i
    ensures RetryLoop(action, retryCount, delayMs, i) == Trace(Normal(action(k).value), k - i + 1, Delays(delayMs, k - i))
    decreases k - i
  {
    if i < k {
      SucceedsAtFirstSuccess(action, retryCount, delayMs, i + 1, k);
      assert [delayMs] + Delays(delayMs, k - i - 1) == Delays(delayMs, k - i);
    }
  }

  /** If every one of the `retryCount` attempts throws an exception, the
      exception of the final attempt escapes unchanged, after `retryCount`
      attempts and `retryCount - 1` sleeps (none after the last). */
  lemma {:induction false} AllFailRethrowsLast<T>(action: nat -> Attempt<T>, retryCount: int, delayMs: int, i: nat)
    requires i < retryCount
    requires forall j :: i <= j < retryCount ==> Retryable(action(j))
    requires delayMs >= 0 || i == retryCount - 1
    ensures var last := action(retryCount - 1);
            last.Threw? &&
            RetryLoop(action, retryCount, delayMs, i) == Trace(Thrown(last.ex), retryCount - i, Delays(delayMs, retryCount - i - 1))
    decreases retryCount - i
  {
    if i < retryCount - 1 {
      AllFailRethrowsLast(action, retryCount, delayMs, i + 1);
      assert [delayMs] + Delays(delayMs, retryCount - i - 2) == Delays(delayMs, retryCount - i - 1);
    }
  }

  /** An `Error` is not caught: after exceptions at `i..k-1`, an `Error` at
      attempt `k` leaves at once, even with attempts left. */
  lemma {:induction false} ErrorEscapesAtOnce<T>(action: nat -> Attempt<T>, retryCount: int, delayMs: int, i: nat, k: nat)
    requires i <= k < retryCount
    requires forall j :: i <= j < k ==> Retryable(action(j))
    requires action(k).Threw? && action(k).ex.Error?
    requires delayMs >= 0 || k == i
    ensures RetryLoop(action, retryCount, delayMs, i) == Trace(Thrown(action(k).ex), k - i + 1, Delays(delayMs, k - i))
    decreases k - i
  {
    if i < k {
      ErrorEscapesAtOnce(action, retryCount, delayMs, i + 1, k);
      assert [delayMs] + Delays(delayMs, k - i - 1) == Delays(delayMs, k - i);
    }
  }

  /** Every `Exception` is retried while attempts remain, whatever it is:
      the outcome of a failed non-final attempt is the outcome of the rest
      of the run. */
  lemma ExceptionNeverShortCircuits<T>(action: nat -> Attempt<T>, retryCount: int, delayMs: int, i: nat)
    requires i < retryCount - 1 && delayMs >= 0 && Retryable(action(i))
    ensures RetryLoop(action, retryCount, delayMs, i).exit == RetryLoop(action, retryCount, delayMs, i + 1).exit
    ensures RetryLoop(action, retryCount, delayMs, i).attempts == RetryLoop(action, retryCount, delayMs, i + 1).attempts + 1
  {
  }

  /** With no attempt allowed, `runWithRetry` returns without calling the
      action and `getWithRetry` throws "Retry exhausted". */
  lemma NoAttemptsWhenNonPositive<T>(action: nat -> Attempt<T>, retryCount: int, delayMs: int)
    requires retryCount <= 0
    ensures RetryLoop(action, retryCount, delayMs, 0) == Trace(FellOut, 0, [])
    ensures GetView(RetryLoop(action, retryCount, delayMs, 0)) == Raised(RETRY_EXHAUSTED)
  {
  }

  /** A negative delay turns the first retryable failure (with attempts
      left) into the `IllegalArgumentException` of `Thread.sleep`. */
  lemma NegativeDelayThrowsFromSleep<T>(action: nat -> Attempt<T>, retryCount: int, delayMs: int)
    requires delayMs < 0 && retryCount >= 2 && Retryable(action(0))
    ensures RetryLoop(action, retryCount, delayMs, 0) == Trace(Thrown(NEGATIVE_SLEEP), 1, [])
  {
  }
}
