# selenium-ui-components: retry loop and BiDi smart-wait engine

This project models, in Dafny, the two parts of the selenium-ui-components
library that hold logic of their own, and proves properties of them.

- **`RetryExecutor`** is a bounded retry loop. It runs a browser action at
  most `retryCount` times. It sleeps `delayMs` between failed attempts and
  rethrows the last failure. `getWithRetry` additionally throws
  "Retry exhausted" when there is no attempt to make.
- **`BiDiSmartWait`** is an event-driven wait engine over a WebDriver BiDi
  session. A periodic task fingerprints the DOM and records changes.
  Network events move a counter of active requests. Console, exception and
  DOM-change waits are `CompletableFuture`s kept in a registry under
  prefixed keys, and browser events complete them. Polled waits (DOM
  stable, DOM ready, network idle, any condition) re-evaluate a predicate
  until it holds or the deadline passes. `waitFor` picks a wait from an
  enum and untyped parameters. `shutdown` cancels everything once.

Time, the browser and the transport enter as parameters:

- the current time is `now`;
- the DOM fingerprint script's result is a `DomRead`;
- a script read of the request counter is a `CountRead`;
- `document.readyState` is a `ScriptResult`;
- the `UUID` of a key is a string;
- the transport gives listener ids, and whether it refuses a subscription
  or a removal.

Each retried action is a script `nat -> Attempt<T>`: the outcome of its
i-th call. Each sleep is recorded as a delay instead of being performed.

## Layout

- `values.dfy`, module `WaitValues`: Java `int` wrap-around,
  `Long.toString`, `startsWith`, and the `Map<String, Object>` payloads of
  browser events with `extractExceptionDetails`.
- `retry.dfy`, module `RetryExecutor`: the loop as a reference function
  `RetryLoop`, and a `while` loop proved to follow it. The four public
  methods are built on it, with lemmas for each promise of the loop.
- `futures.dfy`, module `WaitFutures`: the states of a future, and the
  `allOf`, `anyOf` and `exceptionally` combinators.
- `conditions.dfy`, module `WaitConditions`: the polled predicates and the
  `waitForCondition` poller, one periodic run at a time:
  - as values: `Poll` and `PollTick`;
  - as classes: `ConditionWait`, and `NetworkIdleWait` with its
    `lastRequestTime` cell.
- `engine_model.dfy`, module `EngineModel`: the state of a `BiDiSmartWait`
  as a value `Engine`, every handler and operation as a transition on it,
  the invariant `Inv`, and the lemmas.
- `engine.dfy`, module `SmartWaitEngine`: the class `BiDiSmartWait`. Its
  fields are updated in place, and each method is proved to move
  `State()` exactly as its transition in `EngineModel` says. The
  `forEach` over matching keys is a `while` loop.
- `dispatch.dfy`, module `WaitDispatch`: the `waitFor` switch, and the
  waits that `waitForPageReady` combines.

## Behaviour the model follows

The model follows the code in each of these places.

- `decrementAndGet` on `activeRequestCount` has no clamp, so the count can
  go below zero. A negative count reads as idle.
- `allOf` is not fail-fast. It waits for every input and then reports the
  leftmost failure.
- `anyOf` is "first completion", not "first success". A failure that
  completes first decides the result.
- The console handler's subscription in `initializeEventListeners` is
  commented out, and `handleJsException` has no subscription line at all.
  The model still gives both handlers, as the transitions the engine would
  perform if the transport called them.
- A console wait's filter is stored and never consulted: any readable
  console event completes every pending console wait.
- The caller of a keyed wait holds the stage that `whenComplete` returns,
  not the registered future:
  - The console hook is typed for `ConsoleLogEntry`, but the handler
    completes the future with a `Map`. The hook's implicit cast throws
    `ClassCastException` before its body runs. The caller's handle fails
    with that exception, and the key and filter stay registered until
    `shutdown` (`Settled`, `ConsoleCompletionStrandsKey`).
  - The cancellation at `shutdown` reaches the caller as a failure caused
    by the `CancellationException`, not as a cancelled future.
- Nothing checks `isShutdown`:
  - Keyed waits can still be registered after `shutdown`. The DOM task is
    gone by then and the console and exception transitions do nothing, so
    such a wait ends only by its `orTimeout`.
  - Polled waits fail only because the stopped pool rejects their task.
- `scheduler.shutdown()` discards the periodic task of every polled wait
  without completing its future. A polled wait still pending at
  `shutdown` stays pending for good (`ConditionWait.Drop`,
  `BiDiSmartWait.Shutdown`).
- `shutdown` asks the transport to remove every recorded listener and then
  clears `eventListeners`, whatever the transport answered. A listener
  whose removal was refused stays subscribed, but its id is gone, so
  nothing can remove it later. A refused DOM-content listener keeps
  resetting the fingerprint and both counters on navigation, and a refused
  network listener keeps moving the counter (`NoDomEventsAfterShutdown`,
  `NoTransportEventsAfterShutdown`).
- The poll task of `waitForCondition` catches `Exception` only. An `Error`
  from the predicate escapes the task, and the pool then stops
  rescheduling it. The future is never completed: the timeout test runs
  inside that task (`PollErrorStrandsFuture`).
- `waitFor` defaults to 1000 ms for DOM stability and 500 ms for network
  idle. `waitForPageReady` uses the opposite values.
- `waitFor` takes a threshold only from a `Long` parameter. An `Integer`
  silently falls back to the default.
- A failed DOM read gives the fingerprint `"error_" + now`. It counts as a
  change after a successful read or a reset. It does not count after
  another failed read in the same millisecond, whose fingerprint is equal.

## Model

| member | source | states |
|---|---|---|
| RetryExecutor.Retry | src/main/java/com/seleniumui/executors/RetryExecutor.java:13-23 | the shared `for` loop: its exit, attempt count and recorded sleeps are exactly those of the reference recursion `RetryLoop` |
| RetryExecutor.RetryLoop | src/main/java/com/seleniumui/executors/RetryExecutor.java:13-23 | the reference recursion for the loop: attempt `i` of `retryCount` returns on a value, rethrows an `Error` at once, rethrows an exception on the last attempt, ends with `Thread.sleep`'s exception when `delayMs` is negative, and otherwise records a sleep of `delayMs` and goes on |
| RetryExecutor.RunWithRetry | src/main/java/com/seleniumui/executors/RetryExecutor.java:12-24 | outcome, attempts and sleeps follow `RetryLoop`; at most `retryCount` attempts; with `retryCount <= 0` it returns normally without calling the action |
| RetryExecutor.RunWithRetryDefaults | src/main/java/com/seleniumui/executors/RetryExecutor.java:26-28 | behaves as `retryCount = 3`, `delayMs = 1000`: between 1 and 3 attempts, with one 1000 ms sleep between consecutive attempts |
| RetryExecutor.GetWithRetry | src/main/java/com/seleniumui/executors/RetryExecutor.java:30-40 | outcome follows `RetryLoop`, with the supplier's value on success; at most `retryCount` attempts; with `retryCount <= 0` it raises "Retry exhausted" without calling the supplier |
| RetryExecutor.GetWithRetryDefaults | src/main/java/com/seleniumui/executors/RetryExecutor.java:42-44 | behaves as `retryCount = 3`, `delayMs = 1000`: between 1 and 3 attempts, with 1000 ms sleeps between them |
| RetryExecutor.RetryShape | src/main/java/com/seleniumui/executors/RetryExecutor.java:13-23 | every run: attempts within budget, and none only when `retryCount <= i`; one sleep between attempts and none after the last; every attempt but the last threw a retryable exception; the last attempt decides the exit |
| RetryExecutor.SucceedsAtFirstSuccess | src/main/java/com/seleniumui/executors/RetryExecutor.java:13-17 | exceptions at attempts `i..k-1` and a value at `k`: returns that value after exactly `k-i+1` attempts and `k-i` sleeps of `delayMs` |
| RetryExecutor.AllFailRethrowsLast | src/main/java/com/seleniumui/executors/RetryExecutor.java:18-20 | when every attempt throws an exception, the final attempt's throwable escapes unchanged after `retryCount` attempts and `retryCount-1` sleeps |
| RetryExecutor.ErrorEscapesAtOnce | src/main/java/com/seleniumui/executors/RetryExecutor.java:18 | only `Exception` is caught: an `Error` leaves the loop at once, with attempts left |
| RetryExecutor.ExceptionNeverShortCircuits | src/main/java/com/seleniumui/executors/RetryExecutor.java:34-36 | any exception on a non-final attempt is retried: the run's exit is that of the remaining attempts |
| RetryExecutor.NoAttemptsWhenNonPositive | src/main/java/com/seleniumui/executors/RetryExecutor.java:39 | `retryCount <= 0`: no attempt, no sleep; `getWithRetry` raises "Retry exhausted" |
| RetryExecutor.NegativeDelayThrowsFromSleep | src/main/java/com/seleniumui/executors/RetryExecutor.java:46-52 | a negative delay makes the first retried failure end the loop with `Thread.sleep`'s IllegalArgumentException, which `sleep` does not catch |
| WaitValues.Inc32 | src/main/java/com/seleniumui/core/waits/BiDiSmartWait.java:201-202 | `incrementAndGet` adds one and wraps from the largest `int` to the smallest |
| WaitValues.Dec32 | src/main/java/com/seleniumui/core/waits/BiDiSmartWait.java:203-204 | `decrementAndGet` subtracts one with no clamp at zero, and wraps at the bottom |
| WaitValues.IntToString | src/main/java/com/seleniumui/core/waits/BiDiSmartWait.java:189 | decimal rendering of a hash: non-empty, starting with a digit or `-`, with `-` exactly for negatives |
| WaitValues.ExtractExceptionDetails | src/main/java/com/seleniumui/core/waits/BiDiSmartWait.java:136-147 | the nested `exceptionDetails.text` when that entry is a map; the top-level `text` when it is null or missing; the fixed message when the cast fails |
| WaitValues.ExtractReadsBackText | src/main/java/com/seleniumui/core/waits/BiDiSmartWait.java:136-147 | a nested `exceptionDetails.text` is read back and wins over a top-level `text`; the top-level `text` is read back when there are no details; details without a `text` entry read as "null" |
| WaitFutures.AllOf | src/main/java/com/seleniumui/core/waits/BiDiSmartWait.java:449-451 | `allOf` over the inputs in array order: pending while one is pending, then the leftmost exceptional input's cause, else success with no value |
| WaitFutures.AnyOf | src/main/java/com/seleniumui/core/waits/BiDiSmartWait.java:454-456 | `anyOf` over the inputs in completion order: the first completed input decides, a cancellation becoming a failure; pending when none completed |
| WaitFutures.PageReady | src/main/java/com/seleniumui/core/waits/BiDiSmartWait.java:498-507 | `allOf` of the three page waits with every failure turned into a normal completion |
| WaitFutures.AllOfPendingIff | src/main/java/com/seleniumui/core/waits/BiDiSmartWait.java:449-451 | `waitForAll` is pending exactly while some input is pending (not fail-fast) |
| WaitFutures.AllOfDoneIff | src/main/java/com/seleniumui/core/waits/BiDiSmartWait.java:449-451 | `waitForAll` succeeds, with no value, exactly when every input succeeded; it is never itself cancelled |
| WaitFutures.AllOfFailureIsLeftmost | src/main/java/com/seleniumui/core/waits/BiDiSmartWait.java:449-451 | a failed `waitForAll` carries the cause of the leftmost input that did not succeed, once all inputs are complete |
| WaitFutures.AnyOfFirstCompletionWins | src/main/java/com/seleniumui/core/waits/BiDiSmartWait.java:454-456 | `waitForAny` is pending iff no input completed, and otherwise takes the first completion's value or failure |
| WaitFutures.AnyOfFailsOnFirstFailure | src/main/java/com/seleniumui/core/waits/BiDiSmartWait.java:454-456 | for any inputs: when the first input to complete failed or was cancelled, `waitForAny` fails with that cause whatever completes after it |
| WaitFutures.PageReadyNeverFails | src/main/java/com/seleniumui/core/waits/BiDiSmartWait.java:498-507 | the page-ready wait is pending while one of its three waits is, and afterwards completes normally whatever their outcomes |
| SmartWaitEngine.BiDiSmartWait.DomReadyCondition | src/main/java/com/seleniumui/core/waits/BiDiSmartWait.java:356-366 | the DOM-ready predicate (`DomReadyCheck`) is satisfied iff the script returned the string `"complete"`; a failing script reads as unsatisfied, never as a thrown check |
| WaitConditions.IdleCheck | src/main/java/com/seleniumui/core/waits/BiDiSmartWait.java:388-408 | the network-idle predicate is true iff the count read is not positive and `now - idleSince >= threshold`; a positive count moves `idleSince` to `now`; a failed read answers false |
| WaitConditions.NetworkIdleWait.Check | src/main/java/com/seleniumui/core/waits/BiDiSmartWait.java:388-408 | one evaluation updates the captured `lastRequestTime` cell and answers as `IdleCheck` |
| WaitConditions.IdleSinceIsLastBusy | src/main/java/com/seleniumui/core/waits/BiDiSmartWait.java:385-400 | in time order, the cell is at least the creation time and the time of every observed request, and it is one of those times |
| WaitConditions.CellIsStartOrABusyTime | src/main/java/com/seleniumui/core/waits/BiDiSmartWait.java:385-400 | the cell is the creation time or the time of an observed request |
| WaitConditions.IdleWindowIsQuiet | src/main/java/com/seleniumui/core/waits/BiDiSmartWait.java:385-408 | in time order, the predicate answers true exactly when the count read now is non-positive, the wait is older than the threshold, and no observed request falls within the last threshold |
| WaitConditions.PollTick | src/main/java/com/seleniumui/core/waits/BiDiSmartWait.java:427-443 | one run counts the check first; success on a true predicate; timeout (strictly after `timeoutMs`) carrying description and count; failure when the check throws an `Exception`; each of these cancels the task; an `Error` from the check stops the task and leaves the future pending; a stopped task or completed poll is unchanged |
| WaitConditions.PollSettledIsFinal | src/main/java/com/seleniumui/core/waits/BiDiSmartWait.java:427-443 | once the future is complete or the task has stopped, further ticks change nothing |
| WaitConditions.PollUndecidedCounts | src/main/java/com/seleniumui/core/waits/BiDiSmartWait.java:429-437 | ticks that settle nothing only add to the check count |
| WaitConditions.PollFirstDecisiveTickWins | src/main/java/com/seleniumui/core/waits/BiDiSmartWait.java:427-443 | the first decisive tick fixes the outcome, with the count of checks up to and including it, and cancels the task |
| WaitConditions.PollErrorStrandsFuture | src/main/java/com/seleniumui/core/waits/BiDiSmartWait.java:427-441 | an `Error` from the predicate at the first tick that does not continue stops the task with the future pending for good, neither satisfied nor timed out |
| WaitConditions.PollRunSplit | src/main/java/com/seleniumui/core/waits/BiDiSmartWait.java:427-441 | running ticks in two parts is running them at once |
| WaitConditions.PollDoneOnlyWhenSatisfied | src/main/java/com/seleniumui/core/waits/BiDiSmartWait.java:431-432 | a pending poll completes normally only through a tick whose check was satisfied |
| WaitConditions.DomStableDoneOnlyWhenStable | src/main/java/com/seleniumui/core/waits/BiDiSmartWait.java:326-338 | fed the DOM-stable predicate's checks, a polled wait completes normally only after a tick at which the DOM had been quiet for the threshold |
| WaitConditions.ConditionWait.Tick | src/main/java/com/seleniumui/core/waits/BiDiSmartWait.java:427-443 | the in-place run follows `PollTick`: the task is cancelled once the future completes and stops after an `Error`; a stopped task leaves the poll unchanged |
| WaitConditions.ConditionWait.Drop | src/main/java/com/seleniumui/core/waits/BiDiSmartWait.java:587 | stopping the pool stops the periodic task and leaves everything else, including a pending future, as it was |
| WaitConditions.ConditionWait.Cancel | src/main/java/com/seleniumui/core/waits/BiDiSmartWait.java:443 | cancelling the handle cancels a pending future (and with it the periodic task) and leaves a completed one alone |
| EngineModel.WaitKey | src/main/java/com/seleniumui/core/waits/BiDiSmartWait.java:276 | every key carries the prefix of its wait kind |
| EngineModel.Init | src/main/java/com/seleniumui/core/waits/BiDiSmartWait.java:48-90 | a new engine satisfies the invariant, with an empty fingerprint, change time `now`, zero counters, the DOM-content-loaded listener, and the network listeners with monitoring on exactly when the transport accepted them; every recorded listener is subscribed |
| EngineModel.PrefixDeterminesKind | src/main/java/com/seleniumui/core/waits/BiDiSmartWait.java:276 | in a valid state, the prefix of a registered key tells its wait kind |
| EngineModel.Settled | src/main/java/com/seleniumui/core/waits/BiDiSmartWait.java:282-289 | what the caller's handle shows: a cancellation becomes a failure caused by it; a console wait completed normally fails with the hook's `ClassCastException`; any other completion is passed on |
| EngineModel.Resolve | src/main/java/com/seleniumui/core/waits/BiDiSmartWait.java:174-179 | completing keys changes only the handles, the registry and the filters, and never adds or drops a handle |
| EngineModel.ResolvePreservesInv | src/main/java/com/seleniumui/core/waits/BiDiSmartWait.java:282-285 | completing keys keeps every pending handle registered and, besides them, only stranded console handles, with a filter exactly for each registered console key |
| EngineModel.NotifyCompletesExactlyMatching | src/main/java/com/seleniumui/core/waits/BiDiSmartWait.java:170-180 | a notification settles exactly the pending handles with the prefix, with the given value as `Settled` shows it, and leaves every other handle as it was |
| EngineModel.NotifyFirstWins | src/main/java/com/seleniumui/core/waits/BiDiSmartWait.java:104-106 | after a notification, a second one with the same prefix changes nothing whatever its value |
| EngineModel.Fingerprint | src/main/java/com/seleniumui/core/waits/BiDiSmartWait.java:182-192 | a hash rendering starts with a digit or `-`, a failure rendering with `"error_"`, and neither is empty |
| EngineModel.DomTickOnChange | src/main/java/com/seleniumui/core/waits/BiDiSmartWait.java:150-180 | while the task runs, a new fingerprint is stored with the tick's time; the count goes up by one; exactly the pending DOM-change waits complete with that time and are unregistered; only the DOM fields and the keyed waits change |
| EngineModel.FailedReadCountsAsChange | src/main/java/com/seleniumui/core/waits/BiDiSmartWait.java:191 | an `"error_"` fingerprint never equals a hash rendering or `""`, so a failed read after a good one is a change |
| EngineModel.NavigationResetsDomState | src/main/java/com/seleniumui/core/waits/BiDiSmartWait.java:129-134 | while its listener is subscribed, navigation clears the fingerprint and both counters, keeps the change time and the waits, and makes the next tick a change |
| EngineModel.NoDomEventsAfterShutdown | src/main/java/com/seleniumui/core/waits/BiDiSmartWait.java:571-581 | after the first shutdown a tick changes nothing; a navigation changes nothing when the removal of the DOM-content listener succeeded; when the transport refused it, the id is no longer recorded and navigation still resets the fingerprint and counters |
| EngineModel.ChangeTimeCoversChanges | src/main/java/com/seleniumui/core/waits/BiDiSmartWait.java:150-160 | with ticks in time order, the change time never moves back and is at least the time of every tick that saw a change |
| EngineModel.ChangeTimeIsStartOrAChange | src/main/java/com/seleniumui/core/waits/BiDiSmartWait.java:150-160 | the recorded change time is the starting one or the time of a tick that saw a change |
| EngineModel.DomStableMeansQuietWindow | src/main/java/com/seleniumui/core/waits/BiDiSmartWait.java:330-333 | with ticks in time order, the DOM-stable predicate holds at `now` exactly when the starting change time and the time of every tick that saw a change are at least the threshold before `now` |
| EngineModel.CounterIsSentMinusCompleted | src/main/java/com/seleniumui/core/waits/BiDiSmartWait.java:201-204 | while both network listeners are subscribed and away from the `int` bounds, the counter moves by the number of sent events minus completed events, and nothing else changes |
| EngineModel.ConsoleEventIgnoresFilters | src/main/java/com/seleniumui/core/waits/BiDiSmartWait.java:92-109 | a readable console event settles every pending console wait, whose caller sees the hook's `ClassCastException`, whatever the filters, and no other handle |
| EngineModel.ConsoleCompletionStrandsKey | src/main/java/com/seleniumui/core/waits/BiDiSmartWait.java:283-289 | a console event unregisters nothing: the registry and filters are unchanged, every registered console handle is then a failed, stranded one, and the invariant holds |
| EngineModel.JsExceptionLogsAndNotifies | src/main/java/com/seleniumui/core/waits/BiDiSmartWait.java:111-127 | an exception event appends its payload to the log, completes exactly the pending exception waits, and keeps the invariant |
| EngineModel.NoTransportEventsAfterShutdown | src/main/java/com/seleniumui/core/waits/BiDiSmartWait.java:574-581 | after the first shutdown, console and exception events change nothing; a network listener whose removal succeeded is silent; one whose removal was refused is no longer recorded and keeps moving the counter |
| EngineModel.RegisterAddsPendingWait | src/main/java/com/seleniumui/core/waits/BiDiSmartWait.java:273-353 | registering a console, exception or DOM-change wait adds one pending, registered handle, also after shutdown, and keeps the invariant and every other handle |
| EngineModel.TimeoutSettlesOnce | src/main/java/com/seleniumui/core/waits/BiDiSmartWait.java:282-286 | the timeout fails and unregisters a pending handle, and changes nothing once it is complete |
| EngineModel.ShutdownCancelsPending | src/main/java/com/seleniumui/core/waits/BiDiSmartWait.java:557-584 | the first shutdown cancels exactly the pending handles (their callers see a failure caused by the cancellation), keeps completed ones, empties registry, filters and listeners, leaves subscribed exactly the recorded listeners whose removal was refused, and keeps the log |
| EngineModel.ShutdownIdempotent | src/main/java/com/seleniumui/core/waits/BiDiSmartWait.java:558-560 | a second shutdown changes nothing, whatever the transport answers |
| EngineModel.AddThenRemoveListener | src/main/java/com/seleniumui/core/waits/BiDiSmartWait.java:539-554 | removing an added listener drops only that id, from the map and from the subscriptions; a removal the transport refuses keeps both; a subscription it refuses changes nothing; both transitions keep the invariant |
| SmartWaitEngine.BiDiSmartWait.constructor | src/main/java/com/seleniumui/core/waits/BiDiSmartWait.java:48-90 | builds the state `Init` describes |
| SmartWaitEngine.BiDiSmartWait.CompleteAll | src/main/java/com/seleniumui/core/waits/BiDiSmartWait.java:99-108 | the loop completing keys one at a time reaches the state of completing them together; the polled tasks stay as they were |
| SmartWaitEngine.BiDiSmartWait.NotifyWaits | src/main/java/com/seleniumui/core/waits/BiDiSmartWait.java:170-180 | the prefix-filtered `forEach` moves the state as `Notify`; the polled tasks stay as they were |
| SmartWaitEngine.BiDiSmartWait.OnDomTick | src/main/java/com/seleniumui/core/waits/BiDiSmartWait.java:150-168 | one DOM task run moves the state as `DomTick`; the polled tasks stay as they were |
| SmartWaitEngine.BiDiSmartWait.OnDomContentLoaded | src/main/java/com/seleniumui/core/waits/BiDiSmartWait.java:129-134 | moves the state as `DomContentLoaded`; the polled tasks stay as they were |
| SmartWaitEngine.BiDiSmartWait.OnRequestSent | src/main/java/com/seleniumui/core/waits/BiDiSmartWait.java:201-202 | moves the state as `RequestSent`; the polled tasks stay as they were |
| SmartWaitEngine.BiDiSmartWait.OnResponseCompleted | src/main/java/com/seleniumui/core/waits/BiDiSmartWait.java:203-204 | moves the state as `ResponseCompleted`; the polled tasks stay as they were |
| SmartWaitEngine.BiDiSmartWait.OnConsoleEvent | src/main/java/com/seleniumui/core/waits/BiDiSmartWait.java:92-109 | when the handler is called (not after `shutdown`), its cast fails exactly on a non-string `type` or `text`; the state moves as `ConsoleEvent`; the polled tasks stay as they were |
| SmartWaitEngine.BiDiSmartWait.OnJsException | src/main/java/com/seleniumui/core/waits/BiDiSmartWait.java:111-127 | logs `extractExceptionDetails` unless called after `shutdown`; the state moves as `JsException`; the polled tasks stay as they were |
| SmartWaitEngine.BiDiSmartWait.OnTimeout | src/main/java/com/seleniumui/core/waits/BiDiSmartWait.java:282-286 | the timer of a handle moves the state as `OnTimeout`; the polled tasks stay as they were |
| SmartWaitEngine.BiDiSmartWait.WaitForConsoleMessage | src/main/java/com/seleniumui/core/waits/BiDiSmartWait.java:273-290 | returns the prefixed key and registers the filter and the pending handle; the polled tasks stay as they were |
| SmartWaitEngine.BiDiSmartWait.WaitForJavascriptException | src/main/java/com/seleniumui/core/waits/BiDiSmartWait.java:309-319 | returns the prefixed key and registers the pending handle; the polled tasks stay as they were |
| SmartWaitEngine.BiDiSmartWait.WaitForDomChange | src/main/java/com/seleniumui/core/waits/BiDiSmartWait.java:345-353 | returns the prefixed key and registers the pending handle; the polled tasks stay as they were |
| SmartWaitEngine.BiDiSmartWait.WaitForCondition | src/main/java/com/seleniumui/core/waits/BiDiSmartWait.java:416-445 | a fresh pending poll with zero checks whose task joins the pool's tasks, or a rejection exactly when the pool is stopped |
| SmartWaitEngine.BiDiSmartWait.DomStableCondition | src/main/java/com/seleniumui/core/waits/BiDiSmartWait.java:330-333 | the DOM-stable predicate is satisfied iff `now - lastDomChangeTime >= threshold`, and never throws |
| SmartWaitEngine.BiDiSmartWait.WaitForDomStable | src/main/java/com/seleniumui/core/waits/BiDiSmartWait.java:326-338 | a fresh, not cancelled polled wait described as "DOM stable for N ms", added to the pool's tasks; when the pool is stopped, rejected with no wait and no new task |
| SmartWaitEngine.BiDiSmartWait.WaitForDomReady | src/main/java/com/seleniumui/core/waits/BiDiSmartWait.java:356-371 | a fresh, not cancelled polled wait with the default timeout, added to the pool's tasks; when the pool is stopped, rejected with no wait and no new task |
| SmartWaitEngine.BiDiSmartWait.WaitForNetworkIdle | src/main/java/com/seleniumui/core/waits/BiDiSmartWait.java:378-413 | a fresh, not cancelled polled wait added to the pool's tasks, plus its own idle cell starting at the creation time; when the pool is stopped, rejected with no wait and no new task |
| SmartWaitEngine.BiDiSmartWait.ActiveRequests | src/main/java/com/seleniumui/core/waits/BiDiSmartWait.java:390-396 | the count comes from the event counter when BiDi network monitoring is on, and from the page script otherwise |
| SmartWaitEngine.BiDiSmartWait.GetCurrentState | src/main/java/com/seleniumui/core/waits/BiDiSmartWait.java:510-520 | the report's entries are the time since the last change, the two counters, the sizes of registry, listeners and log, and the monitoring flag |
| SmartWaitEngine.BiDiSmartWait.GetCaughtExceptions | src/main/java/com/seleniumui/core/waits/BiDiSmartWait.java:523-525 | a copy of the log with the same entries in the same order |
| SmartWaitEngine.BiDiSmartWait.ClearCaughtExceptions | src/main/java/com/seleniumui/core/waits/BiDiSmartWait.java:528-530 | empties the log and nothing else; the polled tasks stay as they were |
| SmartWaitEngine.BiDiSmartWait.AddEventListener | src/main/java/com/seleniumui/core/waits/BiDiSmartWait.java:539-544 | subscribes and records the transport's id for the event name and returns it; when the transport refuses, changes nothing and returns no id; the polled tasks stay as they were |
| SmartWaitEngine.BiDiSmartWait.RemoveEventListener | src/main/java/com/seleniumui/core/waits/BiDiSmartWait.java:547-554 | drops the id from the map and the subscriptions unless the transport refuses; the polled tasks stay as they were |
| SmartWaitEngine.BiDiSmartWait.Shutdown | src/main/java/com/seleniumui/core/waits/BiDiSmartWait.java:557-599 | moves the state as `Shutdown` given the refused removals; the first call drops every polled task, with its future and check count left as they were, and empties the task set; a second call leaves the tasks as they were |
| SmartWaitEngine.BiDiSmartWait.Close | src/main/java/com/seleniumui/core/waits/BiDiSmartWait.java:602-604 | is `shutdown`, with the same effect on the tasks |
| WaitDispatch.WaitFor | src/main/java/com/seleniumui/core/waits/BiDiSmartWait.java:459-495 | refuses exactly `CUSTOM` and a console condition without a `String` or `Predicate` first parameter, with the source's messages |
| WaitDispatch.KindOf | src/main/java/com/seleniumui/core/waits/BiDiSmartWait.java:461-490 | console, exception and DOM-change conditions start keyed waits; the others start polled waits |
| WaitDispatch.ConsoleParamBecomesFilter | src/main/java/com/seleniumui/core/waits/BiDiSmartWait.java:461-468 | a text parameter becomes a containment filter and a predicate is used as given |
| WaitDispatch.ThresholdFromLongOnly | src/main/java/com/seleniumui/core/waits/BiDiSmartWait.java:471-484 | thresholds come from a `Long` first parameter, otherwise 1000 / 500 ms; an `Integer` falls back to the default |
| WaitDispatch.OnlyFirstParamMatters | src/main/java/com/seleniumui/core/waits/BiDiSmartWait.java:459-495 | parameters after the first are ignored |
| WaitDispatch.PageReadySwapsDefaults | src/main/java/com/seleniumui/core/waits/BiDiSmartWait.java:498-503 | page ready waits 1000 ms of network idle and 500 ms of DOM stability, the reverse of the `waitFor` defaults |

## Left out

- Concurrency is not modelled. Each handler or task run is one atomic step
  with an explicit `now`. The model omits:
  - the thread pool and the periods of `scheduleAtFixedRate`;
  - interleavings between the DOM task, transport callbacks and callers;
  - the thread safety of the atomics and concurrent collections.
- `orTimeout` is modelled only as its effect: the transition `OnTimeout`,
  which the timer would perform. The `Wait.deadline` field records when
  that would happen. Nothing forces the timer to fire at that time.
- The BiDi transport, `executeScript`, the injected fetch/XHR counting
  script and the DOM-fingerprint JavaScript are foreign calls, so their
  results are inputs. Without BiDi network monitoring, the fallback that
  re-injects the network script is not modelled.
- `String.hashCode`, `System.currentTimeMillis` and `UUID.randomUUID` are
  parameters. `Register` assumes a fresh key: Inv preservation requires
  the UUID-based key to be unused.
- The console and exception handlers are modelled but not subscribed,
  because the source never subscribes them. Their transitions stand in for
  a subscription by checking only the shutdown flag.
- A console filter's predicate is an opaque id, since it is never called.
- All logging to `System.out` / `System.err`. The per-attempt messages of
  `RetryExecutor` are omitted as I/O.
- `Thread.sleep` interruption is not modelled. `sleep` restores the
  interrupt flag and the loop carries on. Every later `Thread.sleep` on
  that thread then throws at once and is caught again, so the remaining
  retries run without any delay. The model records every sleep with its
  full `delayMs`.
- `sendCommand` is a plain forward to the transport, with no logic of its
  own.
- `lastNetworkActivityTime` is a field that is never updated after
  construction.
- `awaitTermination`/`shutdownNow` in `shutdownScheduler` are scheduler
  plumbing. The pool is modelled as stopped after `shutdown`. The removal
  of the transport listeners is modelled by the set of ids whose removal
  the transport refuses.
- A constructor failure (a `RuntimeException` when the first
  subscription fails) is not modelled. Neither is the case where only the
  second network subscription fails: the first listener then stays with
  the transport but is not recorded, and the model records neither.
- Cancelling a handle returned by `waitForConsoleMessage`,
  `waitForJavascriptException` or `waitForDomChange` is not modelled. That
  handle is the stage that `whenComplete` returned, and cancelling it does
  not reach the registered future.
- The value of the future `waitFor` returns: its `thenApply(result -> null)`
  stage is not modelled.
- RetryExecutor.Retry: the action is a script indexed by attempt number,
  so the model does not capture side effects shared between attempts.
- `TimeUnit.toMillis` saturation and `Long` overflow of
  `now + timeout` are not modelled; times and timeouts are unbounded
  integers.
- EngineModel.CounterIsSentMinusCompleted: states the exact count only away
  from the 32-bit bounds. At the bounds, `Inc32`/`Dec32` state the
  wrap-around.
- WaitConditions.PollFirstDecisiveTickWins, WaitConditions.PollUndecidedCounts:
  stated while the check count stays below the largest `int`. Past it,
  the count wraps, as `Inc32` states.
- A cancelled input makes `allOf` fail with a
  `CancellationException` cause. The Java `CompletionException` wrapping is
  not modelled.
