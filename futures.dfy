/** The states of the `CompletableFuture`s the wait engine hands out, and the
    two combinators it uses: `CompletableFuture.allOf` and `anyOf`, plus the
    page-ready wait built from `allOf(...).exceptionally(...)`. */
module WaitFutures {
  import opened WaitValues

  /** Why a future completed exceptionally. */
  datatype Cause =
    | OrTimeout                                                   // `orTimeout` fired: TimeoutException
    | ConditionTimeout(description: string, timeoutMs: int, checks: int)
    | CheckFailed(message: string)                                // the condition threw
    | Cancellation                                                // a cancellation seen through a dependent stage
    | HookCastFailed                                              // a `whenComplete` hook threw ClassCastException

  /** What a future completed with. */
  datatype Value = NoValue | Time(t: int) | Event(data: Payload)

  datatype FutureState = Pending | Done(value: Value) | Failed(cause: Cause) | Cancelled

  /** `isCompletedExceptionally`: failed or cancelled. */
  predicate Exceptional(f: FutureState) {
    f.Failed? || f.Cancelled?
  }

  function CauseOf(f: FutureState): Cause
    requires Exceptional(f)
  {
    if f.Cancelled? then Cancellation else f.cause
  }

  /** `CompletableFuture.allOf(fs)`: completes once every input has
      completed; it then fails with the cause of the leftmost exceptional
      input (its relay tree prefers the left operand), and otherwise
      completes with `null`. Inputs are listed in array order. */
  function AllOf(fs: seq<FutureState>): FutureState {
    if fs == [] then Done(NoValue)
    else
      var rest := AllOf(fs[1..]);
      if fs[0].Pending? || rest.Pending? then Pending
      else if Exceptional(fs[0]) then Failed(CauseOf(fs[0]))
      else rest
  }

  /** `CompletableFuture.anyOf(fs)` with the inputs listed in the order in
      which they complete (those already complete at the call first, in
      array order): the first to complete decides, whether it succeeded or
      failed; with no completed input the result is pending. */
  function AnyOf(fs: seq<FutureState>): FutureState {
    if fs == [] then Pending
    else if fs[0].Pending? then AnyOf(fs[1..])
    else if Exceptional(fs[0]) then Failed(CauseOf(fs[0]))
    else fs[0]
  }

  /** `.exceptionally(t -> null)`: an exceptional completion becomes a
      normal one with `null`. */
  function Exceptionally(f: FutureState): FutureState {
    if Exceptional(f) then Done(NoValue) else f
  }

  /** `waitForPageReady`: all of DOM ready, network idle for 1000 ms and DOM
      stable for 500 ms, with failures swallowed. */
  function PageReady(domReady: FutureState, networkIdle: FutureState, domStable: FutureState): FutureState {
    Exceptionally(AllOf([domReady, networkIdle, domStable]))
  }

  // ---------------------------------------------------------------------
  // allOf

  /** `allOf` stays pending exactly as long as one input is pending: it is
      not fail-fast, a failed input does not complete it early. */
  lemma {:induction false} AllOfPendingIff(fs: seq<FutureState>)
    ensures AllOf(fs).Pending? <==> exists i :: 0 <= i < |fs| && fs[i].Pending?
  {
    if fs != [] {
      AllOfPendingIff(fs[1..]);
      if exists i :: 0 <= i < |fs[1..]| && fs[1..][i].Pending? {
        var i :| 0 <= i < |fs[1..]| && fs[1..][i].Pending?;
        assert fs[i + 1].Pending?;
      }
      if exists i :: 0 <= i < |fs| && fs[i].Pending? {
        var i :| 0 <= i < |fs| && fs[i].Pending?;
        if i > 0 { assert fs[1..][i - 1].Pending?; }
      }
    }
  }

  /** `allOf` succeeds exactly when every input succeeded, and then carries
      no value. */
  lemma {:induction false} AllOfDoneIff(fs: seq<FutureState>)
    ensures AllOf(fs).Done? <==> forall i :: 0 <= i < |fs| ==> fs[i].Done?
    ensures AllOf(fs).Done? ==> AllOf(fs) == Done(NoValue)
    ensures !AllOf(fs).Cancelled?
  {
    if fs != [] {
      AllOfDoneIff(fs[1..]);
      assert forall i :: 1 <= i < |fs| ==> fs[i] == fs[1..][i - 1];
    }
  }

  /** When `allOf` fails, its cause is that of the leftmost input that did
      not succeed, and every input has completed. */
  lemma {:induction false} AllOfFailureIsLeftmost(fs: seq<FutureState>)
    requires AllOf(fs).Failed?
    ensures exists k :: 0 <= k < |fs| && Exceptional(fs[k]) && AllOf(fs).cause == CauseOf(fs[k])
                        && forall j :: 0 <= j < k ==> fs[j].Done?
    ensures forall j :: 0 <= j < |fs| ==> !fs[j].Pending?
  {
    AllOfPendingIff(fs);
    if !Exceptional(fs[0]) {
      AllOfFailureIsLeftmost(fs[1..]);
      var k :| 0 <= k < |fs[1..]| && Exceptional(fs[1..][k]) && AllOf(fs[1..]).cause == CauseOf(fs[1..][k])
               && forall j :: 0 <= j < k ==> fs[1..][j].Done?;
      assert forall j :: 1 <= j < k + 1 ==> fs[j] == fs[1..][j - 1];
      assert Exceptional(fs[k + 1]) && AllOf(fs).cause == CauseOf(fs[k + 1]);
    } else {
      assert Exceptional(fs[0]) && AllOf(fs).cause == CauseOf(fs[0]);
    }
  }

  // ---------------------------------------------------------------------
  // anyOf

  /** `anyOf` takes the outcome of the first completed input: its value, or
      its failure (a cancellation becomes a failure); it is pending exactly
      when no input has completed. */
  lemma {:induction false} AnyOfFirstCompletionWins(fs: seq<FutureState>)
    ensures AnyOf(fs).Pending? <==> forall i :: 0 <= i < |fs| ==> fs[i].Pending?
    ensures !AnyOf(fs).Pending? ==>
      exists k :: 0 <= k < |fs| && !fs[k].Pending? && (forall j :: 0 <= j < k ==> fs[j].Pending?)
        && AnyOf(fs) == (if Exceptional(fs[k]) then Failed(CauseOf(fs[k])) else fs[k])
  {
    if fs != [] {
      AnyOfFirstCompletionWins(fs[1..]);
      assert forall i :: 1 <= i < |fs| ==> fs[i] == fs[1..][i - 1];
      if fs[0].Pending? && !AnyOf(fs).Pending? {
        var k :| 0 <= k < |fs[1..]| && !fs[1..][k].Pending? && (forall j :: 0 <= j < k ==> fs[1..][j].Pending?)
          && AnyOf(fs[1..]) == (if Exceptional(fs[1..][k]) then Failed(CauseOf(fs[1..][k])) else fs[1..][k]);
        assert fs[k + 1] == fs[1..][k];
        assert forall j :: 0 <= j < k + 1 ==> fs[j].Pending?;
      }
    }
  }

  /** `anyOf` is not "first success": when the first input to complete
      failed or was cancelled, the result fails with that cause, whatever
      the inputs completing after it. */
  lemma {:induction false} AnyOfFailsOnFirstFailure(fs: seq<FutureState>, k: nat)
    requires k < |fs| && Exceptional(fs[k])
    requires forall j :: 0 <= j < k ==> fs[j].Pending?
    ensures AnyOf(fs) == Failed(CauseOf(fs[k]))
  {
    if k > 0 {
      assert fs[0].Pending?;
      assert forall j :: 0 <= j < k - 1 ==> fs[1..][j] == fs[j + 1];
      AnyOfFailsOnFirstFailure(fs[1..], k - 1);
    }
  }

  // ---------------------------------------------------------------------
  // waitForPageReady

  /** The page-ready wait never fails: it is pending while one of its three
      waits is pending and completes normally, with no value, once all three
      have completed, whatever their outcomes. */
  lemma PageReadyNeverFails(domReady: FutureState, networkIdle: FutureState, domStable: FutureState)
    ensures var r := PageReady(domReady, networkIdle, domStable);
      && (r.Pending? <==> domReady.Pending? || networkIdle.Pending? || domStable.Pending?)
      && (!r.Pending? ==> r == Done(NoValue))
  {
    var fs := [domReady, networkIdle, domStable];
    AllOfPendingIff(fs);
    AllOfDoneIff(fs);
    assert fs[0] == domReady && fs[1] == networkIdle && fs[2] == domStable;
  }
}
