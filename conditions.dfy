/** The polled conditions of the wait engine: the generic condition poller
    behind `waitForCondition` (its check counter, deadline and first-wins
    resolution) and the predicates it polls for DOM stability, DOM ready
    state and network idleness. Time is the explicit parameter `now`; what a
    predicate reads from the page is an input. */
module WaitConditions {
  import opened WaitValues
  import opened WaitFutures

  // ---------------------------------------------------------------------
  // The predicates

  /** The predicate of `waitForDomStable`: no recorded DOM change for at
      least the threshold. */
  predicate DomStableCheck(now: int, lastDomChangeTime: int, stabilityThresholdMs: int) {
    now - lastDomChangeTime >= stabilityThresholdMs
  }

  /** What `executeScript("return document.readyState")` gave. */
  datatype ScriptResult = ScriptValue(value: Obj) | ScriptThrew

  /** The predicate of `waitForDomReady`: `"complete".equals(result)`; a
      failing script reads as not ready. */
  predicate DomReadyCheck(read: ScriptResult) {
    read == ScriptValue(JString("complete"))
  }

  /** What the network-idle predicate read as the number of active
      requests: the engine's counter or the injected page counter, or a
      failed read (script error, a result that is not a number). */
  datatype CountRead = Count(n: int32) | CountUnreadable

  predicate Busy(read: CountRead) {
    read.Count? && read.n > 0
  }

  datatype IdleStep = IdleStep(idle: bool, idleSince: int)

  /** One evaluation of the network-idle predicate with its `lastRequestTime`
      cell: an observed request moves the cell to `now` and answers false; a
      failed read answers false and leaves the cell; otherwise (a zero or
      negative count) the answer is whether the threshold has passed. */
  function IdleCheck(idleSince: int, idleThresholdMs: int, now: int, read: CountRead): (r: IdleStep)
    ensures r.idle <==> !Busy(read) && read.Count? && now - idleSince >= idleThresholdMs
    ensures r.idleSince == if Busy(read) then now else idleSince
  {
    match read
    case CountUnreadable => IdleStep(false, idleSince)
    case Count(n) =>
      if n > 0 then IdleStep(false, now)
      else IdleStep(now - idleSince >= idleThresholdMs, idleSince)
  }

  /** The predicate of `waitForNetworkIdle`, with the `AtomicLong` cell it
      captures; the cell starts at the time the wait is created. */
  class NetworkIdleWait {
    const idleThresholdMs: int
    var lastRequestTime: int

    constructor (idleThresholdMs: int, now: int)
      ensures this.idleThresholdMs == idleThresholdMs && lastRequestTime == now
    {
      this.idleThresholdMs := idleThresholdMs;
      lastRequestTime := now;
    }

    method Check(now: int, read: CountRead) returns (idle: bool)
      modifies this
      ensures IdleStep(idle, lastRequestTime) == IdleCheck(old(lastRequestTime), idleThresholdMs, now, read)
    {
      match read {
        case CountUnreadable =>
          idle := false;
        case Count(n) =>
          if n > 0 {
            lastRequestTime := now;
            idle := false;
          } else {
            idle := now - lastRequestTime >= idleThresholdMs;
          }
      }
    }
  }

  /** One sampling of the page by the network-idle predicate. */
  datatype Observation = Observation(time: int, read: CountRead)

  /** The `lastRequestTime` cell after a run of evaluations. */
  function IdleSinceAfter(start: int, threshold: int, obs: seq<Observation>): int
    decreases |obs|
  {
    if obs == [] then start
    else IdleSinceAfter(IdleCheck(start, threshold, obs[0].time, obs[0].read).idleSince, threshold, obs[1..])
  }

  predicate Chronological(start: int, obs: seq<Observation>) {
    (forall i :: 0 <= i < |obs| ==> start <= obs[i].time)
    && (forall i, j :: 0 <= i < j < |obs| ==> obs[i].time <= obs[j].time)
  }

  /** The cell always holds the creation time or the time of an observed
      request. */
  lemma {:induction false} CellIsStartOrABusyTime(start: int, threshold: int, obs: seq<Observation>)
    ensures var cell := IdleSinceAfter(start, threshold, obs);
      cell == start || exists i :: 0 <= i < |obs| && Busy(obs[i].read) && obs[i].time == cell
    decreases |obs|
  {
    if obs != [] {
      var next := IdleCheck(start, threshold, obs[0].time, obs[0].read).idleSince;
      CellIsStartOrABusyTime(next, threshold, obs[1..]);
      var cell := IdleSinceAfter(start, threshold, obs);
      if cell != next {
        var i :| 0 <= i < |obs[1..]| && Busy(obs[1..][i].read) && obs[1..][i].time == cell;
        assert obs[i + 1] == obs[1..][i];
      } else if next != start {
        assert Busy(obs[0].read) && obs[0].time == cell;
      }
    }
  }

  /** With evaluations in time order, the cell is the later of the creation
      time and every observed request: it bounds them all, and it is one of
      them. */
  lemma {:induction false} IdleSinceIsLastBusy(start: int, threshold: int, obs: seq<Observation>)
    requires Chronological(start, obs)
    ensures start <= IdleSinceAfter(start, threshold, obs)
    ensures forall i :: 0 <= i < |obs| && Busy(obs[i].read) ==> obs[i].time <= IdleSinceAfter(start, threshold, obs)
    ensures var cell := IdleSinceAfter(start, threshold, obs);
      cell == start || exists i :: 0 <= i < |obs| && Busy(obs[i].read) && obs[i].time == cell
    decreases |obs|
  {
    CellIsStartOrABusyTime(start, threshold, obs);
    if obs != [] {
      var next := IdleCheck(start, threshold, obs[0].time, obs[0].read).idleSince;
      assert Chronological(next, obs[1..]) by {
        assert forall i :: 0 <= i < |obs[1..]| ==> obs[1..][i] == obs[i + 1];
      }
      IdleSinceIsLastBusy(next, threshold, obs[1..]);
      assert forall i :: 1 <= i < |obs| ==> obs[i] == obs[1..][i - 1];
    }
  }

  /** The network-idle predicate answers true at `now` exactly when the count
      it reads then is zero or negative, the wait has existed for the
      threshold, and no request was observed in the last `idleThresholdMs`:
      any observed request inside the window pushes the answer back, and a
      window without one succeeds. */
  lemma IdleWindowIsQuiet(start: int, threshold: int, obs: seq<Observation>, now: int, read: CountRead)
    requires Chronological(start, obs)
    ensures IdleCheck(IdleSinceAfter(start, threshold, obs), threshold, now, read).idle <==>
      && read.Count? && read.n <= 0
      && now - start >= threshold
      && (forall i :: 0 <= i < |obs| && Busy(obs[i].read) ==> obs[i].time <= now - threshold)
  {
    IdleSinceIsLastBusy(start, threshold, obs);
  }

  // ---------------------------------------------------------------------
  // The generic condition poller

  /** What one evaluation of the polled `Callable<Boolean>` did: it
      answered, threw an `Exception` (which the task catches), or threw an
      `Error`, which escapes the task. */
  datatype Check = Satisfied | Unsatisfied | CheckThrew(message: string) | CheckErred

  /** The state of one `waitForCondition`: its start time, timeout, check
      counter, future, and whether its periodic task has stopped. The task
      is cancelled once the future completes; the pool also stops it when
      it is shut down and when a run ends with an `Error`. */
  datatype Poll = Poll(startTime: int, timeoutMs: int, description: string, checkCount: int32,
                       future: FutureState, taskCancelled: bool)

  /** Whether the task still runs: it is scheduled and the future pending. */
  predicate Live(p: Poll) {
    !p.taskCancelled && p.future.Pending?
  }

  /** Whether a tick settles the future. The timeout test is strict, and an
      `Error` escapes before it is made. */
  predicate Decisive(p: Poll, now: int, c: Check) {
    c.Satisfied? || c.CheckThrew? || (c.Unsatisfied? && now - p.startTime > p.timeoutMs)
  }

  /** Whether a tick leaves the future pending and the task scheduled. */
  predicate Continues(p: Poll, now: int, c: Check) {
    c.Unsatisfied? && now - p.startTime <= p.timeoutMs
  }

  /** The future a decisive tick completes, with the check count after it;
      an `Error` completes nothing. */
  function Resolution(p: Poll, now: int, c: Check, checks: int32): FutureState {
    match c
    case Satisfied => Done(NoValue)
    case CheckThrew(m) => Failed(CheckFailed(m))
    case Unsatisfied => Failed(ConditionTimeout(p.description, p.timeoutMs, checks as int))
    case CheckErred => p.future
  }

  /** One run of the scheduled task: count the check, then resolve the
      future (whose hook cancels the task), leave both as they are, or, on an
      `Error`, lose the task with the future still pending. A stopped task
      is not run. */
  function PollTick(p: Poll, now: int, c: Check): (r: Poll)
    ensures r.startTime == p.startTime && r.timeoutMs == p.timeoutMs && r.description == p.description
    ensures !Live(p) ==> r == p
    ensures Live(p) ==> r.checkCount == Inc32(p.checkCount)
    ensures Live(p) && Decisive(p, now, c) ==> r.future == Resolution(p, now, c, r.checkCount) && r.taskCancelled
    ensures Live(p) && Continues(p, now, c) ==> r.future.Pending? && !r.taskCancelled
    ensures Live(p) && c.CheckErred? ==> r.future.Pending? && r.taskCancelled
  {
    if !Live(p) then p
    else
      var checks := Inc32(p.checkCount);
      match c
      case Satisfied => p.(checkCount := checks, future := Done(NoValue), taskCancelled := true)
      case CheckThrew(m) => p.(checkCount := checks, future := Failed(CheckFailed(m)), taskCancelled := true)
      case CheckErred => p.(checkCount := checks, taskCancelled := true)
      case Unsatisfied =>
        if now - p.startTime > p.timeoutMs
        then p.(checkCount := checks, future := Failed(ConditionTimeout(p.description, p.timeoutMs, checks as int)),
                taskCancelled := true)
        else p.(checkCount := checks)
  }

  datatype Tick = Tick(now: int, check: Check)

  function PollRun(p: Poll, ticks: seq<Tick>): Poll
    decreases |ticks|
  {
    if ticks == [] then p else PollRun(PollTick(p, ticks[0].now, ticks[0].check), ticks[1..])
  }

  /** A stopped poll is final: once the future is complete or the task has
      stopped, further ticks change nothing. */
  lemma {:induction false} PollSettledIsFinal(p: Poll, ticks: seq<Tick>)
    requires !Live(p)
    ensures PollRun(p, ticks) == p
    decreases |ticks|
  {
    if ticks != [] {
      PollSettledIsFinal(p, ticks[1..]);
    }
  }

  /** Ticks that settle nothing only count checks. */
  lemma {:induction false} PollUndecidedCounts(p: Poll, ticks: seq<Tick>)
    requires Live(p)
    requires p.checkCount as int + |ticks| < INT32_MAX as int
    requires forall j :: 0 <= j < |ticks| ==> Continues(p, ticks[j].now, ticks[j].check)
    ensures PollRun(p, ticks) == p.(checkCount := (p.checkCount as int + |ticks|) as int32)
    decreases |ticks|
  {
    if ticks != [] {
      var q := PollTick(p, ticks[0].now, ticks[0].check);
      assert forall j :: 0 <= j < |ticks[1..]| ==> ticks[1..][j] == ticks[j + 1];
      PollUndecidedCounts(q, ticks[1..]);
    }
  }

  /** The future of a running poll is settled by its first decisive tick:
      success only on a satisfied check, a timeout only once more than
      `timeoutMs` has passed since the start (carrying the description and
      the number of checks, that tick included), a failure when the check
      threw; the task is then cancelled and later ticks change nothing. */
  lemma PollFirstDecisiveTickWins(p: Poll, ticks: seq<Tick>, k: nat)
    requires Live(p)
    requires k < |ticks| && p.checkCount as int + k + 1 < INT32_MAX as int
    requires forall j :: 0 <= j < k ==> Continues(p, ticks[j].now, ticks[j].check)
    requires Decisive(p, ticks[k].now, ticks[k].check)
    ensures var checks := (p.checkCount as int + k + 1) as int32;
            PollRun(p, ticks) == p.(checkCount := checks, future := Resolution(p, ticks[k].now, ticks[k].check, checks),
                                    taskCancelled := true)
  {
    PollRunSplit(p, ticks[..k], ticks[k..]);
    assert ticks[..k] + ticks[k..] == ticks;
    PollUndecidedCounts(p, ticks[..k]);
    var q := PollRun(p, ticks[..k]);
    var r := PollTick(q, ticks[k].now, ticks[k].check);
    assert ticks[k..][1..] == ticks[k + 1..];
    PollSettledIsFinal(r, ticks[k + 1..]);
  }

  /** An `Error` from the predicate, at the first tick that does not just
      continue, ends the task and leaves the future pending for good: no
      later tick runs, so neither success nor the timeout ever completes it. */
  lemma PollErrorStrandsFuture(p: Poll, ticks: seq<Tick>, k: nat)
    requires Live(p)
    requires k < |ticks| && p.checkCount as int + k + 1 < INT32_MAX as int
    requires forall j :: 0 <= j < k ==> Continues(p, ticks[j].now, ticks[j].check)
    requires ticks[k].check.CheckErred?
    ensures PollRun(p, ticks) == p.(checkCount := (p.checkCount as int + k + 1) as int32, taskCancelled := true)
    ensures PollRun(p, ticks).future.Pending?
  {
    PollRunSplit(p, ticks[..k], ticks[k..]);
    assert ticks[..k] + ticks[k..] == ticks;
    PollUndecidedCounts(p, ticks[..k]);
    var q := PollRun(p, ticks[..k]);
    var r := PollTick(q, ticks[k].now, ticks[k].check);
    assert ticks[k..][1..] == ticks[k + 1..];
    PollSettledIsFinal(r, ticks[k + 1..]);
  }

  lemma {:induction false} PollRunSplit(p: Poll, a: seq<Tick>, b: seq<Tick>)
    ensures PollRun(p, a + b) == PollRun(PollRun(p, a), b)
    decreases |a|
  {
    if a == [] {
      assert a + b == b;
    } else {
      assert (a + b)[1..] == a[1..] + b;
      PollRunSplit(PollTick(p, a[0].now, a[0].check), a[1..], b);
    }
  }

  /** A pending poll completes normally only through a tick whose check
      was satisfied. */
  lemma {:induction false} PollDoneOnlyWhenSatisfied(p: Poll, ticks: seq<Tick>)
    requires p.future.Pending?
    ensures PollRun(p, ticks).future == Done(NoValue) ==>
              exists i :: 0 <= i < |ticks| && ticks[i].check.Satisfied?
    decreases |ticks|
  {
    if ticks != [] {
      var q := PollTick(p, ticks[0].now, ticks[0].check);
      if q.future.Pending? {
        PollDoneOnlyWhenSatisfied(q, ticks[1..]);
        if PollRun(p, ticks).future == Done(NoValue) {
          var i :| 0 <= i < |ticks[1..]| && ticks[1..][i].check.Satisfied?;
          assert ticks[i + 1].check.Satisfied?;
        }
      } else {
        PollSettledIsFinal(q, ticks[1..]);
      }
    }
  }

  /** When the checks a polled wait received are those of the DOM-stable
      predicate, its future completes normally only after a tick at which
      the DOM had been quiet for the threshold (`changeTimes[i]` is the
      change time the tick read). */
  lemma DomStableDoneOnlyWhenStable(p: Poll, ticks: seq<Tick>, threshold: int, changeTimes: seq<int>)
    requires p.future.Pending? && |changeTimes| == |ticks|
    requires forall i :: 0 <= i < |ticks| ==>
               (ticks[i].check.Satisfied? <==> DomStableCheck(ticks[i].now, changeTimes[i], threshold))
    ensures PollRun(p, ticks).future == Done(NoValue) ==>
              exists i :: 0 <= i < |ticks| && DomStableCheck(ticks[i].now, changeTimes[i], threshold)
  {
    PollDoneOnlyWhenSatisfied(p, ticks);
  }

  /** The future and scheduled task of one `waitForCondition` call. */
  class ConditionWait {
    const startTime: int
    const timeoutMs: int
    const description: string
    var checkCount: int32
    var future: FutureState
    var taskCancelled: bool

    /** The scheduled task is cancelled once the future completes; the pool
      can also stop it (at `shutdown`, or after an `Error`) while the future
      is still pending. */
    ghost predicate Valid()
      reads this
    {
      !future.Pending? ==> taskCancelled
    }

    function State(): Poll
      reads this
    {
      Poll(startTime, timeoutMs, description, checkCount, future, taskCancelled)
    }

    constructor (description: string, timeoutMs: int, now: int)
      ensures Valid() && !taskCancelled
      ensures State() == Poll(now, timeoutMs, description, 0, Pending, false)
    {
      startTime := now;
      this.timeoutMs := timeoutMs;
      this.description := description;
      checkCount := 0;
      future := Pending;
      taskCancelled := false;
    }

    /** One run of the periodic task; a stopped task is not run. */
    method Tick(now: int, c: Check)
      requires Valid()
      modifies this
      ensures Valid()
      ensures State() == PollTick(old(State()), now, c)
    {
      if taskCancelled {
        return;
      }
      checkCount := Inc32(checkCount);
      match c {
        case Satisfied =>
          Complete(Done(NoValue));
        case CheckThrew(m) =>
          Complete(Failed(CheckFailed(m)));
        case CheckErred =>
          taskCancelled := true;
        case Unsatisfied =>
          if now - startTime > timeoutMs {
            Complete(Failed(ConditionTimeout(description, timeoutMs, checkCount as int)));
          }
      }
    }

    /** `future.cancel(true)` by the holder of the handle. */
    method Cancel()
      requires Valid()
      modifies this
      ensures Valid()
      ensures State() == if old(future).Pending? then old(State()).(future := Cancelled, taskCancelled := true)
                         else old(State())
    {
      Complete(Cancelled);
    }

    /** `scheduler.shutdown()`: the pool discards the periodic task without
        completing the future, so a pending wait stays pending for good. */
    method Drop()
      modifies this`taskCancelled
      ensures Valid() && taskCancelled
      ensures State() == old(State()).(taskCancelled := true)
    {
      taskCancelled := true;
    }

    /** Completing the future (a no-op once it is done); the `whenComplete`
        hook then cancels the periodic task. */
    method Complete(outcome: FutureState)
      requires !outcome.Pending?
      modifies this`future, this`taskCancelled
      ensures future == if old(future).Pending? then outcome else old(future)
      ensures taskCancelled == (old(taskCancelled) || old(future).Pending?)
    {
      if future.Pending? {
        future := outcome;
        taskCancelled := true;
      }
    }
  }
}
