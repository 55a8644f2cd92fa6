/** `BiDiSmartWait` as a class: the fields the Java object updates in place,
    each event handler and public operation as a method, and every method
    proved to move the state exactly as the matching transition of module
    EngineModel. The browser, the BiDi transport, the clock and the UUID
    source are parameters: a handler is called with what the page or the
    transport gave it and with the current time. */
module SmartWaitEngine {
  import opened WaitValues
  import opened WaitFutures
  import opened WaitConditions
  import opened EngineModel

  /** The map `getCurrentState` returns. */
  datatype StateReport = StateReport(
    lastDomChangeMs: int,
    domChangeCount: int32,
    activeRequests: int32,
    pendingFutures: nat,
    eventListeners: nat,
    caughtExceptions: nat,
    networkMonitoringEnabled: bool)

  class BiDiSmartWait {
    const defaultTimeoutSeconds: int
    var lastDomHash: string
    var lastDomChangeTime: int
    var domChangeCount: int32
    var activeRequestCount: int32
    var networkMonitoringEnabled: bool
    var isShutdown: bool
    var domMonitorScheduled: bool
    var schedulerTerminated: bool
    var waits: map<string, Wait>
    var pendingFutures: set<string>
    var consoleFilters: map<string, ConsoleFilter>
    var eventListeners: map<int, string>
    /** The listener ids the transport still delivers events to. */
    var subscribed: set<int>
    /** The ids of the constructor's own subscriptions. */
    const domContentListener: int
    const networkListeners: Option<(int, int)>
    var caughtExceptions: seq<Payload>
    /** The periodic tasks of the polled waits the pool has scheduled. */
    var tasks: set<ConditionWait>

    /** The engine's state as a value. */
    function State(): Engine
      reads this
    {
      Engine(lastDomHash, lastDomChangeTime, domChangeCount, activeRequestCount,
             networkMonitoringEnabled, isShutdown, domMonitorScheduled, schedulerTerminated,
             waits, pendingFutures, consoleFilters, eventListeners, subscribed,
             domContentListener, networkListeners, caughtExceptions)
    }

    /** `defaultTimeoutSeconds` as the milliseconds the overloads without a
        timeout pass on. */
    function DefaultTimeoutMs(): int
      reads this
    {
      defaultTimeoutSeconds * 1000
    }

    /** The constructor with `initializeEventListeners`: the transport gave
        `domContentListener` for the DOM-content-loaded subscription and,
        unless it refused them, two ids for the network subscriptions. */
    constructor (defaultTimeoutSeconds: int, now: int, domContentListener: int,
                 networkListeners: Option<(int, int)>)
      ensures this.defaultTimeoutSeconds == defaultTimeoutSeconds
      ensures State() == Init(now, domContentListener, networkListeners)
      ensures Inv(State()) && tasks == {}
    {
      this.defaultTimeoutSeconds := defaultTimeoutSeconds;
      this.domContentListener := domContentListener;
      this.networkListeners := networkListeners;
      lastDomHash := "";
      lastDomChangeTime := now;
      domChangeCount := 0;
      activeRequestCount := 0;
      isShutdown := false;
      waits := map[];
      pendingFutures := {};
      consoleFilters := map[];
      caughtExceptions := [];
      tasks := {};
      domMonitorScheduled := true;
      schedulerTerminated := false;
      var listeners := map[domContentListener := DOM_CONTENT_LOADED];
      match networkListeners {
        case None =>
          networkMonitoringEnabled := false;
        case Some(ids) =>
          listeners := listeners[ids.0 := BEFORE_REQUEST_SENT];
          listeners := listeners[ids.1 := RESPONSE_COMPLETED];
          networkMonitoringEnabled := true;
      }
      eventListeners := listeners;
      subscribed := listeners.Keys;
    }

    // -------------------------------------------------------------------
    // Completing keyed waits

    /** Complete the handle `key` with `outcome` if it is still pending, and
        run its `whenComplete` hook. */
    method CompleteKey(key: string, outcome: FutureState)
      requires !outcome.Pending?
      modifies this
      ensures tasks == old(tasks)
      ensures State() == Resolve(old(State()), {key}, outcome)
    {
      ResolveSingle(State(), key, outcome);
      if key in waits && waits[key].future.Pending? {
        var w := waits[key];
        waits := waits[key := w.(future := Settled(w.kind, outcome))];
        if HookRuns(w.kind, outcome) {
          pendingFutures := pendingFutures - {key};
          if w.kind == ConsoleWait {
            consoleFilters := consoleFilters - {key};
          }
        }
      }
    }

    /** Complete every pending handle among `keys`, one at a time. */
    method CompleteAll(keys: set<string>, outcome: FutureState)
      requires !outcome.Pending?
      modifies this
      ensures tasks == old(tasks)
      ensures State() == Resolve(old(State()), keys, outcome)
    {
      ghost var e0 := State();
      ghost var done: set<string> := {};
      var remaining := keys;
      ResolveNothing(e0, outcome);
      while remaining != {}
        invariant done + remaining == keys && done !! remaining
        invariant State() == Resolve(e0, done, outcome)
        invariant tasks == old(tasks)
        decreases |remaining|
      {
        var k :| k in remaining;
        ResolveStep(e0, done, k, outcome);
        CompleteKey(k, outcome);
        remaining := remaining - {k};
        done := done + {k};
      }
    }

    /** The `pendingFutures...filter(startsWith(prefix))...forEach` blocks. */
    method NotifyWaits(prefix: string, v: Value)
      modifies this
      ensures tasks == old(tasks)
      ensures State() == Notify(old(State()), prefix, v)
    {
      var targets := set k | k in pendingFutures && HasPrefix(k, prefix);
      CompleteAll(targets, Done(v));
    }

    // -------------------------------------------------------------------
    // Event handlers

    /** One run of the DOM monitoring task, given what the fingerprint
        script gave and the time; none once the task is cancelled. */
    method OnDomTick(read: DomRead, now: int)
      modifies this
      ensures tasks == old(tasks)
      ensures State() == DomTick(old(State()), read, now)
    {
      if !domMonitorScheduled {
        return;
      }
      var currentHash := Fingerprint(read, now);
      if currentHash != lastDomHash {
        lastDomHash := currentHash;
        lastDomChangeTime := now;
        domChangeCount := Inc32(domChangeCount);
        NotifyWaits(DOMCHANGE_PREFIX, Time(lastDomChangeTime));
      }
    }

    method OnDomContentLoaded()
      modifies this
      ensures tasks == old(tasks)
      ensures State() == DomContentLoaded(old(State()))
    {
      if domContentListener !in subscribed {
        return;
      }
      lastDomHash := "";
      domChangeCount := 0;
      activeRequestCount := 0;
    }

    method OnRequestSent()
      modifies this
      ensures tasks == old(tasks)
      ensures State() == RequestSent(old(State()))
    {
      if !(networkListeners.Some? && networkListeners.value.0 in subscribed) {
        return;
      }
      activeRequestCount := Inc32(activeRequestCount);
    }

    method OnResponseCompleted()
      modifies this
      ensures tasks == old(tasks)
      ensures State() == ResponseCompleted(old(State()))
    {
      if !(networkListeners.Some? && networkListeners.value.1 in subscribed) {
        return;
      }
      activeRequestCount := Dec32(activeRequestCount);
    }

    /** `handleConsoleEvent`; `castFailed` is the ClassCastException thrown
        before anything is notified. After `shutdown` the handler is not
        called. */
    method OnConsoleEvent(data: Payload) returns (castFailed: bool)
      modifies this
      ensures tasks == old(tasks)
      ensures castFailed <==> !old(isShutdown) && !ConsoleFieldsReadable(data)
      ensures State() == ConsoleEvent(old(State()), data)
    {
      if isShutdown {
        return false;
      }
      castFailed := !ConsoleFieldsReadable(data);
      if !castFailed {
        NotifyWaits(CONSOLE_PREFIX, Event(data));
      }
    }

    /** `handleJsException`; `logged` is the text written to the error log,
        none when the handler is not called (after `shutdown`). */
    method OnJsException(data: Payload) returns (logged: Option<string>)
      modifies this
      ensures tasks == old(tasks)
      ensures logged == if old(isShutdown) then None else Some(ExtractExceptionDetails(data))
      ensures State() == JsException(old(State()), data)
    {
      if isShutdown {
        return None;
      }
      logged := Some(ExtractExceptionDetails(data));
      caughtExceptions := caughtExceptions + [data];
      NotifyWaits(EXCEPTION_PREFIX, Event(data));
    }

    /** The `orTimeout` timer of the handle `key` fires. */
    method OnTimeout(key: string)
      modifies this
      ensures tasks == old(tasks)
      ensures State() == EngineModel.OnTimeout(old(State()), key)
    {
      CompleteKey(key, Failed(OrTimeout));
    }

    // -------------------------------------------------------------------
    // Keyed waits

    /** `waitForConsoleMessage` (all four overloads: a text filter is
        `ContainsText`, the overloads without a timeout pass
        `DefaultTimeoutMs()`); the key is the handle's identity. */
    method WaitForConsoleMessage(filter: ConsoleFilter, timeoutMs: int, now: int, uuid: string)
      returns (key: string)
      modifies this
      ensures tasks == old(tasks)
      ensures key == WaitKey(ConsoleWait, now, uuid)
      ensures State() == Register(old(State()), ConsoleWait, key, now, timeoutMs, filter)
    {
      key := WaitKey(ConsoleWait, now, uuid);
      consoleFilters := consoleFilters[key := filter];
      waits := waits[key := Wait(ConsoleWait, now, now + timeoutMs, Pending)];
      pendingFutures := pendingFutures + {key};
    }

    method WaitForJavascriptException(timeoutMs: int, now: int, uuid: string) returns (key: string)
      modifies this
      ensures tasks == old(tasks)
      ensures key == WaitKey(ExceptionWait, now, uuid)
      ensures State() == Register(old(State()), ExceptionWait, key, now, timeoutMs, ContainsText(""))
    {
      key := WaitKey(ExceptionWait, now, uuid);
      waits := waits[key := Wait(ExceptionWait, now, now + timeoutMs, Pending)];
      pendingFutures := pendingFutures + {key};
    }

    method WaitForDomChange(timeoutMs: int, now: int, uuid: string) returns (key: string)
      modifies this
      ensures tasks == old(tasks)
      ensures key == WaitKey(DomChangeWait, now, uuid)
      ensures State() == Register(old(State()), DomChangeWait, key, now, timeoutMs, ContainsText(""))
    {
      key := WaitKey(DomChangeWait, now, uuid);
      waits := waits[key := Wait(DomChangeWait, now, now + timeoutMs, Pending)];
      pendingFutures := pendingFutures + {key};
    }

    // -------------------------------------------------------------------
    // Polled waits

    /** `waitForCondition`: a fresh polled wait whose task the pool
        schedules, or `rejected` when the pool has been shut down and
        refuses to schedule it. */
    method WaitForCondition(description: string, timeoutMs: int, now: int)
      returns (w: ConditionWait?, rejected: bool)
      modifies this`tasks
      ensures rejected <==> schedulerTerminated
      ensures rejected ==> w == null && tasks == old(tasks)
      ensures !rejected ==> w != null && fresh(w) && w.Valid() && !w.taskCancelled
                            && w.State() == Poll(now, timeoutMs, description, 0, Pending, false)
                            && tasks == old(tasks) + {w}
    {
      if schedulerTerminated {
        return null, true;
      }
      w := new ConditionWait(description, timeoutMs, now);
      tasks := tasks + {w};
      rejected := false;
    }

    /** What the predicate of `waitForDomStable(threshold)` answers at `now`. */
    method DomStableCondition(stabilityThresholdMs: int, now: int) returns (c: Check)
      ensures c.Satisfied? <==> DomStableCheck(now, lastDomChangeTime, stabilityThresholdMs)
      ensures !c.CheckThrew? && !c.CheckErred?
    {
      c := if now - lastDomChangeTime >= stabilityThresholdMs then Satisfied else Unsatisfied;
    }

    method WaitForDomStable(stabilityThresholdMs: int, timeoutMs: int, now: int)
      returns (w: ConditionWait?, rejected: bool)
      modifies this`tasks
      ensures rejected <==> schedulerTerminated
      ensures rejected ==> w == null && tasks == old(tasks)
      ensures !rejected ==> w != null && fresh(w) && w.Valid() && !w.taskCancelled
                            && w.State() == Poll(now, timeoutMs, "DOM stable for " + IntToString(stabilityThresholdMs) + "ms", 0, Pending, false)
                            && tasks == old(tasks) + {w}
    {
      w, rejected := WaitForCondition("DOM stable for " + IntToString(stabilityThresholdMs) + "ms", timeoutMs, now);
    }

    /** What the predicate of `waitForDomReady` answers: a failing script
        is caught and reads as not ready. */
    method DomReadyCondition(read: ScriptResult) returns (c: Check)
      ensures c.Satisfied? <==> DomReadyCheck(read)
      ensures !c.CheckThrew? && !c.CheckErred?
    {
      c := if read.ScriptValue? && read.value == JString("complete") then Satisfied else Unsatisfied;
    }

    /** `waitForDomReady`, always with the default timeout; its predicate
        is `DomReadyCondition`. */
    method WaitForDomReady(now: int) returns (w: ConditionWait?, rejected: bool)
      modifies this`tasks
      ensures rejected <==> schedulerTerminated
      ensures rejected ==> w == null && tasks == old(tasks)
      ensures !rejected ==> w != null && fresh(w) && w.Valid() && !w.taskCancelled
                            && w.State() == Poll(now, DefaultTimeoutMs(), "DOM ready state complete", 0, Pending, false)
                            && tasks == old(tasks) + {w}
    {
      w, rejected := WaitForCondition("DOM ready state complete", DefaultTimeoutMs(), now);
    }

    /** `waitForNetworkIdle`: the polled wait and the predicate's own
        `lastRequestTime` cell, started at `now`. */
    method WaitForNetworkIdle(idleThresholdMs: int, timeoutMs: int, now: int)
      returns (w: ConditionWait?, idle: NetworkIdleWait, rejected: bool)
      modifies this`tasks
      ensures rejected <==> schedulerTerminated
      ensures fresh(idle) && idle.idleThresholdMs == idleThresholdMs && idle.lastRequestTime == now
      ensures rejected ==> w == null && tasks == old(tasks)
      ensures !rejected ==> w != null && fresh(w) && w.Valid() && !w.taskCancelled
                            && w.State() == Poll(now, timeoutMs, "Network idle for " + IntToString(idleThresholdMs) + "ms", 0, Pending, false)
                            && tasks == old(tasks) + {w}
    {
      idle := new NetworkIdleWait(idleThresholdMs, now);
      w, rejected := WaitForCondition("Network idle for " + IntToString(idleThresholdMs) + "ms", timeoutMs, now);
    }

    /** What the network-idle predicate read: the event counter when BiDi
        network monitoring is on, otherwise the page script's counter. */
    method ActiveRequests(scriptRead: CountRead) returns (read: CountRead)
      ensures networkMonitoringEnabled ==> read == Count(activeRequestCount)
      ensures !networkMonitoringEnabled ==> read == scriptRead
    {
      read := if networkMonitoringEnabled then Count(activeRequestCount) else scriptRead;
    }

    // -------------------------------------------------------------------
    // Queries and listeners

    method GetCurrentState(now: int) returns (report: StateReport)
      ensures report.lastDomChangeMs == now - lastDomChangeTime
      ensures report.domChangeCount == domChangeCount && report.activeRequests == activeRequestCount
      ensures report.pendingFutures == |pendingFutures| && report.eventListeners == |eventListeners|
      ensures report.caughtExceptions == |caughtExceptions|
      ensures report.networkMonitoringEnabled == networkMonitoringEnabled
    {
      report := StateReport(now - lastDomChangeTime, domChangeCount, activeRequestCount,
                            |pendingFutures|, |eventListeners|, |caughtExceptions|, networkMonitoringEnabled);
    }

    /** A copy of the exception log, oldest first. */
    method GetCaughtExceptions() returns (list: seq<Payload>)
      ensures list == caughtExceptions
    {
      list := caughtExceptions;
    }

    method ClearCaughtExceptions()
      modifies this
      ensures tasks == old(tasks)
      ensures State() == EngineModel.ClearCaughtExceptions(old(State()))
    {
      caughtExceptions := [];
    }

    /** `addEventListener`: the transport gave `listenerId`, or refused the
        subscription, whose exception then reaches the caller (`id` is
        none). */
    method AddEventListener(eventName: string, listenerId: int, transportFails: bool) returns (id: Option<int>)
      modifies this
      ensures tasks == old(tasks)
      ensures id == if transportFails then None else Some(listenerId)
      ensures State() == EngineModel.AddEventListener(old(State()), eventName, listenerId, transportFails)
    {
      if transportFails {
        return None;
      }
      eventListeners := eventListeners[listenerId := eventName];
      subscribed := subscribed + {listenerId};
      id := Some(listenerId);
    }

    method RemoveEventListener(listenerId: int, transportFails: bool)
      modifies this
      ensures tasks == old(tasks)
      ensures State() == EngineModel.RemoveEventListener(old(State()), listenerId, transportFails)
    {
      if !transportFails {
        eventListeners := eventListeners - {listenerId};
        subscribed := subscribed - {listenerId};
      }
    }

    // -------------------------------------------------------------------
    // Shutdown

    /** `shutdown`, where the transport refuses to remove the listeners in
        `refused`; stopping the pool drops the periodic task of every
        polled wait without completing its future, so a polled wait still
        pending then stays pending. */
    method Shutdown(refused: set<int>)
      modifies this, tasks
      ensures State() == EngineModel.Shutdown(old(State()), refused)
      ensures !old(isShutdown) ==> forall w :: w in old(tasks) ==>
                w.taskCancelled && w.Valid() && w.future == old(w.future) && w.checkCount == old(w.checkCount)
      ensures !old(isShutdown) ==> tasks == {}
      ensures old(isShutdown) ==> tasks == old(tasks) && unchanged(old(tasks))
    {
      if isShutdown {
        return;
      }
      var queued := tasks;
      ReleaseAll(refused);
      DropTasks(queued);
      tasks := {};
    }

    /** The steps of a first `shutdown` up to stopping the pool. The flag
        is set once the cancellations are done; nothing in the model runs
        between the two, so the state reached is the same. */
    method ReleaseAll(refused: set<int>)
      requires !isShutdown
      modifies this
      ensures tasks == old(tasks)
      ensures State() == EngineModel.Shutdown(old(State()), refused)
    {
      var live := subscribed - (eventListeners.Keys - refused);
      CompleteAll(pendingFutures, Cancelled);
      isShutdown := true;
      pendingFutures := {};
      consoleFilters := map[];
      domMonitorScheduled := false;
      subscribed := live;
      eventListeners := map[];
      schedulerTerminated := true;
    }

    /** `scheduler.shutdown()` discards every queued periodic task. */
    method DropTasks(queued: set<ConditionWait>)
      modifies queued
      ensures forall w :: w in queued ==>
                w.taskCancelled && w.Valid() && w.future == old(w.future) && w.checkCount == old(w.checkCount)
    {
      var rest := queued;
      while rest != {}
        invariant rest <= queued
        invariant forall w :: w in queued - rest ==> w.taskCancelled && w.Valid()
        invariant forall w :: w in queued ==> w.future == old(w.future) && w.checkCount == old(w.checkCount)
        decreases |rest|
      {
        var w :| w in rest;
        w.Drop();
        rest := rest - {w};
      }
    }

    /** `close` is `shutdown`. */
    method Close(refused: set<int>)
      modifies this, tasks
      ensures State() == EngineModel.Shutdown(old(State()), refused)
      ensures !old(isShutdown) ==> forall w :: w in old(tasks) ==>
                w.taskCancelled && w.Valid() && w.future == old(w.future) && w.checkCount == old(w.checkCount)
      ensures !old(isShutdown) ==> tasks == {}
      ensures old(isShutdown) ==> tasks == old(tasks) && unchanged(old(tasks))
    {
      Shutdown(refused);
    }
  }
}
