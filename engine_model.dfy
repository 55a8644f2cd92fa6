/** The state of one `BiDiSmartWait` engine as a value, and each of its
    event handlers and operations as a transition on that value. The class
    in module SmartWaitEngine performs the same steps in place and is proved
    to follow these transitions; the lemmas here state what the transitions
    promise. */
module EngineModel {
  import opened WaitValues
  import opened WaitFutures

  // ---------------------------------------------------------------------
  // Keyed waits

  /** The three kinds of wait kept in `pendingFutures`, told apart by the
      prefix of their key. */
  datatype WaitKind = ConsoleWait | ExceptionWait | DomChangeWait

  const CONSOLE_PREFIX := "console:"
  const EXCEPTION_PREFIX := "exception:"
  const DOMCHANGE_PREFIX := "domchange:"

  function PrefixOf(kind: WaitKind): string {
    match kind
    case ConsoleWait => CONSOLE_PREFIX
    case ExceptionWait => EXCEPTION_PREFIX
    case DomChangeWait => DOMCHANGE_PREFIX
  }

  /** `prefix + System.currentTimeMillis() + ":" + UUID.randomUUID()`. */
  function WaitKey(kind: WaitKind, now: int, uuid: string): (key: string)
    ensures HasPrefix(key, PrefixOf(kind))
  {
    PrefixOfConcat(PrefixOf(kind), IntToString(now) + ":" + uuid);
    PrefixOf(kind) + (IntToString(now) + ":" + uuid)
  }

  /** The filter a console wait was registered with (text containment or a
      caller's predicate). It is stored and never consulted. */
  datatype ConsoleFilter = ContainsText(text: string) | FilterPredicate(id: nat)

  /** One keyed wait handle: its kind, creation time, `orTimeout` deadline and
      the state of its future. */
  datatype Wait = Wait(kind: WaitKind, created: int, deadline: int, future: FutureState)

  // ---------------------------------------------------------------------
  // The engine

  datatype Option<T> = None | Some(value: T)

  /** The fields of `BiDiSmartWait`. `waits` holds every keyed handle handed
      out, with its current state; `pendingFutures` is the registry of keys;
      `eventListeners` maps a transport listener id to its event name;
      `subscribed` holds the ids the transport still delivers events to,
      and `domContentListener` and `networkListeners` are the engine's own
      listeners (no Java field keeps them); `domMonitorScheduled` is the
      DOM polling task and `schedulerTerminated` the thread pool. */
  datatype Engine = Engine(
    lastDomHash: string,
    lastDomChangeTime: int,
    domChangeCount: int32,
    activeRequestCount: int32,
    networkMonitoringEnabled: bool,
    isShutdown: bool,
    domMonitorScheduled: bool,
    schedulerTerminated: bool,
    waits: map<string, Wait>,
    pendingFutures: set<string>,
    consoleFilters: map<string, ConsoleFilter>,
    eventListeners: map<int, string>,
    subscribed: set<int>,
    domContentListener: int,
    networkListeners: Option<(int, int)>,
    caughtExceptions: seq<Payload>)

  /** The keys whose future is still pending. */
  function PendingKeys(waits: map<string, Wait>): set<string> {
    set k | k in waits && waits[k].future.Pending?
  }

  /** A console handle whose completion hook threw (see `Settled`): its
      future is done, but its key and filter were never removed. */
  predicate Stranded(w: Wait) {
    w.kind == ConsoleWait && w.future == Failed(HookCastFailed)
  }

  /** The engine's invariant: the registry holds every pending handle and,
      besides those, only stranded console handles; a console filter exists
      exactly for each registered console key; every key carries the prefix
      of its kind; the DOM task and the pool stop together, at shutdown. */
  ghost predicate Inv(e: Engine) {
    && PendingKeys(e.waits) <= e.pendingFutures
    && (forall k :: k in e.pendingFutures ==> k in e.waits && (e.waits[k].future.Pending? || Stranded(e.waits[k])))
    && e.consoleFilters.Keys == (set k | k in e.pendingFutures && k in e.waits && e.waits[k].kind == ConsoleWait)
    && (forall k :: k in e.waits ==> HasPrefix(k, PrefixOf(e.waits[k].kind)))
    && e.schedulerTerminated == e.isShutdown
    && e.domMonitorScheduled == !e.isShutdown
    && (!e.isShutdown ==> e.subscribed == e.eventListeners.Keys)
  }

  /** The prefix of a registered key tells its kind. */
  lemma PrefixDeterminesKind(e: Engine, k: string, kind: WaitKind)
    requires Inv(e) && k in e.waits && HasPrefix(k, PrefixOf(kind))
    ensures e.waits[k].kind == kind
  {
    var own := e.waits[k].kind;
    assert HasPrefix(k, PrefixOf(own));
    assert k[..|PrefixOf(own)|][0] == k[0] == k[..|PrefixOf(kind)|][0];
  }

  const DOM_CONTENT_LOADED := "browsingContext.domContentLoaded"
  const BEFORE_REQUEST_SENT := "network.beforeRequestSent"
  const RESPONSE_COMPLETED := "network.responseCompleted"

  /** The constructor: empty fingerprint, change time `now`, zero counters, the
      DOM-content-loaded listener and, when the transport accepted both
      network subscriptions, the two network listeners (and monitoring on). */
  function Init(now: int, domContentListener: int, networkListeners: Option<(int, int)>): (e: Engine)
    ensures Inv(e) && !e.isShutdown
    ensures e.lastDomHash == "" && e.lastDomChangeTime == now
    ensures e.domChangeCount == 0 && e.activeRequestCount == 0
    ensures e.networkMonitoringEnabled == networkListeners.Some?
    ensures e.waits == map[] && e.caughtExceptions == []
    ensures e.subscribed == e.eventListeners.Keys
    ensures e.domContentListener == domContentListener && e.networkListeners == networkListeners
    ensures networkListeners.None? ==> e.eventListeners == map[domContentListener := DOM_CONTENT_LOADED]
    ensures networkListeners.Some? ==>
      var ids := networkListeners.value;
      && e.eventListeners.Keys == {domContentListener, ids.0, ids.1}
      && e.eventListeners[ids.1] == RESPONSE_COMPLETED
      && (ids.0 != ids.1 ==> e.eventListeners[ids.0] == BEFORE_REQUEST_SENT)
      && (domContentListener != ids.0 && domContentListener != ids.1 ==>
            e.eventListeners[domContentListener] == DOM_CONTENT_LOADED)
  {
    var base := map[domContentListener := DOM_CONTENT_LOADED];
    var listeners :=
      match networkListeners
      case None => base
      case Some(ids) => base[ids.0 := BEFORE_REQUEST_SENT][ids.1 := RESPONSE_COMPLETED];
    Engine("", now, 0, 0, networkListeners.Some?, false, true, false, map[], {}, map[],
           listeners, listeners.Keys, domContentListener, networkListeners, [])
  }

  // ---------------------------------------------------------------------
  // Completing keyed waits

  /** The pending handles among `keys`. */
  function Hit(e: Engine, keys: set<string>): set<string> {
    set k | k in keys && k in e.waits && e.waits[k].future.Pending?
  }

  /** The state the caller's handle (the stage `whenComplete` returns) is
      left in when the registered future completes with `outcome`. A
      cancellation reaches it as a failure caused by the cancellation. The
      hook of a console wait is typed for `ConsoleLogEntry`, while the
      handlers complete the future with a `Map`: on a normal completion the
      hook's implicit cast throws `ClassCastException` before its body runs,
      and the handle fails with that exception. */
  function Settled(kind: WaitKind, outcome: FutureState): (f: FutureState)
    requires !outcome.Pending?
    ensures !f.Pending? && !f.Cancelled?
    ensures Exceptional(outcome) ==> f == Failed(CauseOf(outcome))
    ensures outcome.Done? ==> f == if kind == ConsoleWait then Failed(HookCastFailed) else outcome
  {
    if outcome.Cancelled? then Failed(Cancellation)
    else if kind == ConsoleWait && outcome.Done? then Failed(HookCastFailed)
    else outcome
  }

  /** Whether the hook's body, which unregisters the key, runs. */
  predicate HookRuns(kind: WaitKind, outcome: FutureState) {
    !(kind == ConsoleWait && outcome.Done?)
  }

  /** Complete every pending handle among `keys` with `outcome`; each
      completion runs the handle's `whenComplete` hook, which removes its key
      from `pendingFutures` and, for a console wait, from `consoleFilters`
      (unless the hook throws first, see `Settled`). Handles already done
      are left alone (`if (!future.isDone())`). */
  function Resolve(e: Engine, keys: set<string>, outcome: FutureState): (r: Engine)
    requires !outcome.Pending?
    ensures r == e.(waits := r.waits, pendingFutures := r.pendingFutures, consoleFilters := r.consoleFilters)
    ensures r.waits.Keys == e.waits.Keys
  {
    var hit := Hit(e, keys);
    var released := set k | k in hit && HookRuns(e.waits[k].kind, outcome);
    e.(waits := map k | k in e.waits :: if k in hit then e.waits[k].(future := Settled(e.waits[k].kind, outcome)) else e.waits[k],
       pendingFutures := e.pendingFutures - released,
       consoleFilters := e.consoleFilters - (set k | k in released && e.waits[k].kind == ConsoleWait))
  }

  /** Resolving a set of keys one key at a time gives the same state as
      resolving them together. */
  lemma ResolveStep(e: Engine, done: set<string>, k: string, outcome: FutureState)
    requires k !in done && !outcome.Pending?
    ensures Resolve(e, done + {k}, outcome) == Resolve(Resolve(e, done, outcome), {k}, outcome)
  {
    var a := Resolve(e, done + {k}, outcome);
    var m := Resolve(e, done, outcome);
    var b := Resolve(m, {k}, outcome);
    assert k in m.waits ==> m.waits[k] == e.waits[k];
    assert Hit(e, done + {k}) == Hit(e, done) + Hit(m, {k});
    assert a.waits == b.waits;
    assert a.pendingFutures == b.pendingFutures;
    assert a.consoleFilters == b.consoleFilters;
  }

  /** Resolving one key: a pending handle is settled and, when its hook
      runs, unregistered; any other key changes nothing. */
  lemma ResolveSingle(e: Engine, key: string, outcome: FutureState)
    requires !outcome.Pending?
    ensures Resolve(e, {key}, outcome) ==
      if key in e.waits && e.waits[key].future.Pending? then
        var w := e.waits[key];
        var released := HookRuns(w.kind, outcome);
        e.(waits := e.waits[key := w.(future := Settled(w.kind, outcome))],
           pendingFutures := if released then e.pendingFutures - {key} else e.pendingFutures,
           consoleFilters := if released && w.kind == ConsoleWait then e.consoleFilters - {key} else e.consoleFilters)
      else e
  {
    if key in e.waits && e.waits[key].future.Pending? {
      var w := e.waits[key];
      var r := Resolve(e, {key}, outcome);
      assert Hit(e, {key}) == {key};
      assert r.waits == e.waits[key := w.(future := Settled(w.kind, outcome))];
      if HookRuns(w.kind, outcome) {
        assert (set k | k in {key} && HookRuns(e.waits[k].kind, outcome)) == {key};
      } else {
        assert (set k | k in {key} && HookRuns(e.waits[k].kind, outcome)) == {};
      }
    } else {
      assert Hit(e, {key}) == {};
      NoHitNoChange(e, {key}, outcome);
    }
  }

  lemma ResolveNothing(e: Engine, outcome: FutureState)
    requires !outcome.Pending?
    ensures Resolve(e, {}, outcome) == e
  {
    assert Hit(e, {}) == {};
    NoHitNoChange(e, {}, outcome);
  }

  /** The pending handles whose key starts with `prefix`. */
  function Matching(e: Engine, prefix: string): set<string> {
    set k | k in e.pendingFutures && HasPrefix(k, prefix)
  }

  /** The three `pendingFutures...filter(startsWith(prefix))...forEach` blocks:
      complete every not-yet-done wait whose key starts with `prefix`. */
  function Notify(e: Engine, prefix: string, v: Value): Engine {
    Resolve(e, Matching(e, prefix), Done(v))
  }

  /** The `orTimeout` timer of the handle `key` fires. */
  function OnTimeout(e: Engine, key: string): Engine {
    Resolve(e, {key}, Failed(OrTimeout))
  }

  lemma ResolvePreservesInv(e: Engine, keys: set<string>, outcome: FutureState)
    requires Inv(e) && !outcome.Pending?
    ensures Inv(Resolve(e, keys, outcome))
  {
    var r := Resolve(e, keys, outcome);
    var hit := Hit(e, keys);
    forall k | k in r.pendingFutures
      ensures k in r.waits && (r.waits[k].future.Pending? || Stranded(r.waits[k]))
    {
      if k in hit {
        assert !HookRuns(e.waits[k].kind, outcome);
        assert r.waits[k].future == Failed(HookCastFailed);
      }
    }
  }

  /** Notification completes exactly the pending waits with the prefix, with
      the given value (as `Settled` shows it to the caller), and leaves every
      other handle as it was. */
  lemma NotifyCompletesExactlyMatching(e: Engine, prefix: string, v: Value, k: string)
    requires Inv(e) && k in e.waits
    ensures k in Notify(e, prefix, v).waits
    ensures var w := Notify(e, prefix, v).waits[k];
      if HasPrefix(k, prefix) && e.waits[k].future.Pending?
      then w == e.waits[k].(future := Settled(e.waits[k].kind, Done(v)))
      else w == e.waits[k]
  {
    assert e.waits[k].future.Pending? ==> k in e.pendingFutures;
  }

  /** The first event completes a wait for good: a second notification with
      the same prefix changes nothing, whatever its value. */
  lemma NotifyFirstWins(e: Engine, prefix: string, v1: Value, v2: Value)
    requires Inv(e)
    ensures Notify(Notify(e, prefix, v1), prefix, v2) == Notify(e, prefix, v1)
  {
    var n := Notify(e, prefix, v1);
    assert Hit(n, Matching(n, prefix)) == {} by {
      forall k | k in Matching(n, prefix) ensures !n.waits[k].future.Pending? {
        assert k in Matching(e, prefix);
      }
    }
    NoHitNoChange(n, Matching(n, prefix), Done(v2));
  }

  lemma NoHitNoChange(e: Engine, keys: set<string>, outcome: FutureState)
    requires Hit(e, keys) == {} && !outcome.Pending?
    ensures Resolve(e, keys, outcome) == e
  {
    var r := Resolve(e, keys, outcome);
    assert r.waits == e.waits;
    assert r.consoleFilters == e.consoleFilters;
  }

  // ---------------------------------------------------------------------
  // DOM monitoring

  /** What the DOM fingerprint script gave: the `hashCode()` of its result,
      or a failure (navigation in progress, a script error). */
  datatype DomRead = DomHash(hash: int32) | DomReadFailed

  /** `calculateDomHash`: the hash in decimal, or `"error_" + now`. A hash
      rendering starts with a digit or a minus sign, a failure rendering
      with `"error_"`, so the two never coincide. */
  function Fingerprint(read: DomRead, now: int): (h: string)
    ensures read.DomHash? ==> |h| > 0 && (h[0] == '-' || IsDigit(h[0]))
    ensures read.DomReadFailed? ==> HasPrefix(h, "error_")
    ensures |h| > 0
  {
    match read
    case DomHash(h) => IntToString(h as int)
    case DomReadFailed =>
      PrefixOfConcat("error_", IntToString(now));
      "error_" + IntToString(now)
  }

  /** One run of the DOM monitoring task; once `shutdown` cancelled the task
      there are no more runs. */
  function DomTick(e: Engine, read: DomRead, now: int): Engine {
    var h := Fingerprint(read, now);
    if !e.domMonitorScheduled || h == e.lastDomHash then e
    else Notify(e.(lastDomHash := h, lastDomChangeTime := now, domChangeCount := Inc32(e.domChangeCount)),
                DOMCHANGE_PREFIX, Time(now))
  }

  /** `handleDomContentLoaded` with `resetNetworkMonitoring` (the re-injected
      script of the fallback mode is not modelled); once its subscription
      is removed the transport no longer calls it. */
  function DomContentLoaded(e: Engine): Engine {
    if e.domContentListener !in e.subscribed then e
    else e.(lastDomHash := "", domChangeCount := 0, activeRequestCount := 0)
  }

  /** While the task runs, a changed fingerprint is stored with the time of
      the tick, the change counter goes up by one (Java `int` wrap-around
      aside), and exactly the pending DOM-change waits complete with that
      time; the network counter, the exception log and the listeners are
      untouched. */
  lemma DomTickOnChange(e: Engine, read: DomRead, now: int)
    requires Inv(e) && !e.isShutdown
    requires Fingerprint(read, now) != e.lastDomHash
    ensures var r := DomTick(e, read, now);
      && r.lastDomHash == Fingerprint(read, now)
      && r.lastDomChangeTime == now
      && (e.domChangeCount < INT32_MAX ==> r.domChangeCount as int == e.domChangeCount as int + 1)
      && r == e.(lastDomHash := r.lastDomHash, lastDomChangeTime := now, domChangeCount := r.domChangeCount,
                 waits := r.waits, pendingFutures := r.pendingFutures, consoleFilters := r.consoleFilters)
      && Inv(r)
      && r.pendingFutures == e.pendingFutures - Matching(e, DOMCHANGE_PREFIX)
      && (forall k :: k in Matching(e, DOMCHANGE_PREFIX) ==> r.waits[k].future == Done(Time(now)))
      && (forall k :: k in e.waits && !(k in Matching(e, DOMCHANGE_PREFIX)) ==> r.waits[k] == e.waits[k])
  {
    var s := e.(lastDomHash := Fingerprint(read, now), lastDomChangeTime := now, domChangeCount := Inc32(e.domChangeCount));
    ResolvePreservesInv(s, Matching(s, DOMCHANGE_PREFIX), Done(Time(now)));
    forall k | k in Matching(e, DOMCHANGE_PREFIX)
      ensures e.waits[k].kind == DomChangeWait && e.waits[k].future.Pending?
    {
      PrefixDeterminesKind(e, k, DomChangeWait);
    }
  }

  /** An unchanged fingerprint leaves the whole state as it was; this
      includes a failed read that follows another failed read in the same
      millisecond. */
  lemma DomTickSameFingerprint(e: Engine, read: DomRead, now: int)
    requires Fingerprint(read, now) == e.lastDomHash
    ensures DomTick(e, read, now) == e
  {
  }

  /** A failed read is never mistaken for a successful one: its
      `"error_..."` fingerprint differs from every hash rendering and from
      the "" of a reset, so after a successful read or a reset a failed read
      counts as a change. */
  lemma FailedReadCountsAsChange(e: Engine, now: int, h: int32)
    requires e.domMonitorScheduled
    requires e.lastDomHash == "" || e.lastDomHash == Fingerprint(DomHash(h), now)
    ensures Fingerprint(DomReadFailed, now) != e.lastDomHash
    ensures DomTick(e, DomReadFailed, now).lastDomChangeTime == now
  {
    var f := Fingerprint(DomReadFailed, now);
    assert f[..6] == "error_";
    assert f[0] == 'e';
  }

  /** Navigation clears the fingerprint and both counters and keeps the time
      of the last change; the first tick after it always counts as a change,
      since no fingerprint is empty. */
  lemma NavigationResetsDomState(e: Engine, read: DomRead, now: int)
    requires Inv(e) && !e.isShutdown && e.domContentListener in e.subscribed
    ensures var n := DomContentLoaded(e);
      && n.lastDomHash == "" && n.domChangeCount == 0 && n.activeRequestCount == 0
      && n.lastDomChangeTime == e.lastDomChangeTime
      && n.waits == e.waits && n.pendingFutures == e.pendingFutures
      && Inv(n)
      && DomTick(n, read, now).domChangeCount == 1
      && DomTick(n, read, now).lastDomChangeTime == now
  {
  }

  /** After the first `shutdown`, where the transport refused to remove
      the listeners in `refused`, the DOM task is gone and ticks change
      nothing. Navigation events change nothing when the removal of the
      DOM-content listener succeeded. When it was refused, the id has already
      left `eventListeners`, so nothing can remove it any more, and every
      navigation still resets the fingerprint and both counters. */
  lemma NoDomEventsAfterShutdown(e: Engine, refused: set<int>, read: DomRead, now: int)
    requires Inv(e) && !e.isShutdown
    ensures var s := Shutdown(e, refused);
      && DomTick(s, read, now) == s
      && (e.domContentListener !in refused ==> DomContentLoaded(s) == s)
      && (e.domContentListener in refused && e.domContentListener in e.eventListeners ==>
            e.domContentListener !in s.eventListeners
            && DomContentLoaded(s) == s.(lastDomHash := "", domChangeCount := 0, activeRequestCount := 0))
  {
  }

  /** The events that move the DOM fields. */
  datatype DomEvent = TickEvent(read: DomRead, time: int) | NavigationEvent

  function DomApply(e: Engine, ev: DomEvent): Engine {
    match ev
    case TickEvent(read, t) => DomTick(e, read, t)
    case NavigationEvent => DomContentLoaded(e)
  }

  function DomRun(e: Engine, evs: seq<DomEvent>): Engine
    decreases |evs|
  {
    if evs == [] then e else DomRun(DomApply(e, evs[0]), evs[1..])
  }

  /** Tick `i` of the run ran and found a fingerprint different from the
      stored one. */
  ghost predicate ChangedAt(e: Engine, evs: seq<DomEvent>, i: nat)
    requires i < |evs|
  {
    && evs[i].TickEvent?
    && DomRun(e, evs[..i]).domMonitorScheduled
    && Fingerprint(evs[i].read, evs[i].time) != DomRun(e, evs[..i]).lastDomHash
  }

  predicate TicksInOrder(e: Engine, evs: seq<DomEvent>) {
    (forall i :: 0 <= i < |evs| && evs[i].TickEvent? ==> e.lastDomChangeTime <= evs[i].time)
    && (forall i, j :: 0 <= i < j < |evs| && evs[i].TickEvent? && evs[j].TickEvent? ==> evs[i].time <= evs[j].time)
  }

  lemma DomApplyChangeTime(e: Engine, ev: DomEvent)
    ensures DomApply(e, ev).lastDomChangeTime ==
              if ev.TickEvent? && e.domMonitorScheduled && Fingerprint(ev.read, ev.time) != e.lastDomHash
              then ev.time else e.lastDomChangeTime
  {
  }

  /** Event `j + 1` of a run is event `j` of the run that starts after the
      first event. */
  lemma ChangedAtShift(e: Engine, evs: seq<DomEvent>, j: nat)
    requires j + 1 < |evs|
    ensures ChangedAt(e, evs, j + 1) <==> ChangedAt(DomApply(e, evs[0]), evs[1..], j)
  {
    assert evs[..j + 1] == [evs[0]] + evs[1..][..j];
    DomRunCons(e, evs[0], evs[1..][..j]);
  }

  /** With ticks in time order, the recorded change time is at least the time
      of every tick that saw a change, and never moves back. */
  lemma {:induction false} ChangeTimeCoversChanges(e: Engine, evs: seq<DomEvent>)
    requires TicksInOrder(e, evs)
    ensures e.lastDomChangeTime <= DomRun(e, evs).lastDomChangeTime
    ensures forall i :: 0 <= i < |evs| && ChangedAt(e, evs, i) ==> evs[i].time <= DomRun(e, evs).lastDomChangeTime
    decreases |evs|
  {
    if evs != [] {
      var e1 := DomApply(e, evs[0]);
      DomApplyChangeTime(e, evs[0]);
      assert forall i :: 0 <= i < |evs[1..]| ==> evs[1..][i] == evs[i + 1];
      assert TicksInOrder(e1, evs[1..]);
      ChangeTimeCoversChanges(e1, evs[1..]);
      forall i | 0 <= i < |evs| && ChangedAt(e, evs, i)
        ensures evs[i].time <= DomRun(e, evs).lastDomChangeTime
      {
        if i == 0 {
          assert evs[..0] == [];
        } else {
          ChangedAtShift(e, evs, i - 1);
        }
      }
    }
  }

  lemma DomRunCons(e: Engine, ev: DomEvent, evs: seq<DomEvent>)
    ensures DomRun(e, [ev] + evs) == DomRun(DomApply(e, ev), evs)
  {
    assert ([ev] + evs)[1..] == evs;
  }

  /** The recorded change time is the initial one or the time of a tick
      of the run that saw a change. */
  lemma {:induction false} ChangeTimeIsStartOrAChange(e: Engine, evs: seq<DomEvent>)
    ensures var t := DomRun(e, evs).lastDomChangeTime;
      t == e.lastDomChangeTime || exists i :: 0 <= i < |evs| && ChangedAt(e, evs, i) && evs[i].time == t
    decreases |evs|
  {
    if evs != [] {
      var e1 := DomApply(e, evs[0]);
      DomApplyChangeTime(e, evs[0]);
      ChangeTimeIsStartOrAChange(e1, evs[1..]);
      var t := DomRun(e, evs).lastDomChangeTime;
      assert t == DomRun(e1, evs[1..]).lastDomChangeTime;
      if t != e1.lastDomChangeTime {
        var j :| 0 <= j < |evs[1..]| && ChangedAt(e1, evs[1..], j) && evs[1..][j].time == t;
        ChangedAtShift(e, evs, j);
        assert ChangedAt(e, evs, j + 1) && evs[j + 1].time == t;
      } else if e1.lastDomChangeTime != e.lastDomChangeTime {
        assert evs[..0] == [];
        assert ChangedAt(e, evs, 0);
      }
    }
  }

  /** `waitForDomStable(T)`'s predicate holds at `now` exactly when the
      starting change time and every tick of the run that saw a change lie
      at or before `now - T`: a change inside the window delays the answer
      until `T` after it, and a window without one succeeds. */
  lemma DomStableMeansQuietWindow(e: Engine, evs: seq<DomEvent>, now: int, threshold: int)
    requires TicksInOrder(e, evs)
    ensures now - DomRun(e, evs).lastDomChangeTime >= threshold <==>
      && e.lastDomChangeTime <= now - threshold
      && (forall i :: 0 <= i < |evs| && ChangedAt(e, evs, i) ==> evs[i].time <= now - threshold)
  {
    ChangeTimeCoversChanges(e, evs);
    ChangeTimeIsStartOrAChange(e, evs);
  }

  // ---------------------------------------------------------------------
  // Network counter

  /** Whether the transport delivers request-sent events to the engine's
      own listener. */
  predicate RequestListenerLive(e: Engine) {
    e.networkListeners.Some? && e.networkListeners.value.0 in e.subscribed
  }

  predicate ResponseListenerLive(e: Engine) {
    e.networkListeners.Some? && e.networkListeners.value.1 in e.subscribed
  }

  /** The two network listeners: `incrementAndGet` and `decrementAndGet`;
      without a live subscription the event does not reach the engine. */
  function RequestSent(e: Engine): Engine {
    if !RequestListenerLive(e) then e else e.(activeRequestCount := Inc32(e.activeRequestCount))
  }

  function ResponseCompleted(e: Engine): Engine {
    if !ResponseListenerLive(e) then e else e.(activeRequestCount := Dec32(e.activeRequestCount))
  }

  datatype NetworkEvent = Sent | Completed

  function NetworkRun(e: Engine, evs: seq<NetworkEvent>): Engine
    decreases |evs|
  {
    if evs == [] then e
    else NetworkRun(if evs[0].Sent? then RequestSent(e) else ResponseCompleted(e), evs[1..])
  }

  function CountOf(evs: seq<NetworkEvent>, x: NetworkEvent): nat {
    if evs == [] then 0 else (if evs[0] == x then 1 else 0) + CountOf(evs[1..], x)
  }

  /** Away from the 32-bit bounds, the counter moves by the number of
      request-sent events minus the number of response-completed ones; there
      is no clamp, so more completions than requests make it negative; and
      nothing else in the state moves. */
  lemma {:induction false} CounterIsSentMinusCompleted(e: Engine, evs: seq<NetworkEvent>)
    requires RequestListenerLive(e) && ResponseListenerLive(e)
    requires INT32_MIN as int + |evs| < e.activeRequestCount as int < INT32_MAX as int - |evs|
    ensures NetworkRun(e, evs).activeRequestCount as int
            == e.activeRequestCount as int + CountOf(evs, Sent) - CountOf(evs, Completed)
    ensures NetworkRun(e, evs) == e.(activeRequestCount := NetworkRun(e, evs).activeRequestCount)
    decreases |evs|
  {
    if evs != [] {
      var e1 := if evs[0].Sent? then RequestSent(e) else ResponseCompleted(e);
      CounterIsSentMinusCompleted(e1, evs[1..]);
    }
  }

  lemma CounterGoesNegative(e: Engine)
    requires ResponseListenerLive(e) && e.activeRequestCount == 0
    ensures ResponseCompleted(e).activeRequestCount == -1
  {
  }

  // ---------------------------------------------------------------------
  // Console and exception events

  predicate StringOrNull(o: Obj) {
    o.JNull? || o.JString?
  }

  /** Whether the `(String)` casts of `type` and `text` in
      `handleConsoleEvent` succeed; otherwise the handler throws before
      notifying anything. */
  predicate ConsoleFieldsReadable(data: Payload) {
    StringOrNull(Get(data, "type")) && StringOrNull(Get(data, "text"))
  }

  /** `handleConsoleEvent`: complete every pending console wait with the
      event's data, without consulting any filter. (The subscription is
      commented out in the constructor; the model states what the handler
      would do if the transport called it.) */
  function ConsoleEvent(e: Engine, data: Payload): Engine {
    if e.isShutdown || !ConsoleFieldsReadable(data) then e else Notify(e, CONSOLE_PREFIX, Event(data))
  }

  /** `handleJsException`: log the payload, then complete every pending
      exception wait with it. (No subscription calls it; as above.) */
  function JsException(e: Engine, data: Payload): Engine {
    if e.isShutdown then e
    else Notify(e.(caughtExceptions := e.caughtExceptions + [data]), EXCEPTION_PREFIX, Event(data))
  }

  /** A console event completes every pending console wait whatever filter
      that wait registered, and touches no other kind of wait: the outcome
      does not depend on the filters at all. The caller's handle fails with
      the hook's `ClassCastException` instead of carrying the data. */
  lemma ConsoleEventIgnoresFilters(e: Engine, data: Payload, filters: map<string, ConsoleFilter>)
    requires Inv(e) && !e.isShutdown && ConsoleFieldsReadable(data)
    ensures ConsoleEvent(e.(consoleFilters := filters), data).waits == ConsoleEvent(e, data).waits
    ensures forall k :: k in e.waits && e.waits[k].future.Pending? && e.waits[k].kind == ConsoleWait ==>
              ConsoleEvent(e, data).waits[k].future == Failed(HookCastFailed)
    ensures forall k :: k in e.waits && (e.waits[k].kind != ConsoleWait || !e.waits[k].future.Pending?) ==>
              ConsoleEvent(e, data).waits[k] == e.waits[k]
  {
    forall k | k in e.waits && e.waits[k].kind != ConsoleWait
      ensures !HasPrefix(k, CONSOLE_PREFIX)
    {
      if HasPrefix(k, CONSOLE_PREFIX) { PrefixDeterminesKind(e, k, ConsoleWait); }
    }
    forall k | k in e.waits && e.waits[k].future.Pending? && e.waits[k].kind == ConsoleWait
      ensures k in Matching(e, CONSOLE_PREFIX)
    {
      assert HasPrefix(k, PrefixOf(e.waits[k].kind));
    }
  }

  /** Because the console hook throws before its body runs, a console event
      unregisters nothing: every completed console key and its filter stay
      in the registry (until `shutdown` clears it), and a later event or
      timeout finds the handle done and leaves it alone. */
  lemma ConsoleCompletionStrandsKey(e: Engine, data: Payload)
    requires Inv(e) && !e.isShutdown && ConsoleFieldsReadable(data)
    ensures var r := ConsoleEvent(e, data);
      && Inv(r)
      && r.pendingFutures == e.pendingFutures && r.consoleFilters == e.consoleFilters
      && (forall k :: k in r.pendingFutures && r.waits[k].kind == ConsoleWait ==> Stranded(r.waits[k]))
  {
    var r := ConsoleEvent(e, data);
    var hit := Hit(e, Matching(e, CONSOLE_PREFIX));
    forall k | k in hit ensures e.waits[k].kind == ConsoleWait {
      PrefixDeterminesKind(e, k, ConsoleWait);
    }
    assert (set k | k in hit && HookRuns(e.waits[k].kind, Done(Event(data)))) == {};
    ResolvePreservesInv(e, Matching(e, CONSOLE_PREFIX), Done(Event(data)));
    forall k | k in r.pendingFutures && r.waits[k].kind == ConsoleWait
      ensures Stranded(r.waits[k])
    {
      assert HasPrefix(k, PrefixOf(e.waits[k].kind));
    }
  }

  /** An exception event appends its payload to the log and completes exactly
      the pending exception waits, unregistering them. */
  lemma JsExceptionLogsAndNotifies(e: Engine, data: Payload)
    requires Inv(e) && !e.isShutdown
    ensures var r := JsException(e, data);
      && r.caughtExceptions == e.caughtExceptions + [data]
      && Inv(r)
      && (forall k :: k in e.waits && e.waits[k].future.Pending? && e.waits[k].kind == ExceptionWait ==>
            r.waits[k].future == Done(Event(data)) && k !in r.pendingFutures)
      && (forall k :: k in e.waits && (e.waits[k].kind != ExceptionWait || !e.waits[k].future.Pending?) ==>
            r.waits[k] == e.waits[k])
  {
    var s := e.(caughtExceptions := e.caughtExceptions + [data]);
    ResolvePreservesInv(s, Matching(s, EXCEPTION_PREFIX), Done(Event(data)));
    forall k | k in e.waits && e.waits[k].future.Pending? && e.waits[k].kind == ExceptionWait
      ensures k in Matching(s, EXCEPTION_PREFIX)
    {
      assert HasPrefix(k, PrefixOf(e.waits[k].kind));
    }
    forall k | k in e.waits && e.waits[k].kind != ExceptionWait
      ensures !HasPrefix(k, EXCEPTION_PREFIX)
    {
      if HasPrefix(k, EXCEPTION_PREFIX) { PrefixDeterminesKind(e, k, ExceptionWait); }
    }
  }

  /** After the first `shutdown`, where the transport refused to remove
      the listeners in `refused`: console and exception events change
      nothing; a network listener whose removal succeeded is silent; one
      whose removal was refused stays subscribed, out of `eventListeners`,
      and keeps moving the counter. */
  lemma NoTransportEventsAfterShutdown(e: Engine, refused: set<int>, data: Payload)
    requires Inv(e) && !e.isShutdown
    ensures var s := Shutdown(e, refused);
      && ConsoleEvent(s, data) == s && JsException(s, data) == s
      && (e.networkListeners.None? || e.networkListeners.value.0 !in refused ==> RequestSent(s) == s)
      && (e.networkListeners.None? || e.networkListeners.value.1 !in refused ==> ResponseCompleted(s) == s)
      && (RequestListenerLive(e) && e.networkListeners.value.0 in refused ==>
            e.networkListeners.value.0 !in s.eventListeners
            && RequestSent(s) == s.(activeRequestCount := Inc32(s.activeRequestCount)))
      && (ResponseListenerLive(e) && e.networkListeners.value.1 in refused ==>
            e.networkListeners.value.1 !in s.eventListeners
            && ResponseCompleted(s) == s.(activeRequestCount := Dec32(s.activeRequestCount)))
  {
  }

  // ---------------------------------------------------------------------
  // Registering waits and listeners

  /** `waitForConsoleMessage` / `waitForJavascriptException` /
      `waitForDomChange`: store the filter (console only) and a pending handle
      whose `orTimeout` deadline is `now + timeoutMs`. Nothing checks
      `isShutdown`. */
  function Register(e: Engine, kind: WaitKind, key: string, now: int, timeoutMs: int, filter: ConsoleFilter): Engine {
    var f := if kind == ConsoleWait then e.consoleFilters[key := filter] else e.consoleFilters;
    e.(waits := e.waits[key := Wait(kind, now, now + timeoutMs, Pending)],
       pendingFutures := e.pendingFutures + {key},
       consoleFilters := f)
  }

  /** A new wait is registered and pending, also on an engine that was shut
      down; the invariant is kept. */
  lemma RegisterAddsPendingWait(e: Engine, kind: WaitKind, now: int, uuid: string, timeoutMs: int, filter: ConsoleFilter)
    requires Inv(e) && WaitKey(kind, now, uuid) !in e.waits
    ensures var key := WaitKey(kind, now, uuid);
      var r := Register(e, kind, key, now, timeoutMs, filter);
      && Inv(r)
      && key in r.pendingFutures && r.waits[key] == Wait(kind, now, now + timeoutMs, Pending)
      && r.isShutdown == e.isShutdown
      && (forall k :: k in e.waits ==> k in r.waits && r.waits[k] == e.waits[k])
  {
    var key := WaitKey(kind, now, uuid);
    var r := Register(e, kind, key, now, timeoutMs, filter);
    assert key !in e.pendingFutures;
    assert r.consoleFilters.Keys == set k | k in r.pendingFutures && k in r.waits && r.waits[k].kind == ConsoleWait by {
      forall k ensures k in r.consoleFilters.Keys <==> k in r.pendingFutures && k in r.waits && r.waits[k].kind == ConsoleWait {
        if k != key { assert k in r.waits ==> r.waits[k] == e.waits[k]; }
      }
    }
  }

  /** A handle completes at most once: its timeout after completion changes
      nothing, and on a pending handle it fails it with the timeout and
      unregisters it. */
  lemma TimeoutSettlesOnce(e: Engine, key: string)
    requires Inv(e) && key in e.waits
    ensures var t := OnTimeout(e, key);
      && Inv(t)
      && (e.waits[key].future.Pending? ==> t.waits[key].future == Failed(OrTimeout) && key !in t.pendingFutures)
      && (!e.waits[key].future.Pending? ==> t == e)
  {
    ResolvePreservesInv(e, {key}, Failed(OrTimeout));
    if !e.waits[key].future.Pending? {
      assert Hit(e, {key}) == {};
      NoHitNoChange(e, {key}, Failed(OrTimeout));
    }
  }

  /** `addEventListener`: the transport subscribes `listenerId` and the
      id is recorded for the event name; when the transport refuses the
      subscription its exception reaches the caller and nothing changes. */
  function AddEventListener(e: Engine, eventName: string, listenerId: int, transportFails: bool): Engine {
    if transportFails then e
    else e.(eventListeners := e.eventListeners[listenerId := eventName], subscribed := e.subscribed + {listenerId})
  }

  /** `removeEventListener`: when the transport refuses the removal the
      exception is logged, and the subscription and the registration stay. */
  function RemoveEventListener(e: Engine, listenerId: int, transportFails: bool): Engine {
    if transportFails then e
    else e.(eventListeners := e.eventListeners - {listenerId}, subscribed := e.subscribed - {listenerId})
  }

  /** Adding then removing a listener drops that id and keeps the others; a
      failed removal keeps the registration; a failed subscription records
      nothing; both keep the invariant. */
  lemma AddThenRemoveListener(e: Engine, eventName: string, id: int)
    ensures RemoveEventListener(AddEventListener(e, eventName, id, false), id, false).eventListeners
            == e.eventListeners - {id}
    ensures RemoveEventListener(AddEventListener(e, eventName, id, false), id, false).subscribed
            == e.subscribed - {id}
    ensures RemoveEventListener(AddEventListener(e, eventName, id, false), id, true).eventListeners[id] == eventName
    ensures id in RemoveEventListener(AddEventListener(e, eventName, id, false), id, true).subscribed
    ensures AddEventListener(e, eventName, id, true) == e
    ensures Inv(e) ==> Inv(AddEventListener(e, eventName, id, false)) && Inv(RemoveEventListener(e, id, false))
  {
  }

  function ClearCaughtExceptions(e: Engine): Engine {
    e.(caughtExceptions := [])
  }

  // ---------------------------------------------------------------------
  // Shutdown

  /** `shutdown`: the first call cancels every pending handle (their hooks
      unregister them; a stranded console key is skipped as done), clears
      the registry and the filters, cancels the DOM
      task, asks the transport to drop every recorded listener (the ids in
      `refused` it does not drop, and the refusal is only logged), clears the
      listener map and stops the pool. A second call returns at once. */
  function Shutdown(e: Engine, refused: set<int>): Engine {
    if e.isShutdown then e
    else
      var c := Resolve(e, e.pendingFutures, Cancelled);
      c.(isShutdown := true, pendingFutures := {}, consoleFilters := map[],
         domMonitorScheduled := false, eventListeners := map[],
         subscribed := e.subscribed - (e.eventListeners.Keys - refused), schedulerTerminated := true)
  }

  /** Shutdown cancels exactly the pending handles (their callers see a
      failure caused by the cancellation), keeps every completed one as it
      was, empties the registries, leaves subscribed exactly the listeners
      whose removal was refused, and keeps the invariant. */
  lemma ShutdownCancelsPending(e: Engine, refused: set<int>)
    requires Inv(e) && !e.isShutdown
    ensures var s := Shutdown(e, refused);
      && Inv(s) && s.isShutdown
      && s.pendingFutures == {} && s.consoleFilters == map[] && s.eventListeners == map[]
      && s.subscribed == e.eventListeners.Keys * refused
      && s.waits.Keys == e.waits.Keys
      && (forall k :: k in e.waits ==>
            s.waits[k] == if e.waits[k].future.Pending? then e.waits[k].(future := Failed(Cancellation)) else e.waits[k])
      && s.caughtExceptions == e.caughtExceptions
  {
    var c := Resolve(e, e.pendingFutures, Cancelled);
    forall k | k in e.waits && e.waits[k].future.Pending? ensures k in Hit(e, e.pendingFutures) {
      assert k in PendingKeys(e.waits);
    }
  }

  /** Shutting down twice is shutting down once. */
  lemma ShutdownIdempotent(e: Engine, refused: set<int>, later: set<int>)
    ensures Shutdown(Shutdown(e, refused), later) == Shutdown(e, refused)
  {
  }
}
