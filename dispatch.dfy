/** `waitFor(condition, params...)`: which wait a `WaitCondition` and its
    untyped parameters select, and `waitForPageReady`'s choice of waits. */
module WaitDispatch {
  import opened EngineModel

  /** `BiDiSmartWait.WaitCondition`. */
  datatype WaitCondition =
    | CONSOLE_MESSAGE
    | JAVASCRIPT_EXCEPTION
    | DOM_STABLE
    | DOM_READY
    | NETWORK_IDLE
    | DOM_CHANGE
    | CUSTOM

  /** One element of the `Object...` parameters, as far as `instanceof`
      tells them apart: a `String`, a `Predicate`, a `Long`, an `Integer`
      (a boxed `int` literal), `null`, or anything else. */
  datatype Param = PString(s: string) | PPredicate(id: nat) | PLong(n: int) | PInteger(n: int) | PNull | POther

  /** The wait `waitFor` starts; every one uses the default timeout. */
  datatype Request =
    | ConsoleRequest(filter: ConsoleFilter)
    | ExceptionRequest
    | DomStableRequest(stabilityThresholdMs: int)
    | DomReadyRequest
    | NetworkIdleRequest(idleThresholdMs: int)
    | DomChangeRequest

  datatype Dispatch = Started(request: Request) | IllegalArgument(message: string)

  const CONSOLE_PARAM_REQUIRED := "Console message condition requires String or Predicate parameter"
  const UNSUPPORTED_CUSTOM := "Unsupported condition: CUSTOM"
  const DEFAULT_DOM_STABLE_MS := 1000
  const DEFAULT_NETWORK_IDLE_MS := 500

  /** `params[0] instanceof Long`, giving the value. */
  function FirstLong(params: seq<Param>, default: int): int {
    if |params| > 0 && params[0].PLong? then params[0].n else default
  }

  /** `waitFor` refuses, with `IllegalArgumentException`, exactly `CUSTOM`
      and a console condition whose first parameter is missing or neither
      a `String` nor a `Predicate`; any other call starts a wait. */
  function WaitFor(condition: WaitCondition, params: seq<Param>): (d: Dispatch)
    ensures d.IllegalArgument? <==>
      condition == CUSTOM
      || (condition == CONSOLE_MESSAGE && (|params| == 0 || !(params[0].PString? || params[0].PPredicate?)))
    ensures d.IllegalArgument? ==>
      d.message == (if condition == CUSTOM then UNSUPPORTED_CUSTOM else CONSOLE_PARAM_REQUIRED)
  {
    match condition
    case CONSOLE_MESSAGE =>
      if |params| > 0 && params[0].PString? then Started(ConsoleRequest(ContainsText(params[0].s)))
      else if |params| > 0 && params[0].PPredicate? then Started(ConsoleRequest(FilterPredicate(params[0].id)))
      else IllegalArgument(CONSOLE_PARAM_REQUIRED)
    case DOM_STABLE => Started(DomStableRequest(FirstLong(params, DEFAULT_DOM_STABLE_MS)))
    case DOM_READY => Started(DomReadyRequest)
    case NETWORK_IDLE => Started(NetworkIdleRequest(FirstLong(params, DEFAULT_NETWORK_IDLE_MS)))
    case JAVASCRIPT_EXCEPTION => Started(ExceptionRequest)
    case DOM_CHANGE => Started(DomChangeRequest)
    case CUSTOM => IllegalArgument(UNSUPPORTED_CUSTOM)
  }

  /** The kind of wait each condition starts: the console, exception and
      DOM-change conditions start the keyed waits of their kind, the
      others a polled wait. */
  function KindOf(r: Request): (kind: Option<WaitKind>)
    ensures kind.Some? <==> r.ConsoleRequest? || r.ExceptionRequest? || r.DomChangeRequest?
  {
    match r
    case ConsoleRequest(_) => Some(ConsoleWait)
    case ExceptionRequest => Some(ExceptionWait)
    case DomChangeRequest => Some(DomChangeWait)
    case _ => None
  }

  /** A text parameter becomes a containment filter and a predicate is used
      as given; the keyed wait started is of the condition's own kind. */
  lemma ConsoleParamBecomesFilter(params: seq<Param>)
    requires |params| > 0
    ensures params[0].PString? ==> WaitFor(CONSOLE_MESSAGE, params) == Started(ConsoleRequest(ContainsText(params[0].s)))
    ensures params[0].PPredicate? ==> WaitFor(CONSOLE_MESSAGE, params) == Started(ConsoleRequest(FilterPredicate(params[0].id)))
    ensures WaitFor(CONSOLE_MESSAGE, params).Started? ==> KindOf(WaitFor(CONSOLE_MESSAGE, params).request) == Some(ConsoleWait)
  {
  }

  /** The stability and idle thresholds come from a `Long` first parameter
      and otherwise default to 1000 ms and 500 ms; an `Integer` parameter
      (an unsuffixed literal) is not a `Long` and is silently replaced by
      the default. */
  lemma ThresholdFromLongOnly(params: seq<Param>)
    ensures WaitFor(DOM_STABLE, params) ==
      Started(DomStableRequest(if |params| > 0 && params[0].PLong? then params[0].n else 1000))
    ensures WaitFor(NETWORK_IDLE, params) ==
      Started(NetworkIdleRequest(if |params| > 0 && params[0].PLong? then params[0].n else 500))
    ensures forall n :: WaitFor(DOM_STABLE, [PInteger(n)]) == Started(DomStableRequest(1000))
  {
  }

  /** Only the first parameter is read. */
  lemma {:induction false} OnlyFirstParamMatters(condition: WaitCondition, p: Param, rest: seq<Param>)
    ensures WaitFor(condition, [p] + rest) == WaitFor(condition, [p])
  {
    assert ([p] + rest)[0] == p;
  }

  /** `waitForPageReady` starts, in this order, DOM ready, network idle for
      1000 ms and DOM stable for 500 ms. */
  const PAGE_READY_PARTS: seq<Request> := [DomReadyRequest, NetworkIdleRequest(1000), DomStableRequest(500)]

  /** The page-ready thresholds are the `waitFor` defaults swapped: network
      idle waits for 1000 ms there against 500 ms here, DOM stability the
      other way round. */
  lemma PageReadySwapsDefaults()
    ensures PAGE_READY_PARTS[1] == NetworkIdleRequest(DEFAULT_DOM_STABLE_MS)
    ensures PAGE_READY_PARTS[2] == DomStableRequest(DEFAULT_NETWORK_IDLE_MS)
    ensures WaitFor(NETWORK_IDLE, []).request != PAGE_READY_PARTS[1]
    ensures WaitFor(DOM_STABLE, []).request != PAGE_READY_PARTS[2]
  {
  }
}
