/** The tool gateway of `ToolsProcessor`: `process_tools_request_async`,
    which brackets one run of the Manus agent with the logging bridge, the
    result choice of its synchronous wrapper `process_tools_request`, and
    `process_message`, which hands a TRUE directive's payload to the gateway
    and splices the result after the cleaned text.

    The agent is abstract: whether importing it, constructing it, its `run`
    and its `cleanup` each return or raise. What happens is recorded as a
    trace of events. */
module ToolGateway {
  import opened Support
  import opened ToolDirective
  import opened LoggingBridge

  const EmptyRequest: string := "工具请求内容为空，无法处理"
  const RunSucceeded: string := "工具使用已经完毕，请参考控制台获悉具体操作内容和结果。"
  const RunFailed: string := "工具执行失败: "
  const InitFailed: string := "工具初始化失败: "
  const ImportFailed: string := "工具初始化失败: 无法导入Manus模块 ("
  const TimedOutText: string := "工具执行超时，已强制终止"
  const WaitFailed: string := "工具处理过程出错: "
  const WorkerFailed: string := "工具处理出错: "
  const NoResult: string := "工具执行完成，但没有返回结果"
  const ResultMarker: string := "\n\n[工具执行结果]: "

  /** The Manus agent as the gateway sees it: importing the module (an
      `ImportError` when it raises), `Manus()`, `await agent.run(content)`
      and `await agent.cleanup()`. */
  datatype AgentModel = AgentModel(importing: Outcome, constructing: Outcome, running: Outcome, cleaning: Outcome)

  datatype Event =
    | ConfigureLogging
    | ImportAgent
    | ConstructAgent
    | RunAgent(prompt: string)
    | CleanupAgent
    | RestoreLogging

  /** The agent was created: import and construction both returned. */
  predicate Constructed(agent: AgentModel) {
    agent.importing.Returns? && agent.constructing.Returns?
  }

  /** `not content.strip()`: by `StripEmptyIff`, the content is whitespace
      only. */
  predicate EmptyContent(content: string) {
    AllSpace(content)
  }

  /** What `process_tools_request_async(content)` does, in order.
      Configuring the logging bridge and restoring it bracket every path;
      once the agent exists, `cleanup` follows on every path. */
  function ToolTrace(content: string, agent: AgentModel): (t: seq<Event>)
    ensures |t| >= 3 && t[0] == ConfigureLogging && t[1] == ImportAgent
    ensures t[|t| - 1] == RestoreLogging
  {
    if agent.importing.Raises? then [ConfigureLogging, ImportAgent, RestoreLogging]
    else if agent.constructing.Raises? then [ConfigureLogging, ImportAgent, ConstructAgent, RestoreLogging]
    else
      [ConfigureLogging, ImportAgent, ConstructAgent]
      + (if EmptyContent(content) then [] else [RunAgent(content)])
      + [CleanupAgent, RestoreLogging]
  }

  /** What the inner `try` returns before its `finally` runs `cleanup`. */
  function InnerResult(content: string, agent: AgentModel): (r: string)
    ensures r == EmptyRequest <==> EmptyContent(content)
    ensures !EmptyContent(content) ==> (r == RunSucceeded <==> agent.running.Returns?)
    ensures !EmptyContent(content) && agent.running.Raises? ==> RunFailed <= r
  {
    assert forall m :: (RunFailed + m)[2] == RunFailed[2];
    if EmptyContent(content) then EmptyRequest
    else match agent.running
      case Returns => RunSucceeded
      case Raises(m) => RunFailed + m
  }

  /** What `process_tools_request_async(content)` returns: an exception
      raised by `cleanup` replaces the inner result. */
  function ToolResult(content: string, agent: AgentModel): (r: string)
    ensures Constructed(agent) && agent.cleaning.Returns? ==> r == InnerResult(content, agent)
    ensures !(Constructed(agent) && agent.cleaning.Returns?) ==> InitFailed <= r
  {
    match agent.importing
    case Raises(m) => ImportFailed + m + ")"
    case Returns =>
      match agent.constructing
      case Raises(m) => InitFailed + m
      case Returns =>
        match agent.cleaning
        case Returns => InnerResult(content, agent)
        case Raises(m) => InitFailed + m
  }

  /** The test `not content.strip()`. */
  method IsBlank(content: string) returns (b: bool)
    ensures b == EmptyContent(content)
  {
    StripEmptyIff(content);
    b := Strip(content) == "";
  }

  /** The body of the outer `try` of `process_tools_request_async` with its
      `except`, between configuring and restoring the logging bridge. */
  method GuardedRun(content: string, agent: AgentModel) returns (result: string, events: seq<Event>)
    ensures result == ToolResult(content, agent)
    ensures [ConfigureLogging] + events + [RestoreLogging] == ToolTrace(content, agent)
  {
    events := [ImportAgent];
    if agent.importing.Raises? {
      result := ImportFailed + agent.importing.message + ")";
      return;
    }
    events := events + [ConstructAgent];
    if agent.constructing.Raises? {
      result := InitFailed + agent.constructing.message;
      return;
    }
    var inner: string;
    var blank := IsBlank(content);
    if blank {
      inner := EmptyRequest;
    } else {
      events := events + [RunAgent(content)];
      match agent.running {
        case Returns => inner := RunSucceeded;
        case Raises(m) => inner := RunFailed + m;
      }
    }
    events := events + [CleanupAgent];
    match agent.cleaning {
      case Returns => result := inner;
      case Raises(m) => result := InitFailed + m;
    }
  }

  lemma BridgedLoggersDistinct()
    ensures Distinct(BridgedLoggers)
  {
    var ns := BridgedLoggers;
    assert |ns[0]| == 10 && |ns[1]| == 25 && |ns[2]| == 26 && |ns[3]| == 29;
    assert |ns[4]| == 18 && |ns[5]| == 19 && |ns[6]| == 11 && |ns[7]| == 4;
  }

  /** `process_tools_request_async(content)` over the process's logger
      registry: the result of `ToolResult` and the trace of `ToolTrace`, and, since the agent
      leaves logging alone, every logger ends exactly as it started. */
  method ProcessToolsRequestAsync(logging: LoggingRegistry, content: string, agent: AgentModel, unopenable: set<string>)
      returns (result: string, trace: seq<Event>)
    requires logging.Valid()
    modifies logging
    ensures logging.Valid()
    ensures result == ToolResult(content, agent) && trace == ToolTrace(content, agent)
    ensures forall m :: View(logging.State(), m) == View(old(logging.State()), m)
  {
    var snapshot := logging.Configure(unopenable);
    var events;
    result, events := GuardedRun(content, agent);
    logging.Restore(snapshot);
    trace := [ConfigureLogging] + events + [RestoreLogging];
    BridgedLoggersDistinct();
    BridgeRoundTrip(old(logging.State()), BridgedLoggers, unopenable);
  }

  // ---------------------------------------------------------------------
  // Properties of process_tools_request_async

  /** The four shapes of the trace. */
  lemma TraceCases(content: string, agent: AgentModel)
    ensures var t := ToolTrace(content, agent);
      && (agent.importing.Raises? ==> t == [ConfigureLogging, ImportAgent, RestoreLogging])
      && ((agent.importing.Returns? && agent.constructing.Raises?)
            ==> t == [ConfigureLogging, ImportAgent, ConstructAgent, RestoreLogging])
      && ((Constructed(agent) && EmptyContent(content))
            ==> t == [ConfigureLogging, ImportAgent, ConstructAgent, CleanupAgent, RestoreLogging])
      && ((Constructed(agent) && !EmptyContent(content))
            ==> t == [ConfigureLogging, ImportAgent, ConstructAgent, RunAgent(content), CleanupAgent, RestoreLogging])
  {
  }

  /** Logging is configured first and restored last, once each, on every
      path. */
  lemma RestoreOnEveryPath(content: string, agent: AgentModel)
    ensures var t := ToolTrace(content, agent);
      && t[0] == ConfigureLogging && t[|t| - 1] == RestoreLogging
      && (forall k :: 0 < k < |t| ==> t[k] != ConfigureLogging)
      && (forall k :: 0 <= k < |t| - 1 ==> t[k] != RestoreLogging)
  {
    TraceCases(content, agent);
  }

  /** `cleanup` runs exactly when the agent exists, once, right before the
      restore, whether the payload was empty, `run` returned or `run`
      raised. */
  lemma CleanupIffConstructed(content: string, agent: AgentModel)
    ensures var t := ToolTrace(content, agent);
      && (CleanupAgent in t <==> Constructed(agent))
      && (Constructed(agent) ==> t[|t| - 2] == CleanupAgent)
      && (forall k :: 0 <= k < |t| - 2 ==> t[k] != CleanupAgent)
  {
    TraceCases(content, agent);
  }

  /** `run` is called at most once, with the content itself, and only when
      the agent exists and the content is not whitespace only. */
  lemma RunOnlyWithContent(content: string, agent: AgentModel)
    ensures var t := ToolTrace(content, agent);
      && (forall e :: e in t && e.RunAgent? ==> e == RunAgent(content))
      && (RunAgent(content) in t <==> Constructed(agent) && !AllSpace(content))
  {
    TraceCases(content, agent);
  }

  /** The agent is created before the empty-content check: for a
      whitespace-only payload it is still imported, constructed and cleaned
      up, logging is still configured and restored, and `run` is not
      called. */
  lemma EmptyContentStillConstructs(content: string, agent: AgentModel)
    requires AllSpace(content) && Constructed(agent)
    ensures ToolTrace(content, agent)
         == [ConfigureLogging, ImportAgent, ConstructAgent, CleanupAgent, RestoreLogging]
    ensures agent.cleaning.Returns? ==> ToolResult(content, agent) == EmptyRequest
  {
  }

  /** The result on every path, as the handlers of the two `try` blocks
      decide it. */
  lemma ResultCases(content: string, agent: AgentModel)
    ensures var r := ToolResult(content, agent);
      && (agent.importing.Raises? ==> r == ImportFailed + agent.importing.message + ")")
      && (agent.importing.Returns? && agent.constructing.Raises? ==> r == InitFailed + agent.constructing.message)
      && (Constructed(agent) && agent.cleaning.Raises? ==> r == InitFailed + agent.cleaning.message)
      && (Constructed(agent) && agent.cleaning.Returns? && AllSpace(content) ==> r == EmptyRequest)
      && ((Constructed(agent) && agent.cleaning.Returns? && !AllSpace(content) && agent.running.Returns?)
            ==> r == RunSucceeded)
      && ((Constructed(agent) && agent.cleaning.Returns? && !AllSpace(content) && agent.running.Raises?)
            ==> r == RunFailed + agent.running.message)
  {
  }

  // ---------------------------------------------------------------------
  // process_tools_request

  /** How waiting on the worker thread ends: `future.result(timeout=300)`
      returns, raises `TimeoutError`, or raises another exception. */
  datatype Wait = Finished | TimedOut | WaitRaised(message: string)

  /** What the worker thread appends to `result_container`: the coroutine's
      result, or the error text when setting up or running the event loop
      raises (`loop`). */
  function Container(asyncResult: string, loop: Outcome): (r: seq<string>)
    ensures |r| == 1
    ensures loop.Returns? ==> r == [asyncResult]
    ensures loop.Raises? ==> r == [WorkerFailed + loop.message]
  {
    match loop
    case Returns => [asyncResult]
    case Raises(m) => [WorkerFailed + m]
  }

  /** The result choice of `process_tools_request` once the executor has
      shut down. */
  function SyncResult(container: seq<string>, wait: Wait): (r: string)
    ensures wait.Finished? ==> (r in container || (container == [] && r == NoResult))
    ensures wait.Finished? && container != [] ==> r == container[0]
    ensures wait.TimedOut? ==> r == TimedOutText
    ensures wait.WaitRaised? ==> r == WaitFailed + wait.message
  {
    match wait
    case TimedOut => TimedOutText
    case WaitRaised(m) => WaitFailed + m
    case Finished => if |container| > 0 then container[0] else NoResult
  }

  /** `process_tools_request(content)`. */
  function ProcessToolsRequest(content: string, agent: AgentModel, loop: Outcome, wait: Wait): (r: string)
    ensures wait.Finished? && loop.Returns? ==> r == ToolResult(content, agent)
    ensures wait.Finished? && loop.Raises? ==> r == WorkerFailed + loop.message
  {
    SyncResult(Container(ToolResult(content, agent), loop), wait)
  }

  /** Once waiting finishes, the result is the coroutine's, or the worker's
      error text: the worker always leaves exactly one entry, so the
      default text is never returned. */
  lemma SyncResultFinished(content: string, agent: AgentModel, loop: Outcome)
    ensures var r := ProcessToolsRequest(content, agent, loop, Finished);
      && (loop.Returns? ==> r == ToolResult(content, agent))
      && (loop.Raises? ==> r == WorkerFailed + loop.message)
      && r != NoResult
  {
    var r := ProcessToolsRequest(content, agent, loop, Finished);
    if loop.Returns? {
      var t := ToolResult(content, agent);
      ResultNotDefault(content, agent);
    } else {
      assert r[..|WorkerFailed|] == WorkerFailed;
      assert WorkerFailed[4] != NoResult[4];
    }
  }

  /** A text that starts with `p` differs from `q` where `p` and `q`
      differ. */
  lemma DiffersAt(r: string, p: string, q: string, k: nat)
    requires |p| <= |r| && r[..|p|] == p && k < |p| && k < |q| && p[k] != q[k]
    ensures r != q
  {
    assert r[k] == p[k];
  }

  /** No result of `process_tools_request_async` is the default text. */
  lemma ResultNotDefault(content: string, agent: AgentModel)
    ensures ToolResult(content, agent) != NoResult
  {
    var r := ToolResult(content, agent);
    if Constructed(agent) && agent.cleaning.Returns? {
      if EmptyContent(content) {
        DiffersAt(r, EmptyRequest, NoResult, 2);
      } else if agent.running.Returns? {
        DiffersAt(r, RunSucceeded, NoResult, 2);
      } else {
        DiffersAt(r, RunFailed, NoResult, 4);
      }
    } else {
      DiffersAt(r, InitFailed, NoResult, 2);
    }
  }

  /** A timed-out or failed wait decides the result whatever the worker
      did. */
  lemma SyncResultWaitFails(content: string, agent: AgentModel, loop: Outcome)
    ensures ProcessToolsRequest(content, agent, loop, TimedOut) == TimedOutText
    ensures forall m :: ProcessToolsRequest(content, agent, loop, WaitRaised(m)) == WaitFailed + m
  {
  }

  // ---------------------------------------------------------------------
  // process_message

  /** The reply after post-processing, and the payloads handed to the
      gateway, in order. */
  datatype Processed = Processed(text: string, toolRequests: seq<string>)

  /** `ToolsProcessor.process_message(message)`, with the gateway
      `process_tools_request` as the function `gateway`. */
  function ProcessMessage(message: string, hideTools: bool, gateway: string -> string): (r: Processed)
    ensures |r.toolRequests| <= 1
  {
    var e := Extract(message, hideTools);
    if e.active then Processed(e.cleaned + ResultMarker + gateway(e.payload), [e.payload])
    else Processed(e.cleaned, [])
  }

  /** The gateway is called once, with the payload, exactly when the status
      is TRUE; the reply is then the cleaned text, the marker and the
      gateway's result, and otherwise the cleaned text alone. */
  lemma ProcessMessageCalls(message: string, hideTools: bool, gateway: string -> string)
    ensures var e, r := Extract(message, hideTools), ProcessMessage(message, hideTools, gateway);
      && (r.toolRequests != [] <==> e.active)
      && (e.active ==> r.toolRequests == [e.payload] && r.text == e.cleaned + ResultMarker + gateway(e.payload))
      && (!e.active ==> r.text == e.cleaned)
  {
  }

  /** A reply without any directive is left as it is and calls nothing. */
  lemma ProcessMessagePlain(message: string, hideTools: bool, gateway: string -> string)
    requires NoDirective(message)
    ensures ProcessMessage(message, hideTools, gateway) == Processed(message, [])
  {
  }

  /** A reply ending in a TRUE directive, after text without `[`: the
      payload goes to the gateway, and the result follows the whole reply
      (hide mode off) or the stripped text before the directive (hide mode
      on). */
  lemma ProcessMessageTrailingTrue(pre: string, payload: string, hideTools: bool, gateway: string -> string)
    requires forall k :: 0 <= k < |pre| ==> pre[k] != '['
    requires WellFormedPayload(payload)
    ensures var message := pre + Encode(Directive(true, payload));
      ProcessMessage(message, hideTools, gateway)
        == Processed((if hideTools then Strip(pre) else message) + ResultMarker + gateway(payload), [payload])
  {
    ExtractTrailing(pre, Directive(true, payload), hideTools);
  }

  /** A reply ending in a FALSE directive, after text without `[`, calls
      nothing; hide mode removes the directive. */
  lemma ProcessMessageTrailingFalse(pre: string, payload: string, hideTools: bool, gateway: string -> string)
    requires forall k :: 0 <= k < |pre| ==> pre[k] != '['
    requires WellFormedPayload(payload)
    ensures var message := pre + Encode(Directive(false, payload));
      ProcessMessage(message, hideTools, gateway) == Processed(if hideTools then Strip(pre) else message, [])
  {
    ExtractTrailing(pre, Directive(false, payload), hideTools);
  }

  /** End to end: a TRUE directive with a whitespace-only payload, through
      the real gateway, reports the empty-request text when cleanup and the
      worker succeed, although the agent was imported, constructed and
      cleaned up. */
  lemma EmptyPayloadEndToEnd(pre: string, payload: string, hideTools: bool, agent: AgentModel)
    requires forall k :: 0 <= k < |pre| ==> pre[k] != '['
    requires WellFormedPayload(payload) && AllSpace(payload)
    requires Constructed(agent) && agent.cleaning.Returns?
    ensures var message := pre + Encode(Directive(true, payload));
            var gateway := (p: string) => ProcessToolsRequest(p, agent, Returns, Finished);
      ProcessMessage(message, hideTools, gateway).text
        == (if hideTools then Strip(pre) else message) + ResultMarker + EmptyRequest
  {
    var gateway := (p: string) => ProcessToolsRequest(p, agent, Returns, Finished);
    ProcessMessageTrailingTrue(pre, payload, hideTools, gateway);
    EmptyContentStillConstructs(payload, agent);
  }
}
