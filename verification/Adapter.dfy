/**
 Agent events and their adaptation to the gateway's taxonomy (agent/adapter.rs,
 agent/event.rs, agent/context.rs).
 */
module Adapter {
  import opened Wrappers
  import opened Text
  import opened Json
  import opened EventTokens
  import opened StepState

  datatype Source = Alephant | LangGraph | OpenAiAgents | N8n | CrewAi | Mastra | UnknownSource

  datatype Phase = Before | After | State | UnknownPhase

  datatype Stage = PreAction | PostAction | AuditOnly

  datatype StepSource = Runtime | Gateway | Rule | Heuristic | UnknownStepSource

  datatype Confidence = High | Medium | Low | UnknownConfidence

  datatype Trust = SelfReported | AdapterDetected | GatewayObserved | GatewayExecuted | Registered

  datatype Event = Event(
    source: Option<Source>,
    eventId: Option<string>,
    eventType: string,
    phase: Phase,
    stage: Stage,
    trust: Trust,
    name: Option<string>,
    agentId: Option<string>,
    runId: Option<string>,
    stepId: Option<string>,
    parentStepId: Option<string>,
    toolCallId: Option<string>,
    graphNode: Option<string>,
    stepKind: Option<StepKind>,
    stepSource: StepSource,
    confidence: Confidence,
    attempt: Option<u32>,
    inputHash: Option<string>,
    metadata: Value,
    raw: map<string, Value>)

  // ---------- the taxonomy ----------

  /** The event types that adaptation can give. */
  datatype Standard =
    | ToolCallRequested | ToolCallCompleted | ToolCallFailed | ToolResultReceived
    | LlmCallStarted | LlmCallCompleted
    | StepStarted | StepCompleted | StepFailed
    | RunStarted | RunCompleted | RunFailed
    | HandoffRequested | HandoffCompleted | ApprovalRequested | CheckpointCreated

  function TypeText(s: Standard): string {
    match s
    case ToolCallRequested => "tool.call.requested"
    case ToolCallCompleted => "tool.call.completed"
    case ToolCallFailed => "tool.call.failed"
    case ToolResultReceived => "tool.result.received"
    case LlmCallStarted => "llm.call.started"
    case LlmCallCompleted => "llm.call.completed"
    case StepStarted => "step.started"
    case StepCompleted => "step.completed"
    case StepFailed => "step.failed"
    case RunStarted => "run.started"
    case RunCompleted => "run.completed"
    case RunFailed => "run.failed"
    case HandoffRequested => "handoff.requested"
    case HandoffCompleted => "handoff.completed"
    case ApprovalRequested => "approval.requested"
    case CheckpointCreated => "checkpoint.created"
  }

  datatype Mapping = Mapping(standard: Standard, kind: StepKind, phase: Phase, stage: Stage)

  function Pre(standard: Standard, kind: StepKind): Option<Mapping> {
    Some(Mapping(standard, kind, Before, PreAction))
  }

  function Post(standard: Standard, kind: StepKind): Option<Mapping> {
    Some(Mapping(standard, kind, After, AuditOnly))
  }

  function StateChange(standard: Standard, kind: StepKind): Option<Mapping> {
    Some(Mapping(standard, kind, State, AuditOnly))
  }

  function MapLangGraph(eventType: string): Option<Mapping> {
    match eventType
    case "on_tool_start" => Pre(ToolCallRequested, ToolCall)
    case "on_tool_end" => Post(ToolCallCompleted, ToolCall)
    case "on_chat_model_start" => Pre(LlmCallStarted, LlmCall)
    case "on_llm_start" => Pre(LlmCallStarted, LlmCall)
    case "on_chat_model_end" => Post(LlmCallCompleted, LlmCall)
    case "on_llm_end" => Post(LlmCallCompleted, LlmCall)
    case "on_chain_start" => StateChange(StepStarted, Unknown)
    case "on_chain_end" => Post(StepCompleted, Unknown)
    case "on_chain_error" => Post(StepFailed, ErrorRecovery)
    case "on_tool_error" => Post(StepFailed, ErrorRecovery)
    case "on_llm_error" => Post(StepFailed, ErrorRecovery)
    case _ => None
  }

  function MapOpenAiAgents(eventType: string): Option<Mapping> {
    match eventType
    case "tool_called" => Pre(ToolCallRequested, ToolCall)
    case "tool_output" => Post(ToolResultReceived, ToolResult)
    case "handoff_requested" => Pre(HandoffRequested, Handoff)
    case "handoff_occurred" => Post(HandoffCompleted, Handoff)
    case "tool_approval_requested" => Pre(ApprovalRequested, Approval)
    case "reasoning_item_created" => StateChange(StepStarted, Reasoning)
    case _ => None
  }

  predicate IsToolMetadataEvent(eventType: string) {
    eventType == "tool_called" || eventType == "tool_output" || eventType == "tool_approval_requested"
  }

  predicate HasToolToken(s: string) {
    "tool" in Tokens(s) || "tools" in Tokens(s)
  }

  function MapN8n(eventType: string, nodeType: Option<string>): Option<Mapping> {
    var isTool := nodeType.Some? && HasToolToken(AsciiLower(nodeType.value));
    match eventType
    case "execution.started" => StateChange(RunStarted, Planning)
    case "execution.success" => StateChange(RunCompleted, Unknown)
    case "execution.error" => StateChange(RunFailed, ErrorRecovery)
    case "node.started" => if isTool then Pre(ToolCallRequested, ToolCall) else StateChange(StepStarted, Unknown)
    case "node.finished" => if isTool then Post(ToolResultReceived, ToolResult) else Post(StepCompleted, Unknown)
    case "node.error" => if isTool then Post(ToolCallFailed, ToolCall) else Post(StepFailed, ErrorRecovery)
    case "waiting" => Pre(ApprovalRequested, Approval)
    case _ => None
  }

  function MapCrewAi(eventType: string): Option<Mapping> {
    match eventType
    case "CrewKickoffStartedEvent" => StateChange(RunStarted, Unknown)
    case "CrewKickoffCompletedEvent" => StateChange(RunCompleted, Unknown)
    case "CrewKickoffFailedEvent" => StateChange(RunFailed, ErrorRecovery)
    case "TaskStartedEvent" => StateChange(StepStarted, Unknown)
    case "TaskCompletedEvent" => Post(StepCompleted, Unknown)
    case "ToolUsageStartedEvent" => Pre(ToolCallRequested, ToolCall)
    case "ToolUsageFinishedEvent" => Post(ToolResultReceived, ToolResult)
    case "ToolUsageErrorEvent" => Post(ToolCallFailed, ToolCall)
    case _ => None
  }

  function MapMastra(eventType: string): Option<Mapping> {
    match eventType
    case "workflow.run.started" => StateChange(RunStarted, Unknown)
    case "workflow.run.completed" => StateChange(RunCompleted, Unknown)
    case "workflow.run.failed" => StateChange(RunFailed, ErrorRecovery)
    case "workflow.step.started" => StateChange(StepStarted, Unknown)
    case "workflow.step.completed" => Post(StepCompleted, Unknown)
    case "tool.call.started" => Pre(ToolCallRequested, ToolCall)
    case "tool.call.completed" => Post(ToolResultReceived, ToolResult)
    case "llm.call.started" => Pre(LlmCallStarted, LlmCall)
    case "llm.call.completed" => Post(LlmCallCompleted, LlmCall)
    case "checkpoint.created" => StateChange(CheckpointCreated, Checkpoint)
    case _ => None
  }

  // ---------- guessing from tokens ----------

  predicate HasLlmToken(s: string) {
    var tokens := Tokens(s);
    || "llm" in tokens
    || exists i :: 0 <= i < |tokens| - 1 && tokens[i] == "chat" && tokens[i + 1] == "model"
  }

  predicate OccursAt(s: string, part: string, i: nat) {
    i + |part| <= |s| && s[i..i + |part|] == part
  }

  predicate Contains(s: string, part: string) {
    exists i :: 0 <= i <= |s| && OccursAt(s, part, i)
  }

  predicate IsFalsePositive(token: string) {
    && token !in ["tool", "tools", "llm", "chat", "model"]
    && (Contains(token, "tool") || Contains(token, "llm"))
  }

  predicate HasFalsePositiveToken(s: string) {
    exists i :: 0 <= i < |Tokens(s)| && IsFalsePositive(Tokens(s)[i])
  }

  datatype Guess = Guess(standard: Standard, kind: StepKind)

  function MapUnknown(eventType: string): Option<Guess> {
    var compact := AsciiLower(eventType);
    if IsAmbiguousIncomplete(compact) then None else GuessType(compact, IsGenericCompletion(compact))
  }

  function GuessType(compact: string, completed: bool): Option<Guess> {
    if HasToolToken(compact) then Some(Guess(if completed then ToolCallCompleted else ToolCallRequested, ToolCall))
    else if HasLlmToken(compact) then Some(Guess(if completed then LlmCallCompleted else LlmCallStarted, LlmCall))
    else if "approval" in Tokens(compact) then Some(Guess(ApprovalRequested, Approval))
    else if Contains(compact, "checkpoint") then Some(Guess(CheckpointCreated, Checkpoint))
    else if !HasFalsePositiveToken(compact) && completed then Some(Guess(StepCompleted, Unknown))
    else None
  }

  // ---------- metadata ----------

  /** Metadata that is no fields is wrapped into one. */
  function Fields(metadata: Value): map<string, Value> {
    if metadata.Obj? then metadata.fields else map["value" := metadata]
  }

  function InsertIfAbsent(m: map<string, Value>, key: string, value: Value): map<string, Value> {
    if key in m then m else m[key := value]
  }

  function SourceText(source: Source): string {
    match source
    case Alephant => "alephant"
    case LangGraph => "langgraph"
    case OpenAiAgents => "openai_agents"
    case N8n => "n8n"
    case CrewAi => "crewai"
    case Mastra => "mastra"
    case UnknownSource => "unknown"
  }

  function Enrich(metadata: Value, source: Source, rawType: string, name: Option<string>): Value {
    var m := InsertIfAbsent(Fields(metadata), "framework", Str(SourceText(source)));
    var n := InsertIfAbsent(m, "rawEventType", Str(rawType));
    Obj(if name.Some? then InsertIfAbsent(n, "rawName", Str(name.value)) else n)
  }

  const ALLOWLIST := [
    "frameworkVersion", "rawEventType", "rawEventName", "traceId", "trace_id", "spanId", "span_id",
    "executionId", "execution_id", "workflowId", "workflow_id", "nodeId", "node_id", "taskId", "task_id",
    "toolName", "tool_name", "sequence"]

  function CopyKeys(m: map<string, Value>, raw: map<string, Value>, keys: seq<string>): map<string, Value> {
    if keys == [] then m
    else
      var key := keys[|keys| - 1];
      var before := CopyKeys(m, raw, keys[..|keys| - 1]);
      if key in raw then InsertIfAbsent(before, key, raw[key]) else before
  }

  /** A listed raw field is copied where the metadata has no such key; nothing else changes. */
  lemma {:induction false} CopyKeysExactly(m: map<string, Value>, raw: map<string, Value>, keys: seq<string>, k: string)
    ensures var r := CopyKeys(m, raw, keys);
            && (k in r <==> k in m || (k in keys && k in raw))
            && (k in r ==> r[k] == if k in m then m[k] else raw[k])
  {
    if keys != [] {
      CopyKeysExactly(m, raw, keys[..|keys| - 1], k);
    }
  }

  function CopyAllowlisted(metadata: Value, raw: map<string, Value>): Value {
    Obj(CopyKeys(Fields(metadata), raw, ALLOWLIST))
  }

  method CopyAllowlistedRawFields(metadata: Value, raw: map<string, Value>) returns (r: Value)
    ensures r == CopyAllowlisted(metadata, raw)
    ensures var before, after := Fields(metadata), Fields(r);
            && (forall k :: k in after <==> k in before || (k in ALLOWLIST && k in raw))
            && (forall k :: k in after ==> after[k] == if k in before then before[k] else raw[k])
  {
    var fields := Fields(metadata);
    for i := 0 to |ALLOWLIST|
      invariant fields == CopyKeys(Fields(metadata), raw, ALLOWLIST[..i])
    {
      assert ALLOWLIST[..i + 1][..i] == ALLOWLIST[..i];
      var key := ALLOWLIST[i];
      if key in raw {
        fields := InsertIfAbsent(fields, key, raw[key]);
      }
    }
    assert ALLOWLIST[..|ALLOWLIST|] == ALLOWLIST;
    r := Obj(fields);
    forall k ensures var before := Fields(metadata);
                     && (k in fields <==> k in before || (k in ALLOWLIST && k in raw))
                     && (k in fields ==> fields[k] == if k in before then before[k] else raw[k])
    {
      CopyKeysExactly(Fields(metadata), raw, ALLOWLIST, k);
    }
  }

  function RawString(e: Event, key: string): Option<string> {
    if key in e.raw && e.raw[key].Str? then Some(e.raw[key].text) else None
  }

  function InsertString(metadata: Value, key: string, text: Option<string>): Value {
    if text.Some? then Obj(InsertIfAbsent(Fields(metadata), key, Str(text.value))) else metadata
  }

  function MetadataString(metadata: Value, key: string): Option<string> {
    AsStr(Get(metadata, key))
  }

  // ---------- adapting ----------

  function SetMapping(e: Event, m: Mapping): Event {
    e.(eventType := TypeText(m.standard), stepKind := Some(m.kind), phase := m.phase, stage := m.stage,
       stepSource := Runtime, confidence := High)
  }

  function Finish(e: Event, source: Source, rawType: string): Event {
    e.(metadata := CopyAllowlisted(Enrich(e.metadata, source, rawType, e.name), e.raw))
  }

  /** Phase and stage that go with a guessed type; other types keep what they came with. */
  function HeuristicPhase(e: Event): Event {
    if e.eventType == "tool.call.requested" || e.eventType == "llm.call.started"
      || e.eventType == "approval.requested" then
      e.(phase := Before, stage := PreAction)
    else if e.eventType == "checkpoint.created" then e.(phase := State, stage := AuditOnly)
    else if EndsWith(e.eventType, ".completed") then e.(phase := After, stage := AuditOnly)
    else e
  }

  function Guessed(e: Event): Event {
    var guess := MapUnknown(e.eventType);
    if guess.Some? then
      HeuristicPhase(e.(eventType := TypeText(guess.value.standard), stepKind := Some(guess.value.kind),
                        stepSource := Heuristic, confidence := Medium))
    else
      e.(eventType := "unknown", stepKind := Some(Unknown), stepSource := Heuristic, confidence := Low,
         phase := UnknownPhase, stage := AuditOnly)
  }

  function AdaptUnknown(source: Source, e: Event): Event {
    var trusted := if source == UnknownSource then e.(trust := SelfReported) else e;
    Finish(Guessed(trusted), source, e.eventType)
  }

  function AdaptMapped(source: Source, e: Event, mapping: Option<Mapping>): Event {
    if mapping.None? then AdaptUnknown(source, e) else Finish(SetMapping(e, mapping.value), source, e.eventType)
  }

  function AdaptLangGraph(e: Event): Event {
    var mapping := MapLangGraph(e.eventType);
    var mapped := if mapping.Some? then SetMapping(e, mapping.value) else e;
    var node := OrElse(e.graphNode, OrElse(MetadataString(e.metadata, "langgraph_node"), e.name));
    Finish(mapped.(graphNode := node), LangGraph, e.eventType)
  }

  /** The fields that a framework's adapter fills from the raw event, where the client left them open. */
  function Filled(source: Source, e: Event): Event {
    match source
    case OpenAiAgents =>
      e.(runId := OrElse(e.runId, RawString(e, "trace_id")),
         stepId := OrElse(e.stepId, OrElse(RawString(e, "span_id"), RawString(e, "item_id"))),
         parentStepId := OrElse(e.parentStepId, RawString(e, "parent_id")),
         metadata := if IsToolMetadataEvent(e.eventType) then InsertString(e.metadata, "tool_name", e.name)
           else e.metadata)
    case N8n =>
      e.(agentId := OrElse(e.agentId, RawString(e, "workflowId")),
         runId := OrElse(e.runId, RawString(e, "executionId")),
         stepId := OrElse(e.stepId, RawString(e, "nodeId")),
         graphNode := OrElse(e.graphNode, RawString(e, "nodeName")),
         metadata := InsertString(e.metadata, "node_type", RawString(e, "nodeType")))
    case CrewAi =>
      e.(runId := OrElse(e.runId, RawString(e, "crew_id")),
         stepId := OrElse(e.stepId, RawString(e, "task_id")),
         metadata := InsertString(e.metadata, "tool_name", RawString(e, "tool_name")))
    case Mastra =>
      e.(runId := OrElse(e.runId, RawString(e, "traceId")),
         stepId := OrElse(e.stepId, RawString(e, "spanId")),
         metadata := InsertString(e.metadata, "tool_name", RawString(e, "toolName")))
    case _ => e
  }

  function MappingOf(source: Source, rawType: string, nodeType: Option<string>): Option<Mapping> {
    match source
    case OpenAiAgents => MapOpenAiAgents(rawType)
    case N8n => MapN8n(rawType, nodeType)
    case CrewAi => MapCrewAi(rawType)
    case Mastra => MapMastra(rawType)
    case _ => None
  }

  function Adapt(source: Source, event: Event): Event {
    var e := event.(source := Some(source));
    match source
    case Alephant => e.(metadata := CopyAllowlisted(e.metadata, e.raw))
    case LangGraph => AdaptLangGraph(e)
    case _ => AdaptMapped(source, Filled(source, e), MappingOf(source, e.eventType, RawString(e, "nodeType")))
  }
}
