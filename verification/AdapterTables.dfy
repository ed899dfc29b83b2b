/**
 What adaptation makes of every raw event type, and for which ones policy is asked, stated of
 Adapt alone and source by source (agent/adapter.rs, agent/service.rs).
 */
module AdapterTables {
  import opened Wrappers
  import opened Text
  import opened Json
  import opened EventTokens
  import opened StepState
  import opened Adapter
  import opened PolicyGate

  // ---------- the guess, read off the tokens ----------

  ghost predicate NamesTool(tokens: seq<string>) {
    "tool" in tokens || "tools" in tokens
  }

  ghost predicate NamesLlm(tokens: seq<string>) {
    "llm" in tokens || exists i :: 0 <= i < |tokens| - 1 && tokens[i] == "chat" && tokens[i + 1] == "model"
  }

  ghost predicate Unclear(tokens: seq<string>) {
    "incomplete" in tokens || NotFollowedByCompletion(tokens)
  }

  ghost predicate HintsAtToolOrLlm(tokens: seq<string>) {
    exists i :: 0 <= i < |tokens| && IsFalsePositive(tokens[i])
  }

  function GuessedAs(eventType: string, kind: StepKind, phase: Phase): Taxonomy {
    Taxonomy(eventType, Some(kind), phase, if phase == Before then PreAction else AuditOnly, Heuristic, Medium)
  }

  const NO_GUESS := Taxonomy("unknown", Some(Unknown), UnknownPhase, AuditOnly, Heuristic, Low)

  ghost function GuessAmong(s: string, completed: bool): Taxonomy {
    var tokens := Tokens(s);
    if NamesTool(tokens) then
      if completed then GuessedAs("tool.call.completed", ToolCall, After)
      else GuessedAs("tool.call.requested", ToolCall, Before)
    else if NamesLlm(tokens) then
      if completed then GuessedAs("llm.call.completed", LlmCall, After)
      else GuessedAs("llm.call.started", LlmCall, Before)
    else if "approval" in tokens then GuessedAs("approval.requested", Approval, Before)
    else if Contains(s, "checkpoint") then GuessedAs("checkpoint.created", Checkpoint, State)
    else if completed && !HintsAtToolOrLlm(tokens) then GuessedAs("step.completed", Unknown, After)
    else NO_GUESS
  }

  /** What an unlisted type is taken for. */
  ghost function GuessOf(rawType: string): Taxonomy {
    var s := AsciiLower(rawType);
    if Unclear(Tokens(s)) then NO_GUESS else GuessAmong(s, SaysCompleted(s))
  }

  /** Policy is asked about an unlisted type that names an approval, or an unfinished tool or model call. */
  ghost predicate LooksGated(rawType: string) {
    var s := AsciiLower(rawType);
    var tokens := Tokens(s);
    && !Unclear(tokens)
    && if NamesTool(tokens) || NamesLlm(tokens) then !SaysCompleted(s) else "approval" in tokens
  }

  lemma GuessAmongIs(s: string, completed: bool)
    ensures TaxonomyOfGuess(GuessType(s, completed)) == GuessAmong(s, completed)
  {
  }

  lemma GuessIsRight(rawType: string)
    ensures GuessTaxonomy(rawType) == GuessOf(rawType)
  {
    var s := AsciiLower(rawType);
    SuffixNegationIsRedundant(s);
    if !IsAmbiguousIncomplete(s) {
      CompletionIsPlainSuffix(s);
      CompletionIsLastSegment(s);
      GuessAmongIs(s, SaysCompleted(s));
    }
  }

  lemma GuessIsGated(rawType: string)
    ensures GatedTaxonomy(GuessOf(rawType)) <==> LooksGated(rawType)
  {
  }

  // ---------- listed types, source by source ----------

  ghost predicate IsListedAs(t: Taxonomy, eventType: string, kind: StepKind, phase: Phase) {
    t == Taxonomy(eventType, Some(kind), phase, if phase == Before then PreAction else AuditOnly, Runtime, High)
  }

  /** The client's own account asks for policy. */
  ghost predicate ClientAsks(e: Event) {
    e.phase == Before && e.stage == PreAction && (e.confidence == Medium || e.confidence == High)
  }

  ghost predicate AsksPolicy(source: Source, e: Event, freshId: string, metadata: Value) {
    ShouldValidatePolicy(NormalizeEvent(Adapt(source, e), freshId, metadata))
  }

  const OPENAI_AGENTS_TYPES := [
    "tool_called", "tool_output", "handoff_requested", "handoff_occurred", "tool_approval_requested",
    "reasoning_item_created"]

  lemma OpenAiAgentsRows(rawType: string, guess: Taxonomy, t: Taxonomy)
    requires t == ListedOr(MapOpenAiAgents(rawType), guess)
    ensures rawType == "tool_called" ==> IsListedAs(t, "tool.call.requested", ToolCall, Before)
    ensures rawType == "tool_output" ==> IsListedAs(t, "tool.result.received", ToolResult, After)
    ensures rawType == "handoff_requested" ==> IsListedAs(t, "handoff.requested", Handoff, Before)
    ensures rawType == "handoff_occurred" ==> IsListedAs(t, "handoff.completed", Handoff, After)
    ensures rawType == "tool_approval_requested" ==> IsListedAs(t, "approval.requested", Approval, Before)
    ensures rawType == "reasoning_item_created" ==> IsListedAs(t, "step.started", Reasoning, State)
    ensures rawType !in OPENAI_AGENTS_TYPES ==> t == guess
  {
  }

  lemma OpenAiAgentsTypes(e: Event, t: Taxonomy)
    requires t == TaxonomyOf(Adapt(OpenAiAgents, e))
    ensures e.eventType == "tool_called" ==> IsListedAs(t, "tool.call.requested", ToolCall, Before)
    ensures e.eventType == "tool_output" ==> IsListedAs(t, "tool.result.received", ToolResult, After)
    ensures e.eventType == "handoff_requested" ==> IsListedAs(t, "handoff.requested", Handoff, Before)
    ensures e.eventType == "handoff_occurred" ==> IsListedAs(t, "handoff.completed", Handoff, After)
    ensures e.eventType == "tool_approval_requested" ==> IsListedAs(t, "approval.requested", Approval, Before)
    ensures e.eventType == "reasoning_item_created" ==> IsListedAs(t, "step.started", Reasoning, State)
    ensures e.eventType !in OPENAI_AGENTS_TYPES ==> t == GuessOf(e.eventType)
  {
    GovernedTaxonomy(OpenAiAgents, e);
    GuessIsRight(e.eventType);
    OpenAiAgentsRows(e.eventType, GuessOf(e.eventType), t);
  }

  lemma OpenAiAgentsPolicy(e: Event, freshId: string, metadata: Value)
    ensures AsksPolicy(OpenAiAgents, e, freshId, metadata) <==>
            || e.eventType == "tool_called"
            || e.eventType == "handoff_requested"
            || e.eventType == "tool_approval_requested"
            || (e.eventType !in OPENAI_AGENTS_TYPES && LooksGated(e.eventType))
  {
    OpenAiAgentsTypes(e, TaxonomyOf(Adapt(OpenAiAgents, e)));
    GateReadsTaxonomy(Adapt(OpenAiAgents, e), freshId, metadata);
    GuessIsGated(e.eventType);
  }

  const N8N_TYPES := [
    "execution.started", "execution.success", "execution.error", "node.started", "node.finished", "node.error",
    "waiting"]

  /** The node type has the token "tool" or "tools". */
  ghost predicate OnToolNode(e: Event) {
    && "nodeType" in e.raw && e.raw["nodeType"].Str?
    && NamesTool(Tokens(AsciiLower(e.raw["nodeType"].text)))
  }

  lemma N8nRows(rawType: string, nodeType: Option<string>, guess: Taxonomy, t: Taxonomy)
    requires t == ListedOr(MapN8n(rawType, nodeType), guess)
    ensures rawType == "execution.started" ==> IsListedAs(t, "run.started", Planning, State)
    ensures rawType == "execution.success" ==> IsListedAs(t, "run.completed", Unknown, State)
    ensures rawType == "execution.error" ==> IsListedAs(t, "run.failed", ErrorRecovery, State)
    ensures rawType == "node.started" && (nodeType.Some? && NamesTool(Tokens(AsciiLower(nodeType.value)))) ==>
              IsListedAs(t, "tool.call.requested", ToolCall, Before)
    ensures rawType == "node.started" && !(nodeType.Some? && NamesTool(Tokens(AsciiLower(nodeType.value)))) ==>
              IsListedAs(t, "step.started", Unknown, State)
    ensures rawType == "node.finished" && (nodeType.Some? && NamesTool(Tokens(AsciiLower(nodeType.value)))) ==>
              IsListedAs(t, "tool.result.received", ToolResult, After)
    ensures rawType == "node.finished" && !(nodeType.Some? && NamesTool(Tokens(AsciiLower(nodeType.value)))) ==>
              IsListedAs(t, "step.completed", Unknown, After)
    ensures rawType == "node.error" && (nodeType.Some? && NamesTool(Tokens(AsciiLower(nodeType.value)))) ==>
              IsListedAs(t, "tool.call.failed", ToolCall, After)
    ensures rawType == "node.error" && !(nodeType.Some? && NamesTool(Tokens(AsciiLower(nodeType.value)))) ==>
              IsListedAs(t, "step.failed", ErrorRecovery, After)
    ensures rawType == "waiting" ==> IsListedAs(t, "approval.requested", Approval, Before)
    ensures rawType !in N8N_TYPES ==> t == guess
  {
  }

  lemma N8nTypes(e: Event, t: Taxonomy)
    requires t == TaxonomyOf(Adapt(N8n, e))
    ensures e.eventType == "execution.started" ==> IsListedAs(t, "run.started", Planning, State)
    ensures e.eventType == "execution.success" ==> IsListedAs(t, "run.completed", Unknown, State)
    ensures e.eventType == "execution.error" ==> IsListedAs(t, "run.failed", ErrorRecovery, State)
    ensures e.eventType == "node.started" && OnToolNode(e) ==> IsListedAs(t, "tool.call.requested", ToolCall, Before)
    ensures e.eventType == "node.started" && !OnToolNode(e) ==> IsListedAs(t, "step.started", Unknown, State)
    ensures e.eventType == "node.finished" && OnToolNode(e) ==> IsListedAs(t, "tool.result.received", ToolResult, After)
    ensures e.eventType == "node.finished" && !OnToolNode(e) ==> IsListedAs(t, "step.completed", Unknown, After)
    ensures e.eventType == "node.error" && OnToolNode(e) ==> IsListedAs(t, "tool.call.failed", ToolCall, After)
    ensures e.eventType == "node.error" && !OnToolNode(e) ==> IsListedAs(t, "step.failed", ErrorRecovery, After)
    ensures e.eventType == "waiting" ==> IsListedAs(t, "approval.requested", Approval, Before)
    ensures e.eventType !in N8N_TYPES ==> t == GuessOf(e.eventType)
  {
    GovernedTaxonomy(N8n, e);
    GuessIsRight(e.eventType);
    N8nRows(e.eventType, RawString(e, "nodeType"), GuessOf(e.eventType), t);
  }

  lemma N8nPolicy(e: Event, freshId: string, metadata: Value)
    ensures AsksPolicy(N8n, e, freshId, metadata) <==>
            || (e.eventType == "node.started" && OnToolNode(e))
            || e.eventType == "waiting"
            || (e.eventType !in N8N_TYPES && LooksGated(e.eventType))
  {
    N8nTypes(e, TaxonomyOf(Adapt(N8n, e)));
    GateReadsTaxonomy(Adapt(N8n, e), freshId, metadata);
    GuessIsGated(e.eventType);
  }

  const CREWAI_TYPES := [
    "CrewKickoffStartedEvent", "CrewKickoffCompletedEvent", "CrewKickoffFailedEvent", "TaskStartedEvent",
    "TaskCompletedEvent", "ToolUsageStartedEvent", "ToolUsageFinishedEvent", "ToolUsageErrorEvent"]

  lemma CrewAiRows(rawType: string, guess: Taxonomy, t: Taxonomy)
    requires t == ListedOr(MapCrewAi(rawType), guess)
    ensures rawType == "CrewKickoffStartedEvent" ==> IsListedAs(t, "run.started", Unknown, State)
    ensures rawType == "CrewKickoffCompletedEvent" ==> IsListedAs(t, "run.completed", Unknown, State)
    ensures rawType == "CrewKickoffFailedEvent" ==> IsListedAs(t, "run.failed", ErrorRecovery, State)
    ensures rawType == "TaskStartedEvent" ==> IsListedAs(t, "step.started", Unknown, State)
    ensures rawType == "TaskCompletedEvent" ==> IsListedAs(t, "step.completed", Unknown, After)
    ensures rawType == "ToolUsageStartedEvent" ==> IsListedAs(t, "tool.call.requested", ToolCall, Before)
    ensures rawType == "ToolUsageFinishedEvent" ==> IsListedAs(t, "tool.result.received", ToolResult, After)
    ensures rawType == "ToolUsageErrorEvent" ==> IsListedAs(t, "tool.call.failed", ToolCall, After)
    ensures rawType !in CREWAI_TYPES ==> t == guess
  {
  }

  lemma CrewAiTypes(e: Event, t: Taxonomy)
    requires t == TaxonomyOf(Adapt(CrewAi, e))
    ensures e.eventType == "CrewKickoffStartedEvent" ==> IsListedAs(t, "run.started", Unknown, State)
    ensures e.eventType == "CrewKickoffCompletedEvent" ==> IsListedAs(t, "run.completed", Unknown, State)
    ensures e.eventType == "CrewKickoffFailedEvent" ==> IsListedAs(t, "run.failed", ErrorRecovery, State)
    ensures e.eventType == "TaskStartedEvent" ==> IsListedAs(t, "step.started", Unknown, State)
    ensures e.eventType == "TaskCompletedEvent" ==> IsListedAs(t, "step.completed", Unknown, After)
    ensures e.eventType == "ToolUsageStartedEvent" ==> IsListedAs(t, "tool.call.requested", ToolCall, Before)
    ensures e.eventType == "ToolUsageFinishedEvent" ==> IsListedAs(t, "tool.result.received", ToolResult, After)
    ensures e.eventType == "ToolUsageErrorEvent" ==> IsListedAs(t, "tool.call.failed", ToolCall, After)
    ensures e.eventType !in CREWAI_TYPES ==> t == GuessOf(e.eventType)
  {
    GovernedTaxonomy(CrewAi, e);
    GuessIsRight(e.eventType);
    CrewAiRows(e.eventType, GuessOf(e.eventType), t);
  }

  lemma CrewAiPolicy(e: Event, freshId: string, metadata: Value)
    ensures AsksPolicy(CrewAi, e, freshId, metadata) <==>
            || e.eventType == "ToolUsageStartedEvent"
            || (e.eventType !in CREWAI_TYPES && LooksGated(e.eventType))
  {
    CrewAiTypes(e, TaxonomyOf(Adapt(CrewAi, e)));
    GateReadsTaxonomy(Adapt(CrewAi, e), freshId, metadata);
    GuessIsGated(e.eventType);
  }

  const MASTRA_TYPES := [
    "workflow.run.started", "workflow.run.completed", "workflow.run.failed", "workflow.step.started",
    "workflow.step.completed", "tool.call.started", "tool.call.completed", "llm.call.started",
    "llm.call.completed", "checkpoint.created"]

  lemma MastraRows(rawType: string, guess: Taxonomy, t: Taxonomy)
    requires t == ListedOr(MapMastra(rawType), guess)
    ensures rawType == "workflow.run.started" ==> IsListedAs(t, "run.started", Unknown, State)
    ensures rawType == "workflow.run.completed" ==> IsListedAs(t, "run.completed", Unknown, State)
    ensures rawType == "workflow.run.failed" ==> IsListedAs(t, "run.failed", ErrorRecovery, State)
    ensures rawType == "workflow.step.started" ==> IsListedAs(t, "step.started", Unknown, State)
    ensures rawType == "workflow.step.completed" ==> IsListedAs(t, "step.completed", Unknown, After)
    ensures rawType == "tool.call.started" ==> IsListedAs(t, "tool.call.requested", ToolCall, Before)
    ensures rawType == "tool.call.completed" ==> IsListedAs(t, "tool.result.received", ToolResult, After)
    ensures rawType == "llm.call.started" ==> IsListedAs(t, "llm.call.started", LlmCall, Before)
    ensures rawType == "llm.call.completed" ==> IsListedAs(t, "llm.call.completed", LlmCall, After)
    ensures rawType == "checkpoint.created" ==> IsListedAs(t, "checkpoint.created", Checkpoint, State)
    ensures rawType !in MASTRA_TYPES ==> t == guess
  {
  }

  lemma MastraTypes(e: Event, t: Taxonomy)
    requires t == TaxonomyOf(Adapt(Mastra, e))
    ensures e.eventType == "workflow.run.started" ==> IsListedAs(t, "run.started", Unknown, State)
    ensures e.eventType == "workflow.run.completed" ==> IsListedAs(t, "run.completed", Unknown, State)
    ensures e.eventType == "workflow.run.failed" ==> IsListedAs(t, "run.failed", ErrorRecovery, State)
    ensures e.eventType == "workflow.step.started" ==> IsListedAs(t, "step.started", Unknown, State)
    ensures e.eventType == "workflow.step.completed" ==> IsListedAs(t, "step.completed", Unknown, After)
    ensures e.eventType == "tool.call.started" ==> IsListedAs(t, "tool.call.requested", ToolCall, Before)
    ensures e.eventType == "tool.call.completed" ==> IsListedAs(t, "tool.result.received", ToolResult, After)
    ensures e.eventType == "llm.call.started" ==> IsListedAs(t, "llm.call.started", LlmCall, Before)
    ensures e.eventType == "llm.call.completed" ==> IsListedAs(t, "llm.call.completed", LlmCall, After)
    ensures e.eventType == "checkpoint.created" ==> IsListedAs(t, "checkpoint.created", Checkpoint, State)
    ensures e.eventType !in MASTRA_TYPES ==> t == GuessOf(e.eventType)
  {
    GovernedTaxonomy(Mastra, e);
    GuessIsRight(e.eventType);
    MastraRows(e.eventType, GuessOf(e.eventType), t);
  }

  lemma MastraPolicy(e: Event, freshId: string, metadata: Value)
    ensures AsksPolicy(Mastra, e, freshId, metadata) <==>
            || e.eventType == "tool.call.started"
            || e.eventType == "llm.call.started"
            || (e.eventType !in MASTRA_TYPES && LooksGated(e.eventType))
  {
    MastraTypes(e, TaxonomyOf(Adapt(Mastra, e)));
    GateReadsTaxonomy(Adapt(Mastra, e), freshId, metadata);
    GuessIsGated(e.eventType);
  }

  const LANGGRAPH_TYPES := [
    "on_tool_start", "on_tool_end", "on_chat_model_start", "on_llm_start", "on_chat_model_end", "on_llm_end",
    "on_chain_start", "on_chain_end", "on_chain_error", "on_tool_error", "on_llm_error"]

  lemma LangGraphTypes(e: Event, t: Taxonomy)
    requires t == TaxonomyOf(Adapt(LangGraph, e))
    ensures e.eventType == "on_tool_start" ==> IsListedAs(t, "tool.call.requested", ToolCall, Before)
    ensures e.eventType == "on_tool_end" ==> IsListedAs(t, "tool.call.completed", ToolCall, After)
    ensures e.eventType == "on_chat_model_start" ==> IsListedAs(t, "llm.call.started", LlmCall, Before)
    ensures e.eventType == "on_llm_start" ==> IsListedAs(t, "llm.call.started", LlmCall, Before)
    ensures e.eventType == "on_chat_model_end" ==> IsListedAs(t, "llm.call.completed", LlmCall, After)
    ensures e.eventType == "on_llm_end" ==> IsListedAs(t, "llm.call.completed", LlmCall, After)
    ensures e.eventType == "on_chain_start" ==> IsListedAs(t, "step.started", Unknown, State)
    ensures e.eventType == "on_chain_end" ==> IsListedAs(t, "step.completed", Unknown, After)
    ensures e.eventType == "on_chain_error" ==> IsListedAs(t, "step.failed", ErrorRecovery, After)
    ensures e.eventType == "on_tool_error" ==> IsListedAs(t, "step.failed", ErrorRecovery, After)
    ensures e.eventType == "on_llm_error" ==> IsListedAs(t, "step.failed", ErrorRecovery, After)
    ensures e.eventType !in LANGGRAPH_TYPES ==> t == TaxonomyOf(e)
  {
  }

  lemma LangGraphPolicy(e: Event, freshId: string, metadata: Value)
    ensures AsksPolicy(LangGraph, e, freshId, metadata) <==>
            || e.eventType == "on_tool_start"
            || e.eventType == "on_chat_model_start"
            || e.eventType == "on_llm_start"
            || (e.eventType !in LANGGRAPH_TYPES && ClientAsks(e))
  {
    LangGraphTypes(e, TaxonomyOf(Adapt(LangGraph, e)));
    GateReadsTaxonomy(Adapt(LangGraph, e), freshId, metadata);
  }

  lemma UnknownSourcePolicy(e: Event, freshId: string, metadata: Value)
    ensures TaxonomyOf(Adapt(UnknownSource, e)) == GuessOf(e.eventType)
    ensures AsksPolicy(UnknownSource, e, freshId, metadata) <==> LooksGated(e.eventType)
  {
    GovernedTaxonomy(UnknownSource, e);
    GuessIsRight(e.eventType);
    GuessIsGated(e.eventType);
    GateReadsTaxonomy(Adapt(UnknownSource, e), freshId, metadata);
  }

  lemma AlephantPolicy(e: Event, freshId: string, metadata: Value)
    ensures TaxonomyOf(Adapt(Alephant, e)) == TaxonomyOf(e)
    ensures AsksPolicy(Alephant, e, freshId, metadata) <==> ClientAsks(e)
  {
  }

  // ---------- whose event it is ----------

  ghost function RawText(raw: map<string, Value>, key: string): Option<string> {
    if key in raw && raw[key].Str? then Some(raw[key].text) else None
  }

  /** The client's value, or else the raw field of the framework. */
  ghost function ClientOrRaw(given: Option<string>, e: Event, key: string): Option<string> {
    if given.Some? then given else RawText(e.raw, key)
  }

  /** The identity an envelope carries: who acted, in which run, at which step, below which step, on which node. */
  datatype Identity = Identity(
    agent: Option<string>, run: Option<string>, step: Option<string>, parent: Option<string>, node: Option<string>)

  ghost function IdentityOf(v: Envelope): Identity {
    Identity(v.agentId, v.runId, v.stepId, v.parentStepId, v.graphNode)
  }

  ghost function IdentityIn(source: Source, e: Event): Identity {
    match source
    case OpenAiAgents =>
      var step := ClientOrRaw(e.stepId, e, "span_id");
      Identity(e.agentId, ClientOrRaw(e.runId, e, "trace_id"), ClientOrRaw(step, e, "item_id"),
               ClientOrRaw(e.parentStepId, e, "parent_id"), e.graphNode)
    case N8n =>
      Identity(ClientOrRaw(e.agentId, e, "workflowId"), ClientOrRaw(e.runId, e, "executionId"),
               ClientOrRaw(e.stepId, e, "nodeId"), e.parentStepId, ClientOrRaw(e.graphNode, e, "nodeName"))
    case CrewAi =>
      Identity(e.agentId, ClientOrRaw(e.runId, e, "crew_id"), ClientOrRaw(e.stepId, e, "task_id"),
               e.parentStepId, e.graphNode)
    case Mastra =>
      Identity(e.agentId, ClientOrRaw(e.runId, e, "traceId"), ClientOrRaw(e.stepId, e, "spanId"),
               e.parentStepId, e.graphNode)
    case LangGraph =>
      var noted := AsStr(Get(e.metadata, "langgraph_node"));
      Identity(e.agentId, e.runId, e.stepId, e.parentStepId,
               if e.graphNode.Some? then e.graphNode else if noted.Some? then noted else e.name)
    case _ => Identity(e.agentId, e.runId, e.stepId, e.parentStepId, e.graphNode)
  }

  /** Two events that differ at most in taxonomy, trust, source and metadata. */
  ghost predicate SameOtherwise(a: Event, b: Event) {
    && a.eventId == b.eventId && a.name == b.name && a.agentId == b.agentId && a.runId == b.runId
    && a.stepId == b.stepId && a.parentStepId == b.parentStepId && a.toolCallId == b.toolCallId
    && a.graphNode == b.graphNode && a.attempt == b.attempt && a.inputHash == b.inputHash && a.raw == b.raw
  }

  lemma HeuristicKeeps(e: Event)
    ensures SameOtherwise(HeuristicPhase(e), e)
    ensures var h := HeuristicPhase(e);
            h.metadata == e.metadata && h.trust == e.trust && h.source == e.source
  {
  }

  lemma GuessedKeeps(e: Event)
    ensures SameOtherwise(Guessed(e), e)
    ensures Guessed(e).metadata == e.metadata && Guessed(e).trust == e.trust && Guessed(e).source == e.source
  {
    var g := MapUnknown(e.eventType);
    if g.Some? {
      HeuristicKeeps(e.(eventType := TypeText(g.value.standard), stepKind := Some(g.value.kind),
                        stepSource := Heuristic, confidence := Medium));
    }
  }

  lemma AdaptMappedKeepsRest(source: Source, e: Event, m: Option<Mapping>)
    ensures SameOtherwise(AdaptMapped(source, e, m), e)
    ensures AdaptMapped(source, e, m).source == e.source
    ensures AdaptMapped(source, e, m).trust == if source == UnknownSource && m.None? then SelfReported else e.trust
  {
    GuessedKeeps(if source == UnknownSource then e.(trust := SelfReported) else e);
  }

  lemma AdaptKeepsRest(source: Source, e: Event)
    requires source != Alephant && source != LangGraph
    ensures SameOtherwise(Adapt(source, e), Filled(source, e.(source := Some(source))))
    ensures Adapt(source, e).source == Some(source)
    ensures Adapt(source, e).trust == if source == UnknownSource then SelfReported else e.trust
  {
    var x := e.(source := Some(source));
    AdaptMappedKeepsRest(source, Filled(source, x), MappingOf(source, e.eventType, RawString(e, "nodeType")));
  }

  lemma FilledIdentity(source: Source, e: Event)
    requires source != LangGraph
    ensures var f := Filled(source, e.(source := Some(source)));
            && Identity(f.agentId, f.runId, f.stepId, f.parentStepId, f.graphNode) == IdentityIn(source, e)
            && f.eventId == e.eventId && f.name == e.name && f.toolCallId == e.toolCallId
            && f.attempt == e.attempt && f.inputHash == e.inputHash
  {
  }

  /** The envelope keeps the client's values, filled from the framework's own raw fields where they are open. */
  lemma EnvelopeIdentity(source: Source, e: Event, freshId: string, metadata: Value)
    ensures var v := NormalizeEvent(Adapt(source, e), freshId, metadata);
            && IdentityOf(v) == IdentityIn(source, e)
            && v.eventId == (if e.eventId.Some? then e.eventId.value else freshId)
            && v.source == source && v.metadata == metadata
            && v.name == e.name && v.toolCallId == e.toolCallId && v.attempt == e.attempt && v.inputHash == e.inputHash
            && v.trust == (if source == UnknownSource then SelfReported else e.trust)
  {
    if source != Alephant && source != LangGraph {
      AdaptKeepsRest(source, e);
      FilledIdentity(source, e);
    }
  }

  // ---------- what the adapter notes ----------

  /** What a framework's own adapter notes under a key. */
  ghost function FrameworkNote(source: Source, rawType: string, name: Option<string>, raw: map<string, Value>,
                               k: string): Option<string> {
    match source
    case OpenAiAgents =>
      if k == "tool_name" && rawType in ["tool_called", "tool_output", "tool_approval_requested"] then name else None
    case N8n => if k == "node_type" then RawText(raw, "nodeType") else None
    case CrewAi => if k == "tool_name" then RawText(raw, "tool_name") else None
    case Mastra => if k == "tool_name" then RawText(raw, "toolName") else None
    case _ => None
  }

  /** What every adapter but the native one notes under a key. */
  ghost function CommonNote(source: Source, rawType: string, name: Option<string>, k: string): Option<string> {
    if source == Alephant then None
    else if k == "framework" then Some(SourceText(source))
    else if k == "rawEventType" then Some(rawType)
    else if k == "rawName" then name
    else None
  }

  ghost function EntryAt(m: map<string, Value>, k: string): Option<Value> {
    if k in m then Some(m[k]) else None
  }

  ghost function OrNote(entry: Option<Value>, note: Option<string>): Option<Value> {
    if entry.None? && note.Some? then Some(Str(note.value)) else entry
  }

  ghost function OrListedRaw(entry: Option<Value>, raw: map<string, Value>, k: string): Option<Value> {
    if entry.None? && k in ALLOWLIST then EntryAt(raw, k) else entry
  }

  ghost function NotedEntry(source: Source, e: Event, metadata: Value, k: string): Option<Value> {
    OrListedRaw(OrNote(EntryAt(Fields(metadata), k), CommonNote(source, e.eventType, e.name, k)), e.raw, k)
  }

  lemma FinishEntry(e: Event, source: Source, raw: Event, k: string)
    requires source != Alephant && raw.name == e.name && raw.raw == e.raw
    ensures EntryAt(Fields(Finish(e, source, raw.eventType).metadata), k) == NotedEntry(source, raw, e.metadata, k)
  {
    CopyKeysExactly(Fields(Enrich(e.metadata, source, raw.eventType, e.name)), e.raw, ALLOWLIST, k);
  }

  lemma ListedEntry(source: Source, e: Event, m: Mapping, k: string)
    requires source != Alephant
    ensures EntryAt(Fields(AdaptMapped(source, e, Some(m)).metadata), k) == NotedEntry(source, e, e.metadata, k)
  {
    FinishEntry(SetMapping(e, m), source, e, k);
  }

  lemma GuessedEntry(source: Source, e: Event, k: string)
    requires source != Alephant
    ensures EntryAt(Fields(AdaptMapped(source, e, None).metadata), k) == NotedEntry(source, e, e.metadata, k)
  {
    var trusted := if source == UnknownSource then e.(trust := SelfReported) else e;
    GuessedKeeps(trusted);
    FinishEntry(Guessed(trusted), source, e, k);
  }

  lemma FilledEntry(source: Source, e: Event, k: string)
    ensures EntryAt(Fields(Filled(source, e).metadata), k)
         == OrNote(EntryAt(Fields(e.metadata), k), FrameworkNote(source, e.eventType, e.name, e.raw, k))
  {
  }

  lemma LangGraphEntry(e: Event, k: string)
    ensures EntryAt(Fields(AdaptLangGraph(e).metadata), k) == NotedEntry(LangGraph, e, e.metadata, k)
  {
    var mapping := MapLangGraph(e.eventType);
    var mapped := if mapping.Some? then SetMapping(e, mapping.value) else e;
    var node := OrElse(e.graphNode, OrElse(MetadataString(e.metadata, "langgraph_node"), e.name));
    FinishEntry(mapped.(graphNode := node), LangGraph, e, k);
  }

  lemma GovernedEntry(source: Source, e: Event, m: Option<Mapping>, k: string)
    requires source != Alephant
    ensures EntryAt(Fields(AdaptMapped(source, Filled(source, e), m).metadata), k)
         == OrListedRaw(OrNote(OrNote(EntryAt(Fields(e.metadata), k),
                                      FrameworkNote(source, e.eventType, e.name, e.raw, k)),
                               CommonNote(source, e.eventType, e.name, k)), e.raw, k)
  {
    FilledEntry(source, e, k);
    if m.Some? {
      ListedEntry(source, Filled(source, e), m.value, k);
    } else {
      GuessedEntry(source, Filled(source, e), k);
    }
  }

  /**
   Each entry of the adapted metadata: the client's own, or else what the framework's adapter
   notes, or else what all adapters note, or else the raw field of that name if it is listed.
   */
  lemma AdaptedEntry(source: Source, e: Event, k: string)
    ensures EntryAt(Fields(Adapt(source, e).metadata), k)
         == OrListedRaw(OrNote(OrNote(EntryAt(Fields(e.metadata), k),
                                      FrameworkNote(source, e.eventType, e.name, e.raw, k)),
                               CommonNote(source, e.eventType, e.name, k)), e.raw, k)
  {
    var x := e.(source := Some(source));
    match source
    case Alephant => CopyKeysExactly(Fields(e.metadata), e.raw, ALLOWLIST, k);
    case LangGraph => LangGraphEntry(x, k);
    case _ => GovernedEntry(source, x, MappingOf(source, e.eventType, RawString(e, "nodeType")), k);
  }
}
