/**
 Which events reach the policy check (agent/service.rs), after adaptation and normalization.
 */
module PolicyGate {
  import opened Wrappers
  import opened Json
  import opened EventTokens
  import opened StepState
  import opened Adapter

  // ---------- normalization and the gate ----------

  datatype Envelope = Envelope(
    eventId: string,
    eventType: string,
    source: Source,
    phase: Phase,
    stage: Stage,
    trust: Trust,
    name: Option<string>,
    agentId: Option<string>,
    runId: Option<string>,
    stepId: Option<string>,
    parentStepId: Option<string>,
    toolCallId: Option<string>,
    graphNode: Option<string>,
    stepKind: Option<StepKind>,
    stepSource: StepSource,
    confidence: Confidence,
    attempt: Option<u32>,
    inputHash: Option<string>,
    metadata: Value,
    contextConflict: bool,
    stepIdConflict: bool)

  /** The envelope of an event; the generated id and the redacted metadata are given. */
  function NormalizeEvent(e: Event, freshId: string, metadata: Value): Envelope {
    Envelope(
      e.eventId.GetOr(freshId),
      e.eventType,
      e.source.GetOr(UnknownSource),
      e.phase,
      e.stage,
      e.trust,
      e.name, e.agentId, e.runId, e.stepId, e.parentStepId, e.toolCallId, e.graphNode,
      e.stepKind,
      if e.stepSource == UnknownStepSource then Heuristic else e.stepSource,
      if e.confidence == UnknownConfidence then Low else e.confidence,
      e.attempt, e.inputHash, metadata, false, false)
  }

  predicate ShouldValidatePolicy(v: Envelope) {
    v.phase == Before && v.stage == PreAction && (v.confidence == Medium || v.confidence == High)
  }

  const GATED_TYPES := ["tool.call.requested", "llm.call.started", "handoff.requested", "approval.requested"]

  // ---------- what a client cannot influence ----------

  /** Everything the gate and the audit trail take from adaptation. */
  datatype Taxonomy = Taxonomy(
    eventType: string, kind: Option<StepKind>, phase: Phase, stage: Stage, source: StepSource, confidence: Confidence)

  function TaxonomyOf(e: Event): Taxonomy {
    Taxonomy(e.eventType, e.stepKind, e.phase, e.stage, e.stepSource, e.confidence)
  }

  predicate Governed(source: Source) {
    source == OpenAiAgents || source == N8n || source == CrewAi || source == Mastra || source == UnknownSource
  }

  predicate GateStandard(s: Standard) {
    s == ToolCallRequested || s == LlmCallStarted || s == HandoffRequested || s == ApprovalRequested
  }

  lemma GatedTypeTexts(s: Standard)
    ensures TypeText(s) in GATED_TYPES <==> GateStandard(s)
    ensures "unknown" !in GATED_TYPES
  {
  }

  lemma CompletedTexts()
    ensures EndsWith("tool.call.completed", ".completed")
    ensures EndsWith("llm.call.completed", ".completed")
    ensures EndsWith("step.completed", ".completed")
  {
    assert "tool.call.completed"[9..] == ".completed";
    assert "llm.call.completed"[8..] == ".completed";
    assert "step.completed"[4..] == ".completed";
  }

  /** The phase that belongs to a guessed type, whatever the event came with. */
  lemma GuessSetsPhase(e: Event, s: Standard)
    requires s in {ToolCallRequested, ToolCallCompleted, LlmCallStarted, LlmCallCompleted, ApprovalRequested,
                   CheckpointCreated, StepCompleted}
    requires e.eventType == TypeText(s)
    ensures HeuristicPhase(e) == e.(
      phase := if GateStandard(s) then Before else if s == CheckpointCreated then State else After,
      stage := if GateStandard(s) then PreAction else AuditOnly)
  {
    CompletedTexts();
  }

  lemma GuessedKinds(eventType: string)
    ensures var g := MapUnknown(eventType);
            g.Some? ==> g.value.standard in {ToolCallRequested, ToolCallCompleted, LlmCallStarted, LlmCallCompleted,
                                             ApprovalRequested, CheckpointCreated, StepCompleted}
  {
  }

  function TaxonomyOfGuess(g: Option<Guess>): Taxonomy {
    if g.None? then Taxonomy("unknown", Some(Unknown), UnknownPhase, AuditOnly, Heuristic, Low)
    else
      var s := g.value.standard;
      Taxonomy(TypeText(s), Some(g.value.kind),
               if GateStandard(s) then Before else if s == CheckpointCreated then State else After,
               if GateStandard(s) then PreAction else AuditOnly,
               Heuristic, Medium)
  }

  /** The taxonomy of a guess, from the raw type alone. */
  function GuessTaxonomy(rawType: string): Taxonomy {
    TaxonomyOfGuess(MapUnknown(rawType))
  }

  lemma GuessedTaxonomy(e: Event)
    ensures TaxonomyOf(Guessed(e)) == GuessTaxonomy(e.eventType)
  {
    GuessedKinds(e.eventType);
    var g := MapUnknown(e.eventType);
    if g.Some? {
      GuessSetsPhase(e.(eventType := TypeText(g.value.standard), stepKind := Some(g.value.kind),
                        stepSource := Heuristic, confidence := Medium), g.value.standard);
    }
  }

  function ListedOr(m: Option<Mapping>, guess: Taxonomy): Taxonomy {
    if m.None? then guess
    else Taxonomy(TypeText(m.value.standard), Some(m.value.kind), m.value.phase, m.value.stage, Runtime, High)
  }

  function MappedTaxonomy(rawType: string, m: Option<Mapping>): Taxonomy {
    ListedOr(m, GuessTaxonomy(rawType))
  }

  lemma AdaptMappedTaxonomy(source: Source, e: Event, m: Option<Mapping>)
    ensures TaxonomyOf(AdaptMapped(source, e, m)) == MappedTaxonomy(e.eventType, m)
  {
    var trusted := if source == UnknownSource then e.(trust := SelfReported) else e;
    GuessedTaxonomy(trusted);
  }

  lemma GovernedTaxonomy(source: Source, e: Event)
    requires Governed(source)
    ensures TaxonomyOf(Adapt(source, e))
        == MappedTaxonomy(e.eventType, MappingOf(source, e.eventType, RawString(e, "nodeType")))
  {
    var x := e.(source := Some(source));
    AdaptMappedTaxonomy(source, Filled(source, x), MappingOf(source, e.eventType, RawString(e, "nodeType")));
  }

  /**
   For the governed sources, two events with the same raw type (and for n8n the same node
   type) get the same taxonomy, whatever phase, stage, kind, source or confidence they claim.
   */
  lemma TaxonomyIndependentOfClient(source: Source, e: Event, e': Event)
    requires Governed(source)
    requires e.eventType == e'.eventType
    requires source == N8n ==> RawString(e, "nodeType") == RawString(e', "nodeType")
    ensures TaxonomyOf(Adapt(source, e)) == TaxonomyOf(Adapt(source, e'))
  {
    GovernedTaxonomy(source, e);
    GovernedTaxonomy(source, e');
  }

  // ---------- the gate is exactly four types ----------

  predicate GatedProperly(m: Mapping) {
    m.phase == Before && m.stage == PreAction <==> GateStandard(m.standard)
  }

  lemma OpenAiAgentsGate(rawType: string)
    ensures var m := MapOpenAiAgents(rawType); m.Some? ==> GatedProperly(m.value)
  {
  }

  lemma N8nGate(rawType: string, nodeType: Option<string>)
    ensures var m := MapN8n(rawType, nodeType); m.Some? ==> GatedProperly(m.value)
  {
  }

  lemma CrewAiGate(rawType: string)
    ensures var m := MapCrewAi(rawType); m.Some? ==> GatedProperly(m.value)
  {
  }

  lemma MastraGate(rawType: string)
    ensures var m := MapMastra(rawType); m.Some? ==> GatedProperly(m.value)
  {
  }

  lemma LangGraphGate(rawType: string)
    ensures var m := MapLangGraph(rawType); m.Some? ==> GatedProperly(m.value)
  {
  }

  lemma TablesGateProperly(source: Source, rawType: string, nodeType: Option<string>)
    ensures var m := MappingOf(source, rawType, nodeType); m.Some? ==> GatedProperly(m.value)
  {
    match source
    case OpenAiAgents => OpenAiAgentsGate(rawType);
    case N8n => N8nGate(rawType, nodeType);
    case CrewAi => CrewAiGate(rawType);
    case Mastra => MastraGate(rawType);
    case _ =>
  }

  predicate GatedTaxonomy(t: Taxonomy) {
    t.phase == Before && t.stage == PreAction && (t.confidence == Medium || t.confidence == High)
  }

  lemma MappedGate(rawType: string, m: Option<Mapping>)
    requires m.Some? ==> GatedProperly(m.value)
    ensures GatedTaxonomy(MappedTaxonomy(rawType, m)) <==> MappedTaxonomy(rawType, m).eventType in GATED_TYPES
  {
    if m.Some? {
      GatedTypeTexts(m.value.standard);
    } else {
      GuessedKinds(rawType);
      var g := MapUnknown(rawType);
      if g.Some? {
        GatedTypeTexts(g.value.standard);
      } else {
        GatedTypeTexts(StepStarted);
      }
    }
  }

  lemma GateReadsTaxonomy(e: Event, freshId: string, metadata: Value)
    ensures ShouldValidatePolicy(NormalizeEvent(e, freshId, metadata)) <==> GatedTaxonomy(TaxonomyOf(e))
  {
  }

  /** After adaptation and normalization, policy is checked exactly for the four gated types. */
  lemma PolicyCheckedExactlyForGatedTypes(source: Source, e: Event, freshId: string, metadata: Value)
    requires Governed(source)
    ensures ShouldValidatePolicy(NormalizeEvent(Adapt(source, e), freshId, metadata))
       <==> Adapt(source, e).eventType in GATED_TYPES
  {
    var nodeType := RawString(e, "nodeType");
    var m := MappingOf(source, e.eventType, nodeType);
    TablesGateProperly(source, e.eventType, nodeType);
    MappedGate(e.eventType, m);
    GovernedTaxonomy(source, e);
    GateReadsTaxonomy(Adapt(source, e), freshId, metadata);
  }

  /** LangGraph events of a known type are gated the same way. */
  lemma LangGraphKnownTypes(e: Event, freshId: string, metadata: Value)
    requires MapLangGraph(e.eventType).Some?
    ensures var m := MapLangGraph(e.eventType).value;
            TaxonomyOf(Adapt(LangGraph, e))
              == Taxonomy(TypeText(m.standard), Some(m.kind), m.phase, m.stage, Runtime, High)
    ensures ShouldValidatePolicy(NormalizeEvent(Adapt(LangGraph, e), freshId, metadata))
       <==> Adapt(LangGraph, e).eventType in GATED_TYPES
  {
    LangGraphGate(e.eventType);
    GatedTypeTexts(MapLangGraph(e.eventType).value.standard);
  }

  /** Events of other types, and native events, pass the gate or not as the client says. */
  lemma ClientDecidesElsewhere(source: Source, e: Event, freshId: string, metadata: Value)
    requires source == Alephant || (source == LangGraph && MapLangGraph(e.eventType).None?)
    ensures TaxonomyOf(Adapt(source, e)) == TaxonomyOf(e)
    ensures ShouldValidatePolicy(NormalizeEvent(Adapt(source, e), freshId, metadata))
       <==> e.phase == Before && e.stage == PreAction && (e.confidence == Medium || e.confidence == High)
  {
  }

  lemma CompletedGuess(compact: string, completed: bool)
    ensures var g := GuessType(compact, completed);
            g.Some? && g.value.standard in {ToolCallCompleted, LlmCallCompleted, StepCompleted} ==> completed
  {
  }

  /** A type in which a completion word directly follows "not" is never taken for a completed event. */
  lemma NegatedTypesAreNotCompleted(eventType: string)
    ensures NotFollowedByCompletion(Tokens(Text.AsciiLower(eventType))) ==> MapUnknown(eventType).None?
    ensures var g := MapUnknown(eventType);
            g.Some? && g.value.standard in {ToolCallCompleted, LlmCallCompleted, StepCompleted} ==>
              EndsInCompletion(Text.AsciiLower(eventType))
  {
    var s := Text.AsciiLower(eventType);
    if !IsAmbiguousIncomplete(s) {
      CompletionIsPlainSuffix(s);
      CompletedGuess(s, IsGenericCompletion(s));
    }
  }

  // ---------- adaptation keeps the client's metadata ----------

  lemma FinishKeeps(e: Event, source: Source, rawType: string, k: string)
    requires k in Fields(e.metadata)
    ensures k in Fields(Finish(e, source, rawType).metadata)
    ensures Fields(Finish(e, source, rawType).metadata)[k] == Fields(e.metadata)[k]
  {
    var enriched := Enrich(e.metadata, source, rawType, e.name);
    assert k in enriched.fields && enriched.fields[k] == Fields(e.metadata)[k];
    CopyKeysExactly(Fields(enriched), e.raw, ALLOWLIST, k);
  }

  /** No adapter overwrites or drops an entry of the metadata that the client sent. */
  lemma AdaptKeepsMetadata(source: Source, e: Event, k: string)
    requires k in Fields(e.metadata)
    ensures k in Fields(Adapt(source, e).metadata)
    ensures Fields(Adapt(source, e).metadata)[k] == Fields(e.metadata)[k]
  {
    var x := e.(source := Some(source));
    match source
    case Alephant => CopyKeysExactly(Fields(e.metadata), e.raw, ALLOWLIST, k);
    case LangGraph =>
      var mapping := MapLangGraph(e.eventType);
      var mapped := if mapping.Some? then SetMapping(x, mapping.value) else x;
      var node := OrElse(e.graphNode, OrElse(MetadataString(e.metadata, "langgraph_node"), e.name));
      FinishKeeps(mapped.(graphNode := node), LangGraph, e.eventType, k);
    case _ =>
      var filled := Filled(source, x);
      assert k in Fields(filled.metadata) && Fields(filled.metadata)[k] == Fields(e.metadata)[k];
      AdaptMappedKeeps(source, filled, MappingOf(source, e.eventType, RawString(e, "nodeType")), k);
  }

  /** Adapted metadata is always an object. */
  lemma AdaptedIsObject(source: Source, e: Event)
    ensures Adapt(source, e).metadata.Obj?
  {
  }

  lemma AdaptMappedKeeps(source: Source, e: Event, m: Option<Mapping>, k: string)
    requires k in Fields(e.metadata)
    ensures k in Fields(AdaptMapped(source, e, m).metadata)
    ensures Fields(AdaptMapped(source, e, m).metadata)[k] == Fields(e.metadata)[k]
  {
    if m.Some? {
      FinishKeeps(SetMapping(e, m.value), source, e.eventType, k);
    } else {
      var trusted := if source == UnknownSource then e.(trust := SelfReported) else e;
      FinishKeeps(Guessed(trusted), source, e.eventType, k);
    }
  }
}
