/**
 What a Responses API event says, apart from how it is written and at which level: the
 observer reports exactly what a provider put in (agent/tool_observer.rs).
 */
module ResponsesWire {
  import opened Wrappers
  import opened Json
  import opened JsonWire
  import opened ResponsesStream

  // ---------- what is said ----------

  /** The members that an event and the item in it may both have. */
  datatype Level = Level(
    id: Option<string>, callId: Option<string>, name: Option<string>, status: Option<string>,
    arguments: Option<string>, server: Option<string>, outputIndex: Option<u32>,
    output: Option<Value>, error: Option<Value>)

  datatype WireItem = WireItem(kind: Option<string>, level: Level)

  /** An event: response id and sequence number in two places each, its own members, and perhaps an item. */
  datatype WireEvent = WireEvent(
    kind: Option<string>, responseId: Option<string>, nestedId: Option<string>,
    number: Option<u32>, sequence: Option<u32>, itemId: Option<string>, text: Option<string>,
    details: Option<Value>, own: Level, item: Option<WireItem>)

  function Either<T>(first: Option<T>, second: Option<T>): Option<T> {
    if first.Some? then first else second
  }

  function ResponseIn(e: WireEvent): Option<string> {
    Either(e.responseId, e.nestedId)
  }

  function SequenceIn(e: WireEvent): u32 {
    if e.number.Some? then e.number.value else if e.sequence.Some? then e.sequence.value else 0
  }

  /** The item of the event, or else the event itself. */
  function Inner(e: WireEvent): Level {
    if e.item.Some? then e.item.value.level else e.own
  }

  function ItemIdIn(e: WireEvent, inner: Level): Option<string> {
    Either(inner.id, e.itemId)
  }

  // ---------- the report it should make ----------

  function CallReport(lib: Library, request: string, e: WireEvent, inner: Level, name: string,
                      status: Option<string>): Item
  {
    var response, id, call := ResponseIn(e), ItemIdIn(e, inner), Either(inner.callId, e.own.callId);
    var output, arguments := Either(e.own.outputIndex, inner.outputIndex), Either(e.own.arguments, inner.arguments);
    var key := FunctionCallKey(request, response, SequenceIn(e), id, call);
    Item(FunctionCall, "tool.call.observed", response, SequenceIn(e), output, id, call, Some(name), status, key,
         FunctionCallMetadata(lib, response, id, call, output, status, arguments, key))
  }

  /** An item that is done: its own name and status come first, and without a name there is no report. */
  function DoneCall(lib: Library, request: string, e: WireEvent, inner: Level): Option<Item> {
    var name := Either(inner.name, e.own.name);
    if name.None? then None
    else Some(CallReport(lib, request, e, inner, name.value, Either(inner.status, e.own.status)))
  }

  /** Arguments that are done: the event's name comes first, and a placeholder stands for a missing one. */
  function ArgumentsCall(lib: Library, request: string, e: WireEvent): Item {
    var name := Either(e.own.name, Inner(e).name);
    CallReport(lib, request, e, Inner(e), if name.Some? then name.value else "function_call", Some("arguments_done"))
  }

  /** An MCP call: the item id stands for a missing call id, the server for a missing name. */
  function HostedCall(lib: Library, request: string, e: WireEvent, inner: Level, eventType: string, kind: Kind,
                      status: Option<string>): Item
  {
    var response, id, server := ResponseIn(e), ItemIdIn(e, inner), Either(inner.server, e.own.server);
    var given := Either(inner.callId, e.own.callId);
    var call := if given.None? && id.Some? then Some("openai_item:" + id.value) else given;
    var name := Either(Either(inner.name, e.own.name), server);
    var output, result := Either(e.own.outputIndex, inner.outputIndex), Either(inner.output, e.own.output);
    var failed := inner.error.Some? || e.own.error.Some? || status == Some("failed");
    var key := EventKey(request, eventType, response, SequenceIn(e), id, call, name);
    Item(kind, eventType, response, SequenceIn(e), output, id, call, name, status, key,
         McpMetadata(lib, response, id, call, output, status, server, result, failed, key))
  }

  function ReasoningText(request: string, e: WireEvent): Option<Item> {
    var response, id := ResponseIn(e), Either(e.itemId, e.own.id);
    var key := EventKey(request, "llm.reasoning.observed", response, SequenceIn(e), id, None, None);
    if e.text.None? then None
    else
      Some(Item(Reasoning, "llm.reasoning.observed", response, SequenceIn(e), e.own.outputIndex, id, None,
                Some("Reasoning text observed"), e.own.status, key,
                ReasoningMetadata(response, id, e.own.outputIndex, e.text.value, key)))
  }

  function ResponseDone(request: string, e: WireEvent): Item {
    var response, status := ResponseIn(e), Either(e.own.status, Some("completed"));
    var key := EventKey(request, "llm.response.completed.observed", response, SequenceIn(e), None, None, None);
    Item(ResponseCompleted, "llm.response.completed.observed", response, SequenceIn(e), None, None, None,
         Some("Response completed"), status, key, CompletedMetadata(response, status, key))
  }

  function ResponseError(request: string, e: WireEvent, eventKind: string, status: string): Item {
    var response := ResponseIn(e);
    var key := EventKey(request, "error.observed", response, SequenceIn(e), None, None, Some(eventKind));
    Item(Error, "error.observed", response, SequenceIn(e), None, None, None, Some(eventKind), Some(status), key,
         ErrorMetadata(response, status, e.own.error.Some?, e.details.Some?, key))
  }

  function DoneItem(lib: Library, request: string, e: WireEvent): Option<Item> {
    if e.item.None? then None
    else
      var inner := e.item.value.level;
      if e.item.value.kind == Some("function_call") then DoneCall(lib, request, e, inner)
      else if e.item.value.kind == Some("mcp_call") then
        Some(HostedCall(lib, request, e, inner, "tool.call.observed", McpCall, Either(inner.status, e.own.status)))
      else None
  }

  function ReportOfClass(lib: Library, request: string, e: WireEvent, kind: string, class_: EventClass): Option<Item> {
    match class_
    case OutputItemDone => DoneItem(lib, request, e)
    case CallArgumentsDone => Some(ArgumentsCall(lib, request, e))
    case McpCompleted => Some(HostedCall(lib, request, e, Inner(e), "tool.call.observed", McpCall, Some("completed")))
    case McpFailed => Some(HostedCall(lib, request, e, Inner(e), "error.observed", Error, Some("failed")))
    case ReasoningDone => ReasoningText(request, e)
    case Completed => Some(ResponseDone(request, e))
    case Failed =>
      Some(ResponseError(request, e, kind, if kind == "response.incomplete" then "incomplete" else "failed"))
    case NotObserved => None
  }

  /** The report of an event, class by class. */
  function ReportOf(lib: Library, request: string, e: WireEvent): Option<Item> {
    if e.kind.None? then None else ReportOfClass(lib, request, e, e.kind.value, Classify(e.kind.value))
  }

  /** Which kinds of events make up the classes; all others are not observed. */
  lemma EventClasses(kind: string)
    ensures Classify(kind) == OutputItemDone <==> kind == "response.output_item.done"
    ensures Classify(kind) == CallArgumentsDone <==> kind == "response.function_call_arguments.done"
    ensures Classify(kind) == McpCompleted <==> kind == "response.mcp_call.completed"
    ensures Classify(kind) == McpFailed <==> kind == "response.mcp_call.failed"
    ensures Classify(kind) == ReasoningDone <==>
            kind == "response.reasoning_summary_text.done" || kind == "response.reasoning_text.done"
    ensures Classify(kind) == Completed <==> kind == "response.completed"
    ensures Classify(kind) == Failed <==> kind == "response.failed" || kind == "response.incomplete"
  {
  }

  /**
   An event is reported exactly if its class is observed, where a done item must be an MCP call
   or a function call with a name, and reasoning must have a text.
   */
  lemma ReportedExactly(lib: Library, request: string, e: WireEvent)
    ensures ReportOf(lib, request, e).Some? <==>
            && e.kind.Some?
            && match Classify(e.kind.value) {
                 case OutputItemDone =>
                   && e.item.Some?
                   && (|| e.item.value.kind == Some("mcp_call")
                       || (&& e.item.value.kind == Some("function_call")
                           && (e.item.value.level.name.Some? || e.own.name.Some?)))
                 case ReasoningDone => e.text.Some?
                 case NotObserved => false
                 case _ => true
               }
  {
  }

  // ---------- how it is written ----------

  ghost predicate SaysLevel(v: Value, l: Level) {
    && SaysText(Get(v, "id"), l.id) && SaysText(Get(v, "call_id"), l.callId) && SaysText(Get(v, "name"), l.name)
    && SaysText(Get(v, "status"), l.status) && SaysText(Get(v, "arguments"), l.arguments)
    && SaysText(Get(v, "server_label"), l.server) && SaysNumber(Get(v, "output_index"), l.outputIndex)
    && Get(v, "output") == l.output && Get(v, "error") == l.error
  }

  ghost predicate SaysItem(v: Value, item: WireItem) {
    SaysText(Get(v, "type"), item.kind) && SaysLevel(v, item.level)
  }

  ghost predicate SaysHead(v: Value, e: WireEvent) {
    && SaysText(Get(v, "type"), e.kind)
    && SaysText(Get(v, "response_id"), e.responseId) && SaysText(GetIn(Get(v, "response"), "id"), e.nestedId)
    && SaysNumber(Get(v, "sequence_number"), e.number) && SaysNumber(Get(v, "sequence"), e.sequence)
    && SaysText(Get(v, "item_id"), e.itemId) && SaysText(Get(v, "text"), e.text)
    && Get(v, "incomplete_details") == e.details
  }

  ghost predicate SaysEvent(v: Value, e: WireEvent) {
    && SaysHead(v, e) && SaysLevel(v, e.own)
    && (if e.item.Some? then Get(v, "item").Some? && SaysItem(Get(v, "item").value, e.item.value)
        else Get(v, "item").None?)
  }

  // ---------- reading it back ----------

  /** What the readers find at one level. */
  ghost predicate ReadLevel(v: Value, l: Level) {
    && OptionalString(Get(v, "id")) == l.id && OptionalString(Get(v, "call_id")) == l.callId
    && OptionalString(Get(v, "name")) == l.name && OptionalString(Get(v, "status")) == l.status
    && OptionalString(Get(v, "arguments")) == l.arguments && OptionalString(Get(v, "server_label")) == l.server
    && OptionalU32(Get(v, "output_index")) == l.outputIndex
    && Get(v, "output") == l.output && Get(v, "error") == l.error
  }

  ghost predicate ReadHead(v: Value, e: WireEvent) {
    && OptionalString(Get(v, "type")) == e.kind
    && ResponseId(v) == ResponseIn(e) && Sequence(v) == SequenceIn(e)
    && OptionalString(Get(v, "item_id")) == e.itemId && OptionalString(Get(v, "text")) == e.text
    && Get(v, "incomplete_details") == e.details
  }

  ghost predicate ReadEvent(v: Value, e: WireEvent) {
    && ReadHead(v, e) && ReadLevel(v, e.own)
    && (if e.item.Some? then
          && Get(v, "item").Some? && ReadLevel(Get(v, "item").value, e.item.value.level)
          && OptionalString(Get(Get(v, "item").value, "type")) == e.item.value.kind
        else Get(v, "item").None?)
  }

  lemma ReadsLevel(v: Value, l: Level)
    requires SaysLevel(v, l)
    ensures ReadLevel(v, l)
  {
    assert OptionalString(Get(v, "id")) == l.id by { ReadsText(Get(v, "id"), l.id); }
    assert OptionalString(Get(v, "call_id")) == l.callId by { ReadsText(Get(v, "call_id"), l.callId); }
    assert OptionalString(Get(v, "name")) == l.name by { ReadsText(Get(v, "name"), l.name); }
    assert OptionalString(Get(v, "status")) == l.status by { ReadsText(Get(v, "status"), l.status); }
    assert OptionalString(Get(v, "arguments")) == l.arguments by { ReadsText(Get(v, "arguments"), l.arguments); }
    assert OptionalString(Get(v, "server_label")) == l.server by { ReadsText(Get(v, "server_label"), l.server); }
    assert OptionalU32(Get(v, "output_index")) == l.outputIndex by {
      ReadsNumber(Get(v, "output_index"), l.outputIndex);
    }
  }

  lemma ReadsHead(v: Value, e: WireEvent)
    requires SaysHead(v, e)
    ensures ReadHead(v, e)
  {
    assert OptionalString(Get(v, "type")) == e.kind by { ReadsText(Get(v, "type"), e.kind); }
    assert ResponseId(v) == ResponseIn(e) by {
      ReadsText(Get(v, "response_id"), e.responseId);
      ReadsText(GetIn(Get(v, "response"), "id"), e.nestedId);
    }
    assert Sequence(v) == SequenceIn(e) by {
      ReadsNumber(Get(v, "sequence_number"), e.number);
      ReadsNumber(Get(v, "sequence"), e.sequence);
    }
    assert OptionalString(Get(v, "item_id")) == e.itemId by { ReadsText(Get(v, "item_id"), e.itemId); }
    assert OptionalString(Get(v, "text")) == e.text by { ReadsText(Get(v, "text"), e.text); }
  }

  lemma ReadsEvent(v: Value, e: WireEvent)
    requires SaysEvent(v, e)
    ensures ReadEvent(v, e)
  {
    ReadsHead(v, e);
    ReadsLevel(v, e.own);
    if e.item.Some? {
      var item := Get(v, "item").value;
      ReadsLevel(item, e.item.value.level);
      ReadsText(Get(item, "type"), e.item.value.kind);
    }
  }

  lemma ReadsBoth(v: Value, item: Value, e: WireEvent, inner: Level)
    requires ReadHead(v, e) && ReadLevel(v, e.own) && ReadLevel(item, inner)
    ensures ItemText(item, "id", v, "item_id") == ItemIdIn(e, inner)
    ensures ItemText(item, "call_id", v, "call_id") == Either(inner.callId, e.own.callId)
    ensures ItemText(item, "name", v, "name") == Either(inner.name, e.own.name)
    ensures ItemText(item, "status", v, "status") == Either(inner.status, e.own.status)
    ensures ItemText(item, "server_label", v, "server_label") == Either(inner.server, e.own.server)
    ensures OutputIndex(v, item) == Either(e.own.outputIndex, inner.outputIndex)
    ensures OrElse(Get(item, "output"), Get(v, "output")) == Either(inner.output, e.own.output)
  {
  }

  lemma ReadsCall(lib: Library, request: string, v: Value, item: Value, e: WireEvent, inner: Level, name: string,
                  status: Option<string>)
    requires ReadHead(v, e) && ReadLevel(v, e.own) && ReadLevel(item, inner)
    ensures FunctionCallReport(lib, request, v, item, name, status) == CallReport(lib, request, e, inner, name, status)
  {
  }

  lemma ReadsDoneCall(lib: Library, request: string, v: Value, item: Value, e: WireEvent, inner: Level)
    requires ReadHead(v, e) && ReadLevel(v, e.own) && ReadLevel(item, inner)
    ensures ItemDone(lib, request, v, item) == DoneCall(lib, request, e, inner)
  {
    var name := Either(inner.name, e.own.name);
    if name.Some? {
      ReadsCall(lib, request, v, item, e, inner, name.value, Either(inner.status, e.own.status));
    }
  }

  lemma ReadsArguments(lib: Library, request: string, v: Value, e: WireEvent)
    requires ReadEvent(v, e)
    ensures ArgumentsDone(lib, request, v) == ArgumentsCall(lib, request, e)
  {
    var name := Either(e.own.name, Inner(e).name);
    ReadsCall(lib, request, v, Get(v, "item").GetOr(v), e, Inner(e),
              if name.Some? then name.value else "function_call", Some("arguments_done"));
  }

  lemma ReadsHosted(lib: Library, request: string, v: Value, item: Value, e: WireEvent, inner: Level,
                    eventType: string, kind: Kind, override: Option<string>)
    requires ReadHead(v, e) && ReadLevel(v, e.own) && ReadLevel(item, inner)
    ensures McpReport(lib, request, v, item, eventType, kind, override)
         == HostedCall(lib, request, e, inner, eventType, kind,
                       Either(override, Either(inner.status, e.own.status)))
  {
    ReadsBoth(v, item, e, inner);
  }

  lemma ReadsOutputItem(lib: Library, request: string, v: Value, e: WireEvent)
    requires ReadEvent(v, e)
    ensures OutputItemReport(lib, request, v) == DoneItem(lib, request, e)
  {
    if e.item.Some? {
      var item, inner := Get(v, "item").value, e.item.value.level;
      if e.item.value.kind == Some("function_call") {
        ReadsDoneCall(lib, request, v, item, e, inner);
      } else if e.item.value.kind == Some("mcp_call") {
        ReadsHosted(lib, request, v, item, e, inner, "tool.call.observed", McpCall, inner.status);
      }
    }
  }

  lemma ReadsReasoning(request: string, v: Value, e: WireEvent)
    requires ReadHead(v, e) && ReadLevel(v, e.own)
    ensures ReasoningReport(request, v) == ReasoningText(request, e)
  {
  }

  lemma ReadsError(request: string, v: Value, e: WireEvent, eventKind: string)
    requires ReadHead(v, e) && ReadLevel(v, e.own)
    ensures var status := if eventKind == "response.incomplete" then "incomplete" else "failed";
            ErrorReport(request, v, eventKind) == ResponseError(request, e, eventKind, status)
  {
  }

  lemma ReadsClass(lib: Library, request: string, v: Value, e: WireEvent, kind: string, class_: EventClass)
    requires ReadEvent(v, e)
    ensures ReportAs(lib, request, v, kind, class_) == ReportOfClass(lib, request, e, kind, class_)
  {
    var item := Get(v, "item").GetOr(v);
    match class_
    case OutputItemDone => ReadsOutputItem(lib, request, v, e);
    case CallArgumentsDone => ReadsArguments(lib, request, v, e);
    case McpCompleted =>
      ReadsHosted(lib, request, v, item, e, Inner(e), "tool.call.observed", McpCall, Some("completed"));
    case McpFailed => ReadsHosted(lib, request, v, item, e, Inner(e), "error.observed", Error, Some("failed"));
    case ReasoningDone => ReadsReasoning(request, v, e);
    case Completed =>
    case Failed => ReadsError(request, v, e, kind);
    case NotObserved =>
  }

  /** An event is reported exactly as it says, wherever its members stand and however they are written. */
  lemma EventIsReported(lib: Library, request: string, v: Value, e: WireEvent)
    requires SaysEvent(v, e)
    ensures Report(lib, request, v) == ReportOf(lib, request, e)
  {
    ReadsEvent(v, e);
    if e.kind.Some? {
      ReadsClass(lib, request, v, e, e.kind.value, Classify(e.kind.value));
    }
  }

  // ---------- what the metadata tells ----------

  lemma CallMetadataTells(lib: Library, response: Option<string>, id: Option<string>, call: Option<string>,
                          output: Option<u32>, status: Option<string>, arguments: Option<string>, key: string,
                          m: map<string, Value>)
    requires m == FunctionCallMetadata(lib, response, id, call, output, status, arguments, key)
    ensures FieldOf(m, "provider_response_id") == Some(OfString(response))
    ensures FieldOf(m, "provider_item_id") == Some(OfString(id))
    ensures FieldOf(m, "provider_call_id") == Some(OfString(call))
    ensures FieldOf(m, "output_index") == Some(OfU32(output)) && FieldOf(m, "status") == Some(OfString(status))
    ensures FieldOf(m, "tool_type") == Some(Str("function")) && FieldOf(m, "idempotency_key") == Some(Str(key))
    ensures arguments.Some? ==>
              && FieldOf(m, "arguments_summary") == Some(Str(lib.summarize(arguments.value)))
              && FieldOf(m, "arguments_hash") == Some(Str(lib.hash(arguments.value)))
              && FieldOf(m, "arguments_chars") == Some(Int(|arguments.value|))
    ensures arguments.None? ==> forall k :: k in ARGUMENT_FIELDS ==> FieldOf(m, k) == Some(Null)
  {
  }

  lemma McpMetadataTells(lib: Library, response: Option<string>, id: Option<string>, call: Option<string>,
                         output: Option<u32>, status: Option<string>, server: Option<string>, result: Option<Value>,
                         failed: bool, key: string, m: map<string, Value>)
    requires m == McpMetadata(lib, response, id, call, output, status, server, result, failed, key)
    ensures FieldOf(m, "provider_response_id") == Some(OfString(response))
    ensures FieldOf(m, "provider_item_id") == Some(OfString(id))
    ensures FieldOf(m, "provider_call_id") == Some(OfString(call))
    ensures FieldOf(m, "output_index") == Some(OfU32(output))
    ensures FieldOf(m, "provider_execution_status") == Some(OfString(status))
    ensures FieldOf(m, "server_label") == Some(OfString(server))
    ensures FieldOf(m, "has_output") == Some(Bool(result.Some?)) && FieldOf(m, "has_error") == Some(Bool(failed))
    ensures FieldOf(m, "output_chars") == Some(if result.Some? then Int(lib.charCount(result.value)) else Null)
    ensures FieldOf(m, "tool_type") == Some(Str("mcp")) && FieldOf(m, "idempotency_key") == Some(Str(key))
  {
  }

  lemma ResponseMetadataTells(response: Option<string>, id: Option<string>, output: Option<u32>, text: string,
                              status: string, hasError: bool, hasDetails: bool, key: string)
    ensures var m := ReasoningMetadata(response, id, output, text, key);
            && FieldOf(m, "provider_response_id") == Some(OfString(response))
            && FieldOf(m, "provider_item_id") == Some(OfString(id))
            && FieldOf(m, "output_index") == Some(OfU32(output))
            && FieldOf(m, "summary_chars") == Some(Int(if |text| < 1024 then |text| else 1024))
            && forall other: string :: |other| == |text| ==> ReasoningMetadata(response, id, output, other, key) == m
    ensures var m := CompletedMetadata(response, Some(status), key);
            && FieldOf(m, "provider_response_id") == Some(OfString(response))
            && FieldOf(m, "status") == Some(Str(status))
    ensures var m := ErrorMetadata(response, status, hasError, hasDetails, key);
            && FieldOf(m, "provider_response_id") == Some(OfString(response))
            && FieldOf(m, "provider_execution_status") == Some(Str(status))
            && FieldOf(m, "has_error") == Some(Bool(hasError))
            && FieldOf(m, "has_incomplete_details") == Some(Bool(hasDetails))
  {
  }

  // ---------- a printer ----------

  const LEVEL_KEYS := [
    "id", "call_id", "name", "status", "arguments", "server_label", "output_index", "output", "error"]

  function LevelMember(l: Level, k: string): Option<Value> {
    match k
    case "id" => TextMember(l.id)
    case "call_id" => TextMember(l.callId)
    case "name" => TextMember(l.name)
    case "status" => TextMember(l.status)
    case "arguments" => TextMember(l.arguments)
    case "server_label" => TextMember(l.server)
    case "output_index" => NumberMember(l.outputIndex)
    case "output" => l.output
    case "error" => l.error
    case _ => None
  }

  function LevelFields(l: Level): map<string, Value> {
    Members(LEVEL_KEYS, k => LevelMember(l, k))
  }

  const HEAD_KEYS := [
    "item", "type", "response_id", "response", "sequence_number", "sequence", "item_id", "text", "incomplete_details"]

  function HeadMember(e: WireEvent, k: string): Option<Value> {
    match k
    case "item" => if e.item.Some? then Some(PrintItem(e.item.value)) else None
    case "type" => TextMember(e.kind)
    case "response_id" => TextMember(e.responseId)
    case "response" => if e.nestedId.Some? then Some(Obj(map["id" := Str(e.nestedId.value)])) else None
    case "sequence_number" => NumberMember(e.number)
    case "sequence" => NumberMember(e.sequence)
    case "item_id" => TextMember(e.itemId)
    case "text" => TextMember(e.text)
    case "incomplete_details" => e.details
    case _ => None
  }

  function HeadFields(e: WireEvent): map<string, Value> {
    Members(HEAD_KEYS, k => HeadMember(e, k))
  }

  function PrintItem(item: WireItem): Value {
    var level := LevelFields(item.level);
    Obj(if item.kind.Some? then level["type" := Str(item.kind.value)] else level)
  }

  function PrintEvent(e: WireEvent): Value {
    Obj(LevelFields(e.own) + HeadFields(e))
  }

  predicate IsProperLevel(l: Level) {
    && IsProper(l.id) && IsProper(l.callId) && IsProper(l.name) && IsProper(l.status) && IsProper(l.arguments)
    && IsProper(l.server)
  }

  predicate IsProperEvent(e: WireEvent) {
    && IsProper(e.kind) && IsProper(e.responseId) && IsProper(e.nestedId) && IsProper(e.itemId) && IsProper(e.text)
    && IsProperLevel(e.own)
    && (e.item.Some? ==> IsProper(e.item.value.kind) && IsProperLevel(e.item.value.level))
  }

  ghost predicate HasTexts(v: Value, l: Level) {
    && Get(v, "id") == TextMember(l.id) && Get(v, "call_id") == TextMember(l.callId)
    && Get(v, "name") == TextMember(l.name) && Get(v, "status") == TextMember(l.status)
    && Get(v, "arguments") == TextMember(l.arguments) && Get(v, "server_label") == TextMember(l.server)
  }

  ghost predicate HasRest(v: Value, l: Level) {
    Get(v, "output_index") == NumberMember(l.outputIndex) && Get(v, "output") == l.output && Get(v, "error") == l.error
  }

  ghost predicate HasPlace(v: Value, e: WireEvent) {
    && Get(v, "type") == TextMember(e.kind) && Get(v, "response_id") == TextMember(e.responseId)
    && GetIn(Get(v, "response"), "id") == TextMember(e.nestedId)
    && Get(v, "sequence_number") == NumberMember(e.number) && Get(v, "sequence") == NumberMember(e.sequence)
  }

  ghost predicate HasContent(v: Value, e: WireEvent) {
    && Get(v, "item_id") == TextMember(e.itemId) && Get(v, "text") == TextMember(e.text)
    && Get(v, "incomplete_details") == e.details
    && Get(v, "item") == if e.item.Some? then Some(PrintItem(e.item.value)) else None
  }

  lemma PrintedLevel(v: Value, l: Level)
    requires HasTexts(v, l) && HasRest(v, l) && IsProperLevel(l)
    ensures SaysLevel(v, l)
  {
    PrintedText(l.id);
    PrintedText(l.callId);
    PrintedText(l.name);
    PrintedText(l.status);
    PrintedText(l.arguments);
    PrintedText(l.server);
  }

  lemma PrintedHead(v: Value, e: WireEvent)
    requires HasPlace(v, e) && HasContent(v, e) && IsProperEvent(e)
    ensures SaysHead(v, e)
  {
    PrintedText(e.kind);
    PrintedText(e.responseId);
    PrintedText(e.nestedId);
    PrintedText(e.itemId);
    PrintedText(e.text);
  }

  lemma LevelHasTexts(l: Level)
    ensures HasTexts(Obj(LevelFields(l)), l)
  {
  }

  lemma LevelHasRest(l: Level)
    ensures HasRest(Obj(LevelFields(l)), l)
    ensures "type" !in LevelFields(l)
  {
  }

  /** Fields that have no key of a level leave the level as it is. */
  lemma LevelUnder(l: Level, more: map<string, Value>)
    requires forall k :: k in more ==> k !in LEVEL_KEYS
    ensures HasTexts(Obj(LevelFields(l) + more), l) && HasRest(Obj(LevelFields(l) + more), l)
  {
    LevelHasTexts(l);
    LevelHasRest(l);
  }

  lemma KeysApart(k: string)
    requires k in HEAD_KEYS
    ensures k !in LEVEL_KEYS
  {
  }

  lemma PlaceIsThere(e: WireEvent)
    ensures HasPlace(Obj(HeadFields(e)), e)
  {
  }

  lemma ContentIsThere(e: WireEvent)
    ensures HasContent(Obj(HeadFields(e)), e)
  {
  }

  /** Fields that have no key of a head leave the head as it is. */
  lemma HeadOver(e: WireEvent, less: map<string, Value>)
    requires forall k :: k in less ==> k !in HEAD_KEYS
    ensures HasPlace(Obj(less + HeadFields(e)), e) && HasContent(Obj(less + HeadFields(e)), e)
  {
    PlaceIsThere(e);
    ContentIsThere(e);
  }

  lemma PrintedItem(item: WireItem)
    requires IsProper(item.kind) && IsProperLevel(item.level)
    ensures SaysItem(PrintItem(item), item)
  {
    var level := LevelFields(item.level);
    var kind: map<string, Value> := if item.kind.Some? then map["type" := Str(item.kind.value)] else map[];
    assert PrintItem(item) == Obj(level + kind);
    KeysApart("type");
    LevelUnder(item.level, kind);
    LevelHasRest(item.level);
    PrintedLevel(PrintItem(item), item.level);
    PrintedText(item.kind);
  }

  /** Every event can be written so that it says what it should. */
  lemma PrintedEvent(e: WireEvent)
    requires IsProperEvent(e)
    ensures SaysEvent(PrintEvent(e), e)
  {
    forall k | k in HEAD_KEYS ensures k !in LEVEL_KEYS {
      KeysApart(k);
    }
    LevelUnder(e.own, HeadFields(e));
    HeadOver(e, LevelFields(e.own));
    PrintedHead(PrintEvent(e), e);
    PrintedLevel(PrintEvent(e), e.own);
    if e.item.Some? {
      PrintedItem(e.item.value);
    }
  }
}
