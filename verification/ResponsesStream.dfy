/**
 Observation of streamed Responses API events (agent/tool_observer.rs): events become
 reports, reports with the same idempotency key are merged into one item.
 */
module ResponsesStream {
  import opened Wrappers
  import opened Text
  import opened Runs
  import opened Json

  const MAX_ITEMS := 16

  datatype Kind = FunctionCall | McpCall | Reasoning | ResponseCompleted | Error

  datatype Item = Item(
    kind: Kind,
    eventType: string,
    responseId: Option<string>,
    sequence: u32,
    outputIndex: Option<u32>,
    itemId: Option<string>,
    callId: Option<string>,
    name: Option<string>,
    status: Option<string>,
    key: string,
    metadata: map<string, Value>)

  /** Library functions the reports depend on: argument summary, hash, and text length of JSON. */
  datatype Library = Library(summarize: string -> string, hash: string -> string, charCount: Value -> nat)

  // ---------- idempotency keys ----------

  function EventKey(request: string, eventType: string, response: Option<string>, sequence: u32,
                    item: Option<string>, call: Option<string>, name: Option<string>): string
  {
    request + ":" + eventType + ":" + response.GetOr("") + ":" + Decimal(sequence) + ":"
    + item.GetOr("") + ":" + call.GetOr("") + ":" + name.GetOr("")
  }

  function FunctionCallKey(request: string, response: Option<string>, sequence: u32,
                           item: Option<string>, call: Option<string>): string
  {
    request + ":function_call:" + response.GetOr("") + ":" +
    if item.Some? then "item:" + item.value
    else if call.Some? then "call:" + call.value
    else "sequence:" + Decimal(sequence)
  }

  // ---------- reading an event ----------

  function ResponseId(event: Value): Option<string> {
    OrElse(OptionalString(Get(event, "response_id")), OptionalString(GetIn(Get(event, "response"), "id")))
  }

  function Sequence(event: Value): u32 {
    OrElse(OptionalU32(Get(event, "sequence_number")), OptionalU32(Get(event, "sequence"))).GetOr(0)
  }

  /** A text given by the item, or else by the event around it. */
  function ItemText(item: Value, itemField: string, event: Value, eventField: string): Option<string> {
    OrElse(OptionalString(Get(item, itemField)), OptionalString(Get(event, eventField)))
  }

  function OutputIndex(event: Value, item: Value): Option<u32> {
    OrElse(OptionalU32(Get(event, "output_index")), OptionalU32(Get(item, "output_index")))
  }

  /** The report of a function call; only the name and the status depend on the kind of event. */
  function FunctionCallReport(lib: Library, request: string, event: Value, item: Value,
                              name: string, status: Option<string>): Item
  {
    var response := ResponseId(event);
    var output := OutputIndex(event, item);
    var id := ItemText(item, "id", event, "item_id");
    var call := ItemText(item, "call_id", event, "call_id");
    var arguments := ItemText(event, "arguments", item, "arguments");
    var key := FunctionCallKey(request, response, Sequence(event), id, call);
    Item(FunctionCall, "tool.call.observed", response, Sequence(event), output, id, call, Some(name), status, key,
         FunctionCallMetadata(lib, response, id, call, output, status, arguments, key))
  }

  function FunctionCallMetadata(lib: Library, response: Option<string>, id: Option<string>, call: Option<string>,
                                output: Option<u32>, status: Option<string>, arguments: Option<string>,
                                key: string): map<string, Value>
  {
    map["observer" := Str("responses_stream_observer"),
        "source_api" := Str("responses"),
        "source_wire" := Str("responses_sse"),
        "event_source_trust" := Str("gateway_observed"),
        "provider_response_id" := OfString(response),
        "provider_item_id" := OfString(id),
        "provider_call_id" := OfString(call),
        "output_index" := OfU32(output),
        "tool_type" := Str("function"),
        "observed_only" := Bool(true),
        "status" := OfString(status),
        "arguments_summary" := if arguments.Some? then Str(lib.summarize(arguments.value)) else Null,
        "arguments_hash" := if arguments.Some? then Str(lib.hash(arguments.value)) else Null,
        "arguments_chars" := if arguments.Some? then Int(|arguments.value|) else Null,
        "idempotency_key" := Str(key)]
  }

  function ItemDone(lib: Library, request: string, event: Value, item: Value): Option<Item> {
    var name := ItemText(item, "name", event, "name");
    if name.None? then None
    else Some(FunctionCallReport(lib, request, event, item, name.value, ItemText(item, "status", event, "status")))
  }

  function ArgumentsDone(lib: Library, request: string, event: Value): Item {
    var item := Get(event, "item").GetOr(event);
    FunctionCallReport(lib, request, event, item,
                       ItemText(event, "name", item, "name").GetOr("function_call"), Some("arguments_done"))
  }

  function McpReport(lib: Library, request: string, event: Value, item: Value, eventType: string, kind: Kind,
                     override: Option<string>): Item
  {
    var response, sequence := ResponseId(event), Sequence(event);
    var output := OutputIndex(event, item);
    var id := ItemText(item, "id", event, "item_id");
    var call := OrElse(ItemText(item, "call_id", event, "call_id"),
                       if id.Some? then Some("openai_item:" + id.value) else None);
    var server := ItemText(item, "server_label", event, "server_label");
    var name := OrElse(ItemText(item, "name", event, "name"), server);
    var status := OrElse(override, ItemText(item, "status", event, "status"));
    var result := OrElse(Get(item, "output"), Get(event, "output"));
    var failed := Get(item, "error").Some? || Get(event, "error").Some? || status == Some("failed");
    var key := EventKey(request, eventType, response, sequence, id, call, name);
    Item(kind, eventType, response, sequence, output, id, call, name, status, key,
         McpMetadata(lib, response, id, call, output, status, server, result, failed, key))
  }

  function McpMetadata(lib: Library, response: Option<string>, id: Option<string>, call: Option<string>,
                       output: Option<u32>, status: Option<string>, server: Option<string>, result: Option<Value>,
                       failed: bool, key: string): map<string, Value>
  {
    map["observer" := Str("responses_stream_observer"),
        "source_api" := Str("responses"),
        "source_wire" := Str("responses_sse"),
        "event_source_trust" := Str("gateway_observed"),
        "provider_response_id" := OfString(response),
        "provider_item_id" := OfString(id),
        "provider_call_id" := OfString(call),
        "output_index" := OfU32(output),
        "tool_type" := Str("mcp"),
        "execution_owner" := Str("provider_hosted"),
        "provider_execution_status" := OfString(status),
        "server_label" := OfString(server),
        "has_output" := Bool(result.Some?),
        "output_chars" := if result.Some? then Int(lib.charCount(result.value)) else Null,
        "has_error" := Bool(failed),
        "idempotency_key" := Str(key)]
  }

  function ReasoningReport(request: string, event: Value): Option<Item> {
    var response, sequence := ResponseId(event), Sequence(event);
    var output := OptionalU32(Get(event, "output_index"));
    var id := OrElse(OptionalString(Get(event, "item_id")), OptionalString(Get(event, "id")));
    var status := OptionalString(Get(event, "status"));
    var text := OptionalString(Get(event, "text"));
    if text.None? then None
    else
      var key := EventKey(request, "llm.reasoning.observed", response, sequence, id, None, None);
      Some(Item(Reasoning, "llm.reasoning.observed", response, sequence, output, id, None,
                Some("Reasoning text observed"), status, key,
                ReasoningMetadata(response, id, output, text.value, key)))
  }

  function ReasoningMetadata(response: Option<string>, id: Option<string>, output: Option<u32>, text: string,
                             key: string): map<string, Value>
  {
    map["observer" := Str("responses_stream_observer"),
        "source_api" := Str("responses"),
        "source_wire" := Str("responses_sse"),
        "event_source_trust" := Str("gateway_observed"),
        "provider_response_id" := OfString(response),
        "provider_item_id" := OfString(id),
        "output_index" := OfU32(output),
        "reasoning_visibility" := Str("metadata_only"),
        "has_reasoning_text" := Bool(true),
        "summary_chars" := Int(Min(|text|, 1024)),
        "idempotency_key" := Str(key)]
  }

  function CompletedReport(request: string, event: Value): Item {
    var response, sequence := ResponseId(event), Sequence(event);
    var status := OrElse(OptionalString(Get(event, "status")), Some("completed"));
    var key := EventKey(request, "llm.response.completed.observed", response, sequence, None, None, None);
    Item(ResponseCompleted, "llm.response.completed.observed", response, sequence, None, None, None,
         Some("Response completed"), status, key, CompletedMetadata(response, status, key))
  }

  function CompletedMetadata(response: Option<string>, status: Option<string>, key: string): map<string, Value> {
    map["observer" := Str("responses_stream_observer"),
        "source_api" := Str("responses"),
        "source_wire" := Str("responses_sse"),
        "event_source_trust" := Str("gateway_observed"),
        "provider_response_id" := OfString(response),
        "status" := OfString(status),
        "idempotency_key" := Str(key)]
  }

  function ErrorReport(request: string, event: Value, eventKind: string): Item {
    var response, sequence := ResponseId(event), Sequence(event);
    var status := if eventKind == "response.incomplete" then "incomplete" else "failed";
    var key := EventKey(request, "error.observed", response, sequence, None, None, Some(eventKind));
    Item(Error, "error.observed", response, sequence, None, None, None, Some(eventKind), Some(status), key,
         ErrorMetadata(response, status, Get(event, "error").Some?, Get(event, "incomplete_details").Some?, key))
  }

  function ErrorMetadata(response: Option<string>, status: string, hasError: bool, hasDetails: bool,
                         key: string): map<string, Value>
  {
    map["observer" := Str("responses_stream_observer"),
        "source_api" := Str("responses"),
        "source_wire" := Str("responses_sse"),
        "event_source_trust" := Str("gateway_observed"),
        "provider_response_id" := OfString(response),
        "provider_execution_status" := Str(status),
        "has_error" := Bool(hasError),
        "has_incomplete_details" := Bool(hasDetails),
        "idempotency_key" := Str(key)]
  }

  datatype EventClass =
    | OutputItemDone | CallArgumentsDone | McpCompleted | McpFailed | ReasoningDone | Completed | Failed | NotObserved

  function Classify(eventType: string): EventClass {
    match eventType
    case "response.output_item.done" => OutputItemDone
    case "response.function_call_arguments.done" => CallArgumentsDone
    case "response.mcp_call.completed" => McpCompleted
    case "response.mcp_call.failed" => McpFailed
    case "response.reasoning_summary_text.done" => ReasoningDone
    case "response.reasoning_text.done" => ReasoningDone
    case "response.completed" => Completed
    case "response.failed" => Failed
    case "response.incomplete" => Failed
    case _ => NotObserved
  }

  /** The report of a finished output item: a function call with a name, or an MCP call. */
  function OutputItemReport(lib: Library, request: string, event: Value): Option<Item> {
    var item := Get(event, "item");
    if item.None? then None
    else
      var itemType := OptionalString(Get(item.value, "type"));
      if itemType == Some("function_call") then ItemDone(lib, request, event, item.value)
      else if itemType == Some("mcp_call") then
        Some(McpReport(lib, request, event, item.value, "tool.call.observed", McpCall,
                       OptionalString(Get(item.value, "status"))))
      else None
  }

  function ReportAs(lib: Library, request: string, event: Value, eventType: string, class_: EventClass): Option<Item> {
    match class_
    case OutputItemDone => OutputItemReport(lib, request, event)
    case CallArgumentsDone => Some(ArgumentsDone(lib, request, event))
    case McpCompleted =>
      Some(McpReport(lib, request, event, Get(event, "item").GetOr(event), "tool.call.observed", McpCall,
        Some("completed")))
    case McpFailed =>
      Some(McpReport(lib, request, event, Get(event, "item").GetOr(event), "error.observed", Error, Some("failed")))
    case ReasoningDone => ReasoningReport(request, event)
    case Completed => Some(CompletedReport(request, event))
    case Failed => Some(ErrorReport(request, event, eventType))
    case NotObserved => None
  }

  /** The report that an event makes, if it is one of those that are observed. */
  function Report(lib: Library, request: string, event: Value): Option<Item> {
    var eventType := OptionalString(Get(event, "type"));
    if eventType.None? then None
    else ReportAs(lib, request, event, eventType.value, Classify(eventType.value))
  }

  // ---------- merging ----------

  /** A name other than the placeholder of an event that carries none. */
  function RealName(x: Item): Option<string> {
    if x.name == Some("function_call") then None else x.name
  }

  /** A status other than the placeholder of an arguments event. */
  function RealStatus(x: Item): Option<string> {
    if x.status == Some("arguments_done") then None else x.status
  }

  function Bit(b: bool): nat { if b then 1 else 0 }

  function Richness(x: Item): nat {
    Bit(RealName(x).Some?) + Bit(x.callId.Some?) + Bit(RealStatus(x).Some?) + Bit(x.outputIndex.Some?)
  }

  function NonNull(m: map<string, Value>, key: string): Option<Value> {
    if key in m && m[key] != Null then Some(m[key]) else None
  }

  function InsertNonNull(m: map<string, Value>, source: map<string, Value>, key: string): map<string, Value> {
    if NonNull(source, key).Some? then m[key := source[key]] else m
  }

  const ID_FIELDS := ["provider_response_id", "provider_item_id", "provider_call_id", "output_index"]
  const ARGUMENT_FIELDS := ["arguments_summary", "arguments_hash", "arguments_chars"]

  function FieldOf(m: map<string, Value>, key: string): Option<Value> {
    if key in m then Some(m[key]) else None
  }

  function InsertAll(m: map<string, Value>, source: map<string, Value>, keys: seq<string>): map<string, Value> {
    if keys == [] then m
    else InsertNonNull(InsertAll(m, source, keys[..|keys| - 1]), source, keys[|keys| - 1])
  }

  function SetStatus(m: map<string, Value>, source: map<string, Value>): map<string, Value> {
    var status := NonNull(source, "status");
    if status.Some? && (status.value != Str("arguments_done") || "status" !in m)
    then m["status" := status.value] else m
  }

  function FillOne(m: map<string, Value>, source: map<string, Value>, key: string): map<string, Value> {
    if NonNull(m, key).Some? then m else InsertNonNull(m, source, key)
  }

  function FillAll(m: map<string, Value>, source: map<string, Value>, keys: seq<string>): map<string, Value> {
    if keys == [] then m
    else FillOne(FillAll(m, source, keys[..|keys| - 1]), source, keys[|keys| - 1])
  }

  function MergedMetadata(m: map<string, Value>, source: map<string, Value>): map<string, Value> {
    FillAll(SetStatus(InsertAll(m, source, ID_FIELDS), source), source, ARGUMENT_FIELDS)
  }

  method MergeMetadata(m: map<string, Value>, source: map<string, Value>) returns (r: map<string, Value>)
    ensures r == MergedMetadata(m, source)
  {
    r := m;
    for i := 0 to |ID_FIELDS|
      invariant r == InsertAll(m, source, ID_FIELDS[..i])
    {
      assert ID_FIELDS[..i + 1][..i] == ID_FIELDS[..i];
      r := InsertNonNull(r, source, ID_FIELDS[i]);
    }
    assert ID_FIELDS[..|ID_FIELDS|] == ID_FIELDS;
    var status := NonNull(source, "status");
    if status.Some? && (status.value != Str("arguments_done") || "status" !in r) {
      r := r["status" := status.value];
    }
    ghost var before := r;
    for i := 0 to |ARGUMENT_FIELDS|
      invariant r == FillAll(before, source, ARGUMENT_FIELDS[..i])
    {
      assert ARGUMENT_FIELDS[..i + 1][..i] == ARGUMENT_FIELDS[..i];
      var existingHasValue := NonNull(r, ARGUMENT_FIELDS[i]).Some?;
      if !existingHasValue {
        r := InsertNonNull(r, source, ARGUMENT_FIELDS[i]);
      }
    }
    assert ARGUMENT_FIELDS[..|ARGUMENT_FIELDS|] == ARGUMENT_FIELDS;
  }

  /** Two reports merge only if both are function calls; then the newer one is laid over the older. */
  function Merge(x: Item, d: Item): Item {
    if x.kind != FunctionCall || d.kind != FunctionCall then x
    else x.(
      sequence := if Richness(d) > Richness(x) then d.sequence else x.sequence,
      outputIndex := OrElse(d.outputIndex, x.outputIndex),
      responseId := OrElse(d.responseId, x.responseId),
      itemId := OrElse(d.itemId, x.itemId),
      callId := OrElse(d.callId, x.callId),
      name := if RealName(d).Some? || x.name.None? then d.name else x.name,
      status := if RealStatus(d).Some? || x.status.None? then d.status else x.status,
      metadata := MergedMetadata(x.metadata, d.metadata))
  }

  method MergeDuplicate(existing: Item, d: Item) returns (r: Item)
    ensures r == Merge(existing, d)
  {
    r := existing;
    if r.kind != FunctionCall || d.kind != FunctionCall {
      return;
    }
    if Richness(d) > Richness(r) {
      r := r.(sequence := d.sequence);
    }
    r := r.(outputIndex := OrElse(d.outputIndex, r.outputIndex),
            responseId := OrElse(d.responseId, r.responseId),
            itemId := OrElse(d.itemId, r.itemId),
            callId := OrElse(d.callId, r.callId));
    if RealName(d).Some? || r.name.None? {
      r := r.(name := d.name);
    }
    if RealStatus(d).Some? || r.status.None? {
      r := r.(status := d.status);
    }
    var metadata := MergeMetadata(r.metadata, d.metadata);
    r := r.(metadata := metadata);
  }

  // ---------- the stream ----------

  datatype RawObserved = Observed(seen: map<string, nat>, items: seq<Item>)

  type Observed = s: RawObserved | forall k :: k in s.seen ==> s.seen[k] < |s.items|
    witness Observed(map[], [])

  const NOTHING: Observed := Observed(map[], [])

  /** One more report; once 16 items are there, the rest of the stream is not looked at. */
  function Upsert(merge: (Item, Item) -> Item, s: Observed, d: Item): Observed {
    if |s.items| >= MAX_ITEMS then s
    else if d.key in s.seen then
      var i := s.seen[d.key];
      Observed(s.seen, s.items[i := merge(s.items[i], d)])
    else Observed(s.seen[d.key := |s.items|], s.items + [d])
  }

  function Upserting(merge: (Item, Item) -> Item): (Observed, Item) -> Observed {
    (s: Observed, d: Item) => Upsert(merge, s, d)
  }

  /** The items of a whole stream of reports. */
  function RunReports(reports: seq<Item>): Observed {
    RunWith(Merge, reports)
  }

  function RunWith(merge: (Item, Item) -> Item, reports: seq<Item>): Observed {
    Fold(Upserting(merge), NOTHING, reports)
  }
}
