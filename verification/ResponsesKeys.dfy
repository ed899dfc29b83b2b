/**
 Idempotency keys of Responses reports: which reports share one, and what that means for the
 items of a stream.
 */
module ResponsesKeys {
  import opened Wrappers
  import opened Text
  import opened Runs
  import opened SseFrames
  import opened Json
  import opened ResponsesStream
  import opened ResponsesMerge
  import opened ResponsesWire

  // ---------- function-call keys ----------

  function KeyTail(sequence: u32, item: Option<string>, call: Option<string>): string {
    if item.Some? then "item:" + item.value
    else if call.Some? then "call:" + call.value
    else "sequence:" + Decimal(sequence)
  }

  /** The same call: the same item id, or without item ids the same call id, or without both the same sequence. */
  predicate SameCall(n: u32, item: Option<string>, call: Option<string>, n': u32, item': Option<string>,
                     call': Option<string>) {
    item == item' && (item.None? ==> call == call' && (call.None? ==> n == n'))
  }

  lemma KeyTailInjective(n: u32, item: Option<string>, call: Option<string>, n': u32, item': Option<string>,
                         call': Option<string>)
    ensures KeyTail(n, item, call) == KeyTail(n', item', call') <==> SameCall(n, item, call, n', item', call')
  {
    var a, b := KeyTail(n, item, call), KeyTail(n', item', call');
    if a == b {
      assert a[0] == if item.Some? then 'i' else if call.Some? then 'c' else 's';
      assert b[0] == if item'.Some? then 'i' else if call'.Some? then 'c' else 's';
      if item.Some? {
        SamePrefixSameRest("item:", item.value, item'.value);
      } else if call.Some? {
        SamePrefixSameRest("call:", call.value, call'.value);
      } else {
        SamePrefixSameRest("sequence:", Decimal(n), Decimal(n'));
        DecimalInjective(n, n');
      }
    }
  }

  /** What must stand between two response ids of which one begins with the other for their keys to meet. */
  predicate Ambiguous(extension: string) {
    (":item" <= extension || ":call" <= extension) && (|extension| == 5 || extension[5] == ':')
  }

  predicate Extends(short: string, long: string) {
    short <= long && Ambiguous(long[|short|..])
  }

  /** An id as the decoders read it: trimmed and not empty, or absent. */
  predicate IsReceivable(id: Option<string>) {
    id.Some? ==> id.value != "" && IsTrimmed(id.value)
  }

  /** An ambiguous extension that ids read from a stream can complete: they do not begin with white space. */
  predicate ExtendsReceivably(short: string, long: string) {
    Extends(short, long) && (|long| <= |short| + 6 || !IsWhitespace(long[|short| + 6]))
  }

  function TailKey(response: string, tail: string): string {
    response + ":" + tail
  }

  lemma KeyIsTailKey(request: string, response: Option<string>, n: u32, item: Option<string>, call: Option<string>)
    ensures FunctionCallKey(request, response, n, item, call)
         == request + ":function_call:" + TailKey(response.GetOr(""), KeyTail(n, item, call))
  {
    var prefix := request + ":function_call:";
    var r, t := response.GetOr(""), KeyTail(n, item, call);
    assert prefix + r + ":" + t == prefix + (r + ":" + t);
  }

  /** Where a sequence number ends the key, no colon follows the one before it. */
  lemma SequenceTail(n: u32, cut: nat)
    requires cut < |"sequence:" + Decimal(n)|
    requires ("sequence:" + Decimal(n))[cut] == ':'
    ensures cut == 8
  {
    var t := "sequence:" + Decimal(n);
    assert forall i :: 9 <= i < |t| ==> t[i] == Decimal(n)[i - 9];
    assert forall i :: 0 <= i < 8 ==> t[i] != ':';
  }

  /** The id that a key is made with, if it is not the sequence number. */
  function IdOf(item: Option<string>, call: Option<string>): Option<string> {
    if item.Some? then item else call
  }

  /** One tail inside another key: the extension of the response id is ambiguous. */
  lemma TailInside(extension: string, n: u32, item: Option<string>, call: Option<string>,
                   n': u32, item': Option<string>, call': Option<string>)
    requires extension != "" && ":" + KeyTail(n, item, call) == extension + ":" + KeyTail(n', item', call')
    ensures Ambiguous(extension)
    ensures |extension| > 6 ==>
              IdOf(item, call).Some? && IdOf(item, call).value != "" && IdOf(item, call).value[0] == extension[6]
  {
    var t, t' := KeyTail(n, item, call), KeyTail(n', item', call');
    var whole := ":" + t;
    var m := |extension|;
    assert whole[..m] == extension && whole[m] == ':' && whole[m + 1..] == t';
    assert t[m - 1] == ':' && t[m] == t'[0];
    assert t'[0] == 'i' || t'[0] == 'c' || t'[0] == 's';
    if item.Some? {
      assert whole[..5] == ":item" && whole[5] == ':';
      assert m >= 5 by {
        assert forall i :: 1 <= i < 5 ==> whole[i] != ':';
      }
    } else if call.Some? {
      assert whole[..5] == ":call" && whole[5] == ':';
      assert m >= 5 by {
        assert forall i :: 1 <= i < 5 ==> whole[i] != ':';
      }
    } else {
      SequenceTail(n, m - 1);
    }
  }

  lemma MeetingKeys(r: string, n: u32, item: Option<string>, call: Option<string>,
                    r': string, n': u32, item': Option<string>, call': Option<string>)
    requires |r| < |r'| && TailKey(r, KeyTail(n, item, call)) == TailKey(r', KeyTail(n', item', call'))
    ensures Extends(r, r')
    ensures IsReceivable(item) && IsReceivable(call) ==> ExtendsReceivably(r, r')
  {
    var t, t' := KeyTail(n, item, call), KeyTail(n', item', call');
    var a, b := TailKey(r, t), TailKey(r', t');
    assert a[..|r|] == r && b[..|r|] == r'[..|r|];
    assert a[|r|..] == ":" + t && b[|r|..] == r'[|r|..] + ":" + t';
    TailInside(r'[|r|..], n, item, call, n', item', call');
    assert |r'| > |r| + 6 ==> r'[|r|..][6] == r'[|r| + 6];
  }

  /**
   Unless one response id extends the other in an ambiguous way, a key is shared exactly by
   reports of the same call of the same response.
   */
  lemma FunctionCallKeyShared(request: string,
                              response: Option<string>, n: u32, item: Option<string>, call: Option<string>,
                              response': Option<string>, n': u32, item': Option<string>, call': Option<string>)
    requires !Extends(response.GetOr(""), response'.GetOr("")) && !Extends(response'.GetOr(""), response.GetOr(""))
    ensures FunctionCallKey(request, response, n, item, call) == FunctionCallKey(request, response', n', item', call')
       <==> response.GetOr("") == response'.GetOr("") && SameCall(n, item, call, n', item', call')
  {
    var prefix := request + ":function_call:";
    var r, r' := response.GetOr(""), response'.GetOr("");
    var t, t' := KeyTail(n, item, call), KeyTail(n', item', call');
    KeyTailInjective(n, item, call, n', item', call');
    KeyIsTailKey(request, response, n, item, call);
    KeyIsTailKey(request, response', n', item', call');
    if prefix + TailKey(r, t) == prefix + TailKey(r', t') {
      SamePrefixSameRest(prefix, TailKey(r, t), TailKey(r', t'));
      if |r| < |r'| {
        MeetingKeys(r, n, item, call, r', n', item', call');
      } else if |r'| < |r| {
        MeetingKeys(r', n', item', call', r, n, item, call);
      } else {
        assert TailKey(r, t)[..|r|] == r && TailKey(r', t')[..|r|] == r';
        SamePrefixSameRest(r + ":", t, t');
      }
    }
  }

  lemma TailOfExtension(extension: string, tail: string) returns (item: Option<string>, call: Option<string>)
    requires Ambiguous(extension)
    ensures ":" + KeyTail(0, item, call) == extension + ":" + tail
    ensures IdOf(item, call) == Some((extension + ":" + tail)[6..]) && (item.None? || call.None?)
  {
    var whole := extension + ":" + tail;
    var rest := whole[6..];
    assert whole[5] == ':' && whole[..5] == extension[..5];
    if ":item" <= extension {
      item, call := Some(rest), None;
      assert whole == ":item" + ":" + rest == ":" + ("item:" + rest);
    } else {
      item, call := None, Some(rest);
      assert whole == ":call" + ":" + rest == ":" + ("call:" + rest);
    }
  }

  /** An ambiguous extension lets two calls of different responses share a key. */
  lemma AmbiguousKeysMeet(request: string, short: string, long: string)
    returns (item: Option<string>, call: Option<string>)
    requires Extends(short, long)
    ensures FunctionCallKey(request, Some(short), 0, item, call) == FunctionCallKey(request, Some(long), 0, None, None)
    ensures IdOf(item, call) == Some((long[|short|..] + ":" + KeyTail(0, None, None))[6..])
    ensures item.None? || call.None?
  {
    var extension, tail := long[|short|..], KeyTail(0, None, None);
    item, call := TailOfExtension(extension, tail);
    assert long == short + extension;
    assert TailKey(short, KeyTail(0, item, call)) == short + (":" + KeyTail(0, item, call));
    assert TailKey(long, tail) == short + (extension + ":" + tail);
    KeyIsTailKey(request, Some(short), 0, item, call);
    KeyIsTailKey(request, Some(long), 0, None, None);
  }

  predicate SameKey(request: string, response: string, n: u32, item: Option<string>, call: Option<string>,
                    response': string, n': u32, item': Option<string>, call': Option<string>) {
    FunctionCallKey(request, Some(response), n, item, call)
      == FunctionCallKey(request, Some(response'), n', item', call')
  }

  ghost predicate KeysIdentifyCalls(request: string, response: string, response': string) {
    forall n: u32, item, call, n': u32, item', call' ::
      SameKey(request, response, n, item, call, response', n', item', call') ==>
        response == response' && SameCall(n, item, call, n', item', call')
  }

  /**
   For two response ids, equal keys always mean the same call if and only if neither id extends the other
   ambiguously.
   */
  lemma KeysIdentifyCallsExactly(request: string, response: string, response': string)
    ensures KeysIdentifyCalls(request, response, response')
        <==> !Extends(response, response') && !Extends(response', response)
  {
    if Extends(response, response') {
      var item, call := AmbiguousKeysMeet(request, response, response');
      assert SameKey(request, response, 0, item, call, response', 0, None, None) && response != response';
    } else if Extends(response', response) {
      var item, call := AmbiguousKeysMeet(request, response', response);
      assert SameKey(request, response, 0, None, None, response', 0, item, call) && response != response';
    } else {
      forall n: u32, item, call, n': u32, item', call' |
        SameKey(request, response, n, item, call, response', n', item', call')
        ensures response == response' && SameCall(n, item, call, n', item', call')
      {
        FunctionCallKeyShared(request, Some(response), n, item, call, Some(response'), n', item', call');
      }
    }
  }

  /** Whatever ids the decoders read are receivable. */
  lemma DecodedIdsAreReceivable(value: Option<Value>)
    ensures IsReceivable(OptionalString(value))
  {
    var s := AsStr(value);
    if s.Some? {
      TrimTrims(s.value);
    }
  }

  lemma ReportIdsAreReceivable(lib: Library, request: string, event: Value, item: Value, name: string,
                               status: Option<string>)
    ensures var x := FunctionCallReport(lib, request, event, item, name, status);
            IsReceivable(x.responseId) && IsReceivable(x.itemId) && IsReceivable(x.callId)
  {
    DecodedIdsAreReceivable(Get(event, "response_id"));
    DecodedIdsAreReceivable(GetIn(Get(event, "response"), "id"));
    DecodedIdsAreReceivable(Get(item, "id"));
    DecodedIdsAreReceivable(Get(event, "item_id"));
    DecodedIdsAreReceivable(Get(item, "call_id"));
    DecodedIdsAreReceivable(Get(event, "call_id"));
  }

  ghost predicate ReceivableKeysIdentifyCalls(request: string, response: string, response': string) {
    forall n: u32, item, call, n': u32, item', call' ::
      && SameKey(request, response, n, item, call, response', n', item', call')
      && IsReceivable(item) && IsReceivable(call) && IsReceivable(item') && IsReceivable(call') ==>
        response == response' && SameCall(n, item, call, n', item', call')
  }

  lemma ReceivableKeysMeet(request: string, short: string, long: string)
    returns (item: Option<string>, call: Option<string>)
    requires ExtendsReceivably(short, long)
    ensures FunctionCallKey(request, Some(short), 0, item, call) == FunctionCallKey(request, Some(long), 0, None, None)
    ensures IsReceivable(item) && IsReceivable(call)
  {
    item, call := AmbiguousKeysMeet(request, short, long);
    var extension, tail := long[|short|..], KeyTail(0, None, None);
    var whole := extension + ":" + tail;
    assert tail == "sequence:0";
    assert whole[|whole| - 1] == '0';
    assert |extension| > 6 ==> extension[6] == long[|short| + 6];
  }

  /**
   The same for ids as the decoders read them: for two response ids, equal keys always mean the
   same call if and only if neither extends the other ambiguously, without white space at the seam.
   */
  lemma ReceivableKeysIdentifyCallsExactly(request: string, response: string, response': string)
    ensures ReceivableKeysIdentifyCalls(request, response, response')
        <==> !ExtendsReceivably(response, response') && !ExtendsReceivably(response', response)
  {
    if ExtendsReceivably(response, response') {
      var item, call := ReceivableKeysMeet(request, response, response');
      assert SameKey(request, response, 0, item, call, response', 0, None, None) && response != response';
    } else if ExtendsReceivably(response', response) {
      var item, call := ReceivableKeysMeet(request, response', response);
      assert SameKey(request, response, 0, None, None, response', 0, item, call) && response != response';
    } else {
      forall n: u32, item, call, n': u32, item', call' |
        && SameKey(request, response, n, item, call, response', n', item', call')
        && IsReceivable(item) && IsReceivable(call) && IsReceivable(item') && IsReceivable(call')
        ensures response == response' && SameCall(n, item, call, n', item', call')
      {
        ReceivableKeyShared(request, response, n, item, call, response', n', item', call');
      }
    }
  }

  lemma ReceivableKeyShared(request: string, response: string, n: u32, item: Option<string>, call: Option<string>,
                            response': string, n': u32, item': Option<string>, call': Option<string>)
    requires SameKey(request, response, n, item, call, response', n', item', call')
    requires IsReceivable(item) && IsReceivable(call) && IsReceivable(item') && IsReceivable(call')
    requires !ExtendsReceivably(response, response') && !ExtendsReceivably(response', response)
    ensures response == response' && SameCall(n, item, call, n', item', call')
  {
    var prefix := request + ":function_call:";
    var t, t' := KeyTail(n, item, call), KeyTail(n', item', call');
    KeyIsTailKey(request, Some(response), n, item, call);
    KeyIsTailKey(request, Some(response'), n', item', call');
    SamePrefixSameRest(prefix, TailKey(response, t), TailKey(response', t'));
    if |response| < |response'| {
      MeetingKeys(response, n, item, call, response', n', item', call');
      assert false;
    } else if |response'| < |response| {
      MeetingKeys(response', n', item', call', response, n, item, call);
      assert false;
    } else {
      assert TailKey(response, t)[..|response|] == response && TailKey(response', t')[..|response|] == response';
      SamePrefixSameRest(response + ":", t, t');
      KeyTailInjective(n, item, call, n', item', call');
    }
  }

  /** Response ids without colon never extend one another ambiguously. */
  lemma ColonFreeIdsAreSafe(response: string, response': string)
    requires ':' !in response && ':' !in response'
    ensures !Extends(response, response')
  {
    if |response| < |response'| {
      assert response'[|response|..][0] == response'[|response|];
    }
  }

  // ---------- keys across kinds ----------

  predicate OtherEventType(eventType: string) {
    eventType != "" && eventType[0] != 'f'
  }

  lemma FunctionCallKeyIsApart(request: string, response: Option<string>, n: u32, item: Option<string>,
                               call: Option<string>,
                               eventType: string, response': Option<string>, n': u32,
                               item': Option<string>, call': Option<string>, name: Option<string>)
    requires OtherEventType(eventType)
    ensures FunctionCallKey(request, response, n, item, call) != EventKey(request, eventType, response', n', item',
        call', name)
  {
    assert FunctionCallKey(request, response, n, item, call)[|request| + 1] == 'f';
    assert EventKey(request, eventType, response', n', item', call', name)[|request| + 1] == eventType[0];
  }

  /** The key of a report is that of its kind. */
  ghost predicate ProperKey(request: string, x: Item) {
    if x.kind == FunctionCall
    then x.key == FunctionCallKey(request, x.responseId, x.sequence, x.itemId, x.callId)
    else OtherEventType(x.eventType) && exists name ::
           x.key == EventKey(request, x.eventType, x.responseId, x.sequence, x.itemId, x.callId, name)
  }

  lemma ProperEventKey(request: string, x: Item, name: Option<string>)
    requires x.kind != FunctionCall && OtherEventType(x.eventType)
    requires x.key == EventKey(request, x.eventType, x.responseId, x.sequence, x.itemId, x.callId, name)
    ensures ProperKey(request, x)
  {
  }

  lemma McpKey(lib: Library, request: string, event: Value, item: Value, eventType: string, kind: Kind,
               override: Option<string>)
    requires kind != FunctionCall && OtherEventType(eventType)
    ensures ProperKey(request, McpReport(lib, request, event, item, eventType, kind, override))
  {
    var x := McpReport(lib, request, event, item, eventType, kind, override);
    ProperEventKey(request, x, x.name);
  }

  lemma ReasoningKey(request: string, event: Value)
    ensures ReasoningReport(request, event).Some? ==> ProperKey(request, ReasoningReport(request, event).value)
  {
    if ReasoningReport(request, event).Some? {
      ProperEventKey(request, ReasoningReport(request, event).value, None);
    }
  }

  lemma ResponseKeys(request: string, event: Value, eventKind: string)
    ensures ProperKey(request, CompletedReport(request, event))
    ensures ProperKey(request, ErrorReport(request, event, eventKind))
  {
    ProperEventKey(request, CompletedReport(request, event), None);
    ProperEventKey(request, ErrorReport(request, event, eventKind), Some(eventKind));
  }

  lemma FunctionCallReportKey(lib: Library, request: string, event: Value, item: Value, name: string,
                              status: Option<string>)
    ensures ProperKey(request, FunctionCallReport(lib, request, event, item, name, status))
  {
  }

  lemma ItemDoneKey(lib: Library, request: string, event: Value, item: Value)
    ensures var r := ItemDone(lib, request, event, item); r.Some? ==> ProperKey(request, r.value)
  {
    var name := ItemText(item, "name", event, "name");
    if name.Some? {
      FunctionCallReportKey(lib, request, event, item, name.value, ItemText(item, "status", event, "status"));
    }
  }

  lemma OutputItemKey(lib: Library, request: string, event: Value)
    ensures OutputItemReport(lib, request, event).Some? ==>
          ProperKey(request, OutputItemReport(lib, request, event).value)
  {
    var item := Get(event, "item");
    if item.Some? {
      if OptionalString(Get(item.value, "type")) == Some("function_call") {
        ItemDoneKey(lib, request, event, item.value);
      } else {
        McpKey(lib, request, event, item.value, "tool.call.observed", McpCall,
          OptionalString(Get(item.value, "status")));
      }
    }
  }

  lemma ReportAsKey(lib: Library, request: string, event: Value, eventType: string, class_: EventClass)
    ensures var r := ReportAs(lib, request, event, eventType, class_); r.Some? ==> ProperKey(request, r.value)
  {
    var item := Get(event, "item").GetOr(event);
    match class_
    case OutputItemDone => OutputItemKey(lib, request, event);
    case CallArgumentsDone =>
      var name := ItemText(event, "name", item, "name").GetOr("function_call");
      FunctionCallReportKey(lib, request, event, item, name, Some("arguments_done"));
    case McpCompleted => McpKey(lib, request, event, item, "tool.call.observed", McpCall, Some("completed"));
    case McpFailed => McpKey(lib, request, event, item, "error.observed", Error, Some("failed"));
    case ReasoningDone => ReasoningKey(request, event);
    case Completed => ResponseKeys(request, event, eventType);
    case Failed => ResponseKeys(request, event, eventType);
    case NotObserved =>
  }

  /** Every report that an event makes has a proper key. */
  lemma ReportsHaveProperKeys(lib: Library, request: string, event: Value)
    ensures Report(lib, request, event).Some? ==> ProperKey(request, Report(lib, request, event).value)
  {
    var eventType := OptionalString(Get(event, "type"));
    if eventType.Some? {
      ReportAsKey(lib, request, event, eventType.value, Classify(eventType.value));
    }
  }

  lemma SameKeySameKind(request: string, x: Item, y: Item)
    requires ProperKey(request, x) && ProperKey(request, y) && x.key == y.key
    ensures x.kind == FunctionCall <==> y.kind == FunctionCall
  {
    if x.kind == FunctionCall && y.kind != FunctionCall {
      var name :| y.key == EventKey(request, y.eventType, y.responseId, y.sequence, y.itemId, y.callId, name);
      FunctionCallKeyIsApart(request, x.responseId, x.sequence, x.itemId, x.callId,
                             y.eventType, y.responseId, y.sequence, y.itemId, y.callId, name);
    }
    if y.kind == FunctionCall && x.kind != FunctionCall {
      var name :| x.key == EventKey(request, x.eventType, x.responseId, x.sequence, x.itemId, x.callId, name);
      FunctionCallKeyIsApart(request, y.responseId, y.sequence, y.itemId, y.callId,
                             x.eventType, x.responseId, x.sequence, x.itemId, x.callId, name);
    }
  }

  // ---------- the items of a stream ----------

  lemma {:induction false} OtherKindsKeepFirst(rs: seq<Item>)
    requires rs != [] && rs[0].kind != FunctionCall
    ensures MergeAll(rs) == rs[0]
  {
    if |rs| > 1 {
      OtherKindsKeepFirst(rs[..|rs| - 1]);
    }
  }

  /** Every item is a merge of function calls only, or the first report of another kind. */
  lemma ItemsAreUniform(request: string, reports: seq<Item>, i: nat)
    requires forall j :: 0 <= j < |reports| ==> ProperKey(request, reports[j])
    requires i < |RunReports(reports).items|
    ensures var x := RunReports(reports).items[i];
            var mine := Filter(ActiveReports(reports), WithKey(x.key));
            && mine != []
            && (x.kind == FunctionCall ==> FunctionCalls(mine) && x == MergeAll(mine))
            && (x.kind != FunctionCall ==> x == mine[0])
  {
    StreamIsMerged(reports);
    var x := RunReports(reports).items[i];
    assert MergeOf(Merge, x, ActiveReports(reports));
    var mine := Filter(ActiveReports(reports), WithKey(x.key));
    FilterSound(ActiveReports(reports), WithKey(x.key));
    assert forall j :: 0 <= j < |mine| ==> ProperKey(request, mine[j]) && mine[j].key == x.key;
    forall j | 0 <= j < |mine| ensures mine[j].kind == FunctionCall <==> mine[0].kind == FunctionCall {
      SameKeySameKind(request, mine[j], mine[0]);
    }
    if mine[0].kind == FunctionCall {
      MergedValues(mine);
    } else {
      OtherKindsKeepFirst(mine);
    }
  }

  lemma {:induction false} FilterSound<E>(es: seq<E>, f: E -> bool)
    ensures forall i :: 0 <= i < |Filter(es, f)| ==> Filter(es, f)[i] in es && f(Filter(es, f)[i])
  {
    if es != [] {
      FilterSound(es[..|es| - 1], f);
    }
  }

  // ---------- the observer as it runs ----------

  /** The report that a frame makes, if any; JSON parsing is given. */
  function FrameReader(lib: Library, request: string, parse: string -> Option<Value>): string -> Option<Item> {
    (frame: string) =>
      if Trim(frame) == "[DONE]" then None
      else
        var event := parse(frame);
        if event.None? then None else Report(lib, request, event.value)
  }

  function FrameReports(read: string -> Option<Item>, frames: seq<string>): seq<Item> {
    if frames == [] then []
    else
      var report := read(frames[|frames| - 1]);
      FrameReports(read, frames[..|frames| - 1]) + if report.Some? then [report.value] else []
  }

  /** A frame says an event, or nothing: it is [DONE] or no JSON. */
  ghost predicate SaysFrame(frame: string, e: Option<WireEvent>, parse: string -> Option<Value>) {
    if e.Some? then Trim(frame) != "[DONE]" && parse(frame).Some? && SaysEvent(parse(frame).value, e.value)
    else Trim(frame) == "[DONE]" || parse(frame).None?
  }

  ghost predicate SaysEvents(frames: seq<string>, events: seq<Option<WireEvent>>, parse: string -> Option<Value>) {
    |frames| == |events| && forall i :: 0 <= i < |events| ==> SaysFrame(frames[i], events[i], parse)
  }

  function ReportsBy(report: WireEvent -> Option<Item>, events: seq<Option<WireEvent>>): seq<Item> {
    if events == [] then []
    else
      var e := events[|events| - 1];
      var r := if e.Some? then report(e.value) else None;
      ReportsBy(report, events[..|events| - 1]) + if r.Some? then [r.value] else []
  }

  function ReportsOf(lib: Library, request: string, events: seq<Option<WireEvent>>): seq<Item> {
    ReportsBy((e: WireEvent) => ReportOf(lib, request, e), events)
  }

  /** The reports of a stream are those of what its frames say. */
  lemma {:induction false} ReadsEvents(lib: Library, request: string, parse: string -> Option<Value>,
                                       frames: seq<string>, events: seq<Option<WireEvent>>)
    requires SaysEvents(frames, events, parse)
    ensures FrameReports(FrameReader(lib, request, parse), frames) == ReportsOf(lib, request, events)
  {
    if frames != [] {
      var n := |frames| - 1;
      ReadsEvents(lib, request, parse, frames[..n], events[..n]);
      assert SaysFrame(frames[n], events[n], parse);
      if events[n].Some? {
        EventIsReported(lib, request, parse(frames[n]).value, events[n].value);
      }
    }
  }

  method ObserveReport(seen: map<string, nat>, items: seq<Item>, d: Item)
    returns (seen': map<string, nat>, items': seq<Item>)
    requires |items| < MAX_ITEMS
    requires forall k :: k in seen ==> seen[k] < |items|
    ensures forall k :: k in seen' ==> seen'[k] < |items'|
    ensures Observed(seen', items') == Upsert(Merge, Observed(seen, items), d)
  {
    seen', items' := seen, items;
    if d.key in seen {
      var merged := MergeDuplicate(items[seen[d.key]], d);
      items' := items[seen[d.key] := merged];
    } else {
      seen' := seen[d.key := |items|];
      items' := items + [d];
    }
  }

  method ObserveFrame(read: string -> Option<Item>, frames: seq<string>, i: nat, seen: map<string, nat>,
                      items: seq<Item>)
    returns (seen': map<string, nat>, items': seq<Item>)
    requires i < |frames| && |items| < MAX_ITEMS
    requires forall k :: k in seen ==> seen[k] < |items|
    requires Observed(seen, items) == RunReports(FrameReports(read, frames[..i]))
    ensures forall k :: k in seen' ==> seen'[k] < |items'|
    ensures Observed(seen', items') == RunReports(FrameReports(read, frames[..i + 1]))
  {
    ReportsSnoc(Merge, read, frames[..i], frames[i]);
    assert frames[..i + 1] == frames[..i] + [frames[i]];
    var report := read(frames[i]);
    if report.None? {
      return seen, items;
    }
    seen', items' := ObserveReport(seen, items, report.value);
  }

  /** Reads frames until they end or 16 items are there. */
  method ObserveFrames(read: string -> Option<Item>, frames: seq<string>) returns (observed: seq<Item>)
    ensures observed == RunReports(FrameReports(read, frames)).items
  {
    observed := [];
    var seen: map<string, nat> := map[];
    var i := 0;
    while i < |frames| && |observed| < MAX_ITEMS
      invariant 0 <= i <= |frames|
      invariant forall k :: k in seen ==> seen[k] < |observed|
      invariant Observed(seen, observed) == RunReports(FrameReports(read, frames[..i]))
    {
      seen, observed := ObserveFrame(read, frames, i, seen, observed);
      i := i + 1;
    }
    FullStays(Merge, read, frames, i);
  }

  lemma ReportsSnoc(merge: (Item, Item) -> Item, read: string -> Option<Item>, frames: seq<string>, frame: string)
    ensures RunWith(merge, FrameReports(read, frames + [frame])) ==
            var before := RunWith(merge, FrameReports(read, frames));
            if read(frame).Some? then Upsert(merge, before, read(frame).value) else before
  {
    assert (frames + [frame])[..|frames|] == frames;
    var before := FrameReports(read, frames);
    assert before + [] == before;
    if read(frame).Some? {
      FoldSnoc(Upserting(merge), NOTHING, before, read(frame).value);
    }
  }

  /** Frames after the sixteenth item change nothing. */
  lemma {:induction false} FullStays(merge: (Item, Item) -> Item, read: string -> Option<Item>, frames: seq<string>,
                                     i: nat)
    requires i <= |frames|
    requires i == |frames| || |RunWith(merge, FrameReports(read, frames[..i])).items| >= MAX_ITEMS
    ensures RunWith(merge, FrameReports(read, frames))
         == RunWith(merge, FrameReports(read, frames[..i]))
  {
    if i == |frames| {
      assert frames[..i] == frames;
    } else {
      var n := |frames| - 1;
      assert frames[..n][..i] == frames[..i];
      FullStays(merge, read, frames[..n], i);
      ReportsSnoc(merge, read, frames[..n], frames[n]);
      assert frames == frames[..n] + [frames[n]];
    }
  }

  lemma {:induction false} FrameReportsHave(read: string -> Option<Item>, frames: seq<string>, property: Item -> bool)
    requires forall frame :: read(frame).Some? ==> property(read(frame).value)
    ensures forall j :: 0 <= j < |FrameReports(read, frames)| ==> property(FrameReports(read, frames)[j])
  {
    if frames != [] {
      FrameReportsHave(read, frames[..|frames| - 1], property);
    }
  }

  lemma FrameReportsAreProper(lib: Library, request: string, parse: string -> Option<Value>, frames: seq<string>)
    ensures var reports := FrameReports(FrameReader(lib, request, parse), frames);
            forall j :: 0 <= j < |reports| ==> ProperKey(request, reports[j])
  {
    var read := FrameReader(lib, request, parse);
    forall frame | read(frame).Some? ensures ProperKey(request, read(frame).value) {
      ReportsHaveProperKeys(lib, request, parse(frame).value);
    }
    FrameReportsHave(read, frames, (x: Item) => ProperKey(request, x));
  }

  ghost predicate FactsFrom(x: Item, rs: seq<Item>) {
    && (RealName(x).Some? <==> exists i :: 0 <= i < |rs| && RealName(rs[i]).Some?)
    && (RealStatus(x).Some? <==> exists i :: 0 <= i < |rs| && RealStatus(rs[i]).Some?)
    && (x.callId.Some? <==> exists i :: 0 <= i < |rs| && CallOf(rs[i]).Some?)
    && (x.outputIndex.Some? <==> exists i :: 0 <= i < |rs| && OutputOf(rs[i]).Some?)
  }

  /** In every body, the four facts of an observed function call are the disjunction over the reports of its key. */
  lemma ObservedFacts(lib: Library, request: string, parse: string -> Option<Value>, frames: seq<string>, i: nat)
    requires i < |RunReports(FrameReports(FrameReader(lib, request, parse), frames)).items|
    ensures var reports := FrameReports(FrameReader(lib, request, parse), frames);
            var x := RunReports(reports).items[i];
            x.kind == FunctionCall ==> FactsFrom(x, Filter(ActiveReports(reports), WithKey(x.key)))
  {
    var reports := FrameReports(FrameReader(lib, request, parse), frames);
    FrameReportsAreProper(lib, request, parse, frames);
    ItemFacts(request, reports, i);
  }

  lemma ItemFacts(request: string, reports: seq<Item>, i: nat)
    requires forall j :: 0 <= j < |reports| ==> ProperKey(request, reports[j])
    requires i < |RunReports(reports).items|
    ensures var x := RunReports(reports).items[i];
            x.kind == FunctionCall ==> FactsFrom(x, Filter(ActiveReports(reports), WithKey(x.key)))
  {
    ItemsAreUniform(request, reports, i);
    var x := RunReports(reports).items[i];
    if x.kind == FunctionCall {
      FactsAreDisjunctions(Filter(ActiveReports(reports), WithKey(x.key)));
    }
  }

  method ObserveStreamItems(lib: Library, request: string, bodyBytes: nat, text: string, parse: string -> Option<Value>)
    returns (observed: seq<Item>)
    ensures bodyBytes > 1024 * 1024 ==> observed == []
    ensures bodyBytes <= 1024 * 1024 ==>
      observed == RunReports(FrameReports(FrameReader(lib, request, parse), TakeFrames(text))).items
    ensures forall events :: bodyBytes <= 1024 * 1024 && SaysEvents(TakeFrames(text), events, parse) ==>
      observed == RunReports(ReportsOf(lib, request, events)).items
    ensures |observed| <= 16
    ensures forall i, j :: 0 <= i < j < |observed| ==> observed[i].key != observed[j].key
    ensures var reports := FrameReports(FrameReader(lib, request, parse), TakeFrames(text));
            forall i :: 0 <= i < |observed| && observed[i].kind == FunctionCall ==>
              FactsFrom(observed[i], Filter(ActiveReports(reports), WithKey(observed[i].key)))
  {
    forall events | SaysEvents(TakeFrames(text), events, parse)
      ensures FrameReports(FrameReader(lib, request, parse), TakeFrames(text)) == ReportsOf(lib, request, events)
    {
      ReadsEvents(lib, request, parse, TakeFrames(text), events);
    }
    observed := [];
    if bodyBytes > MAX_BODY_BYTES {
      return;
    }
    var frames := ParseSseDataFrames(text);
    frames := frames[..Min(|frames|, MAX_FRAMES)];
    var read := FrameReader(lib, request, parse);
    observed := ObserveFrames(read, frames);
    StreamIsMerged(FrameReports(read, frames));
    forall i | 0 <= i < |observed| && observed[i].kind == FunctionCall
      ensures FactsFrom(observed[i], Filter(ActiveReports(FrameReports(read, frames)), WithKey(observed[i].key)))
    {
      ObservedFacts(lib, request, parse, frames, i);
    }
  }

  // ---------- one call, one item ----------

  lemma {:induction false} OneKeyWith(merge: (Item, Item) -> Item, reports: seq<Item>)
    requires reports != [] && forall i :: 0 <= i < |reports| ==> reports[i].key == reports[0].key
    ensures RunWith(merge, reports) == Observed(map[reports[0].key := 0], [MergeAllWith(merge, reports)])
  {
    var n := |reports| - 1;
    assert reports == reports[..n] + [reports[n]];
    FoldSnoc(Upserting(merge), NOTHING, reports[..n], reports[n]);
    if n == 0 {
      assert reports[..0] == [];
    } else {
      OneKeyWith(merge, reports[..n]);
    }
  }

  lemma OneKeyOneItem(reports: seq<Item>)
    requires reports != [] && forall i :: 0 <= i < |reports| ==> reports[i].key == reports[0].key
    ensures RunReports(reports).items == [MergeAll(reports)]
  {
    OneKeyWith(Merge, reports);
  }

  /** The two kinds of events that report a function call; an item that is done must have a name. */
  ghost predicate ReportsCall(e: WireEvent) {
    || e.kind == Some("response.function_call_arguments.done")
    || (&& e.kind == Some("response.output_item.done")
        && e.item.Some? && e.item.value.kind == Some("function_call")
        && (e.item.value.level.name.Some? || e.own.name.Some?))
  }

  lemma CallEventReport(lib: Library, request: string, e: WireEvent)
    requires ReportsCall(e)
    ensures var r := ReportOf(lib, request, e);
            && r.Some? && r.value.kind == FunctionCall
            && r.value.responseId == ResponseIn(e) && r.value.itemId == ItemIdIn(e, Inner(e))
            && r.value.callId == Either(Inner(e).callId, e.own.callId)
            && r.value.outputIndex == Either(e.own.outputIndex, Inner(e).outputIndex)
            && r.value.key == FunctionCallKey(request, ResponseIn(e), SequenceIn(e), ItemIdIn(e, Inner(e)),
                                              Either(Inner(e).callId, e.own.callId))
  {
    EventClasses(e.kind.value);
  }

  /** The events of one call: the same response and the same item id, or no item id and the same call id. */
  ghost predicate OfOneCall(a: WireEvent, b: WireEvent) {
    && ResponseIn(a) == ResponseIn(b)
    && ItemIdIn(a, Inner(a)) == ItemIdIn(b, Inner(b))
    && (ItemIdIn(a, Inner(a)).None? ==>
          && Either(Inner(a).callId, a.own.callId).Some?
          && Either(Inner(a).callId, a.own.callId) == Either(Inner(b).callId, b.own.callId))
  }

  lemma SameCallSameKey(lib: Library, request: string, a: WireEvent, b: WireEvent)
    requires ReportsCall(a) && ReportsCall(b) && OfOneCall(a, b)
    ensures ReportOf(lib, request, a).Some? && ReportOf(lib, request, b).Some?
    ensures ReportOf(lib, request, a).value.key == ReportOf(lib, request, b).value.key
  {
    CallEventReport(lib, request, a);
    CallEventReport(lib, request, b);
  }

  function AllSaid(events: seq<WireEvent>): (r: seq<Option<WireEvent>>)
    ensures |r| == |events|
  {
    seq(|events|, i requires 0 <= i < |events| => Some(events[i]))
  }

  lemma {:induction false} AllReported(report: WireEvent -> Option<Item>, events: seq<WireEvent>)
    requires forall i :: 0 <= i < |events| ==> report(events[i]).Some?
    ensures var reports := ReportsBy(report, AllSaid(events));
            && |reports| == |events|
            && forall i :: 0 <= i < |events| ==> Some(reports[i]) == report(events[i])
  {
    if events != [] {
      var n := |events| - 1;
      AllReported(report, events[..n]);
      assert AllSaid(events)[..n] == AllSaid(events[..n]);
    }
  }

  lemma OneItemBy(report: WireEvent -> Option<Item>, events: seq<WireEvent>)
    requires events != [] && forall i :: 0 <= i < |events| ==> report(events[i]).Some?
    requires forall i :: 0 <= i < |events| ==> report(events[i]).value.key == report(events[0]).value.key
    ensures var reports := ReportsBy(report, AllSaid(events));
            && |reports| == |events|
            && (forall i :: 0 <= i < |events| ==> Some(reports[i]) == report(events[i]))
            && RunReports(reports).items == [MergeAll(reports)]
  {
    AllReported(report, events);
    OneKeyOneItem(ReportsBy(report, AllSaid(events)));
  }

  /** However many events a function call is told in, and in whatever order, it is one item. */
  lemma OneCallOneItem(lib: Library, request: string, events: seq<WireEvent>)
    requires events != [] && forall i :: 0 <= i < |events| ==> ReportsCall(events[i]) && OfOneCall(events[0], events[i])
    ensures var reports := ReportsOf(lib, request, AllSaid(events));
            && |reports| == |events|
            && (forall i :: 0 <= i < |events| ==> Some(reports[i]) == ReportOf(lib, request, events[i]))
            && RunReports(reports).items == [MergeAll(reports)]
  {
    forall i | 0 <= i < |events|
      ensures ReportOf(lib, request, events[i]).Some?
      ensures ReportOf(lib, request, events[i]).value.key == ReportOf(lib, request, events[0]).value.key
    {
      SameCallSameKey(lib, request, events[0], events[i]);
    }
    OneItemBy((e: WireEvent) => ReportOf(lib, request, e), events);
  }

  lemma MergedPair(x: Item, y: Item)
    ensures MergeAll([x, y]) == Merge(x, y)
  {
    assert [x, y][..1] == [x];
    assert MergeAllWith(Merge, [x]) == x;
  }

  lemma PairValues(x: Item, y: Item)
    requires x.kind == y.kind == FunctionCall && x.status == Some("arguments_done") && RealName(y).Some?
    ensures var m := Merge(x, y);
            && m.kind == FunctionCall && m.name == y.name
            && m.status == (if y.status.Some? then y.status else Some("arguments_done"))
            && m.itemId == Either(y.itemId, x.itemId) && m.responseId == Either(y.responseId, x.responseId)
            && m.callId == Either(y.callId, x.callId) && m.outputIndex == Either(y.outputIndex, x.outputIndex)
  {
  }

  /** What both kinds of reports carry of the event. */
  ghost predicate CarriesIds(x: Item, e: WireEvent) {
    && x.kind == FunctionCall
    && x.responseId == ResponseIn(e) && x.itemId == ItemIdIn(e, Inner(e))
    && x.callId == Either(Inner(e).callId, e.own.callId)
    && x.outputIndex == Either(e.own.outputIndex, Inner(e).outputIndex)
  }

  lemma ArgumentsReport(lib: Library, request: string, a: WireEvent) returns (x: Item)
    requires a.kind == Some("response.function_call_arguments.done")
    ensures ReportOf(lib, request, a) == Some(x) && CarriesIds(x, a) && x.status == Some("arguments_done")
  {
    EventClasses(a.kind.value);
    x := ReportOf(lib, request, a).value;
  }

  lemma ItemReport(lib: Library, request: string, b: WireEvent) returns (y: Item)
    requires b.kind == Some("response.output_item.done") && ReportsCall(b)
    ensures ReportOf(lib, request, b) == Some(y) && CarriesIds(y, b)
    ensures y.name == Either(Inner(b).name, b.own.name) && y.status == Either(Inner(b).status, b.own.status)
  {
    EventClasses(b.kind.value);
    y := ReportOf(lib, request, b).value;
  }

  lemma PairBy(report: WireEvent -> Option<Item>, a: WireEvent, b: WireEvent, x: Item, y: Item)
    requires report(a) == Some(x) && report(b) == Some(y) && x.key == y.key
    ensures RunReports(ReportsBy(report, AllSaid([a, b]))).items == [Merge(x, y)]
  {
    OneItemBy(report, [a, b]);
    assert ReportsBy(report, AllSaid([a, b])) == [x, y];
    MergedPair(x, y);
  }

  lemma ReportedPair(lib: Library, request: string, a: WireEvent, b: WireEvent) returns (x: Item, y: Item)
    requires a.kind == Some("response.function_call_arguments.done")
    requires b.kind == Some("response.output_item.done") && ReportsCall(b) && OfOneCall(a, b)
    ensures RunReports(ReportsOf(lib, request, AllSaid([a, b]))).items == [Merge(x, y)]
    ensures CarriesIds(x, a) && CarriesIds(y, b) && x.status == Some("arguments_done")
    ensures y.name == Either(Inner(b).name, b.own.name) && y.status == Either(Inner(b).status, b.own.status)
  {
    x := ArgumentsReport(lib, request, a);
    y := ItemReport(lib, request, b);
    SameCallSameKey(lib, request, a, b);
    PairBy((e: WireEvent) => ReportOf(lib, request, e), a, b, x, y);
  }

  /**
   The arguments of a call and then the finished item: one item, with the name and the status
   of the finished item and the ids of either.
   */
  lemma ArgumentsThenItem(lib: Library, request: string, a: WireEvent, b: WireEvent, items: seq<Item>)
    requires a.kind == Some("response.function_call_arguments.done")
    requires b.kind == Some("response.output_item.done") && ReportsCall(b) && OfOneCall(a, b)
    requires Either(Inner(b).name, b.own.name) != Some("function_call")
    requires items == RunReports(ReportsOf(lib, request, AllSaid([a, b]))).items
    ensures |items| == 1 && items[0].kind == FunctionCall
    ensures items[0].name == Either(Inner(b).name, b.own.name)
    ensures items[0].status == Either(Either(Inner(b).status, b.own.status), Some("arguments_done"))
    ensures items[0].itemId == ItemIdIn(b, Inner(b)) && items[0].responseId == ResponseIn(b)
    ensures items[0].callId == Either(Either(Inner(b).callId, b.own.callId), Either(Inner(a).callId, a.own.callId))
    ensures items[0].outputIndex
         == Either(Either(b.own.outputIndex, Inner(b).outputIndex), Either(a.own.outputIndex, Inner(a).outputIndex))
  {
    var x, y := ReportedPair(lib, request, a, b);
    PairValues(x, y);
  }
}
