/**
 What a Chat Completions chunk says, apart from how it is written: the observer reads back
 the choices, tool-call deltas and finish reasons that a provider put in (agent/tool_observer.rs).
 */
module ChatWire {
  import opened Wrappers
  import opened Text
  import opened Json
  import opened JsonWire
  import opened SseFrames
  import opened ChatStream

  // ---------- what is said ----------

  datatype WireCall = WireCall(
    index: Option<u32>, id: Option<string>, name: Option<string>, kind: Option<string>, fragment: Option<string>)

  datatype WireChoice = WireChoice(number: Option<u32>, calls: seq<WireCall>, reason: Option<string>)

  function DeltaIn(number: u32, c: WireCall): Delta {
    Delta(number, c.index, c.id, c.name, c.kind, c.fragment)
  }

  /** A choice goes by its own number, or else by its position if that is a u32. */
  function NumberOf(c: WireChoice, position: nat): Option<u32> {
    if c.number.Some? then c.number else if position <= U32_MAX then Some(position) else None
  }

  function EventsOfChoice(c: WireChoice, position: nat, done: bool): seq<Event> {
    var number := NumberOf(c, position);
    if number.None? then []
    else
      seq(|c.calls|, i requires 0 <= i < |c.calls| => Chunk(DeltaIn(number.value, c.calls[i]), c.reason, done))
      + if c.reason.Some? then [Finish(number.value, c.reason.value)] else []
  }

  /** The events of a chunk: choice by choice, the deltas of each in order and then its finish reason. */
  function EventsOfChoices(choices: seq<WireChoice>, done: bool): seq<Event> {
    if choices == [] then []
    else
      var n := |choices| - 1;
      EventsOfChoices(choices[..n], done) + EventsOfChoice(choices[n], n, done)
  }

  // ---------- how it is written ----------

  ghost predicate SaysCall(v: Value, c: WireCall) {
    && SaysNumber(Get(v, "index"), c.index)
    && SaysText(Get(v, "id"), c.id)
    && SaysText(Get(v, "type"), c.kind)
    && SaysText(GetIn(Get(v, "function"), "name"), c.name)
    && SaysVerbatim(GetIn(Get(v, "function"), "arguments"), c.fragment)
  }

  /** A list written as an array; an empty one also as nothing. */
  ghost predicate SaysList<T(!new)>(v: Option<Value>, list: seq<T>, says: (Value, T) -> bool) {
    if v.Some? && v.value.Arr? then
      |v.value.items| == |list| && forall i :: 0 <= i < |list| ==> says(v.value.items[i], list[i])
    else IsOpen(v) && list == []
  }

  ghost predicate SaysChoice(v: Value, c: WireChoice) {
    && SaysNumber(Get(v, "index"), c.number)
    && SaysText(Get(v, "finish_reason"), c.reason)
    && SaysList(GetIn(Get(v, "delta"), "tool_calls"), c.calls, SaysCall)
  }

  ghost predicate SaysFrame(v: Value, choices: seq<WireChoice>) {
    SaysList(Get(v, "choices"), choices, SaysChoice)
  }

  // ---------- reading it back ----------

  lemma ReadsCall(number: u32, v: Value, c: WireCall)
    requires SaysCall(v, c)
    ensures DeltaOf(number, v) == DeltaIn(number, c)
  {
    var fn := Get(v, "function");
    assert OptionalU32(Get(v, "index")) == c.index by { ReadsNumber(Get(v, "index"), c.index); }
    assert OptionalString(Get(v, "id")) == c.id by { ReadsText(Get(v, "id"), c.id); }
    assert OptionalString(Get(v, "type")) == c.kind by { ReadsText(Get(v, "type"), c.kind); }
    assert OptionalString(GetIn(fn, "name")) == c.name by { ReadsText(GetIn(fn, "name"), c.name); }
  }

  lemma ReadsChoice(v: Value, c: WireChoice, position: nat, done: bool)
    requires SaysChoice(v, c)
    ensures ChoiceEvents(v, position, done) == EventsOfChoice(c, position, done)
  {
    ReadsNumber(Get(v, "index"), c.number);
    ReadsText(Get(v, "finish_reason"), c.reason);
    var calls, number := ToolCalls(v), NumberOf(c, position);
    assert |calls| == |c.calls|;
    if number.Some? {
      forall i | 0 <= i < |calls| ensures DeltaOf(number.value, calls[i]) == DeltaIn(number.value, c.calls[i]) {
        ReadsCall(number.value, calls[i], c.calls[i]);
      }
      assert DeltaEvents(number.value, calls, c.reason, done) == seq(|c.calls|, i requires 0 <= i < |c.calls| =>
          Chunk(DeltaIn(number.value, c.calls[i]), c.reason, done));
    }
  }

  lemma {:induction false} ReadsChoices(vs: seq<Value>, choices: seq<WireChoice>, n: nat, done: bool)
    requires n <= |vs| == |choices| && forall i :: 0 <= i < |vs| ==> SaysChoice(vs[i], choices[i])
    ensures ChoicesEvents(vs, n, done) == EventsOfChoices(choices[..n], done)
  {
    if n > 0 {
      ReadsChoices(vs, choices, n - 1, done);
      ReadsChoice(vs[n - 1], choices[n - 1], n - 1, done);
      assert choices[..n][..n - 1] == choices[..n - 1];
    }
  }

  /** A chunk is read as exactly the events of what it says. */
  lemma ReadsFrame(v: Value, choices: seq<WireChoice>, done: bool)
    requires SaysFrame(v, choices)
    ensures FrameEvents(v, done) == EventsOfChoices(choices, done)
  {
    var vs := AsArray(Get(v, "choices")).GetOr([]);
    ReadsChoices(vs, choices, |vs|, done);
    assert choices[..|vs|] == choices;
  }

  // ---------- a printer ----------

  predicate IsProperCall(c: WireCall) {
    IsProper(c.id) && IsProper(c.name) && IsProper(c.kind)
  }

  predicate IsProperChoice(c: WireChoice) {
    IsProper(c.reason) && forall i :: 0 <= i < |c.calls| ==> IsProperCall(c.calls[i])
  }

  function PrintFunction(c: WireCall): Value {
    Obj(Members(["name", "arguments"],
      k => if k == "name" then TextMember(c.name) else if k == "arguments" then TextMember(c.fragment) else None))
  }

  function PrintCall(c: WireCall): Value {
    Obj(Members(["index", "id", "type", "function"],
      k => if k == "index" then NumberMember(c.index)
           else if k == "id" then TextMember(c.id)
           else if k == "type" then TextMember(c.kind)
           else if k == "function" then Some(PrintFunction(c))
           else None))
  }

  function PrintChoice(c: WireChoice): Value {
    var calls := Arr(seq(|c.calls|, i requires 0 <= i < |c.calls| => PrintCall(c.calls[i])));
    Obj(Members(["index", "delta", "finish_reason"],
      k => if k == "index" then NumberMember(c.number)
           else if k == "delta" then Some(Obj(map["tool_calls" := calls]))
           else if k == "finish_reason" then TextMember(c.reason)
           else None))
  }

  function PrintFrame(choices: seq<WireChoice>): Value {
    Obj(map["choices" := Arr(seq(|choices|, i requires 0 <= i < |choices| => PrintChoice(choices[i])))])
  }

  lemma PrintedFunction(c: WireCall)
    ensures Get(PrintFunction(c), "name") == TextMember(c.name)
    ensures Get(PrintFunction(c), "arguments") == TextMember(c.fragment)
  {
  }

  lemma PrintedMembers(c: WireCall)
    ensures Get(PrintCall(c), "index") == NumberMember(c.index)
    ensures Get(PrintCall(c), "id") == TextMember(c.id)
    ensures Get(PrintCall(c), "type") == TextMember(c.kind)
    ensures Get(PrintCall(c), "function") == Some(PrintFunction(c))
  {
  }

  lemma PrintedCall(c: WireCall)
    requires IsProperCall(c)
    ensures SaysCall(PrintCall(c), c)
  {
    PrintedMembers(c);
    PrintedFunction(c);
    PrintedText(c.id);
    PrintedText(c.name);
    PrintedText(c.kind);
  }

  lemma PrintedChoice(c: WireChoice)
    requires IsProperChoice(c)
    ensures SaysChoice(PrintChoice(c), c)
  {
    PrintedText(c.reason);
    forall i | 0 <= i < |c.calls| ensures SaysCall(PrintCall(c.calls[i]), c.calls[i]) {
      PrintedCall(c.calls[i]);
    }
  }

  /** Printing a chunk and reading it gives its events. */
  lemma PrintedFrame(choices: seq<WireChoice>, done: bool)
    requires forall i :: 0 <= i < |choices| ==> IsProperChoice(choices[i])
    ensures SaysFrame(PrintFrame(choices), choices)
    ensures FrameEvents(PrintFrame(choices), done) == EventsOfChoices(choices, done)
  {
    forall i | 0 <= i < |choices| ensures SaysChoice(PrintChoice(choices[i]), choices[i]) {
      PrintedChoice(choices[i]);
    }
    ReadsFrame(PrintFrame(choices), choices, done);
  }

  // ---------- streams ----------

  /** A frame says a chunk, says [DONE], or says nothing: it is blank or no JSON. */
  datatype Part = Said(choices: seq<WireChoice>) | DoneMark | Noise

  ghost predicate SaysPart(frame: string, part: Part, parse: string -> Option<Value>) {
    var text := Trim(frame);
    match part
    case Said(choices) =>
      text != "" && text != "[DONE]" && parse(text).Some? && SaysFrame(parse(text).value, choices)
    case DoneMark => text == "[DONE]"
    case Noise => text == "" || (text != "[DONE]" && parse(text).None?)
  }

  ghost predicate SaysStream(frames: seq<string>, parts: seq<Part>, parse: string -> Option<Value>) {
    |frames| == |parts| && forall i :: 0 <= i < |parts| ==> SaysPart(frames[i], parts[i], parse)
  }

  /** The events of a stream; those of a chunk are marked if a [DONE] came before it. */
  function EventsOfParts(parts: seq<Part>): seq<Event> {
    if parts == [] then []
    else
      var n := |parts| - 1;
      EventsOfParts(parts[..n])
      + if parts[n].Said? then EventsOfChoices(parts[n].choices, DoneMark in parts[..n]) else []
  }

  function PrintPart(write: Value -> string, part: Part): Printed {
    Printed(None,
            match part
            case Said(choices) => write(PrintFrame(choices))
            case DoneMark => "[DONE]"
            case Noise => "")
  }

  function PrintStream(write: Value -> string, parts: seq<Part>): string {
    PrintFrames(seq(|parts|, i requires 0 <= i < |parts| => PrintPart(write, parts[i])))
  }

  /** JSON text that parses back, stands trimmed, and has no line that ends in CR. */
  ghost predicate IsJsonText(text: string, v: Value, parse: string -> Option<Value>) {
    parse(text) == Some(v) && text != "" && text != "[DONE]" && IsTrimmed(text) && NoLineEndCr(text)
  }

  ghost predicate IsProperPart(part: Part) {
    part.Said? ==> forall i :: 0 <= i < |part.choices| ==> IsProperChoice(part.choices[i])
  }

  lemma PrintedPart(write: Value -> string, parse: string -> Option<Value>, part: Part)
    requires IsProperPart(part)
    requires part.Said? ==> IsJsonText(write(PrintFrame(part.choices)), PrintFrame(part.choices), parse)
    ensures SaysPart(PrintPart(write, part).data, part, parse) && NoLineEndCr(PrintPart(write, part).data)
  {
    var text := PrintPart(write, part).data;
    if text != "" {
      assert IsTrimmed(text);
      assert IsBlank("") && text == "" + text + "";
      TrimPadded(text, text);
    }
    if part.Said? {
      PrintedFrame(part.choices, false);
    }
  }

  /** A stream as a provider prints it says, in the frames that are read, what was printed. */
  lemma PrintedStream(write: Value -> string, parse: string -> Option<Value>, parts: seq<Part>)
    requires forall i :: 0 <= i < |parts| ==> IsProperPart(parts[i])
    requires forall i :: 0 <= i < |parts| && parts[i].Said? ==>
      var v := PrintFrame(parts[i].choices); IsJsonText(write(v), v, parse)
    ensures SaysStream(TakeFrames(PrintStream(write, parts)), parts[..Min(|parts|, 128)], parse)
  {
    var frames := seq(|parts|, i requires 0 <= i < |parts| => PrintPart(write, parts[i]));
    forall i | 0 <= i < |parts| ensures SaysPart(frames[i].data, parts[i], parse) && NoLineEndCr(frames[i].data) {
      PrintedPart(write, parse, parts[i]);
    }
    RoundTrip(frames);
  }
}
