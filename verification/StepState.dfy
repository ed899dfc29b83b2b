/**
 The percent codec, the step fingerprint and the step store key (agent/step_state.rs).
 */
module StepState {
  import opened Wrappers
  import opened Text

  // ---------- the codec ----------

  predicate ShouldPercentEncode(c: char, encodeColon: bool) {
    c == '%' || c == '|' || c == '=' || (encodeColon && c == ':')
  }

  function HexDigit(value: nat): char
    requires value < 16
  {
    if value < 10 then ('0' as int + value) as char else ('A' as int + (value - 10)) as char
  }

  function EncodeChar(c: char, encodeColon: bool): string {
    if ShouldPercentEncode(c, encodeColon)
    then ['%', HexDigit(c as int / 16), HexDigit(c as int % 16)]
    else [c]
  }

  function Encode(value: string, encodeColon: bool): string {
    if value == "" then "" else EncodeChar(value[0], encodeColon) + Encode(value[1..], encodeColon)
  }

  /** Borrows the value when nothing needs encoding, otherwise encodes it character by character. */
  method EncodeComponent(value: string, encodeColon: bool) returns (encoded: string)
    ensures encoded == Encode(value, encodeColon)
  {
    if forall i :: 0 <= i < |value| ==> !ShouldPercentEncode(value[i], encodeColon) {
      PlainTextUnchanged(value, encodeColon);
      return value;
    }
    encoded := "";
    for i := 0 to |value|
      invariant encoded + Encode(value[i..], encodeColon) == Encode(value, encodeColon)
    {
      var c := value[i];
      ghost var before := encoded;
      if ShouldPercentEncode(c, encodeColon) {
        var byte := c as int;
        encoded := encoded + ['%'];
        encoded := encoded + [HexDigit(byte / 16)];
        encoded := encoded + [HexDigit(byte % 16)];
      } else {
        encoded := encoded + [c];
      }
      assert encoded == before + EncodeChar(c, encodeColon);
      PushEncoded(before, value, i, encodeColon);
    }
  }

  lemma PushEncoded(done: string, value: string, i: nat, encodeColon: bool)
    requires i < |value|
    ensures done + EncodeChar(value[i], encodeColon) + Encode(value[i + 1..], encodeColon)
         == done + Encode(value[i..], encodeColon)
  {
    assert value[i..][1..] == value[i + 1..];
  }

  /** The borrowed fast path agrees with the loop. */
  lemma {:induction false} PlainTextUnchanged(value: string, encodeColon: bool)
    requires forall i :: 0 <= i < |value| ==> !ShouldPercentEncode(value[i], encodeColon)
    ensures Encode(value, encodeColon) == value
  {
    if value != "" {
      PlainTextUnchanged(value[1..], encodeColon);
    }
  }

  function HexValue(c: char): nat {
    if '0' <= c <= '9' then c as int - '0' as int
    else if 'A' <= c <= 'F' then c as int - 'A' as int + 10
    else 0
  }

  function Decode(encoded: string): string {
    if encoded == "" then ""
    else if encoded[0] == '%' && |encoded| >= 3 then
      [(16 * HexValue(encoded[1]) + HexValue(encoded[2])) as char] + Decode(encoded[3..])
    else [encoded[0]] + Decode(encoded[1..])
  }

  lemma DecodeChar(c: char, encodeColon: bool, rest: string)
    ensures Decode(EncodeChar(c, encodeColon) + rest) == [c] + Decode(rest)
  {
    var s := EncodeChar(c, encodeColon) + rest;
    if ShouldPercentEncode(c, encodeColon) {
      assert s[0] == '%' && s[3..] == rest;
    } else {
      assert s[1..] == rest;
    }
  }

  /** Decoding undoes encoding, for every string and with or without colons. */
  lemma {:induction false} DecodeInverts(value: string, encodeColon: bool)
    ensures Decode(Encode(value, encodeColon)) == value
  {
    if value != "" {
      DecodeInverts(value[1..], encodeColon);
      DecodeChar(value[0], encodeColon, Encode(value[1..], encodeColon));
    }
  }

  lemma EncodeInjective(a: string, b: string, encodeColon: bool)
    requires Encode(a, encodeColon) == Encode(b, encodeColon)
    ensures a == b
  {
    DecodeInverts(a, encodeColon);
    DecodeInverts(b, encodeColon);
  }

  /** No delimiter survives encoding. */
  lemma {:induction false} NoDelimiter(value: string, encodeColon: bool)
    ensures var encoded := Encode(value, encodeColon);
            '|' !in encoded && '=' !in encoded && (encodeColon ==> ':' !in encoded)
  {
    if value != "" {
      NoDelimiter(value[1..], encodeColon);
      HexIsNoDelimiter(value[0], encodeColon);
    }
  }

  lemma HexIsNoDelimiter(c: char, encodeColon: bool)
    ensures var encoded := EncodeChar(c, encodeColon);
            '|' !in encoded && '=' !in encoded && (encodeColon ==> ':' !in encoded)
  {
  }

  // ---------- the fingerprint ----------

  datatype StepKind =
    | Planning | Reasoning | LlmCall | ToolCall | ToolResult | Handoff | Approval
    | Checkpoint | FinalAnswer | Retry | ErrorRecovery | Unknown

  function KindText(kind: StepKind): string {
    match kind
    case Planning => "planning"
    case Reasoning => "reasoning"
    case LlmCall => "llm_call"
    case ToolCall => "tool_call"
    case ToolResult => "tool_result"
    case Handoff => "handoff"
    case Approval => "approval"
    case Checkpoint => "checkpoint"
    case FinalAnswer => "final_answer"
    case Retry => "retry"
    case ErrorRecovery => "error_recovery"
    case Unknown => "unknown"
  }

  /** Which kind a text names; the inverse of KindText. */
  function KindOfText(text: string): StepKind {
    match text
    case "planning" => Planning
    case "reasoning" => Reasoning
    case "llm_call" => LlmCall
    case "tool_call" => ToolCall
    case "tool_result" => ToolResult
    case "handoff" => Handoff
    case "approval" => Approval
    case "checkpoint" => Checkpoint
    case "final_answer" => FinalAnswer
    case "retry" => Retry
    case "error_recovery" => ErrorRecovery
    case _ => Unknown
  }

  lemma KindTextInverts(kind: StepKind)
    ensures KindOfText(KindText(kind)) == kind
    ensures '|' !in KindText(kind)
  {
  }

  datatype StepInput = StepInput(
    parent: Option<string>,
    kind: Option<StepKind>,
    graphNode: Option<string>,
    toolCall: Option<string>,
    attempt: Option<u32>,
    inputHash: Option<string>)

  /** What a fingerprint keeps of a step: a missing text is empty, a missing kind is unknown. */
  datatype NormalStep = NormalStep(
    parent: string, kind: StepKind, graphNode: string, toolCall: string, attempt: Option<u32>, inputHash: string)

  function Normalize(step: StepInput): NormalStep {
    NormalStep(step.parent.GetOr(""), step.kind.GetOr(Unknown), step.graphNode.GetOr(""),
               step.toolCall.GetOr(""), step.attempt, step.inputHash.GetOr(""))
  }

  function AttemptText(attempt: Option<u32>): string {
    if attempt.Some? then Decimal(attempt.value) else ""
  }

  function FingerprintFields(n: NormalStep): seq<string> {
    [ "parent=" + Encode(n.parent, false),
      "kind=" + KindText(n.kind),
      "graph=" + Encode(n.graphNode, false),
      "tool=" + Encode(n.toolCall, false),
      "attempt=" + AttemptText(n.attempt),
      "input=" + Encode(n.inputHash, false) ]
  }

  function Fingerprint(step: StepInput): string {
    JoinWith('|', FingerprintFields(Normalize(step)))
  }

  lemma FieldsHaveNoBar(n: NormalStep)
    ensures forall i :: 0 <= i < 6 ==> '|' !in FingerprintFields(n)[i]
  {
    NoDelimiter(n.parent, false);
    NoDelimiter(n.graphNode, false);
    NoDelimiter(n.toolCall, false);
    NoDelimiter(n.inputHash, false);
    KindTextInverts(n.kind);
  }

  lemma AttemptTextInjective(a: Option<u32>, b: Option<u32>)
    requires AttemptText(a) == AttemptText(b)
    ensures a == b
  {
    if a.Some? && b.Some? {
      DecimalInjective(a.value, b.value);
    }
  }

  lemma EncodedFieldInjective(tag: string, a: string, b: string)
    requires tag + Encode(a, false) == tag + Encode(b, false)
    ensures a == b
  {
    SamePrefixSameRest(tag, Encode(a, false), Encode(b, false));
    EncodeInjective(a, b, false);
  }

  lemma FieldsInjective(m: NormalStep, n: NormalStep)
    requires FingerprintFields(m) == FingerprintFields(n)
    ensures m == n
  {
    var f, g := FingerprintFields(m), FingerprintFields(n);
    assert f[0] == g[0] && f[1] == g[1] && f[2] == g[2] && f[3] == g[3] && f[4] == g[4] && f[5] == g[5];
    EncodedFieldInjective("parent=", m.parent, n.parent);
    EncodedFieldInjective("graph=", m.graphNode, n.graphNode);
    EncodedFieldInjective("tool=", m.toolCall, n.toolCall);
    EncodedFieldInjective("input=", m.inputHash, n.inputHash);
    SamePrefixSameRest("kind=", KindText(m.kind), KindText(n.kind));
    KindTextInverts(m.kind);
    KindTextInverts(n.kind);
    SamePrefixSameRest("attempt=", AttemptText(m.attempt), AttemptText(n.attempt));
    AttemptTextInjective(m.attempt, n.attempt);
  }

  /** Two steps share a fingerprint exactly when they are the same step after normalization. */
  lemma FingerprintIdentifiesStep(a: StepInput, b: StepInput)
    ensures Fingerprint(a) == Fingerprint(b) <==> Normalize(a) == Normalize(b)
  {
    if Fingerprint(a) == Fingerprint(b) {
      FieldsHaveNoBar(Normalize(a));
      FieldsHaveNoBar(Normalize(b));
      JoinWithInjective('|', FingerprintFields(Normalize(a)), FingerprintFields(Normalize(b)));
      FieldsInjective(Normalize(a), Normalize(b));
    }
  }

  // ---------- the store key ----------

  /** A UUID as its hyphenated text. */
  type Uuid = s: string | |s| == 36 && ':' !in s
    witness seq(36, i => '0')

  datatype StepRef = StepRef(workspace: Uuid, agent: string, run: string, step: string)

  function KeyFields(r: StepRef): seq<string> {
    ["agent", "step", r.workspace, Encode(r.agent, true), Encode(r.run, true), Encode(r.step, true)]
  }

  function StateKey(r: StepRef): string {
    JoinWith(':', KeyFields(r))
  }

  /** A store key belongs to one workspace, agent, run and step, whatever strings they are. */
  lemma StateKeyInjective(a: StepRef, b: StepRef)
    requires StateKey(a) == StateKey(b)
    ensures a == b
  {
    NoDelimiter(a.agent, true);
    NoDelimiter(a.run, true);
    NoDelimiter(a.step, true);
    NoDelimiter(b.agent, true);
    NoDelimiter(b.run, true);
    NoDelimiter(b.step, true);
    JoinWithInjective(':', KeyFields(a), KeyFields(b));
    var f, g := KeyFields(a), KeyFields(b);
    assert f[2] == g[2] && f[3] == g[3] && f[4] == g[4] && f[5] == g[5];
    EncodeInjective(a.agent, b.agent, true);
    EncodeInjective(a.run, b.run, true);
    EncodeInjective(a.step, b.step, true);
  }
}
