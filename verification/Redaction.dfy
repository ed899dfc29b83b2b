/**
 Redaction of event metadata (agent/redaction.rs) and the note of an agent-name conflict
 (agent/service.rs), which both come between adaptation and the policy gate.
 */
module Redaction {
  import opened Wrappers
  import opened Text
  import opened Json
  import opened Adapter

  const REDACTED := "[redacted]"

  const SENSITIVE_KEYS := [
    "authorization", "cookie", "set-cookie", "api_key", "apikey", "x-api-key", "token", "access_token",
    "refresh_token", "password", "secret", "client_secret", "payment_signature"]

  /** A key that contains one of the words, in any letter case. */
  predicate IsSensitive(key: string) {
    exists i :: 0 <= i < |SENSITIVE_KEYS| && Contains(AsciiLower(key), SENSITIVE_KEYS[i])
  }

  lemma ContainsPart(s: string, left: string, part: string, right: string)
    requires s == left + part + right
    ensures Contains(s, part)
  {
    assert OccursAt(s, part, |left|);
  }

  lemma ContainsTransitive(s: string, mid: string, part: string)
    requires Contains(s, mid) && Contains(mid, part)
    ensures Contains(s, part)
  {
    var i :| 0 <= i <= |s| && OccursAt(s, mid, i);
    var j :| 0 <= j <= |mid| && OccursAt(mid, part, j);
    forall n | 0 <= n < |part| ensures s[i + j + n] == part[n] {
      assert mid[j + n] == mid[j..j + |part|][n];
      assert s[i + (j + n)] == s[i..i + |mid|][j + n];
    }
    assert OccursAt(s, part, i + j);
  }

  lemma LowerContains(left: string, word: string, right: string)
    ensures Contains(AsciiLower(left + word + right), AsciiLower(word))
  {
    var key := left + word + right;
    assert AsciiLower(key) == AsciiLower(left) + AsciiLower(word) + AsciiLower(right);
    ContainsPart(AsciiLower(key), AsciiLower(left), AsciiLower(word), AsciiLower(right));
  }

  /** A key is sensitive wherever one of the words stands in it, in whatever letter case. */
  lemma SensitiveAnywhere(left: string, word: string, right: string, i: nat)
    requires i < |SENSITIVE_KEYS| && AsciiLower(word) == SENSITIVE_KEYS[i]
    ensures IsSensitive(left + word + right)
  {
    LowerContains(left, word, right);
  }

  /** The words without those that contain another one. */
  const CORE_WORDS := [
    "authorization", "cookie", "api_key", "apikey", "x-api-key", "token", "password", "secret", "payment_signature"]

  lemma LongerWords()
    ensures Contains("set-cookie", "cookie") && Contains("client_secret", "secret")
    ensures Contains("access_token", "token") && Contains("refresh_token", "token")
  {
    assert OccursAt("set-cookie", "cookie", 4) && OccursAt("client_secret", "secret", 7);
    assert OccursAt("access_token", "token", 7) && OccursAt("refresh_token", "token", 8);
  }

  /** Four of the thirteen words are redundant: nine decide which keys are sensitive. */
  lemma NineWordsDecide(key: string)
    ensures IsSensitive(key) <==> exists i :: 0 <= i < |CORE_WORDS| && Contains(AsciiLower(key), CORE_WORDS[i])
  {
    var s := AsciiLower(key);
    LongerWords();
    forall i | 0 <= i < |SENSITIVE_KEYS| && Contains(s, SENSITIVE_KEYS[i])
      ensures exists j :: 0 <= j < |CORE_WORDS| && Contains(s, CORE_WORDS[j])
    {
      WordIsCovered(s, i);
    }
    forall j | 0 <= j < |CORE_WORDS| ensures CORE_WORDS[j] in SENSITIVE_KEYS {
    }
  }

  lemma WordIsCovered(s: string, i: nat)
    requires i < |SENSITIVE_KEYS| && Contains(s, SENSITIVE_KEYS[i])
    ensures exists j :: 0 <= j < |CORE_WORDS| && Contains(s, CORE_WORDS[j])
  {
    var word := SENSITIVE_KEYS[i];
    LongerWords();
    if word == "set-cookie" {
      ContainsTransitive(s, word, CORE_WORDS[1]);
    } else if word == "access_token" || word == "refresh_token" {
      ContainsTransitive(s, word, CORE_WORDS[5]);
    } else if word == "client_secret" {
      ContainsTransitive(s, word, CORE_WORDS[7]);
    } else {
      assert word in CORE_WORDS;
    }
  }

  function Redact(value: Value): Value {
    match value
    case Obj(fields) => Obj(map k | k in fields :: if IsSensitive(k) then Str(REDACTED) else Redact(fields[k]))
    case Arr(items) => Arr(seq(|items|, i requires 0 <= i < |items| => Redact(items[i])))
    case _ => value
  }

  /** At any depth, a sensitive key holds the placeholder. */
  ghost predicate IsClean(value: Value) {
    match value
    case Obj(fields) => forall k :: k in fields ==>
        if IsSensitive(k) then fields[k] == Str(REDACTED) else IsClean(fields[k])
    case Arr(items) => forall i :: 0 <= i < |items| ==> IsClean(items[i])
    case _ => true
  }

  /** Nothing sensitive is left, at any depth. */
  lemma {:induction false} RedactCleans(value: Value)
    ensures IsClean(Redact(value))
  {
    match value
    case Obj(fields) =>
      forall k | k in fields && !IsSensitive(k) ensures IsClean(Redact(fields[k])) {
        RedactCleans(fields[k]);
      }
    case Arr(items) =>
      forall i | 0 <= i < |items| ensures IsClean(Redact(items[i])) {
        RedactCleans(items[i]);
      }
    case _ =>
  }

  /** Redaction changes exactly the values that are not clean, so redacting twice is redacting once. */
  lemma {:induction false} RedactFixesClean(value: Value)
    ensures Redact(value) == value <==> IsClean(value)
  {
    match value
    case Obj(fields) =>
      forall k | k in fields ensures Redact(fields[k]) == fields[k] <==> IsClean(fields[k]) {
        RedactFixesClean(fields[k]);
      }
      var redacted := Redact(value).fields;
      assert redacted == fields <==> forall k :: k in fields ==> redacted[k] == fields[k];
    case Arr(items) =>
      forall i | 0 <= i < |items| ensures Redact(items[i]) == items[i] <==> IsClean(items[i]) {
        RedactFixesClean(items[i]);
      }
      var redacted := Redact(value).items;
      assert redacted == items <==> forall i :: 0 <= i < |items| ==> redacted[i] == items[i];
    case _ =>
  }

  lemma RedactTwice(value: Value)
    ensures Redact(Redact(value)) == Redact(value)
  {
    RedactCleans(value);
    RedactFixesClean(Redact(value));
  }

  // ---------- preparing the metadata of an envelope ----------

  datatype NameConflict = NameConflict(registered: string, selfReported: string, source: string)

  predicate IsConflictKey(k: string) {
    k == "registeredAgentName" || k == "selfReportedAgentName" || k == "selfReportedAgentNameSource"
      || k == "agentNameConflict"
  }

  function NoteConflict(metadata: Value, c: NameConflict): Value {
    Obj(Fields(metadata)["registeredAgentName" := Str(c.registered)]["selfReportedAgentName" := Str(c.selfReported)]
                        ["selfReportedAgentNameSource" := Str(c.source)]["agentNameConflict" := Bool(true)])
  }

  /** A conflict note takes exactly four keys, and puts its own values there. */
  lemma NoteTakesFourKeys(metadata: Value, c: NameConflict)
    ensures var before, after := Fields(metadata), NoteConflict(metadata, c).fields;
            && (forall k :: k in after <==> k in before || IsConflictKey(k))
            && (forall k :: k in before && !IsConflictKey(k) ==> after[k] == before[k])
            && after["registeredAgentName"] == Str(c.registered)
            && after["selfReportedAgentName"] == Str(c.selfReported)
            && after["selfReportedAgentNameSource"] == Str(c.source)
            && after["agentNameConflict"] == Bool(true)
  {
  }

  function Prepare(redact: bool, conflict: Option<NameConflict>, metadata: Value): Value {
    var m := if redact then Redact(metadata) else metadata;
    if conflict.Some? then NoteConflict(m, conflict.value) else m
  }

  /** What becomes of one entry. */
  function PreparedEntry(redact: bool, k: string, v: Value): Value {
    if !redact then v else if IsSensitive(k) then Str(REDACTED) else Redact(v)
  }

  /** Every entry stays under its key, redacted where it must be, unless a conflict note takes the key. */
  lemma PrepareKeeps(redact: bool, conflict: Option<NameConflict>, metadata: Value, k: string)
    requires metadata.Obj? && k in metadata.fields && !(conflict.Some? && IsConflictKey(k))
    ensures Get(Prepare(redact, conflict, metadata), k) == Some(PreparedEntry(redact, k, metadata.fields[k]))
  {
  }
}
