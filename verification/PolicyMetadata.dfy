/**
 Policy decisions and how they are attached to event metadata (agent/policy.rs and
 agent/service.rs): what the gateway puts in place displaces nothing for good.
 */
module PolicyMetadata {
  import opened Wrappers
  import opened Text
  import opened Json
  import opened Adapter

  type Object = map<string, Value>

  // ---------- a key that is free ----------

  function Suffixed(base: string, i: nat): string {
    base + "_" + Decimal(i)
  }

  lemma SuffixedInjective(base: string, i: nat, j: nat)
    requires Suffixed(base, i) == Suffixed(base, j)
    ensures i == j
  {
    SamePrefixSameRest(base + "_", Decimal(i), Decimal(j));
    DecimalInjective(i, j);
  }

  /** Keys of the object that are none of the first candidates. */
  function Untried(obj: Object, base: string, i: nat): set<string> {
    set k | k in obj.Keys && forall j :: 1 <= j < i ==> k != Suffixed(base, j)
  }

  lemma TryingShrinks(obj: Object, base: string, i: nat)
    requires i >= 1 && Suffixed(base, i) in obj
    ensures Untried(obj, base, i + 1) == Untried(obj, base, i) - {Suffixed(base, i)}
    ensures Suffixed(base, i) in Untried(obj, base, i)
  {
    forall j | 1 <= j < i ensures Suffixed(base, i) != Suffixed(base, j) {
      if Suffixed(base, i) == Suffixed(base, j) {
        SuffixedInjective(base, i, j);
      }
    }
  }

  /** The first numbered candidate that the object does not use, from the i-th on. */
  function FirstFree(obj: Object, base: string, i: nat): (r: nat)
    requires i >= 1
    ensures i <= r <= i + |Untried(obj, base, i)|
    ensures Suffixed(base, r) !in obj
    ensures forall j :: i <= j < r ==> Suffixed(base, j) in obj
    decreases |Untried(obj, base, i)|
  {
    if Suffixed(base, i) !in obj then i
    else
      TryingShrinks(obj, base, i);
      FirstFree(obj, base, i + 1)
  }

  function FreeKey(obj: Object, base: string): (key: string)
    ensures key !in obj
    ensures base <= key
  {
    if base !in obj then base else Suffixed(base, FirstFree(obj, base, 1))
  }

  /** The search stops after at most one try more than the object has entries. */
  method AvailableOriginalKey(obj: Object, base: string) returns (key: string, tries: nat)
    ensures key == FreeKey(obj, base)
    ensures tries <= |obj| + 1
  {
    if base !in obj {
      return base, 0;
    }
    var index := 1;
    assert Untried(obj, base, 1) == obj.Keys;
    while Suffixed(base, index) in obj
      invariant index >= 1
      invariant FirstFree(obj, base, 1) == FirstFree(obj, base, index)
      invariant index + |Untried(obj, base, index)| <= |obj| + 1
      decreases |Untried(obj, base, index)|
    {
      TryingShrinks(obj, base, index);
      index := index + 1;
    }
    key, tries := Suffixed(base, index), index;
  }

  /** For the policy entry two names are tried before the numbered ones. */
  function FreePolicyKey(obj: Object): (key: string)
    ensures key !in obj
    ensures "policy_original" <= key || "policy_client_original" <= key
  {
    if "policy_original" !in obj then "policy_original" else FreeKey(obj, "policy_client_original")
  }

  method AvailablePolicyOriginalKey(obj: Object) returns (key: string)
    ensures key == FreePolicyKey(obj)
  {
    if "policy_original" !in obj {
      return "policy_original";
    }
    var tries;
    key, tries := AvailableOriginalKey(obj, "policy_client_original");
  }

  /** Which key it is: the first name that is free, or else the first free number after the second name. */
  lemma FreePolicyKeyIsFirst(obj: Object, key: string) returns (n: nat)
    requires key == FreePolicyKey(obj)
    ensures "policy_original" !in obj ==> key == "policy_original"
    ensures "policy_original" in obj && "policy_client_original" !in obj ==> key == "policy_client_original"
    ensures "policy_original" in obj && "policy_client_original" in obj ==>
              && n >= 1 && key == "policy_client_original_" + Decimal(n)
              && forall j :: 1 <= j < n ==> "policy_client_original_" + Decimal(j) in obj
  {
    n := FirstFree(obj, "policy_client_original", 1);
    forall j: nat ensures Suffixed("policy_client_original", j) == "policy_client_original_" + Decimal(j) {
      assert "policy_client_original" + "_" == "policy_client_original_";
    }
  }

  // ---------- moving entries ----------

  /** Every entry of the old object is in the new one, under its own or a new key, each in its own place. */
  ghost predicate Kept(before: Object, after: Object, where_: map<string, string>) {
    && where_.Keys == before.Keys
    && (forall k :: k in before ==> where_[k] in after && after[where_[k]] == before[k])
    && (forall j, k :: j in before && k in before && where_[j] == where_[k] ==> j == k)
  }

  function MoveTo(obj: Object, from: string, to_: string): Object
    requires from in obj
  {
    (obj - {from})[to_ := obj[from]]
  }

  function Relocation(obj: Object, from: string, to_: string): map<string, string> {
    map k | k in obj :: if k == from then to_ else k
  }

  lemma MoveKeeps(obj: Object, from: string, to_: string)
    requires from in obj && to_ !in obj - {from}
    ensures Kept(obj, MoveTo(obj, from, to_), Relocation(obj, from, to_))
  {
  }

  function Identity(obj: Object): map<string, string> {
    map k | k in obj :: k
  }

  function Compose(first: map<string, string>, second: map<string, string>): map<string, string> {
    map k | k in first && first[k] in second :: second[first[k]]
  }

  lemma KeptCompose(a: Object, b: Object, c: Object, first: map<string, string>, second: map<string, string>)
    requires Kept(a, b, first) && Kept(b, c, second)
    ensures Kept(a, c, Compose(first, second))
  {
  }

  lemma KeptInsert(a: Object, b: Object, w: map<string, string>, key: string, value: Value)
    requires Kept(a, b, w) && key !in b
    ensures Kept(a, b[key := value], w)
  {
  }

  /** Moves an entry that the gateway is about to set out of the way. */
  function Preserve(obj: Object, source: string, original: string): Object {
    if source in obj then MoveTo(obj, source, FreeKey(obj - {source}, original)) else obj
  }

  function PreserveWhere(obj: Object, source: string, original: string): map<string, string> {
    if source in obj then Relocation(obj, source, FreeKey(obj - {source}, original)) else Identity(obj)
  }

  method PreserveOriginalField(obj: Object, source: string, original: string) returns (r: Object)
    ensures r == Preserve(obj, source, original)
  {
    r := obj;
    if source in obj {
      var existing := obj[source];
      r := obj - {source};
      var key, tries := AvailableOriginalKey(r, original);
      r := r[key := existing];
    }
  }

  /** Which new key an entry of which name may get. */
  type Renaming = (string, string) -> bool

  /** Names are short and new keys long, so that no entry is moved twice. */
  ghost predicate Proper(renamed: Renaming) {
    forall k, t :: renamed(k, t) ==> |k| < 15 <= |t|
  }

  /** Kept, with new keys only as the renaming allows. */
  ghost predicate Moved(before: Object, after: Object, where_: map<string, string>, renamed: Renaming) {
    Kept(before, after, where_) && forall k :: k in before ==> where_[k] == k || renamed(k, where_[k])
  }

  lemma MovedCompose(a: Object, b: Object, c: Object, first: map<string, string>, second: map<string, string>,
                     renamed: Renaming)
    requires Proper(renamed) && Moved(a, b, first, renamed) && Moved(b, c, second, renamed)
    ensures Moved(a, c, Compose(first, second), renamed)
  {
    KeptCompose(a, b, c, first, second);
    forall k | k in a ensures second[first[k]] == k || renamed(k, second[first[k]]) {
      if first[k] != k {
        assert |first[k]| >= 15;
      }
    }
  }

  lemma PreserveKeeps(obj: Object, source: string, original: string, renamed: Renaming)
    requires |source| < 15 <= |original| && forall t :: original <= t ==> renamed(source, t)
    ensures Moved(obj, Preserve(obj, source, original), PreserveWhere(obj, source, original), renamed)
    ensures source !in Preserve(obj, source, original)
    ensures forall k :: |k| < 15 && k !in obj ==> k !in Preserve(obj, source, original)
  {
    if source in obj {
      MoveKeeps(obj, source, FreeKey(obj - {source}, original));
    }
  }

  // ---------- the decision ----------

  type i64 = x: int | -0x8000_0000_0000_0000 <= x <= 0x7FFF_FFFF_FFFF_FFFF

  datatype PolicyResponse = PolicyResponse(
    allowed: bool, decision: int, reason: string, blockedBy: string, routeHint: string, snapshotRevision: i64,
    policyId: string, policyScope: int)

  datatype Decision = Decision(
    allowed: bool, decision: string, sinkStatus: string, reason: string, blockedBy: string, routeHint: string,
    snapshotRevision: i64, policyId: string, policyScope: string)

  /** Numbers outside the enumeration count as unspecified, which falls back to the flag. */
  function EventDecision(r: PolicyResponse): (bool, string) {
    match r.decision
    case 1 => (true, "allowed")
    case 2 => (false, "denied")
    case 3 => (false, "blocked")
    case 4 => (false, "approval_required")
    case 5 => (true, "audit_warning")
    case _ => if r.allowed then (true, "allowed") else (false, "denied")
  }

  /**
   An event may go on exactly on ALLOW (1) and AUDIT_WARNING (5), and outside the enumeration exactly when
   the flag says so; which number gives which text.
   */
  lemma DecisionMeaning(r: PolicyResponse)
    ensures DecisionOf(r).allowed <==> r.decision == 1 || r.decision == 5 || (!(1 <= r.decision <= 5) && r.allowed)
    ensures var text := DecisionOf(r).decision;
            && (text == "allowed" <==> r.decision == 1 || (!(1 <= r.decision <= 5) && r.allowed))
            && (text == "denied" <==> r.decision == 2 || (!(1 <= r.decision <= 5) && !r.allowed))
            && (text == "blocked" <==> r.decision == 3)
            && (text == "approval_required" <==> r.decision == 4)
            && (text == "audit_warning" <==> r.decision == 5)
  {
  }

  function ScopeText(scope: int): string {
    match scope
    case 1 => "AGENT_POLICY_SCOPE_NONE"
    case 2 => "AGENT_POLICY_SCOPE_WORKSPACE"
    case 3 => "AGENT_POLICY_SCOPE_DEPARTMENT"
    case 4 => "AGENT_POLICY_SCOPE_AGENT"
    case _ => "AGENT_POLICY_SCOPE_UNSPECIFIED"
  }

  function DecisionOf(r: PolicyResponse): Decision {
    Decision(EventDecision(r).0, EventDecision(r).1, "", r.reason, r.blockedBy, r.routeHint,
             r.snapshotRevision, r.policyId, ScopeText(r.policyScope))
  }

  function AllowedDecision(decision: string, reason: string): Decision {
    Decision(true, decision, "", reason, "", "", 0, "", "AGENT_POLICY_SCOPE_NONE")
  }

  const DISABLED_ALLOWED := AllowedDecision("allowed", "policy_disabled_allowed")
  const SKIPPED_AUDIT := AllowedDecision("skipped", "policy_skipped_audit_event")

  // ---------- attaching ----------

  function PolicyEntry(d: Decision): Value {
    Obj(map["allowed" := Bool(d.allowed),
            "decision" := Str(d.decision),
            "policyDecision" := Str(d.decision),
            "reason" := Str(d.reason),
            "blocked_by" := Str(d.blockedBy),
            "route_hint" := Str(d.routeHint),
            "policy_id" := Str(d.policyId),
            "policy_scope" := Str(d.policyScope),
            "snapshot_revision" := Int(d.snapshotRevision)])
  }

  const UNAVAILABLE_ENTRY := Obj(
    map["allowed" := Null,
        "policyDecision" := Str("unavailable"),
        "reason" := Str("policy_unavailable"),
        "blocked_by" := Str("agent.policy.unavailable"),
        "policy_id" := Str(""),
        "policy_scope" := Str("AGENT_POLICY_SCOPE_NONE"),
        "snapshot_revision" := Int(0)])

  function AttachDecision(metadata: Value, d: Decision): Value {
    var obj := Fields(metadata);
    var moved := if "policy" in obj then MoveTo(obj, "policy", FreePolicyKey(obj - {"policy"})) else obj;
    Obj(moved["policy" := PolicyEntry(d)])
  }

  method AttachPolicyDecision(metadata: Value, d: Decision) returns (r: Value)
    ensures r == AttachDecision(metadata, d)
  {
    var obj := Fields(metadata);
    if "policy" in obj {
      var existing := obj["policy"];
      obj := obj - {"policy"};
      var key := AvailablePolicyOriginalKey(obj);
      obj := obj[key := existing];
    }
    obj := obj["policy" := PolicyEntry(d)];
    r := Obj(obj);
  }

  function Displaced(obj: Object): Object {
    Preserve(Preserve(Preserve(obj, "policy", "policy_original"), "status", "status_original"), "severity",
      "severity_original")
  }

  function AttachUnavailable(metadata: Value): Value {
    var moved := Displaced(Fields(metadata));
    Obj(moved["status" := Str("failed")]["severity" := Str("error")]["policy" := UNAVAILABLE_ENTRY])
  }

  method AttachPolicyUnavailable(metadata: Value) returns (r: Value)
    ensures r == AttachUnavailable(metadata)
  {
    var obj := PreserveOriginalField(Fields(metadata), "policy", "policy_original");
    obj := PreserveOriginalField(obj, "status", "status_original");
    obj := PreserveOriginalField(obj, "severity", "severity_original");
    obj := obj["status" := Str("failed")];
    obj := obj["severity" := Str("error")];
    obj := obj["policy" := UNAVAILABLE_ENTRY];
    r := Obj(obj);
  }

  // ---------- compact records ----------

  const COMPACT_FIELD_CHARS := 128

  function Truncated(field: string): string {
    if |field| <= COMPACT_FIELD_CHARS then field else field[..COMPACT_FIELD_CHARS]
  }

  function CompactPolicyEntry(d: Decision): Value {
    Obj(map["allowed" := Bool(d.allowed),
            "decision" := Str(d.decision),
            "policyDecision" := Str(d.decision),
            "reason" := Str(Truncated(d.reason)),
            "blocked_by" := Str(Truncated(d.blockedBy)),
            "policy_id" := Str(Truncated(d.policyId)),
            "policy_scope" := Str(d.policyScope),
            "snapshot_revision" := Int(d.snapshotRevision)])
  }

  /** What is kept of a denied event whose metadata would be too large. */
  function CompactDecision(d: Decision): Value {
    Obj(map["metadata_truncated" := Bool(true),
            "metadata_truncation_reason" := Str("agent_policy_metadata_limit"),
            "policy" := CompactPolicyEntry(d)])
  }

  const COMPACT_UNAVAILABLE := Obj(
    map["status" := Str("failed"),
        "severity" := Str("error"),
        "metadata_truncated" := Bool(true),
        "metadata_truncation_reason" := Str("agent_policy_unavailable_metadata_limit"),
        "policy" := UNAVAILABLE_ENTRY])

  // ---------- what an entry tells ----------

  lemma ScopeMeaning(scope: int)
    ensures var text := ScopeText(scope);
            && (text == "AGENT_POLICY_SCOPE_NONE" <==> scope == 1)
            && (text == "AGENT_POLICY_SCOPE_WORKSPACE" <==> scope == 2)
            && (text == "AGENT_POLICY_SCOPE_DEPARTMENT" <==> scope == 3)
            && (text == "AGENT_POLICY_SCOPE_AGENT" <==> scope == 4)
            && (text == "AGENT_POLICY_SCOPE_UNSPECIFIED" <==> !(1 <= scope <= 4))
  {
  }

  /** The entry of a decision gives back what the policy service answered. */
  lemma EntryTellsResponse(r: PolicyResponse, status: string, entry: Value)
    requires entry == PolicyEntry(DecisionOf(r).(sinkStatus := status))
    ensures Get(entry, "reason") == Some(Str(r.reason)) && Get(entry, "blocked_by") == Some(Str(r.blockedBy))
    ensures Get(entry, "route_hint") == Some(Str(r.routeHint)) && Get(entry, "policy_id") == Some(Str(r.policyId))
    ensures Get(entry, "snapshot_revision") == Some(Int(r.snapshotRevision))
    ensures Get(entry, "policy_scope") == Some(Str(ScopeText(r.policyScope)))
    ensures Get(entry, "decision") == Get(entry, "policyDecision") == Some(Str(DecisionOf(r).decision))
    ensures Get(entry, "allowed") == Some(Bool(DecisionOf(r).allowed))
  {
  }

  /** The compact entry gives the same, its three free texts cut to 128 characters, without the route hint. */
  lemma CompactEntryTellsResponse(r: PolicyResponse, status: string, entry: Value)
    requires entry == CompactPolicyEntry(DecisionOf(r).(sinkStatus := status))
    ensures Get(entry, "reason") == Some(Str(Truncated(r.reason)))
    ensures Get(entry, "blocked_by") == Some(Str(Truncated(r.blockedBy)))
    ensures Get(entry, "policy_id") == Some(Str(Truncated(r.policyId))) && Get(entry, "route_hint").None?
    ensures Get(entry, "snapshot_revision") == Some(Int(r.snapshotRevision))
    ensures Get(entry, "policy_scope") == Some(Str(ScopeText(r.policyScope)))
    ensures Get(entry, "decision") == Get(entry, "policyDecision") == Some(Str(DecisionOf(r).decision))
    ensures Get(entry, "allowed") == Some(Bool(DecisionOf(r).allowed))
    ensures forall field: string :: |Truncated(field)| <= 128 && Truncated(field) <= field
    ensures forall field: string :: |field| <= 128 ==> Truncated(field) == field
    ensures forall field: string :: |field| > 128 ==> |Truncated(field)| == 128
  {
  }

  ghost predicate SaysUnavailable(m: Value) {
    var entry := Get(m, "policy");
    && Get(m, "status") == Some(Str("failed")) && Get(m, "severity") == Some(Str("error"))
    && GetIn(entry, "allowed") == Some(Null) && GetIn(entry, "policyDecision") == Some(Str("unavailable"))
    && GetIn(entry, "reason") == Some(Str("policy_unavailable"))
    && GetIn(entry, "blocked_by") == Some(Str("agent.policy.unavailable"))
  }

  /** Both audit records of an unavailable policy say so, and neither claims that the event was allowed or denied. */
  lemma UnavailableRecordsTell(metadata: Value)
    ensures SaysUnavailable(AttachUnavailable(metadata)) && SaysUnavailable(COMPACT_UNAVAILABLE)
  {
  }

  /** Compact records say that metadata is missing, and why. */
  lemma CompactRecordsTell(d: Decision)
    ensures Get(COMPACT_UNAVAILABLE, "metadata_truncated") == Get(CompactDecision(d), "metadata_truncated")
         == Some(Bool(true))
    ensures Get(COMPACT_UNAVAILABLE, "metadata_truncation_reason")
         == Some(Str("agent_policy_unavailable_metadata_limit"))
    ensures Get(CompactDecision(d), "metadata_truncation_reason") == Some(Str("agent_policy_metadata_limit"))
    ensures Get(CompactDecision(d), "policy") == Some(CompactPolicyEntry(d))
  {
  }

  function AttachSinkStatus(metadata: Value, status: string): Value {
    Obj(Fields(metadata)["sinkStatus" := Str(status)])
  }

  // ---------- nothing is lost ----------

  /** Where an earlier "policy" entry goes when a decision is attached. */
  predicate DecisionRenames(k: string, t: string) {
    k == "policy" && ("policy_original" <= t || "policy_client_original" <= t)
  }

  /** Where three earlier entries go when policy was unavailable. */
  predicate UnavailableRenames(k: string, t: string) {
    || (k == "policy" && "policy_original" <= t)
    || (k == "status" && "status_original" <= t)
    || (k == "severity" && "severity_original" <= t)
  }

  lemma RenamingsAreProper()
    ensures Proper(DecisionRenames) && Proper(UnavailableRenames)
  {
  }

  /** Attaching a decision keeps every entry; only an earlier "policy" entry changes its key. */
  lemma DecisionLosesNothing(metadata: Value, d: Decision) returns (where_: map<string, string>)
    ensures Moved(Fields(metadata), AttachDecision(metadata, d).fields, where_, DecisionRenames)
    ensures AttachDecision(metadata, d).fields["policy"] == PolicyEntry(d)
  {
    var obj := Fields(metadata);
    if "policy" in obj {
      var key := FreePolicyKey(obj - {"policy"});
      MoveKeeps(obj, "policy", key);
      where_ := Relocation(obj, "policy", key);
      KeptInsert(obj, MoveTo(obj, "policy", key), where_, "policy", PolicyEntry(d));
    } else {
      where_ := Identity(obj);
      KeptInsert(obj, obj, where_, "policy", PolicyEntry(d));
    }
  }

  lemma PreserveAnother(obj: Object, moved: Object, where_: map<string, string>, renamed: Renaming,
                        source: string, original: string)
    returns (next: map<string, string>)
    requires Proper(renamed) && Moved(obj, moved, where_, renamed)
    requires |source| < 15 <= |original| && forall t :: original <= t ==> renamed(source, t)
    ensures Moved(obj, Preserve(moved, source, original), next, renamed)
  {
    PreserveKeeps(moved, source, original, renamed);
    next := Compose(where_, PreserveWhere(moved, source, original));
    MovedCompose(obj, moved, Preserve(moved, source, original), where_, PreserveWhere(moved, source, original),
      renamed);
  }

  lemma DisplacedAbsent(obj: Object)
    ensures "policy" !in Displaced(obj) && "status" !in Displaced(obj) && "severity" !in Displaced(obj)
  {
    var a := Preserve(obj, "policy", "policy_original");
    var b := Preserve(a, "status", "status_original");
    PreserveKeeps(obj, "policy", "policy_original", (k, t) => true);
    PreserveKeeps(a, "status", "status_original", (k, t) => true);
    PreserveKeeps(b, "severity", "severity_original", (k, t) => true);
  }

  ghost predicate Displaces(renamed: Renaming) {
    && Proper(renamed)
    && (forall t :: "policy_original" <= t ==> renamed("policy", t))
    && (forall t :: "status_original" <= t ==> renamed("status", t))
    && (forall t :: "severity_original" <= t ==> renamed("severity", t))
  }

  lemma DisplacedKeeps(obj: Object, renamed: Renaming) returns (where_: map<string, string>)
    requires Displaces(renamed)
    ensures Moved(obj, Displaced(obj), where_, renamed)
  {
    where_ := Identity(obj);
    var a := Preserve(obj, "policy", "policy_original");
    where_ := PreserveAnother(obj, obj, where_, renamed, "policy", "policy_original");
    var b := Preserve(a, "status", "status_original");
    where_ := PreserveAnother(obj, a, where_, renamed, "status", "status_original");
    where_ := PreserveAnother(obj, b, where_, renamed, "severity", "severity_original");
  }

  lemma MovedInsert(a: Object, b: Object, w: map<string, string>, renamed: Renaming, key: string, value: Value)
    requires Moved(a, b, w, renamed) && key !in b
    ensures Moved(a, b[key := value], w, renamed)
  {
    KeptInsert(a, b, w, key, value);
  }

  lemma DisplacedMoves(obj: Object, renamed: Renaming) returns (where_: map<string, string>)
    requires Displaces(renamed)
    ensures Moved(obj, AttachUnavailable(Obj(obj)).fields, where_, renamed)
  {
    where_ := DisplacedKeeps(obj, renamed);
    DisplacedAbsent(obj);
    var moved := Displaced(obj);
    MovedInsert(obj, moved, where_, renamed, "status", Str("failed"));
    var a := moved["status" := Str("failed")];
    MovedInsert(obj, a, where_, renamed, "severity", Str("error"));
    var b := a["severity" := Str("error")];
    MovedInsert(obj, b, where_, renamed, "policy", UNAVAILABLE_ENTRY);
  }

  /** The audit of an unavailable policy keeps every entry; three of them may change their keys. */
  lemma UnavailableLosesNothing(metadata: Value) returns (where_: map<string, string>)
    ensures Moved(Fields(metadata), AttachUnavailable(metadata).fields, where_, UnavailableRenames)
    ensures var r := AttachUnavailable(metadata).fields;
            r["policy"] == UNAVAILABLE_ENTRY && r["status"] == Str("failed") && r["severity"] == Str("error")
  {
    RenamingsAreProper();
    assert Displaces(UnavailableRenames);
    where_ := DisplacedMoves(Fields(metadata), UnavailableRenames);
  }

  /** The sink status, by contrast, replaces an entry of that name. */
  lemma SinkStatusReplaces(metadata: Value, status: string)
    ensures var before, after := Fields(metadata), AttachSinkStatus(metadata, status).fields;
            && (forall k :: k in before && k != "sinkStatus" ==> k in after && after[k] == before[k])
            && after["sinkStatus"] == Str(status)
            && after.Keys == before.Keys + {"sinkStatus"}
  {
  }

  lemma MovedUnderStatus(before: Object, after: Object, w: map<string, string>, renamed: Renaming, status: string)
    requires Proper(renamed) && Moved(before, after, w, renamed)
    ensures Moved(before - {"sinkStatus"}, after["sinkStatus" := Str(status)],
                  map k | k in before && k != "sinkStatus" :: w[k], renamed)
  {
    assert forall k :: k in before ==> w[k] == k || |w[k]| >= 15;
  }

  /**
   Decision and sink status together: every entry but an earlier sink status is kept, and the
   gateway's own two entries are in place.
   */
  lemma AttachedKeeps(metadata: Value, d: Decision, status: string) returns (where_: map<string, string>)
    ensures var after := AttachSinkStatus(AttachDecision(metadata, d), status).fields;
            && Moved(Fields(metadata) - {"sinkStatus"}, after, where_, DecisionRenames)
            && after["policy"] == PolicyEntry(d) && after["sinkStatus"] == Str(status)
  {
    RenamingsAreProper();
    var w := DecisionLosesNothing(metadata, d);
    MovedUnderStatus(Fields(metadata), AttachDecision(metadata, d).fields, w, DecisionRenames, status);
    where_ := map k | k in Fields(metadata) && k != "sinkStatus" :: w[k];
  }

  lemma UnavailableKeeps(metadata: Value, status: string) returns (where_: map<string, string>)
    ensures var after := AttachSinkStatus(AttachUnavailable(metadata), status).fields;
            && Moved(Fields(metadata) - {"sinkStatus"}, after, where_, UnavailableRenames)
            && after["policy"] == UNAVAILABLE_ENTRY && after["status"] == Str("failed")
            && after["severity"] == Str("error") && after["sinkStatus"] == Str(status)
  {
    RenamingsAreProper();
    var w := UnavailableLosesNothing(metadata);
    MovedUnderStatus(Fields(metadata), AttachUnavailable(metadata).fields, w, UnavailableRenames, status);
    where_ := map k | k in Fields(metadata) && k != "sinkStatus" :: w[k];
  }

  /** What holds of all entries holds of some of them. */
  lemma MovedPart(part: Object, before: Object, after: Object, w: map<string, string>, renamed: Renaming)
    requires Moved(before, after, w, renamed)
    requires forall k :: k in part ==> k in before && before[k] == part[k]
    ensures Moved(part, after, map k | k in part && k in w :: w[k], renamed)
  {
  }
}
