/**
 How large the records are that the gateway writes in place of metadata (agent/policy.rs and
 agent/service.rs): a denial and an unavailable policy can always be recorded.
 */
module MetadataLimit {
  import opened Text
  import opened Json
  import opened JsonSize
  import opened PolicyMetadata

  // ---------- the texts ----------

  lemma DecisionWordsPlain()
    ensures IsPlainText("allowed") && IsPlainText("denied") && IsPlainText("blocked")
    ensures IsPlainText("approval_required") && IsPlainText("audit_warning")
  {
  }

  lemma DecisionTexts(r: PolicyResponse)
    ensures IsPlainText(EventDecision(r).1) && |EventDecision(r).1| <= 17
    ensures r.decision == 4 ==> |EventDecision(r).1| == 17
  {
    DecisionWordsPlain();
  }

  lemma ScopeWordsPlain()
    ensures IsPlainText("AGENT_POLICY_SCOPE_NONE") && IsPlainText("AGENT_POLICY_SCOPE_WORKSPACE")
    ensures IsPlainText("AGENT_POLICY_SCOPE_DEPARTMENT") && IsPlainText("AGENT_POLICY_SCOPE_AGENT")
    ensures IsPlainText("AGENT_POLICY_SCOPE_UNSPECIFIED")
  {
  }

  lemma ScopeTexts(scope: int)
    ensures IsPlainText(ScopeText(scope)) && |ScopeText(scope)| <= 30
    ensures scope == 0 ==> |ScopeText(scope)| == 30
  {
    ScopeWordsPlain();
  }

  lemma RevisionText(n: i64)
    ensures |IntText(n)| <= 20
    ensures n == -0x8000_0000_0000_0000 ==> |IntText(n)| == 20
  {
    assert Power10(5) == 100000 && Power10(10) == 100000 * Power10(5) && Power10(15) == 100000 * Power10(10);
    assert Power10(18) == 1000 * Power10(15) && Power10(19) == 10 * Power10(18);
    DecimalLength(if n < 0 then -(n as int) else n, 19);
  }

  lemma TruncatedSize(field: string)
    ensures StrSize(Truncated(field)) <= 770
  {
    CharsSizeBound(Truncated(field), |Truncated(field)|);
  }

  // ---------- the entries ----------

  lemma VerdictKeysPlain()
    ensures IsPlainText("allowed") && IsPlainText("decision") && IsPlainText("policyDecision")
    ensures IsPlainText("reason") && IsPlainText("blocked_by")
  {
  }

  lemma OriginKeysPlain()
    ensures IsPlainText("route_hint") && IsPlainText("policy_id") && IsPlainText("policy_scope")
    ensures IsPlainText("snapshot_revision")
  {
  }

  function Verdict(allowed: Value, decision: Value, reason: Value): Object {
    map["allowed" := allowed, "decision" := decision, "policyDecision" := decision, "reason" := reason]
  }

  lemma VerdictParts(measure: Object -> nat, size: Value -> nat, allowed: Value, decision: Value, reason: Value)
    requires GrowsByEntry(measure, size)
    ensures measure(Verdict(allowed, decision, reason))
         == measure(map[]) + 51 + size(allowed) + 2 * size(decision) + size(reason)
  {
    VerdictKeysPlain();
    var a: Object := map["allowed" := allowed];
    assert measure(a) == measure(map[]) + 11 + size(allowed);
    var b := a["decision" := decision];
    var c := b["policyDecision" := decision];
    assert measure(c) == measure(a) + 30 + 2 * size(decision);
    assert c["reason" := reason] == Verdict(allowed, decision, reason);
  }

  function Origin(m: Object, blockedBy: Value, policyId: Value, scope: Value, revision: Value): Object {
    m["blocked_by" := blockedBy]["policy_id" := policyId]["policy_scope" := scope]["snapshot_revision" := revision]
  }

  predicate LacksOrigin(m: Object) {
    "blocked_by" !in m && "policy_id" !in m && "policy_scope" !in m && "snapshot_revision" !in m
  }

  lemma OriginParts(measure: Object -> nat, size: Value -> nat,
                    m: Object, blockedBy: Value, policyId: Value, scope: Value, revision: Value)
    requires GrowsByEntry(measure, size) && LacksOrigin(m)
    ensures measure(Origin(m, blockedBy, policyId, scope, revision))
         == measure(m) + 64 + size(blockedBy) + size(policyId) + size(scope) + size(revision)
  {
    VerdictKeysPlain();
    OriginKeysPlain();
    var a := m["blocked_by" := blockedBy];
    assert measure(a) == measure(m) + 14 + size(blockedBy);
    var b := a["policy_id" := policyId];
    assert measure(b) == measure(a) + 13 + size(policyId);
    var c := b["policy_scope" := scope];
    assert measure(c) == measure(b) + 16 + size(scope);
  }

  lemma CompactEntryParts(measure: Object -> nat, size: Value -> nat, d: Decision)
    requires GrowsByEntry(measure, size)
    ensures measure(CompactPolicyEntry(d).fields)
         == measure(map[]) + 115 + size(Bool(d.allowed)) + 2 * size(Str(d.decision))
          + size(Str(Truncated(d.reason))) + size(Str(Truncated(d.blockedBy))) + size(Str(Truncated(d.policyId)))
          + size(Str(d.policyScope)) + size(Int(d.snapshotRevision))
  {
    var verdict := Verdict(Bool(d.allowed), Str(d.decision), Str(Truncated(d.reason)));
    VerdictParts(measure, size, Bool(d.allowed), Str(d.decision), Str(Truncated(d.reason)));
    OriginParts(measure, size, verdict, Str(Truncated(d.blockedBy)), Str(Truncated(d.policyId)),
                Str(d.policyScope), Int(d.snapshotRevision));
    assert Origin(verdict, Str(Truncated(d.blockedBy)), Str(Truncated(d.policyId)),
                  Str(d.policyScope), Int(d.snapshotRevision)) == CompactPolicyEntry(d).fields;
  }

  lemma CompactEntrySize(d: Decision)
    ensures FieldsSize(CompactPolicyEntry(d).fields)
         == 116 + Size(Bool(d.allowed)) + 2 * Size(Str(d.decision))
          + Size(Str(Truncated(d.reason))) + Size(Str(Truncated(d.blockedBy))) + Size(Str(Truncated(d.policyId)))
          + Size(Str(d.policyScope)) + Size(Int(d.snapshotRevision))
  {
    SizeGrowsByEntry();
    NoFields();
    CompactEntryParts(m => FieldsSize(m), v => Size(v), d);
  }

  // ---------- whole records ----------

  lemma RecordKeysPlain()
    ensures IsPlainText("metadata_truncated") && IsPlainText("metadata_truncation_reason")
    ensures IsPlainText("policy") && IsPlainText("sinkStatus")
  {
  }

  /** What both compact records end with. */
  function Limited(m: Object, reason: string, entry: Value, status: string): Object {
    m["metadata_truncated" := Bool(true)]["metadata_truncation_reason" := Str(reason)]["policy" := entry]
     ["sinkStatus" := Str(status)]
  }

  predicate LacksLimited(m: Object) {
    "metadata_truncated" !in m && "metadata_truncation_reason" !in m && "policy" !in m && "sinkStatus" !in m
  }

  lemma LimitedParts(measure: Object -> nat, size: Value -> nat, m: Object, reason: string, entry: Value,
                     status: string)
    requires GrowsByEntry(measure, size) && LacksLimited(m)
    ensures measure(Limited(m, reason, entry, status))
         == measure(m) + 76 + size(Bool(true)) + size(Str(reason)) + size(entry) + size(Str(status))
  {
    RecordKeysPlain();
    var a := m["metadata_truncated" := Bool(true)];
    assert measure(a) == measure(m) + 22 + size(Bool(true));
    var b := a["metadata_truncation_reason" := Str(reason)];
    assert measure(b) == measure(a) + 30 + size(Str(reason));
    var c := b["policy" := entry];
    assert measure(c) == measure(b) + 10 + size(entry);
  }

  lemma LimitedSize(m: Object, reason: string, entry: Value, status: string)
    requires LacksLimited(m) && IsPlainText(reason) && IsPlainText(status)
    ensures FieldsSize(Limited(m, reason, entry, status)) == FieldsSize(m) + 84 + |reason| + |status| + Size(entry)
  {
    SizeGrowsByEntry();
    PlainSize(reason);
    PlainSize(status);
    LimitedParts(m => FieldsSize(m), v => Size(v), m, reason, entry, status);
  }

  lemma LimitedRecordSize(record: Value, m: Object, reason: string, entry: Value, status: string)
    requires LacksLimited(m) && IsPlainText(reason) && IsPlainText(status)
    requires record == Obj(Limited(m, reason, entry, status))
    ensures Size(record) == FieldsSize(m) + 84 + |reason| + |status| + Size(entry)
  {
    LimitedSize(m, reason, entry, status);
    SomeFields(record.fields, "policy");
  }

  lemma CompactDecisionIsLimited(d: Decision)
    ensures AttachSinkStatus(CompactDecision(d), "sent")
         == Obj(Limited(map[], "agent_policy_metadata_limit", CompactPolicyEntry(d), "sent"))
  {
  }

  lemma LimitTextsPlain()
    ensures IsPlainText("agent_policy_metadata_limit") && IsPlainText("agent_policy_unavailable_metadata_limit")
    ensures IsPlainText("sent")
  {
  }

  lemma CompactDecisionSize(d: Decision)
    ensures Size(AttachSinkStatus(CompactDecision(d), "sent")) == 116 + Size(CompactPolicyEntry(d))
  {
    CompactDecisionIsLimited(d);
    LimitTextsPlain();
    NoFields();
    LimitedRecordSize(AttachSinkStatus(CompactDecision(d), "sent"), map[],
                      "agent_policy_metadata_limit", CompactPolicyEntry(d), "sent");
  }

  // ---------- the limit for denials ----------

  const COMPACT_DENIAL_BYTES := 2637

  ghost function CompactDenialSize(r: PolicyResponse): nat {
    Size(AttachSinkStatus(CompactDecision(DecisionOf(r)), "sent"))
  }

  /** Only three texts and the revision vary without a table. */
  lemma CompactDenialParts(r: PolicyResponse)
    requires !DecisionOf(r).allowed
    ensures CompactDenialSize(r)
         == 243 + 2 * |EventDecision(r).1| + StrSize(Truncated(r.reason)) + StrSize(Truncated(r.blockedBy))
          + StrSize(Truncated(r.policyId)) + |ScopeText(r.policyScope)| + |IntText(r.snapshotRevision)|
  {
    var d := DecisionOf(r);
    CompactDecisionSize(d);
    CompactEntrySize(d);
    SomeFields(CompactPolicyEntry(d).fields, "allowed");
    DecisionTexts(r);
    PlainSize(d.decision);
    ScopeTexts(r.policyScope);
    PlainSize(d.policyScope);
  }

  /** A compact denial never takes more. */
  lemma CompactDenialBound(r: PolicyResponse)
    requires !DecisionOf(r).allowed
    ensures CompactDenialSize(r) <= COMPACT_DENIAL_BYTES
  {
    CompactDenialParts(r);
    DecisionTexts(r);
    ScopeTexts(r.policyScope);
    RevisionText(r.snapshotRevision);
    TruncatedSize(r.reason);
    TruncatedSize(r.blockedBy);
    TruncatedSize(r.policyId);
  }

  ghost predicate AllControls(field: string) {
    |field| == COMPACT_FIELD_CHARS && forall i :: 0 <= i < |field| ==> CharSize(field[i]) == 6
  }

  lemma ControlsSize(field: string)
    requires AllControls(field)
    ensures StrSize(Truncated(field)) == 770
  {
    SameWeights(field, COMPACT_FIELD_CHARS, 6);
  }

  /** Denials with the longest decision, scope and revision, and control characters only. */
  ghost predicate IsLargest(r: PolicyResponse) {
    && r.decision == 4 && r.policyScope == 0 && r.snapshotRevision == -0x8000_0000_0000_0000
    && AllControls(r.reason) && AllControls(r.blockedBy) && AllControls(r.policyId)
  }

  lemma LargestDenialSize(r: PolicyResponse)
    requires IsLargest(r)
    ensures !DecisionOf(r).allowed && CompactDenialSize(r) == COMPACT_DENIAL_BYTES
  {
    CompactDenialParts(r);
    DecisionTexts(r);
    ScopeTexts(r.policyScope);
    RevisionText(r.snapshotRevision);
    ControlsSize(r.reason);
    ControlsSize(r.blockedBy);
    ControlsSize(r.policyId);
  }

  lemma SomeDenialIsLargest()
    ensures exists r: PolicyResponse :: IsLargest(r)
  {
    var field := seq(COMPACT_FIELD_CHARS, i => '\U{1}');
    assert IsLargest(PolicyResponse(false, 4, field, field, "", -0x8000_0000_0000_0000, field, 0));
  }

  /** Every denial can be recorded exactly when the metadata limit is at least 2637 bytes. */
  lemma DenialsFitExactlyFrom(limit: nat)
    ensures (forall r: PolicyResponse :: !DecisionOf(r).allowed ==> CompactDenialSize(r) <= limit)
       <==> limit >= COMPACT_DENIAL_BYTES
  {
    if limit >= COMPACT_DENIAL_BYTES {
      forall r: PolicyResponse | !DecisionOf(r).allowed
        ensures CompactDenialSize(r) <= limit
      {
        CompactDenialBound(r);
      }
    } else {
      SomeDenialIsLargest();
      var r: PolicyResponse :| IsLargest(r);
      LargestDenialSize(r);
    }
  }

  // ---------- the limit for unavailable policies ----------

  function UnavailableFrom(verdict: Value, reason: Value): Object {
    map["allowed" := Null, "policyDecision" := verdict, "reason" := reason]
  }

  lemma UnavailableFromParts(measure: Object -> nat, size: Value -> nat, verdict: Value, reason: Value)
    requires GrowsByEntry(measure, size)
    ensures measure(UnavailableFrom(verdict, reason))
         == measure(map[]) + 39 + size(Null) + size(verdict) + size(reason)
  {
    VerdictKeysPlain();
    var a: Object := map["allowed" := Null];
    assert measure(a) == measure(map[]) + 11 + size(Null);
    var b := a["policyDecision" := verdict];
    assert measure(b) == measure(a) + 18 + size(verdict);
    assert b["reason" := reason] == UnavailableFrom(verdict, reason);
  }

  function UnavailableOf(verdict: string, reason: string, blockedBy: string, id: string, scope: string): Object {
    Origin(UnavailableFrom(Str(verdict), Str(reason)), Str(blockedBy), Str(id), Str(scope), Int(0))
  }

  lemma UnavailableParts(measure: Object -> nat, size: Value -> nat,
                         verdict: string, reason: string, blockedBy: string, id: string, scope: string)
    requires GrowsByEntry(measure, size)
    ensures measure(UnavailableOf(verdict, reason, blockedBy, id, scope))
         == measure(map[]) + 103 + size(Null) + size(Str(verdict)) + size(Str(reason))
          + size(Str(blockedBy)) + size(Str(id)) + size(Str(scope)) + size(Int(0))
  {
    UnavailableFromParts(measure, size, Str(verdict), Str(reason));
    OriginParts(measure, size, UnavailableFrom(Str(verdict), Str(reason)), Str(blockedBy), Str(id), Str(scope), Int(0));
  }

  lemma UnavailableSize(verdict: string, reason: string, blockedBy: string, id: string, scope: string)
    ensures FieldsSize(UnavailableOf(verdict, reason, blockedBy, id, scope))
         == 109 + StrSize(verdict) + StrSize(reason) + StrSize(blockedBy) + StrSize(id) + StrSize(scope)
  {
    SizeGrowsByEntry();
    NoFields();
    UnavailableParts(m => FieldsSize(m), v => Size(v), verdict, reason, blockedBy, id, scope);
  }

  lemma UnavailableWordsPlain()
    ensures IsPlainText("unavailable") && IsPlainText("policy_unavailable") && IsPlainText("agent.policy.unavailable")
    ensures IsPlainText("") && IsPlainText("AGENT_POLICY_SCOPE_NONE")
  {
    ScopeWordsPlain();
  }

  lemma PlainUnavailableSize(entry: Value, verdict: string, reason: string, blockedBy: string, id: string,
                             scope: string)
    requires IsPlainText(verdict) && IsPlainText(reason) && IsPlainText(blockedBy)
    requires IsPlainText(id) && IsPlainText(scope)
    requires entry == Obj(UnavailableOf(verdict, reason, blockedBy, id, scope))
    ensures Size(entry) == 119 + |verdict| + |reason| + |blockedBy| + |id| + |scope|
  {
    UnavailableSize(verdict, reason, blockedBy, id, scope);
    PlainSize(verdict);
    PlainSize(reason);
    PlainSize(blockedBy);
    PlainSize(id);
    PlainSize(scope);
    SomeFields(entry.fields, "policy_id");
  }

  lemma UnavailableEntryIs()
    ensures UNAVAILABLE_ENTRY
         == Obj(UnavailableOf("unavailable", "policy_unavailable", "agent.policy.unavailable", "",
             "AGENT_POLICY_SCOPE_NONE"))
  {
  }

  lemma UnavailableEntrySize()
    ensures Size(UNAVAILABLE_ENTRY) == 195
  {
    UnavailableWordsPlain();
    UnavailableEntryIs();
    PlainUnavailableSize(UNAVAILABLE_ENTRY, "unavailable", "policy_unavailable", "agent.policy.unavailable", "",
                         "AGENT_POLICY_SCOPE_NONE");
  }

  function Failure(status: string, severity: string): Object {
    map["status" := Str(status), "severity" := Str(severity)]
  }

  lemma FailureWordsPlain()
    ensures IsPlainText("status") && IsPlainText("severity") && IsPlainText("failed") && IsPlainText("error")
  {
  }

  lemma FailureParts(measure: Object -> nat, size: Value -> nat, status: string, severity: string)
    requires GrowsByEntry(measure, size)
    ensures measure(Failure(status, severity)) == measure(map[]) + 22 + size(Str(status)) + size(Str(severity))
  {
    FailureWordsPlain();
    var a: Object := map["status" := Str(status)];
    assert measure(a) == measure(map[]) + 10 + size(Str(status));
    assert a["severity" := Str(severity)] == Failure(status, severity);
  }

  lemma FailureSize(status: string, severity: string)
    requires IsPlainText(status) && IsPlainText(severity)
    ensures FieldsSize(Failure(status, severity)) == 27 + |status| + |severity|
  {
    SizeGrowsByEntry();
    NoFields();
    FailureParts(m => FieldsSize(m), v => Size(v), status, severity);
    PlainSize(status);
    PlainSize(severity);
  }

  lemma CompactUnavailableIsLimited()
    ensures AttachSinkStatus(COMPACT_UNAVAILABLE, "sent")
         == Obj(Limited(Failure("failed", "error"), "agent_policy_unavailable_metadata_limit", UNAVAILABLE_ENTRY,
             "sent"))
  {
  }

  const COMPACT_UNAVAILABLE_BYTES := 360

  /** The compact record of an unavailable policy has one fixed size. */
  lemma CompactUnavailableSize()
    ensures Size(AttachSinkStatus(COMPACT_UNAVAILABLE, "sent")) == COMPACT_UNAVAILABLE_BYTES
  {
    CompactUnavailableIsLimited();
    LimitTextsPlain();
    FailureWordsPlain();
    FailureSize("failed", "error");
    UnavailableEntrySize();
    LimitedRecordSize(AttachSinkStatus(COMPACT_UNAVAILABLE, "sent"), Failure("failed", "error"),
                      "agent_policy_unavailable_metadata_limit", UNAVAILABLE_ENTRY, "sent");
  }

  // ---------- what an attached decision adds ----------

  /** How much longer the key of an earlier policy entry gets when it moves. */
  function KeyGrowth(obj: Object): int {
    if "policy" in obj then |FreePolicyKey(obj - {"policy"})| - 6 else 0
  }

  /** The bytes of an earlier sink status, which is overwritten. */
  ghost function Replaced(obj: Object): nat {
    if "sinkStatus" in obj then 14 + Size(obj["sinkStatus"]) else 0
  }

  /** The size of a record with decision and sink status, from the metadata and the decision alone. */
  ghost function AttachedBytes(obj: Object, d: Decision): int {
    FieldsSize(obj) + 30 + Size(PolicyEntry(d)) + KeyGrowth(obj) - Replaced(obj)
  }

  lemma OriginalNamesPlain()
    ensures IsPlainText("policy_original") && IsPlainText("policy_client_original") && IsPlainText("_")
  {
  }

  lemma FreeKeyIsPlain(obj: Object, base: string)
    requires IsPlainText(base)
    ensures IsPlainText(FreeKey(obj, base))
  {
    OriginalNamesPlain();
    if base in obj {
      var digits := Decimal(FirstFree(obj, base, 1));
      assert forall c :: c in digits ==> IsPlain(c);
    }
  }

  lemma FreePolicyKeySize(obj: Object)
    ensures StrSize(FreePolicyKey(obj)) == |FreePolicyKey(obj)| + 2
  {
    OriginalNamesPlain();
    FreeKeyIsPlain(obj, "policy_client_original");
    PlainSize(FreePolicyKey(obj));
  }

  // In the lemmas below the key texts are parameters that the requires fixes, so that the
  // verifier treats each as one value and does not evaluate it character by character.

  lemma RecordKeySizes(policy: string, sink: string, sent: string)
    requires policy == "policy" && sink == "sinkStatus" && sent == "sent"
    ensures StrSize(policy) == 8 && StrSize(sink) == 12 && StrSize(sent) == 6
  {
    RecordKeysPlain();
    LimitTextsPlain();
    PlainSize(policy);
    PlainSize(sink);
    PlainSize(sent);
  }

  lemma MovedKeySize(obj: Object, from: string, to_: string)
    requires from in obj && to_ !in obj - {from}
    ensures FieldsSize(MoveTo(obj, from, to_)) == FieldsSize(obj) + StrSize(to_) - StrSize(from)
  {
    RemoveField(obj, from);
    AddField(obj - {from}, to_, obj[from]);
  }

  /** The object that the decision is put into, an earlier entry out of the way. */
  function Cleared(obj: Object): Object {
    if "policy" in obj then MoveTo(obj, "policy", FreePolicyKey(obj - {"policy"})) else obj
  }

  lemma ClearedSize(obj: Object, policy: string)
    requires policy == "policy"
    ensures policy !in Cleared(obj) && FieldsSize(Cleared(obj)) == FieldsSize(obj) + KeyGrowth(obj)
    ensures ("sinkStatus" in Cleared(obj) <==> "sinkStatus" in obj)
    ensures "sinkStatus" in obj ==> Cleared(obj)["sinkStatus"] == obj["sinkStatus"]
  {
    if policy in obj {
      var key := FreePolicyKey(obj - {policy});
      MovedKeySize(obj, policy, key);
      FreePolicyKeySize(obj - {policy});
      RecordKeySizes(policy, "sinkStatus", "sent");
      assert |key| >= 15;
    }
  }

  lemma EnteredSize(m: Object, policy: string, entry: Value, sink: string, status: string)
    requires policy == "policy" && sink == "sinkStatus" && status == "sent" && policy !in m
    ensures FieldsSize(m[policy := entry][sink := Str(status)]) == FieldsSize(m) + 30 + Size(entry) - Replaced(m)
  {
    RecordKeySizes(policy, sink, status);
    AddField(m, policy, entry);
    SetField(m[policy := entry], sink, Str(status));
  }

  /**
   For every object and decision, earlier policy and sink-status entries included: the exact
   size of the record.
   */
  lemma AttachedSize(obj: Object, d: Decision)
    ensures Size(AttachSinkStatus(AttachDecision(Obj(obj), d), "sent")) == AttachedBytes(obj, d)
  {
    ClearedSize(obj, "policy");
    EnteredSize(Cleared(obj), "policy", PolicyEntry(d), "sinkStatus", "sent");
    var record := AttachSinkStatus(AttachDecision(Obj(obj), d), "sent").fields;
    assert record == Cleared(obj)["policy" := PolicyEntry(d)]["sinkStatus" := Str("sent")];
    SomeFields(record, "policy");
  }

  function FullEntry(allowed: bool, decision: string, reason: string, blockedBy: string, routeHint: string,
                     id: string, scope: string, revision: int): Object {
    Origin(Verdict(Bool(allowed), Str(decision), Str(reason))["route_hint" := Str(routeHint)],
           Str(blockedBy), Str(id), Str(scope), Int(revision))
  }

  lemma RouteHintIsNew(allowed: Value, decision: Value, reason: Value, routeHint: Value)
    ensures "route_hint" !in Verdict(allowed, decision, reason)
    ensures LacksOrigin(Verdict(allowed, decision, reason)["route_hint" := routeHint])
  {
  }

  lemma FullEntryParts(measure: Object -> nat, size: Value -> nat, allowed: bool, decision: string, reason: string,
                       blockedBy: string, routeHint: string, id: string, scope: string, revision: int)
    requires GrowsByEntry(measure, size)
    ensures measure(FullEntry(allowed, decision, reason, blockedBy, routeHint, id, scope, revision))
         == measure(map[]) + 129 + size(Bool(allowed)) + 2 * size(Str(decision)) + size(Str(reason))
          + size(Str(blockedBy)) + size(Str(routeHint)) + size(Str(id)) + size(Str(scope)) + size(Int(revision))
  {
    var verdict := Verdict(Bool(allowed), Str(decision), Str(reason));
    VerdictParts(measure, size, Bool(allowed), Str(decision), Str(reason));
    RouteHintIsNew(Bool(allowed), Str(decision), Str(reason), Str(routeHint));
    OriginKeysPlain();
    OriginParts(measure, size, verdict["route_hint" := Str(routeHint)], Str(blockedBy), Str(id), Str(scope),
      Int(revision));
  }

  lemma FullEntrySize(allowed: bool, decision: string, reason: string, blockedBy: string, routeHint: string,
                      id: string, scope: string, revision: int)
    ensures FieldsSize(FullEntry(allowed, decision, reason, blockedBy, routeHint, id, scope, revision))
         == 130 + Size(Bool(allowed)) + 2 * StrSize(decision) + StrSize(reason)
          + StrSize(blockedBy) + StrSize(routeHint) + StrSize(id) + StrSize(scope) + |IntText(revision)|
  {
    SizeGrowsByEntry();
    NoFields();
    FullEntryParts(m => FieldsSize(m), v => Size(v), allowed, decision, reason, blockedBy, routeHint, id, scope,
      revision);
  }

  lemma PolicyEntryIs(d: Decision)
    ensures PolicyEntry(d)
         == Obj(FullEntry(d.allowed, d.decision, d.reason, d.blockedBy, d.routeHint, d.policyId, d.policyScope,
                          d.snapshotRevision))
  {
  }

  /** The entry of any decision, from its texts. */
  lemma PolicyEntrySize(d: Decision)
    ensures Size(PolicyEntry(d))
         == 130 + Size(Bool(d.allowed)) + 2 * StrSize(d.decision) + StrSize(d.reason) + StrSize(d.blockedBy)
          + StrSize(d.routeHint) + StrSize(d.policyId) + StrSize(d.policyScope) + |IntText(d.snapshotRevision)|
  {
    PolicyEntryIs(d);
    FullEntrySize(d.allowed, d.decision, d.reason, d.blockedBy, d.routeHint, d.policyId, d.policyScope,
      d.snapshotRevision);
    SomeFields(PolicyEntry(d).fields, "policy_id");
  }

  lemma AllowedEntryIs(decision: string, reason: string)
    ensures PolicyEntry(AllowedDecision(decision, reason))
         == Obj(FullEntry(true, decision, reason, "", "", "", "AGENT_POLICY_SCOPE_NONE", 0))
  {
  }

  lemma PlainAllowedSize(entry: Value, decision: string, reason: string, none: string, scope: string)
    requires IsPlainText(decision) && IsPlainText(reason) && IsPlainText(none) && IsPlainText(scope)
    requires entry == Obj(FullEntry(true, decision, reason, none, none, none, scope, 0))
    ensures Size(entry) == 149 + 2 * |decision| + |reason| + 3 * |none| + |scope|
  {
    FullEntrySize(true, decision, reason, none, none, none, scope, 0);
    PlainSize(decision);
    PlainSize(reason);
    PlainSize(none);
    PlainSize(scope);
    SomeFields(entry.fields, "policy_id");
  }

  lemma AllowedWordsPlain()
    ensures IsPlainText("skipped") && IsPlainText("policy_skipped_audit_event")
  {
  }

  lemma SkippedEntrySize()
    ensures Size(PolicyEntry(SKIPPED_AUDIT)) == 212
  {
    var decision, reason := "skipped", "policy_skipped_audit_event";
    AllowedWordsPlain();
    UnavailableWordsPlain();
    AllowedEntryIs(decision, reason);
    PlainAllowedSize(PolicyEntry(SKIPPED_AUDIT), decision, reason, "", "AGENT_POLICY_SCOPE_NONE");
  }
}
