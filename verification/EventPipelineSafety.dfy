/**
 What holds of every batch that the event endpoint handles, whatever the outside world answers.
 */
module EventPipelineSafety {
  import opened Wrappers
  import opened Json
  import opened JsonSize
  import opened Adapter
  import opened PolicyGate
  import opened AdapterTables
  import opened PolicyMetadata
  import opened MetadataLimit
  import opened Redaction
  import opened EventPipeline
  import StepConflict

  // ---------- batches ----------

  lemma PassedAppend(rule: Arrival -> Ruling, first: seq<Arrival>, second: seq<Arrival>)
    ensures var n := Passed(rule, first);
            Passed(rule, first + second) == if n < |first| then n else n + Passed(rule, second)
  {
    var n, m := Passed(rule, first), Passed(rule, second);
    var whole := first + second;
    if n < |first| {
      PassedIs(rule, whole, n);
    } else {
      forall i | 0 <= i < n + m ensures Passes(rule, whole[i]) {
        if i >= n {
          assert whole[i] == second[i - n];
        }
      }
      assert m < |second| ==> whole[n + m] == second[m];
      PassedIs(rule, whole, n + m);
    }
  }

  /** What two batches in a row leave in the sink is what one long batch leaves. */
  lemma EmissionsCompose(rule: Arrival -> Ruling, first: seq<Arrival>, second: seq<Arrival>)
    ensures Emitted(rule, first + second)
         == if ReplyTo(rule, first).Accepted? then Emitted(rule, first) + Emitted(rule, second)
             else Emitted(rule, first)
  {
    PassedAppend(rule, first, second);
  }

  /** A refused first batch refuses the long one; otherwise the replies are put together. */
  lemma RepliesCompose(rule: Arrival -> Ruling, first: seq<Arrival>, second: seq<Arrival>)
    ensures var a, b := ReplyTo(rule, first), ReplyTo(rule, second);
            ReplyTo(rule, first + second)
            == if a.Refused? then a
               else if b.Refused? then b
               else Accepted(a.accepted + b.accepted, a.allowed && b.allowed, a.decisions + b.decisions)
  {
    PassedAppend(rule, first, second);
    var a, b := ReplyTo(rule, first), ReplyTo(rule, second);
    if a.Accepted? && b.Accepted? {
      assert ReplyTo(rule, first + second).decisions == a.decisions + b.decisions;
      AllAllowedAppend(a.decisions, b.decisions);
    }
  }

  lemma AllAllowedAppend(a: seq<Decision>, b: seq<Decision>)
    ensures AllAllowed(a + b) == (AllAllowed(a) && AllAllowed(b))
  {
    assert forall i :: 0 <= i < |a| ==> (a + b)[i] == a[i];
    assert forall i :: 0 <= i < |b| ==> (a + b)[|a| + i] == b[i];
  }

  // ---------- every record fits ----------

  lemma SettledFits(v: Envelope, policy: PolicyAnswer, limit: nat, measure: Value -> nat)
    ensures var ruling := Settle(v, policy, limit, measure);
            !ruling.Stop? ==> measure(ruling.envelope.metadata) <= limit
  {
  }

  lemma RulingFits(config: Config, measure: Value -> nat, a: Arrival)
    ensures var ruling := RuleFor(config, measure, a);
            !ruling.Stop? ==> measure(ruling.envelope.metadata) <= config.maxMetadataBytes
  {
    SettledFits(EnvelopeOf(config, a), a.policy, config.maxMetadataBytes, measure);
  }

  /** Nothing reaches the sink whose metadata exceeds the limit. */
  lemma EverythingEmittedFits(config: Config, measure: Value -> nat, batch: seq<Arrival>)
    ensures forall v :: v in Emitted(a => RuleFor(config, measure, a), batch) ==>
              measure(v.metadata) <= config.maxMetadataBytes
  {
    forall a: Arrival
      ensures var ruling := RuleFor(config, measure, a);
              !ruling.Stop? ==> measure(ruling.envelope.metadata) <= config.maxMetadataBytes
    {
      RulingFits(config, measure, a);
    }
    EmittedAllHave((a: Arrival) => RuleFor(config, measure, a), batch,
      (v: Envelope) => measure(v.metadata) <= config.maxMetadataBytes);
  }

  lemma EmittedAllHave(rule: Arrival -> Ruling, batch: seq<Arrival>, property: Envelope -> bool)
    requires forall a: Arrival :: !rule(a).Stop? ==> property(rule(a).envelope)
    ensures forall v :: v in Emitted(rule, batch) ==> property(v)
  {
    var n := Passed(rule, batch);
    assert forall i :: 0 <= i < n ==> property(rule(batch[i]).envelope);
  }

  // ---------- refusals for size ----------

  ghost predicate IsJsonSize(measure: Value -> nat) {
    forall v :: measure(v) == Size(v)
  }

  /**
   From 2637 bytes on, no limit turns a denial into a refusal: the denial reaches the sink,
   in full or compact, whatever the event and the policy's texts are.
   */
  lemma DenialIsRecorded(v: Envelope, policy: PolicyAnswer, limit: nat, measure: Value -> nat)
    requires IsJsonSize(measure) && limit >= COMPACT_DENIAL_BYTES
    requires ShouldValidatePolicy(v) && policy.Responded? && !DecisionOf(policy.response).allowed
    ensures Settle(v, policy, limit, measure).Emit?
    ensures Settle(v, policy, limit, measure).decision == DecisionOf(policy.response).(sinkStatus := "sent")
  {
    CompactDenialBound(policy.response);
    var d := DecisionOf(policy.response).(sinkStatus := "sent");
    assert CompactDecision(d) == CompactDecision(DecisionOf(policy.response));
    assert measure(WithStatus(v, CompactDecision(d)).metadata) == CompactDenialSize(policy.response);
  }

  /** An unavailable policy is put on record exactly when the full or the 360-byte record fits. */
  lemma UnavailableIsRecorded(v: Envelope, limit: nat, measure: Value -> nat)
    requires IsJsonSize(measure) && ShouldValidatePolicy(v)
    ensures Settle(v, Unavailable, limit, measure).Audit?
       <==> limit >= COMPACT_UNAVAILABLE_BYTES || Size(AttachSinkStatus(AttachUnavailable(v.metadata), "sent")) <= limit
  {
    CompactUnavailableSize();
    assert measure(WithStatus(v, COMPACT_UNAVAILABLE).metadata) == COMPACT_UNAVAILABLE_BYTES;
  }

  /**
   Every event with an allowed decision, checked by policy or not, and with any metadata: it is
   emitted if and only if the record with the decision fits, and otherwise refused for size.
   */
  lemma AllowedEmittedExactly(v: Envelope, policy: PolicyAnswer, limit: nat, measure: Value -> nat)
    requires IsJsonSize(measure) && !(ShouldValidatePolicy(v) && policy.Unavailable?)
    requires DecisionFor(ShouldValidatePolicy(v), policy).allowed
    ensures var d := DecisionFor(ShouldValidatePolicy(v), policy);
            var ruling := Settle(v, policy, limit, measure);
            if AttachedBytes(Fields(v.metadata), d) <= limit then ruling.Emit? && ruling.decision == d
            else ruling == Stop(MetadataTooLarge)
  {
    var d := DecisionFor(ShouldValidatePolicy(v), policy);
    AttachedSize(Fields(v.metadata), d);
    assert AttachDecision(v.metadata, d) == AttachDecision(Obj(Fields(v.metadata)), d);
    assert measure(WithStatus(v, AttachDecision(v.metadata, d)).metadata) == AttachedBytes(Fields(v.metadata), d);
  }

  /** Without policy check and earlier entries, exactly 242 bytes must be left below the limit. */
  lemma AuditHeadroom(v: Envelope, policy: PolicyAnswer, limit: nat, measure: Value -> nat)
    requires IsJsonSize(measure) && !ShouldValidatePolicy(v)
    requires v.metadata.Obj? && v.metadata.fields != map[]
    requires "policy" !in v.metadata.fields && "sinkStatus" !in v.metadata.fields
    ensures Settle(v, policy, limit, measure).Emit? <==> Size(v.metadata) + 242 <= limit
  {
    var d := DecisionFor(false, policy);
    assert PolicyEntry(d) == PolicyEntry(SKIPPED_AUDIT);
    SkippedEntrySize();
    AllowedEmittedExactly(v, policy, limit, measure);
  }

  lemma PlainEnvelope(config: Config, a: Arrival)
    requires !config.redact && a.nameConflict.None?
    ensures EnvelopeOf(config, a).metadata == Adapt(a.source, a.event).metadata
  {
  }

  /** The first size check is not enough: metadata within 241 bytes of the limit passes it and is refused later. */
  lemma PassesFirstCheckOnly(config: Config, measure: Value -> nat, a: Arrival)
    requires IsJsonSize(measure) && !config.redact && a.nameConflict.None?
    requires !(config.contextAction.Strict? && a.contextClash) && a.step.Checked? && !a.step.decision.ConflictStrict?
    requires !ShouldValidatePolicy(EnvelopeOf(config, a))
    requires var m := Adapt(a.source, a.event).metadata;
             && m.Obj? && m.fields != map[] && "policy" !in m.fields && "sinkStatus" !in m.fields
             && Size(m) <= config.maxMetadataBytes < Size(m) + 242
    ensures Refusal(config, measure, a).None? && RuleFor(config, measure, a) == Stop(MetadataTooLarge)
  {
    var v := EnvelopeOf(config, a);
    PlainEnvelope(config, a);
    AuditHeadroom(v, a.policy, config.maxMetadataBytes, measure);
    AllowedEmittedExactly(v, a.policy, config.maxMetadataBytes, measure);
  }

  // ---------- why an event is stopped ----------

  ghost predicate FirstCheckFits(config: Config, measure: Value -> nat, a: Arrival) {
    measure(Adapt(a.source, a.event).metadata) <= config.maxMetadataBytes
  }

  ghost predicate ContextStops(config: Config, a: Arrival) {
    config.contextAction == StepConflict.Strict && a.contextClash
  }

  /** The checks before policy let the event through. */
  ghost predicate ReachesPolicy(config: Config, measure: Value -> nat, a: Arrival) {
    && FirstCheckFits(config, measure, a)
    && !ContextStops(config, a)
    && a.step != StoreFailed && a.step != Checked(StepConflict.ConflictStrict)
  }

  /** Neither the full record nor, where one is allowed, the compact record is within the limit. */
  ghost predicate NoRecordFits(v: Envelope, policy: PolicyAnswer, limit: nat, measure: Value -> nat) {
    if ShouldValidatePolicy(v) && policy.Unavailable? then
      && measure(AttachSinkStatus(AttachUnavailable(v.metadata), "sent")) > limit
      && measure(AttachSinkStatus(COMPACT_UNAVAILABLE, "sent")) > limit
    else
      var d := DecisionFor(ShouldValidatePolicy(v), policy);
      && measure(AttachSinkStatus(AttachDecision(v.metadata, d), "sent")) > limit
      && (d.allowed || measure(AttachSinkStatus(CompactDecision(d), "sent")) > limit)
  }

  lemma SettledOutcome(v: Envelope, policy: PolicyAnswer, limit: nat, measure: Value -> nat)
    ensures var ruling := Settle(v, policy, limit, measure);
            && (ruling == Stop(MetadataTooLarge) <==> NoRecordFits(v, policy, limit, measure))
            && (ruling.Stop? ==> ruling == Stop(MetadataTooLarge))
            && (ruling.Audit? ==> ShouldValidatePolicy(v) && policy.Unavailable?)
            && (ruling.Emit? ==> !(ShouldValidatePolicy(v) && policy.Unavailable?))
  {
  }

  /**
   Which event is stopped with which error: a conflict of context, a failed store and a strict
   step conflict, in this order and each only when nothing before it stops the event; too much
   metadata before all of them, or after them when no record fits.
   */
  lemma StoppedExactly(config: Config, measure: Value -> nat, a: Arrival)
    ensures var ruling, v := RuleFor(config, measure, a), EnvelopeOf(config, a);
            var fits, clash := FirstCheckFits(config, measure, a), ContextStops(config, a);
            var asks := ShouldValidatePolicy(v) && a.policy.Unavailable?;
            var large := NoRecordFits(v, a.policy, config.maxMetadataBytes, measure);
            && (ruling == Stop(ContextConflict) <==> fits && clash)
            && (ruling == Stop(SinkFailed) <==> fits && !clash && a.step == StoreFailed)
            && (ruling == Stop(StepIdConflict) <==> fits && !clash && a.step == Checked(StepConflict.ConflictStrict))
            && (ruling == Stop(MetadataTooLarge) <==> !fits || (ReachesPolicy(config, measure, a) && large))
            && (ruling.Audit? <==> ReachesPolicy(config, measure, a) && !large && asks)
            && (ruling.Emit? <==> ReachesPolicy(config, measure, a) && !large && !asks)
  {
    SettledOutcome(EnvelopeOf(config, a), a.policy, config.maxMetadataBytes, measure);
  }

  lemma StopEndsBatch(rule: Arrival -> Ruling, batch: seq<Arrival>, i: nat, error: Error)
    requires i < |batch| && rule(batch[i]) == Stop(error)
    ensures Passed(rule, batch) <= i && |Emitted(rule, batch)| <= i
    ensures ReplyTo(rule, batch).Refused?
    ensures (forall j :: 0 <= j < i ==> Passes(rule, batch[j])) ==>
              ReplyTo(rule, batch) == Refused(error) && |Emitted(rule, batch)| == i
  {
    assert !Passes(rule, batch[i]);
    if forall j :: 0 <= j < i ==> Passes(rule, batch[j]) {
      PassedIs(rule, batch, i);
    }
  }

  /**
   An event that one of the early checks stops leaves no record, nor does any after it; if all
   before it passed, the batch is answered with exactly that check's error.
   */
  lemma StoppedInBatch(config: Config, measure: Value -> nat, batch: seq<Arrival>, i: nat)
    requires i < |batch| && !ReachesPolicy(config, measure, batch[i])
    ensures var rule := (a: Arrival) => RuleFor(config, measure, a);
            var a, reached := batch[i], forall j :: 0 <= j < i ==> Passes(rule, batch[j]);
            var fits, clash := FirstCheckFits(config, measure, a), ContextStops(config, a);
            var error := if !fits then MetadataTooLarge
                         else if clash then ContextConflict
                         else if a.step == StoreFailed then SinkFailed
                         else StepIdConflict;
            && ReplyTo(rule, batch).Refused? && |Emitted(rule, batch)| <= i
            && (reached ==> ReplyTo(rule, batch) == Refused(error) && |Emitted(rule, batch)| == i)
  {
    var rule := (a: Arrival) => RuleFor(config, measure, a);
    StoppedExactly(config, measure, batch[i]);
    assert rule(batch[i]).Stop?;
    StopEndsBatch(rule, batch, i, rule(batch[i]).error);
  }

  // ---------- the gate, end to end ----------

  predicate IsGated(a: Arrival) {
    Adapt(a.source, a.event).eventType in GATED_TYPES
  }

  /** The envelope's gate is the one of its adapted event. */
  lemma EnvelopeGate(config: Config, a: Arrival)
    requires Governed(a.source)
    ensures ShouldValidatePolicy(EnvelopeOf(config, a)) <==> IsGated(a)
  {
    var metadata := Prepare(config.redact, a.nameConflict, Adapt(a.source, a.event).metadata);
    PolicyCheckedExactlyForGatedTypes(a.source, a.event, a.freshId, metadata);
  }

  lemma SettledDecision(v: Envelope, policy: PolicyAnswer, limit: nat, measure: Value -> nat)
    ensures var ruling := Settle(v, policy, limit, measure);
            && (ruling.Emit? ==> ruling.decision == DecisionFor(ShouldValidatePolicy(v), policy))
            && (ruling.Emit? && ShouldValidatePolicy(v) ==> !policy.Unavailable?)
            && (ruling.Emit? ==> ruling.envelope == v.(metadata := ruling.envelope.metadata))
            && (ruling.Audit? ==> ShouldValidatePolicy(v) && policy.Unavailable?)
            && (ruling.Audit? ==>
                ruling.envelope == v.(eventType := "policy_unavailable", metadata := ruling.envelope.metadata))
  {
  }

  /** ALLOW and AUDIT_WARNING let an event go on; a number outside the enumeration leaves it to the flag. */
  ghost predicate Allows(r: PolicyResponse) {
    r.decision == 1 || r.decision == 5 || (!(1 <= r.decision <= 5) && r.allowed)
  }

  ghost predicate PolicyAllows(policy: PolicyAnswer) {
    policy.Disabled? || (policy.Responded? && Allows(policy.response))
  }

  lemma DecisionAllows(gated: bool, policy: PolicyAnswer)
    requires !(gated && policy.Unavailable?)
    ensures DecisionFor(gated, policy).allowed <==> !gated || PolicyAllows(policy)
  {
    if policy.Responded? {
      DecisionMeaning(policy.response);
    }
  }

  lemma GatedRuling(config: Config, measure: Value -> nat, a: Arrival)
    requires Governed(a.source)
    ensures var ruling := RuleFor(config, measure, a);
            && (ruling.Emit? ==> ruling.decision == DecisionFor(IsGated(a), a.policy))
            && (ruling.Emit? && IsGated(a) ==> !a.policy.Unavailable?)
            && (ruling.Audit? ==> IsGated(a) && a.policy.Unavailable?)
  {
    EnvelopeGate(config, a);
    SettledDecision(EnvelopeOf(config, a), a.policy, config.maxMetadataBytes, measure);
  }

  /**
   An event of a gated type is emitted only with the policy's own decision, any other only as
   skipped; it is marked allowed exactly if it is not gated or the policy's answer allows it.
   */
  lemma GatedEventsAreDecided(config: Config, measure: Value -> nat, a: Arrival)
    requires Governed(a.source)
    ensures var ruling := RuleFor(config, measure, a);
            && (ruling.Emit? ==> ruling.decision == DecisionFor(IsGated(a), a.policy))
            && (ruling.Emit? && IsGated(a) ==> !a.policy.Unavailable?)
            && (ruling.Emit? ==> (ruling.decision.allowed <==> !IsGated(a) || PolicyAllows(a.policy)))
            && (ruling.Audit? ==> IsGated(a) && a.policy.Unavailable?)
  {
    GatedRuling(config, measure, a);
    if RuleFor(config, measure, a).Emit? {
      DecisionAllows(IsGated(a), a.policy);
    }
  }

  /**
   A batch is answered "allowed" exactly when all its events were emitted and policy allowed
   every event of a gated type.
   */
  lemma AllowedMeansPolicyAllowed(config: Config, measure: Value -> nat, batch: seq<Arrival>)
    requires forall i :: 0 <= i < |batch| ==> Governed(batch[i].source)
    ensures var rule := (a: Arrival) => RuleFor(config, measure, a);
            var reply := ReplyTo(rule, batch);
            reply.Accepted? ==>
              (reply.allowed <==> forall i :: 0 <= i < |batch| && IsGated(batch[i]) ==> PolicyAllows(batch[i].policy))
  {
    forall i | 0 <= i < |batch|
      ensures var ruling := RuleFor(config, measure, batch[i]);
              ruling.Emit? ==> (ruling.decision.allowed <==> !IsGated(batch[i]) || PolicyAllows(batch[i].policy))
    {
      GatedEventsAreDecided(config, measure, batch[i]);
    }
    AcceptedAllowed((a: Arrival) => RuleFor(config, measure, a), batch, a => !IsGated(a) || PolicyAllows(a.policy));
  }

  lemma AcceptedAllowed(rule: Arrival -> Ruling, batch: seq<Arrival>, fine: Arrival -> bool)
    requires forall i :: 0 <= i < |batch| && rule(batch[i]).Emit? ==>
          (rule(batch[i]).decision.allowed <==> fine(batch[i]))
    ensures var reply := ReplyTo(rule, batch);
            reply.Accepted? ==> (reply.allowed <==> forall i :: 0 <= i < |batch| ==> fine(batch[i]))
  {
    var reply := ReplyTo(rule, batch);
    if reply.Accepted? {
      assert forall i :: 0 <= i < |batch| ==> Passes(rule, batch[i]) && reply.decisions[i] == rule(batch[i]).decision;
    }
  }

  // ---------- the records of a batch ----------

  /** The record apart from its metadata. */
  function Frame(v: Envelope): Envelope {
    v.(metadata := Null)
  }

  lemma SettledShape(v: Envelope, policy: PolicyAnswer, limit: nat, measure: Value -> nat)
    ensures var ruling := Settle(v, policy, limit, measure);
            && ruling != Stop(PolicyUnavailable)
            && (ruling.Emit? ==> Frame(ruling.envelope) == Frame(v))
            && (ruling.Audit? ==> Frame(ruling.envelope) == Frame(v).(eventType := "policy_unavailable"))
  {
  }

  lemma RulingShape(config: Config, measure: Value -> nat, a: Arrival)
    ensures var ruling, v := RuleFor(config, measure, a), EnvelopeOf(config, a);
            && ruling != Stop(PolicyUnavailable)
            && (ruling.Emit? ==> Frame(ruling.envelope) == Frame(v))
            && (ruling.Audit? ==> Frame(ruling.envelope) == Frame(v).(eventType := "policy_unavailable"))
  {
    SettledShape(EnvelopeOf(config, a), a.policy, config.maxMetadataBytes, measure);
  }

  lemma RecordsFollow(rule: Arrival -> Ruling, envelope: Arrival -> Envelope, batch: seq<Arrival>)
    requires forall a: Arrival :: rule(a) != Stop(PolicyUnavailable)
    requires forall a: Arrival :: rule(a).Emit? ==> Frame(rule(a).envelope) == Frame(envelope(a))
    requires forall a: Arrival :: rule(a).Audit? ==>
               Frame(rule(a).envelope) == Frame(envelope(a)).(eventType := "policy_unavailable")
    ensures var n, out, reply := Passed(rule, batch), Emitted(rule, batch), ReplyTo(rule, batch);
            && (forall i :: 0 <= i < n ==> Frame(out[i]) == Frame(envelope(batch[i])))
            && |out| == (if reply == Refused(PolicyUnavailable) then n + 1 else n)
            && (|out| == n + 1 ==>
                n < |batch| && Frame(out[n]) == Frame(envelope(batch[n])).(eventType := "policy_unavailable"))
            && (reply.Accepted? <==> forall i :: 0 <= i < |batch| ==> Passes(rule, batch[i]))
            && (reply.Accepted? ==> |out| == |batch| == reply.accepted == |reply.decisions|)
  {
    var n := Passed(rule, batch);
    assert forall i :: 0 <= i < n ==> Passes(rule, batch[i]);
  }

  /**
   The sink receives one record for each event before the first failure, in the batch's order
   and under the event's own identity; an audit record for the failing event follows exactly
   when the reply is that policy was unavailable.
   */
  lemma RecordsFollowBatch(config: Config, measure: Value -> nat, batch: seq<Arrival>)
    ensures var rule := (a: Arrival) => RuleFor(config, measure, a);
            var n, out, reply := Passed(rule, batch), Emitted(rule, batch), ReplyTo(rule, batch);
            && (forall i :: 0 <= i < n ==> Frame(out[i]) == Frame(EnvelopeOf(config, batch[i])))
            && |out| == (if reply == Refused(PolicyUnavailable) then n + 1 else n)
            && (|out| == n + 1 ==>
                  && n < |batch|
                  && Frame(out[n]) == Frame(EnvelopeOf(config, batch[n])).(eventType := "policy_unavailable"))
            && (reply.Accepted? <==> forall i :: 0 <= i < |batch| ==> Passes(rule, batch[i]))
            && (reply.Accepted? ==> |out| == |batch| == reply.accepted == |reply.decisions|)
  {
    forall a: Arrival
      ensures var ruling, v := RuleFor(config, measure, a), EnvelopeOf(config, a);
              && ruling != Stop(PolicyUnavailable)
              && (ruling.Emit? ==> Frame(ruling.envelope) == Frame(v))
              && (ruling.Audit? ==> Frame(ruling.envelope) == Frame(v).(eventType := "policy_unavailable"))
    {
      RulingShape(config, measure, a);
    }
    RecordsFollow((a: Arrival) => RuleFor(config, measure, a), (a: Arrival) => EnvelopeOf(config, a), batch);
  }

  /**
   A record says who acted, as the client or its framework says it, and which of the two
   conflicts were let through as warnings.
   */
  lemma RecordSaysWho(config: Config, measure: Value -> nat, a: Arrival, v: Envelope)
    requires var ruling := RuleFor(config, measure, a); !ruling.Stop? && v == ruling.envelope
    ensures IdentityOf(v) == IdentityIn(a.source, a.event)
    ensures v.source == a.source && v.name == a.event.name && v.toolCallId == a.event.toolCallId
    ensures v.eventId == if a.event.eventId.Some? then a.event.eventId.value else a.freshId
    ensures v.contextConflict <==> config.contextAction == StepConflict.Warn && a.contextClash
    ensures v.stepIdConflict <==> a.step == Checked(StepConflict.ConflictWarn)
  {
    RulingShape(config, measure, a);
    StoppedExactly(config, measure, a);
    var event := Adapt(a.source, a.event);
    EnvelopeIdentity(a.source, a.event, a.freshId, Prepare(config.redact, a.nameConflict, event.metadata));
    assert Frame(v).(eventType := "") == Frame(EnvelopeOf(config, a)).(eventType := "");
  }

  // ---------- what the client sent ----------

  /** A record carries all its metadata if that fits; otherwise it is the compact record of a denial. */
  lemma RecordKeepsMetadata(v: Envelope, d: Decision, limit: nat, measure: Value -> nat)
    returns (where_: map<string, string>)
    ensures var ruling := SettleDecided(v, d, limit, measure);
            ruling.Emit? ==>
              var record := ruling.envelope.metadata;
              if measure(AttachSinkStatus(AttachDecision(v.metadata, d), "sent")) <= limit
              then && record.Obj?
                   && Moved(Fields(v.metadata) - {"sinkStatus"}, record.fields, where_, DecisionRenames)
                   && Get(record, "policy") == Some(PolicyEntry(d))
                   && Get(record, "sinkStatus") == Some(Str("sent"))
              else !d.allowed && record == AttachSinkStatus(CompactDecision(d), "sent")
  {
    where_ := AttachedKeeps(v.metadata, d, "sent");
  }

  /** The same for the audit record of an unavailable policy. */
  lemma AuditKeepsMetadata(v: Envelope, limit: nat, measure: Value -> nat) returns (where_: map<string, string>)
    ensures var ruling := SettleUnavailable(v, limit, measure);
            ruling.Audit? ==>
              var record := ruling.envelope.metadata;
              if measure(AttachSinkStatus(AttachUnavailable(v.metadata), "sent")) <= limit
              then && record.Obj?
                   && Moved(Fields(v.metadata) - {"sinkStatus"}, record.fields, where_, UnavailableRenames)
                   && Get(record, "policy") == Some(UNAVAILABLE_ENTRY)
                   && Get(record, "sinkStatus") == Some(Str("sent"))
              else record == AttachSinkStatus(COMPACT_UNAVAILABLE, "sent")
  {
    where_ := UnavailableKeeps(v.metadata, "sent");
  }

  lemma FullRecordKeeps(v: Envelope, d: Decision, limit: nat, measure: Value -> nat, k: string)
    requires Get(v.metadata, k).Some? && k != "policy" && k != "sinkStatus"
    ensures var ruling := SettleDecided(v, d, limit, measure);
            ruling.Emit? && measure(AttachSinkStatus(AttachDecision(v.metadata, d), "sent")) <= limit ==>
              Get(ruling.envelope.metadata, k) == Get(v.metadata, k)
  {
    var w := RecordKeepsMetadata(v, d, limit, measure);
    assert k in Fields(v.metadata) - {"sinkStatus"};
  }

  /** The gateway overwrites a sink status always, and four more keys when it notes a name conflict. */
  predicate Overwritten(a: Arrival, k: string) {
    k == "sinkStatus" || (a.nameConflict.Some? && IsConflictKey(k))
  }

  /** All other entries of the client's metadata, redacted where that is on. */
  function ClientEntries(config: Config, a: Arrival): Object {
    var sent := Fields(a.event.metadata);
    map k | k in sent && !Overwritten(a, k) :: PreparedEntry(config.redact, k, sent[k])
  }

  lemma EnvelopeKeeps(config: Config, a: Arrival, k: string)
    requires k in ClientEntries(config, a)
    ensures Get(EnvelopeOf(config, a).metadata, k) == Some(ClientEntries(config, a)[k])
  {
    AdaptKeepsMetadata(a.source, a.event, k);
    AdaptedIsObject(a.source, a.event);
    PrepareKeeps(config.redact, a.nameConflict, Adapt(a.source, a.event).metadata, k);
  }

  lemma EnvelopeKeepsAll(config: Config, a: Arrival)
    ensures var part, all := ClientEntries(config, a), Fields(EnvelopeOf(config, a).metadata) - {"sinkStatus"};
            forall k :: k in part ==> k in all && all[k] == part[k]
  {
    forall k | k in ClientEntries(config, a)
      ensures Get(EnvelopeOf(config, a).metadata, k) == Some(ClientEntries(config, a)[k])
    {
      EnvelopeKeeps(config, a, k);
    }
  }

  function DecisionOn(config: Config, a: Arrival): Decision {
    DecisionFor(ShouldValidatePolicy(EnvelopeOf(config, a)), a.policy)
  }

  function FullRecord(config: Config, a: Arrival): Value {
    AttachSinkStatus(AttachDecision(EnvelopeOf(config, a).metadata, DecisionOn(config, a)), "sent")
  }

  function FullAudit(config: Config, a: Arrival): Value {
    AttachSinkStatus(AttachUnavailable(EnvelopeOf(config, a).metadata), "sent")
  }

  lemma EmittedIsDecided(config: Config, measure: Value -> nat, a: Arrival)
    ensures var ruling, v, limit := RuleFor(config, measure, a), EnvelopeOf(config, a), config.maxMetadataBytes;
            && (ruling.Emit? ==> ruling == SettleDecided(v, DecisionOn(config, a), limit, measure))
            && (ruling.Audit? ==> ruling == SettleUnavailable(v, limit, measure))
  {
  }

  /**
   From request to sink, for every event that is emitted, allowed or denied. If the full record
   fits, it has every entry that the client sent and that is not overwritten, each in its own place, under its
   own key or, for a policy entry, under a key that extends one of two names. Otherwise the event was denied and
   the record is the compact one, without any of the client's entries.
   */
  lemma ClientMetadataSurvives(config: Config, measure: Value -> nat, a: Arrival)
    returns (where_: map<string, string>)
    ensures var ruling := RuleFor(config, measure, a);
            ruling.Emit? ==>
              if measure(FullRecord(config, a)) <= config.maxMetadataBytes
              then ruling.envelope.metadata.Obj?
                && Moved(ClientEntries(config, a), ruling.envelope.metadata.fields, where_, DecisionRenames)
              else && !ruling.decision.allowed
                   && ruling.envelope.metadata == AttachSinkStatus(CompactDecision(ruling.decision), "sent")
  {
    var v, d := EnvelopeOf(config, a), DecisionOn(config, a);
    var ruling := RuleFor(config, measure, a);
    EmittedIsDecided(config, measure, a);
    var w := RecordKeepsMetadata(v, d, config.maxMetadataBytes, measure);
    where_ := map k | k in ClientEntries(config, a) && k in w :: w[k];
    if ruling.Emit? && measure(FullRecord(config, a)) <= config.maxMetadataBytes {
      EnvelopeKeepsAll(config, a);
      MovedPart(ClientEntries(config, a), Fields(v.metadata) - {"sinkStatus"}, ruling.envelope.metadata.fields, w,
                DecisionRenames);
    }
  }

  /** The same for the audit record of an unavailable policy; three of the client's entries may change their keys. */
  lemma ClientMetadataSurvivesAudit(config: Config, measure: Value -> nat, a: Arrival)
    returns (where_: map<string, string>)
    ensures var ruling := RuleFor(config, measure, a);
            ruling.Audit? ==>
              if measure(FullAudit(config, a)) <= config.maxMetadataBytes
              then ruling.envelope.metadata.Obj?
                && Moved(ClientEntries(config, a), ruling.envelope.metadata.fields, where_, UnavailableRenames)
              else ruling.envelope.metadata == AttachSinkStatus(COMPACT_UNAVAILABLE, "sent")
  {
    var v := EnvelopeOf(config, a);
    var ruling := RuleFor(config, measure, a);
    EmittedIsDecided(config, measure, a);
    var w := AuditKeepsMetadata(v, config.maxMetadataBytes, measure);
    where_ := map k | k in ClientEntries(config, a) && k in w :: w[k];
    if ruling.Audit? && measure(FullAudit(config, a)) <= config.maxMetadataBytes {
      EnvelopeKeepsAll(config, a);
      MovedPart(ClientEntries(config, a), Fields(v.metadata) - {"sinkStatus"}, ruling.envelope.metadata.fields, w,
                UnavailableRenames);
    }
  }

  /** What the note of a name conflict says, for a metadata key that it takes. */
  function NotedValue(c: NameConflict, k: string): Value
    requires IsConflictKey(k)
  {
    if k == "registeredAgentName" then Str(c.registered)
    else if k == "selfReportedAgentName" then Str(c.selfReported)
    else if k == "selfReportedAgentNameSource" then Str(c.source)
    else Bool(true)
  }

  lemma NotedInEnvelope(config: Config, a: Arrival, k: string)
    requires a.nameConflict.Some? && IsConflictKey(k)
    ensures Get(EnvelopeOf(config, a).metadata, k) == Some(NotedValue(a.nameConflict.value, k))
  {
  }

  /** The entries that do not survive: a full record has the gateway's value under each overwritten key. */
  lemma OverwrittenKeys(config: Config, measure: Value -> nat, a: Arrival, k: string)
    requires Overwritten(a, k)
    ensures var ruling := RuleFor(config, measure, a);
            ruling.Emit? && measure(FullRecord(config, a)) <= config.maxMetadataBytes ==>
              Get(ruling.envelope.metadata, k)
              == Some(if k == "sinkStatus" then Str("sent") else NotedValue(a.nameConflict.value, k))
  {
    var v, d := EnvelopeOf(config, a), DecisionOn(config, a);
    EmittedIsDecided(config, measure, a);
    var w := RecordKeepsMetadata(v, d, config.maxMetadataBytes, measure);
    if k != "sinkStatus" {
      NotedInEnvelope(config, a, k);
      FullRecordKeeps(v, d, config.maxMetadataBytes, measure, k);
    }
  }
}
