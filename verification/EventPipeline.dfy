/**
 The event endpoint (handle_agent_events in agent/service.rs): a batch is adapted, checked,
 decided and emitted event by event, and the first failure ends it.

 What the gateway learns from outside while it handles an event (header context, names, step
 store, policy service, sink) is part of the event's arrival and is arbitrary.
 */
module EventPipeline {
  import opened Wrappers
  import opened Json
  import opened Adapter
  import opened PolicyGate
  import opened PolicyMetadata
  import opened Redaction
  import StepConflict

  // ---------- one event ----------

  datatype Error = MetadataTooLarge | ContextConflict | StepIdConflict | SinkFailed | PolicyUnavailable

  datatype PolicyAnswer = Disabled | Responded(response: PolicyResponse) | Unavailable

  datatype StepAnswer = StoreFailed | Checked(decision: StepConflict.Decision)

  /**
   contextClash: the header context disagrees with the event; nameConflict: the registered agent
   name disagrees with a reported one; sinkUp: the sink takes this event's record.
   */
  datatype Arrival = Arrival(
    source: Source, event: Event, freshId: string, contextClash: bool, nameConflict: Option<NameConflict>,
    step: StepAnswer, policy: PolicyAnswer, sinkUp: bool)

  datatype Config = Config(contextAction: StepConflict.ConflictAction, redact: bool, maxMetadataBytes: nat)

  datatype Ruling =
    | Emit(envelope: Envelope, decision: Decision)
    | Audit(envelope: Envelope)
    | Stop(error: Error)

  function EnvelopeOf(config: Config, a: Arrival): Envelope {
    var event := Adapt(a.source, a.event);
    NormalizeEvent(event, a.freshId, Prepare(config.redact, a.nameConflict, event.metadata)).(
      contextConflict := !config.contextAction.Disabled? && a.contextClash,
      stepIdConflict := a.step.Checked? && (a.step.decision.ConflictWarn? || a.step.decision.ConflictStrict?))
  }

  function DecisionFor(gated: bool, policy: PolicyAnswer): Decision {
    var d := if !gated then SKIPPED_AUDIT
             else if policy.Responded? then DecisionOf(policy.response)
             else DISABLED_ALLOWED;
    d.(sinkStatus := "sent")
  }

  function WithStatus(v: Envelope, metadata: Value): Envelope {
    v.(metadata := AttachSinkStatus(metadata, "sent"))
  }

  function SettleUnavailable(v: Envelope, limit: nat, measure: Value -> nat): Ruling {
    var renamed := v.(eventType := "policy_unavailable");
    var full := WithStatus(renamed, AttachUnavailable(v.metadata));
    var compact := WithStatus(renamed, COMPACT_UNAVAILABLE);
    if measure(full.metadata) <= limit then Audit(full)
    else if measure(compact.metadata) <= limit then Audit(compact)
    else Stop(MetadataTooLarge)
  }

  function SettleDecided(v: Envelope, d: Decision, limit: nat, measure: Value -> nat): Ruling {
    var full := WithStatus(v, AttachDecision(v.metadata, d));
    var compact := WithStatus(v, CompactDecision(d));
    if measure(full.metadata) <= limit then Emit(full, d)
    else if !d.allowed && measure(compact.metadata) <= limit then Emit(compact, d)
    else Stop(MetadataTooLarge)
  }

  function Settle(v: Envelope, policy: PolicyAnswer, limit: nat, measure: Value -> nat): Ruling {
    if ShouldValidatePolicy(v) && policy.Unavailable? then SettleUnavailable(v, limit, measure)
    else SettleDecided(v, DecisionFor(ShouldValidatePolicy(v), policy), limit, measure)
  }

  /** Why an event is refused before its policy is looked at. */
  function Refusal(config: Config, measure: Value -> nat, a: Arrival): Option<Error> {
    if measure(Adapt(a.source, a.event).metadata) > config.maxMetadataBytes then Some(MetadataTooLarge)
    else if config.contextAction.Strict? && a.contextClash then Some(ContextConflict)
    else if a.step.StoreFailed? then Some(SinkFailed)
    else if a.step.decision.ConflictStrict? then Some(StepIdConflict)
    else None
  }

  function RuleFor(config: Config, measure: Value -> nat, a: Arrival): Ruling {
    var refusal := Refusal(config, measure, a);
    if refusal.Some? then Stop(refusal.value)
    else Settle(EnvelopeOf(config, a), a.policy, config.maxMetadataBytes, measure)
  }

  // ---------- a batch ----------

  datatype Reply =
    | Accepted(accepted: nat, allowed: bool, decisions: seq<Decision>)
    | Refused(error: Error)

  predicate Passes(rule: Arrival -> Ruling, a: Arrival) {
    rule(a).Emit? && a.sinkUp
  }

  /** How many events pass before the first that does not. */
  function Passed(rule: Arrival -> Ruling, batch: seq<Arrival>): (n: nat)
    ensures n <= |batch|
    ensures forall i :: 0 <= i < n ==> Passes(rule, batch[i])
    ensures n < |batch| ==> !Passes(rule, batch[n])
  {
    if batch == [] || !Passes(rule, batch[0]) then 0 else 1 + Passed(rule, batch[1..])
  }

  function Failure(r: Ruling): Error {
    match r
    case Stop(error) => error
    case _ => SinkFailed
  }

  /** The records a batch leaves in the sink. */
  function Emitted(rule: Arrival -> Ruling, batch: seq<Arrival>): seq<Envelope> {
    var n := Passed(rule, batch);
    seq(n, i requires 0 <= i < n => rule(batch[i]).envelope)
    + (if n < |batch| && rule(batch[n]).Audit? && batch[n].sinkUp then [rule(batch[n]).envelope] else [])
  }

  predicate AllAllowed(decisions: seq<Decision>) {
    forall i :: 0 <= i < |decisions| ==> decisions[i].allowed
  }

  function ReplyTo(rule: Arrival -> Ruling, batch: seq<Arrival>): Reply {
    var n := Passed(rule, batch);
    if n == |batch| then
      var decisions := seq(n, i requires 0 <= i < n => rule(batch[i]).decision);
      Accepted(n, AllAllowed(decisions), decisions)
    else if rule(batch[n]).Audit? && batch[n].sinkUp then Refused(PolicyUnavailable)
    else Refused(Failure(rule(batch[n])))
  }

  lemma PassedIs(rule: Arrival -> Ruling, batch: seq<Arrival>, n: nat)
    requires n <= |batch|
    requires forall i :: 0 <= i < n ==> Passes(rule, batch[i])
    requires n < |batch| ==> !Passes(rule, batch[n])
    ensures Passed(rule, batch) == n
  {
  }

  // ---------- the handler ----------

  class EventSink {
    var records: seq<Envelope>

    constructor ()
      ensures records == []
    {
      records := [];
    }

    method Append(v: Envelope, up: bool) returns (ok: bool)
      modifies this
      ensures ok == up
      ensures records == old(records) + if up then [v] else []
    {
      if up {
        records := records + [v];
      }
      ok := up;
    }
  }

  method SettleEvent(v: Envelope, policy: PolicyAnswer, limit: nat, measure: Value -> nat) returns (ruling: Ruling)
    ensures ruling == Settle(v, policy, limit, measure)
  {
    var envelope := v;
    if ShouldValidatePolicy(v) && policy.Unavailable? {
      var metadata := AttachPolicyUnavailable(v.metadata);
      envelope := envelope.(eventType := "policy_unavailable", metadata := AttachSinkStatus(metadata, "sent"));
      if measure(envelope.metadata) > limit {
        envelope := envelope.(metadata := AttachSinkStatus(COMPACT_UNAVAILABLE, "sent"));
        if measure(envelope.metadata) > limit {
          return Stop(MetadataTooLarge);
        }
      }
      return Audit(envelope);
    }
    var decision := DecisionFor(ShouldValidatePolicy(v), policy);
    var metadata := AttachPolicyDecision(v.metadata, decision);
    envelope := envelope.(metadata := AttachSinkStatus(metadata, decision.sinkStatus));
    if measure(envelope.metadata) > limit {
      if decision.allowed {
        return Stop(MetadataTooLarge);
      }
      envelope := envelope.(metadata := AttachSinkStatus(CompactDecision(decision), decision.sinkStatus));
      if measure(envelope.metadata) > limit {
        return Stop(MetadataTooLarge);
      }
    }
    ruling := Emit(envelope, decision);
  }

  /** A name for the rulings under one configuration. */
  ghost predicate Follows(rule: Arrival -> Ruling, config: Config, measure: Value -> nat) {
    forall a: Arrival {:trigger RuleFor(config, measure, a)} :: rule(a) == RuleFor(config, measure, a)
  }

  method RuleOn(config: Config, measure: Value -> nat, a: Arrival, ghost rule: Arrival -> Ruling)
    returns (ruling: Ruling)
    requires Follows(rule, config, measure)
    ensures ruling == rule(a)
  {
    assert rule(a) == RuleFor(config, measure, a);
    var event := Adapt(a.source, a.event);
    if measure(event.metadata) > config.maxMetadataBytes {
      return Stop(MetadataTooLarge);
    }
    if config.contextAction.Strict? && a.contextClash {
      return Stop(ContextConflict);
    }
    if a.step.StoreFailed? {
      return Stop(SinkFailed);
    }
    if a.step.decision.ConflictStrict? {
      return Stop(StepIdConflict);
    }
    ruling := SettleEvent(EnvelopeOf(config, a), a.policy, config.maxMetadataBytes, measure);
  }

  method EmitBatch(sink: EventSink, config: Config, measure: Value -> nat, batch: seq<Arrival>,
                   ghost rule: Arrival -> Ruling)
    returns (reply: Reply)
    requires Follows(rule, config, measure)
    modifies sink
    ensures sink.records == old(sink.records) + Emitted(rule, batch)
    ensures reply == ReplyTo(rule, batch)
  {
    var accepted, decisions := 0, [];
    for k := 0 to |batch|
      invariant forall i :: 0 <= i < k ==> Passes(rule, batch[i])
      invariant accepted == k == |decisions|
      invariant forall i :: 0 <= i < k ==> decisions[i] == rule(batch[i]).decision
      invariant sink.records == old(sink.records) + seq(k, i requires 0 <= i < k => rule(batch[i]).envelope)
    {
      var ruling := RuleOn(config, measure, batch[k], rule);
      if ruling.Stop? {
        PassedIs(rule, batch, k);
        return Refused(ruling.error);
      }
      var sent := sink.Append(ruling.envelope, batch[k].sinkUp);
      if !sent {
        PassedIs(rule, batch, k);
        return Refused(SinkFailed);
      }
      if ruling.Audit? {
        PassedIs(rule, batch, k);
        return Refused(PolicyUnavailable);
      }
      accepted, decisions := accepted + 1, decisions + [ruling.decision];
    }
    PassedIs(rule, batch, |batch|);
    assert decisions == seq(|batch|, i requires 0 <= i < |batch| => rule(batch[i]).decision);
    reply := Accepted(accepted, AllAllowed(decisions), decisions);
  }

  method HandleAgentEvents(sink: EventSink, config: Config, measure: Value -> nat, batch: seq<Arrival>)
    returns (reply: Reply)
    modifies sink
    ensures sink.records == old(sink.records) + Emitted((a: Arrival) => RuleFor(config, measure, a), batch)
    ensures reply == ReplyTo((a: Arrival) => RuleFor(config, measure, a), batch)
  {
    reply := EmitBatch(sink, config, measure, batch, (a: Arrival) => RuleFor(config, measure, a));
  }
}
