/** Tool operation identity and lifecycle events, on top of the workflow identity and its carrier. */
module ToolOperation {
  import opened Prelude
  import opened Identity

  predicate IsEffect(effect: string) { effect in {"unknown", "pure", "idempotent", "stateful"} }

  predicate IsTerminalStatus(status: string) { status in {"completed", "failed", "cancelled"} }

  datatype ToolOperationIdentity = ToolOperationIdentity(
    workflow: WorkflowIdentity, operation: string, operationId: string, attemptId: string,
    attempt: int, effect: string)

  predicate ValidTool(t: ToolOperationIdentity) {
    && Valid(t.workflow) && IsIdentifier(t.operation) && IsIdentifier(t.operationId) && IsIdentifier(t.attemptId)
    && t.attempt >= 1 && IsEffect(t.effect)
  }

  datatype ToolOperationEvent = ToolOperationEvent(
    identity: ToolOperationIdentity, status: string, eventId: string, success: Option<bool>,
    errorCode: Option<string>, latencyMs: Option<Number>, costUsd: Option<Number>, ts: Number)

  predicate IsMeasure(n: Number) {
    match n
    case Whole(i) => i >= 0
    case Fraction(r) => r >= 0.0
    case NotFinite => false
  }

  predicate NoOutcome(e: ToolOperationEvent) {
    e.success.None? && e.errorCode.None? && e.latencyMs.None? && e.costUsd.None?
  }

  predicate ValidToolEvent(e: ToolOperationEvent) {
    && ValidTool(e.identity) && IsIdentifier(e.eventId)
    && (IsTerminalStatus(e.status) || e.status == "started") && !e.ts.NotFinite?
    && (e.errorCode.Some? ==> IsIdentifier(e.errorCode.value))
    && (e.latencyMs.Some? ==> IsMeasure(e.latencyMs.value))
    && (e.costUsd.Some? ==> IsMeasure(e.costUsd.value))
    && (!IsTerminalStatus(e.status) ==> NoOutcome(e))
    && (IsTerminalStatus(e.status) ==> e.success.Some?)
  }

  // ----- construction from untyped values --------------------------------------------------------

  function ConstructTool(workflow: WorkflowIdentity, operation: Value, operationId: Value, attemptId: Value,
                         attempt: Value, effect: Value): (t: Option<ToolOperationIdentity>)
    ensures t.Some? && Valid(workflow) ==> ValidTool(t.value)
  {
    if !IsIdentifierValue(operation) || !IsIdentifierValue(operationId) || !IsIdentifierValue(attemptId) then None
    else if !(attempt.Num? && attempt.n.Whole? && attempt.n.i >= 1) then None
    else if !(effect.Str? && IsEffect(effect.s)) then None
    else Some(ToolOperationIdentity(workflow, operation.s, operationId.s, attemptId.s, attempt.n.i, effect.s))
  }

  predicate IsOptionalMeasure(v: Value) { v.Null? || (v.Num? && IsMeasure(v.n)) }

  function ConstructToolEvent(identity: ToolOperationIdentity, status: Value, eventId: Value, success: Value,
                              errorCode: Value, latency: Value, cost: Value, ts: Value)
    : (e: Option<ToolOperationEvent>)
    ensures e.Some? && ValidTool(identity) ==> ValidToolEvent(e.value)
  {
    if !IsIdentifierValue(eventId) || !status.Str? then None
    else if !(IsTerminalStatus(status.s) || status.s == "started") || !IsFinite(ts) then None
    else if !IsOptionalIdentifier(errorCode) || !(success.Null? || success.Bool?) then None
    else if !IsOptionalMeasure(latency) || !IsOptionalMeasure(cost) then None
    else if !IsTerminalStatus(status.s) && !(success.Null? && errorCode.Null? && latency.Null? && cost.Null?) then None
    else if IsTerminalStatus(status.s) && success.Null? then None
    else Some(ToolOperationEvent(
                identity, status.s, eventId.s,
                if success.Null? then None else Some(success.b),
                if errorCode.Null? then None else Some(errorCode.s),
                if latency.Null? then None else Some(latency.n), if cost.Null? then None else Some(cost.n), ts.n))
  }

  // ----- payloads --------------------------------------------------------------------------------

  const TOOL_KEYS: set<Key> := {Operation, OperationId, ToolAttemptId, ToolAttempt, Effect}
  const TOOL_EVENT_KEYS: set<Key> := {EventId, Ts, Status, Success, ErrorCode, LatencyMs, CostUsd}

  function ToolFields(t: ToolOperationIdentity): map<Key, Value> {
    map[Operation := Str(t.operation), OperationId := Str(t.operationId), ToolAttemptId := Str(t.attemptId),
        ToolAttempt := Num(Whole(t.attempt)), Effect := Str(t.effect)]
  }

  function ToolEventFields(e: ToolOperationEvent): map<Key, Value> {
    map[EventId := Str(e.eventId), Ts := Num(e.ts), Status := Str(e.status), Success := OptionalBool(e.success),
        ErrorCode := OptionalString(e.errorCode), LatencyMs := OptionalNumber(e.latencyMs),
        CostUsd := OptionalNumber(e.costUsd)]
  }

  function ToolPayload(e: ToolOperationEvent): map<Key, Value> {
    Carrier(e.identity.workflow) + (ToolFields(e.identity) + ToolEventFields(e))
  }

  function FromToolPayload(p: map<Key, Value>, newId: string, now: Number): Option<ToolOperationEvent> {
    if !(p.Keys <= IDENTITY_KEYS + TOOL_KEYS + TOOL_EVENT_KEYS) then None
    else
      var workflow := FromCarrier(Restrict(p, IDENTITY_KEYS));
      if workflow.None? || Operation !in p || OperationId !in p || ToolAttemptId !in p then None
      else
        var identity := ConstructTool(workflow.value, p[Operation], p[OperationId], p[ToolAttemptId],
                                      Get(p, ToolAttempt, Num(Whole(1))), Get(p, Effect, Str("unknown")));
        if identity.None? || Status !in p then None
        else ConstructToolEvent(identity.value, p[Status], Get(p, EventId, Str(newId)), Get(p, Success, Null),
                                Get(p, ErrorCode, Null), Get(p, LatencyMs, Null), Get(p, CostUsd, Null),
                                Get(p, Ts, Num(now)))
  }

  lemma ToolRebuilt(t: ToolOperationIdentity)
    requires ValidTool(t)
    ensures ConstructTool(t.workflow, Str(t.operation), Str(t.operationId), Str(t.attemptId),
                          Num(Whole(t.attempt)), Str(t.effect)) == Some(t)
  {
  }

  lemma ToolEventRebuilt(e: ToolOperationEvent)
    requires ValidToolEvent(e)
    ensures ConstructToolEvent(e.identity, Str(e.status), Str(e.eventId), OptionalBool(e.success),
                               OptionalString(e.errorCode), OptionalNumber(e.latencyMs), OptionalNumber(e.costUsd),
                               Num(e.ts)) == Some(e)
  {
    hide IsIdentifier;
  }

  lemma ToolKeys(e: ToolOperationEvent)
    ensures ToolFields(e.identity).Keys == TOOL_KEYS && ToolEventFields(e).Keys == TOOL_EVENT_KEYS
  {
  }

  lemma ToolPayloadParts(e: ToolOperationEvent)
    ensures ToolPayload(e).Keys == IDENTITY_KEYS + TOOL_KEYS + TOOL_EVENT_KEYS
    ensures Restrict(ToolPayload(e), IDENTITY_KEYS) == Carrier(e.identity.workflow)
  {
    var c, t, f := Carrier(e.identity.workflow), ToolFields(e.identity), ToolEventFields(e);
    CarrierKeys(e.identity.workflow);
    ToolKeys(e);
    hide Carrier;
    hide ToolFields;
    hide ToolEventFields;
    assert t.Keys !! f.Keys;
    RestrictMerged(t, f);
    assert c.Keys !! (t + f).Keys;
    hide IDENTITY_KEYS;
    hide TOOL_KEYS;
    hide TOOL_EVENT_KEYS;
    RestrictMerged(c, t + f);
  }

  lemma ToolEntry(e: ToolOperationEvent, k: Key)
    ensures k in TOOL_KEYS ==> k in ToolPayload(e) && ToolPayload(e)[k] == ToolFields(e.identity)[k]
    ensures k in TOOL_EVENT_KEYS ==> k in ToolPayload(e) && ToolPayload(e)[k] == ToolEventFields(e)[k]
  {
    var c, t, f := Carrier(e.identity.workflow), ToolFields(e.identity), ToolEventFields(e);
    ToolKeys(e);
    hide Carrier;
    hide ToolFields;
    hide ToolEventFields;
    MergedEntry(t, f, k);
    MergedEntry(c, t + f, k);
  }

  lemma ToolFieldsRead(e: ToolOperationEvent, p: map<Key, Value>)
    requires ValidToolEvent(e) && p == ToolPayload(e)
    ensures Operation in p && OperationId in p && ToolAttemptId in p && Effect in p && ToolAttempt in p
    ensures ConstructTool(e.identity.workflow, p[Operation], p[OperationId], p[ToolAttemptId], p[ToolAttempt],
                          p[Effect]) == Some(e.identity)
  {
    hide ToolPayload;
    ToolEntry(e, Operation);
    ToolEntry(e, OperationId);
    ToolEntry(e, ToolAttemptId);
    ToolEntry(e, ToolAttempt);
    ToolEntry(e, Effect);
    ToolRebuilt(e.identity);
    hide ConstructTool;
    hide ValidToolEvent;
  }

  lemma ToolEventFieldsRead(e: ToolOperationEvent, p: map<Key, Value>)
    requires ValidToolEvent(e) && p == ToolPayload(e)
    ensures TOOL_EVENT_KEYS <= p.Keys
    ensures ConstructToolEvent(e.identity, p[Status], p[EventId], p[Success], p[ErrorCode], p[LatencyMs],
                               p[CostUsd], p[Ts]) == Some(e)
  {
    hide ToolPayload;
    ToolEntry(e, Status);
    ToolEntry(e, EventId);
    ToolEntry(e, Success);
    ToolEntry(e, ErrorCode);
    ToolEntry(e, LatencyMs);
    ToolEntry(e, CostUsd);
    ToolEntry(e, Ts);
    ToolEventRebuilt(e);
    hide ConstructToolEvent;
    hide ValidToolEvent;
  }

  /** Every valid tool event survives its payload. */
  lemma ToolEventRoundTrip(e: ToolOperationEvent, newId: string, now: Number)
    requires ValidToolEvent(e)
    ensures FromToolPayload(ToolPayload(e), newId, now) == Some(e)
  {
    ToolPayloadParts(e);
    ToolFieldsRead(e, ToolPayload(e));
    ToolEventFieldsRead(e, ToolPayload(e));
    hide ToolPayload;
    CarrierRoundTrip(e.identity.workflow);
    hide Carrier;
    hide ConstructTool;
    hide ConstructToolEvent;
    hide FromCarrier;
  }

  lemma ToolConstructed(t: ToolOperationIdentity, operation: Value, operationId: Value, attemptId: Value,
                        attempt: Value, effect: Value)
    requires ConstructTool(t.workflow, operation, operationId, attemptId, attempt, effect) == Some(t)
    ensures Str(t.operation) == operation && Str(t.operationId) == operationId && Str(t.attemptId) == attemptId
    ensures Num(Whole(t.attempt)) == attempt && Str(t.effect) == effect
  {
    hide IsIdentifier;
  }

  lemma ToolEventConstructed(e: ToolOperationEvent, status: Value, eventId: Value, success: Value,
                             errorCode: Value, latency: Value, cost: Value, ts: Value)
    requires ConstructToolEvent(e.identity, status, eventId, success, errorCode, latency, cost, ts) == Some(e)
    ensures Str(e.status) == status && Str(e.eventId) == eventId && OptionalBool(e.success) == success
    ensures OptionalString(e.errorCode) == errorCode && OptionalNumber(e.latencyMs) == latency
    ensures OptionalNumber(e.costUsd) == cost && Num(e.ts) == ts
  {
    hide IsIdentifier;
  }

  lemma ToolIdentityRead(p: map<Key, Value>, newId: string, now: Number)
    requires FromToolPayload(p, newId, now).Some?
    ensures var e := FromToolPayload(p, newId, now).value;
            && ValidToolEvent(e)
            && FromCarrier(Restrict(p, IDENTITY_KEYS)) == Some(e.identity.workflow)
            && forall k :: k in p && k in TOOL_KEYS ==> ToolFields(e.identity)[k] == p[k]
  {
    hide FromCarrier;
    hide IsIdentifier;
    var e := FromToolPayload(p, newId, now).value;
    ToolConstructed(e.identity, p[Operation], p[OperationId], p[ToolAttemptId],
                    Get(p, ToolAttempt, Num(Whole(1))), Get(p, Effect, Str("unknown")));
    hide ConstructTool;
  }

  lemma ToolEventRead(p: map<Key, Value>, newId: string, now: Number)
    requires FromToolPayload(p, newId, now).Some?
    ensures var e := FromToolPayload(p, newId, now).value;
            forall k :: k in p && k in TOOL_EVENT_KEYS ==> ToolEventFields(e)[k] == p[k]
  {
    hide FromCarrier;
    hide IsIdentifier;
    hide ConstructTool;
    var e := FromToolPayload(p, newId, now).value;
    ToolEventConstructed(e, p[Status], Get(p, EventId, Str(newId)), Get(p, Success, Null), Get(p, ErrorCode, Null),
                         Get(p, LatencyMs, Null), Get(p, CostUsd, Null), Get(p, Ts, Num(now)));
    hide ConstructToolEvent;
  }

  /** Whatever is read is a valid tool event, and printing it gives back every entry that was read. */
  lemma ToolPayloadLosesNothing(p: map<Key, Value>, newId: string, now: Number)
    requires FromToolPayload(p, newId, now).Some?
    ensures var e := FromToolPayload(p, newId, now).value;
            ValidToolEvent(e) && forall k :: k in p ==> k in ToolPayload(e) && ToolPayload(e)[k] == p[k]
  {
    ToolIdentityRead(p, newId, now);
    ToolEventRead(p, newId, now);
    var e := FromToolPayload(p, newId, now).value;
    var carrier := Restrict(p, IDENTITY_KEYS);
    CarrierLosesNothing(carrier);
    assert p.Keys <= IDENTITY_KEYS + TOOL_KEYS + TOOL_EVENT_KEYS;
    hide FromCarrier;
    hide FromToolPayload;
    hide Carrier;
    hide ValidToolEvent;
    forall k | k in p ensures k in ToolPayload(e) && ToolPayload(e)[k] == p[k] {
      if k in IDENTITY_KEYS { assert k in carrier; }
    }
  }
}
