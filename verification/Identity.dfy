/** Workflow identity: its validity, the header and dictionary carriers it travels in, and the readers
    that take it back out. `None` stands for a raised `WorkflowIdentityError`. */
module Identity {
  import opened Prelude
  import opened Text

  const MAX_ID_BYTES := 128
  const MAX_DEPENDENCIES := 32
  const MAX_HEADER_BYTES := 4096

  /** A number as JSON or Python carries it; the last case stands for the infinities and NaN. */
  datatype Number = Whole(i: int) | Fraction(r: real) | NotFinite

  /** Any value found under a key of a carrier dictionary. */
  datatype Value = Null | Bool(b: bool) | Num(n: Number) | Str(s: string) | List(items: seq<Value>)

  /** The keys the carriers know, and any other key. */
  datatype Key =
    | TaskId | Workflow | WorkflowVersion | Step | StepRunId | ParentStepRunId | Dependencies | Attempt
    | EventId | Ts | Status | Success | Score | ErrorCode
    | Operation | OperationId | ToolAttemptId | ToolAttempt | Effect | LatencyMs | CostUsd
    | Other(name: string)

  const REQUIRED: set<Key> := {TaskId, Workflow, WorkflowVersion, Step, StepRunId}
  const IDENTITY_KEYS: set<Key> := REQUIRED + {ParentStepRunId, Dependencies, Attempt}

  // ----- identifiers -----------------------------------------------------------------------------

  predicate IsIdentifier(s: string) {
    && s != "" && |s| <= MAX_ID_BYTES && IsAlnum(s[0])
    && forall i :: 0 <= i < |s| ==> IsIdentifierChar(s[i])
  }

  predicate IsIdentifierValue(v: Value) { v.Str? && IsIdentifier(v.s) }

  predicate IsOptionalIdentifier(v: Value) { v.Null? || IsIdentifierValue(v) }

  // ----- the identity ----------------------------------------------------------------------------

  datatype WorkflowIdentity = WorkflowIdentity(
    taskId: string, workflow: string, workflowVersion: string, step: string, stepRunId: string,
    parent: Option<string>, dependencies: seq<string>, attempt: int)

  predicate Distinct(s: seq<string>) { forall i, j :: 0 <= i < j < |s| ==> s[i] != s[j] }

  /** What construction guarantees of every live identity. */
  predicate Valid(id: WorkflowIdentity) {
    && IsIdentifier(id.taskId) && IsIdentifier(id.workflow) && IsIdentifier(id.workflowVersion)
    && IsIdentifier(id.step) && IsIdentifier(id.stepRunId)
    && (id.parent.Some? ==> IsIdentifier(id.parent.value))
    && id.attempt >= 1
    && |id.dependencies| <= MAX_DEPENDENCIES && Distinct(id.dependencies)
    && (forall i :: 0 <= i < |id.dependencies| ==> IsIdentifier(id.dependencies[i]))
    && id.stepRunId !in id.dependencies
    && HeaderBytes(id, HEADER_FIELDS) <= MAX_HEADER_BYTES
  }

  function Strings(values: seq<Value>): Option<seq<string>> {
    if values == [] then Some([])
    else if !values[0].Str? then None
    else
      var rest := Strings(values[1..]);
      if rest.None? then None else Some([values[0].s] + rest.value)
  }

  function Values(strings: seq<string>): (values: seq<Value>)
    ensures |values| == |strings| && forall i :: 0 <= i < |values| ==> values[i] == Str(strings[i])
  {
    seq(|strings|, i requires 0 <= i < |strings| => Str(strings[i]))
  }

  /** Construction from untyped arguments, refusing whatever is not a valid identity. */
  function Construct(taskId: Value, workflow: Value, version: Value, step: Value, stepRunId: Value,
                     parent: Value, dependencies: seq<Value>, attempt: Value): (id: Option<WorkflowIdentity>)
    ensures id.Some? ==> Valid(id.value)
  {
    if !(taskId.Str? && workflow.Str? && version.Str? && step.Str? && stepRunId.Str?) then None
    else if !(parent.Null? || parent.Str?) then None
    else if !(attempt.Num? && attempt.n.Whole?) then None
    else
      var deps := Strings(dependencies);
      if deps.None? then None
      else
        var id := WorkflowIdentity(taskId.s, workflow.s, version.s, step.s, stepRunId.s,
                                   if parent.Null? then None else Some(parent.s), deps.value, attempt.n.i);
        if Valid(id) then Some(id) else None
  }

  // ----- the header carrier ----------------------------------------------------------------------

  const HEADER_FIELDS: seq<Key> :=
    [TaskId, Workflow, WorkflowVersion, Step, StepRunId, ParentStepRunId, Dependencies, Attempt]

  function HeaderName(k: Key): string {
    match k
    case TaskId => "x-ctrlrtn-task"
    case Workflow => "x-ctrlrtn-workflow"
    case WorkflowVersion => "x-ctrlrtn-workflow-version"
    case Step => "x-ctrlrtn-step"
    case StepRunId => "x-ctrlrtn-step-run"
    case ParentStepRunId => "x-ctrlrtn-step-parent"
    case Dependencies => "x-ctrlrtn-step-dependencies"
    case Attempt => "x-ctrlrtn-step-attempt"
    case _ => ""
  }

  lemma HeaderNamesDistinct(j: Key, k: Key)
    requires j in IDENTITY_KEYS && k in IDENTITY_KEYS && HeaderName(j) == HeaderName(k)
    ensures j == k
  {
    var a, b := HeaderName(j), HeaderName(k);
    assert |a| == |b| && a[10] == b[10];
  }

  /** The text a field contributes to the headers; absent fields contribute none. */
  function HeaderText(id: WorkflowIdentity, k: Key): Option<string> {
    match k
    case TaskId => Some(id.taskId)
    case Workflow => Some(id.workflow)
    case WorkflowVersion => Some(id.workflowVersion)
    case Step => Some(id.step)
    case StepRunId => Some(id.stepRunId)
    case ParentStepRunId => id.parent
    case Dependencies => if Join(id.dependencies, ',') == "" then None else Some(Join(id.dependencies, ','))
    case Attempt => Some(Printed(id.attempt))
    case _ => None
  }

  function HeaderBytes(id: WorkflowIdentity, fields: seq<Key>): nat {
    if fields == [] then 0
    else
      var text := HeaderText(id, fields[0]);
      (if text.None? then 0 else |HeaderName(fields[0])| + |text.value|) + HeaderBytes(id, fields[1..])
  }

  function Headers(id: WorkflowIdentity): (h: map<string, string>)
  {
    assert forall j, k :: j in IDENTITY_KEYS && k in IDENTITY_KEYS && HeaderName(j) == HeaderName(k) ==> j == k by {
      forall j, k | j in IDENTITY_KEYS && k in IDENTITY_KEYS && HeaderName(j) == HeaderName(k) ensures j == k {
        HeaderNamesDistinct(j, k);
      }
    }
    map k | k in IDENTITY_KEYS && HeaderText(id, k).Some? :: HeaderName(k) := HeaderText(id, k).value
  }

  /** A header counts only when it is there and non-empty. */
  function Present(h: map<string, string>, k: Key): Option<string> {
    if HeaderName(k) in h && h[HeaderName(k)] != "" then Some(h[HeaderName(k)]) else None
  }

  /** No identity at all, a refused one, or a valid one. */
  datatype FromHeaders = Absent | Refused | Found(identity: WorkflowIdentity)

  function OptionalString(s: Option<string>): Value { if s.None? then Null else Str(s.value) }

  /** The identity in the eight header texts, each present or not. */
  function ReadTexts(taskId: Option<string>, workflow: Option<string>, version: Option<string>,
                     step: Option<string>, stepRunId: Option<string>, parent: Option<string>,
                     dependencies: Option<string>, attempt: Option<string>): FromHeaders
  {
    if workflow.None? && version.None? && step.None? && stepRunId.None? && parent.None?
       && dependencies.None? && attempt.None? then Absent
    else if taskId.None? || workflow.None? || version.None? || step.None? || stepRunId.None? then Refused
    else
      var number := ParseInt(if attempt.None? then "1" else attempt.value);
      if number.None? then Refused
      else
        var id := Construct(Str(taskId.value), Str(workflow.value), Str(version.value), Str(step.value),
                            Str(stepRunId.value), OptionalString(parent),
                            Values(DependencyList(dependencies)), Num(Whole(number.value)));
        if id.None? then Refused else Found(id.value)
  }

  function DependencyList(text: Option<string>): seq<string> {
    NonEmpty(Split(if text.None? then "" else text.value, ','))
  }

  function IdentityFromHeaders(h: map<string, string>): FromHeaders {
    ReadTexts(Present(h, TaskId), Present(h, Workflow), Present(h, WorkflowVersion), Present(h, Step),
              Present(h, StepRunId), Present(h, ParentStepRunId), Present(h, Dependencies), Present(h, Attempt))
  }

  lemma {:induction false} StringsOfValues(strings: seq<string>)
    ensures Strings(Values(strings)) == Some(strings)
  {
    var values := Values(strings);
    if strings != [] {
      StringsOfValues(strings[1..]);
      assert values[1..] == Values(strings[1..]);
      assert [strings[0]] + strings[1..] == strings;
    } else {
      assert values == [];
    }
  }

  lemma {:induction false} ValuesOfStrings(values: seq<Value>)
    requires Strings(values).Some?
    ensures Values(Strings(values).value) == values
  {
    if values != [] { ValuesOfStrings(values[1..]); }
  }

  lemma JoinedNonEmpty(parts: seq<string>)
    requires forall i :: 0 <= i < |parts| ==> IsIdentifier(parts[i])
    ensures parts != [] ==> Join(parts, ',') != ""
    ensures NonEmpty(Split(Join(parts, ','), ',')) == parts
  {
    assert forall i :: 0 <= i < |parts| ==> parts[i] != "" && ',' !in parts[i];
    hide IsIdentifier;
    hide NonEmpty;
    hide Split;
    SplitJoined(parts, ',');
  }

  lemma HeaderTextNonEmpty(id: WorkflowIdentity, k: Key)
    requires Valid(id) && HeaderText(id, k).Some?
    ensures HeaderText(id, k).value != ""
  {
  }

  lemma HeaderCarried(id: WorkflowIdentity, k: Key)
    requires Valid(id) && k in IDENTITY_KEYS
    ensures Present(Headers(id), k) == HeaderText(id, k)
  {
    hide HeaderName;
    hide Valid;
    hide HeaderText;
    var h := Headers(id);
    if HeaderText(id, k).Some? {
      HeaderTextNonEmpty(id, k);
      forall j | j in IDENTITY_KEYS && HeaderName(j) == HeaderName(k) ensures j == k { HeaderNamesDistinct(j, k); }
      assert HeaderName(k) in h && h[HeaderName(k)] == HeaderText(id, k).value;
    } else if HeaderName(k) in h {
      var j :| j in IDENTITY_KEYS && HeaderText(id, j).Some? && HeaderName(j) == HeaderName(k);
      HeaderNamesDistinct(j, k);
    }
  }

  lemma DependenciesCarried(id: WorkflowIdentity)
    requires Valid(id)
    ensures DependencyList(HeaderText(id, Dependencies)) == id.dependencies
  {
    assert forall i :: 0 <= i < |id.dependencies| ==> IsIdentifier(id.dependencies[i]);
    hide Valid;
    JoinedNonEmpty(id.dependencies);
  }

  lemma Rebuilt(id: WorkflowIdentity)
    requires Valid(id)
    ensures Construct(Str(id.taskId), Str(id.workflow), Str(id.workflowVersion), Str(id.step), Str(id.stepRunId),
                      OptionalString(id.parent), Values(id.dependencies), Num(Whole(id.attempt))) == Some(id)
  {
    hide Valid;
    StringsOfValues(id.dependencies);
    hide Strings;
    hide Values;
  }

  lemma ReadPrinted(id: WorkflowIdentity)
    requires Valid(id)
    ensures ReadTexts(Some(id.taskId), Some(id.workflow), Some(id.workflowVersion), Some(id.step),
                      Some(id.stepRunId), id.parent, HeaderText(id, Dependencies), Some(Printed(id.attempt)))
            == Found(id)
  {
    hide Valid;
    hide HeaderText;
    hide DependencyList;
    hide Construct;
    hide Values;
    hide OptionalString;
    DependenciesCarried(id);
    ParsePrinted(id.attempt);
    hide ParseInt;
    hide Printed;
    Rebuilt(id);
  }

  /** Every valid identity survives its own headers: the comma join is undone because no identifier
      holds a comma, and the decimal attempt is read back. */
  lemma HeadersRoundTrip(id: WorkflowIdentity)
    requires Valid(id)
    ensures IdentityFromHeaders(Headers(id)) == Found(id)
  {
    hide Valid;
    hide HeaderName;
    hide Headers;
    HeaderCarried(id, TaskId);
    HeaderCarried(id, Workflow);
    HeaderCarried(id, WorkflowVersion);
    HeaderCarried(id, Step);
    HeaderCarried(id, StepRunId);
    HeaderCarried(id, ParentStepRunId);
    HeaderCarried(id, Dependencies);
    HeaderCarried(id, Attempt);
    ReadPrinted(id);
    hide ReadTexts;
  }

  lemma ReadIsFaithful(id: WorkflowIdentity, taskId: Option<string>, workflow: Option<string>,
                       version: Option<string>, step: Option<string>, stepRunId: Option<string>,
                       parent: Option<string>, dependencies: Option<string>, attempt: Option<string>)
    requires ReadTexts(taskId, workflow, version, step, stepRunId, parent, dependencies, attempt) == Found(id)
    ensures Valid(id)
    ensures Some(id.taskId) == taskId && Some(id.workflow) == workflow && Some(id.workflowVersion) == version
    ensures Some(id.step) == step && Some(id.stepRunId) == stepRunId && id.parent == parent
    ensures id.dependencies == DependencyList(dependencies)
    ensures ParseInt(if attempt.None? then "1" else attempt.value) == Some(id.attempt)
  {
    StringsOfValues(DependencyList(dependencies));
    hide Valid;
    hide ParseInt;
    hide DependencyList;
  }

  /** What the reader finds is always a complete, valid identity that says exactly what the headers say,
      and it is found again in its own headers. */
  lemma FoundIsFaithful(h: map<string, string>)
    requires IdentityFromHeaders(h).Found?
    ensures var id := IdentityFromHeaders(h).identity;
            && Valid(id)
            && (forall k :: k in REQUIRED + {ParentStepRunId} ==> HeaderText(id, k) == Present(h, k))
            && id.dependencies == DependencyList(Present(h, Dependencies))
            && ParseInt(if Present(h, Attempt).None? then "1" else Present(h, Attempt).value) == Some(id.attempt)
            && IdentityFromHeaders(Headers(id)) == Found(id)
  {
    hide Present;
    hide HeaderName;
    hide Headers;
    hide ReadTexts;
    hide Valid;
    hide ParseInt;
    hide DependencyList;
    var id := IdentityFromHeaders(h).identity;
    ReadIsFaithful(id, Present(h, TaskId), Present(h, Workflow), Present(h, WorkflowVersion), Present(h, Step),
                   Present(h, StepRunId), Present(h, ParentStepRunId), Present(h, Dependencies), Present(h, Attempt));
    HeadersRoundTrip(id);
  }

  // ----- the dictionary carrier ------------------------------------------------------------------

  function Carrier(id: WorkflowIdentity): map<Key, Value> {
    map[TaskId := Str(id.taskId), Workflow := Str(id.workflow), WorkflowVersion := Str(id.workflowVersion),
        Step := Str(id.step), StepRunId := Str(id.stepRunId), ParentStepRunId := OptionalString(id.parent),
        Dependencies := List(Values(id.dependencies)), Attempt := Num(Whole(id.attempt))]
  }

  function FromCarrier(c: map<Key, Value>): (id: Option<WorkflowIdentity>)
    ensures id.Some? ==> Valid(id.value)
  {
    if !(c.Keys <= IDENTITY_KEYS) then None
    else
      var dependencies := Get(c, Dependencies, List([]));
      if !dependencies.List? || !(REQUIRED <= c.Keys) then None
      else Construct(c[TaskId], c[Workflow], c[WorkflowVersion], c[Step], c[StepRunId],
                     Get(c, ParentStepRunId, Null), dependencies.items, Get(c, Attempt, Num(Whole(1))))
  }

  lemma CarrierKeys(id: WorkflowIdentity)
    ensures Carrier(id).Keys == IDENTITY_KEYS
  {
  }

  lemma CarrierRoundTrip(id: WorkflowIdentity)
    requires Valid(id)
    ensures FromCarrier(Carrier(id)) == Some(id)
  {
    hide Valid;
    Rebuilt(id);
    hide Construct;
  }

  /** Reading a carrier loses nothing: printing the result gives back every entry that was read. */
  lemma CarrierLosesNothing(c: map<Key, Value>)
    requires FromCarrier(c).Some?
    ensures forall k :: k in c ==> k in Carrier(FromCarrier(c).value) && Carrier(FromCarrier(c).value)[k] == c[k]
  {
    var id := FromCarrier(c).value;
    ValuesOfStrings(Get(c, Dependencies, List([])).items);
    forall k | k in c ensures k in Carrier(id) && Carrier(id)[k] == c[k] {}
  }

  /** The entries of `m` under the given keys. */
  function Restrict(m: map<Key, Value>, keys: set<Key>): map<Key, Value> {
    map k | k in m && k in keys :: m[k]
  }

  // ----- workflow events -------------------------------------------------------------------------

  predicate IsTerminal(status: string) { status in {"completed", "failed", "cancelled", "skipped"} }

  predicate IsFinite(v: Value) { v.Num? && !v.n.NotFinite? }

  datatype WorkflowEvent = WorkflowEvent(
    identity: WorkflowIdentity, status: string, eventId: string,
    success: Option<bool>, score: Option<Number>, errorCode: Option<string>, ts: Number)

  predicate ValidEvent(e: WorkflowEvent) {
    && Valid(e.identity) && IsIdentifier(e.eventId)
    && (IsTerminal(e.status) || e.status == "started")
    && !e.ts.NotFinite?
    && (e.errorCode.Some? ==> IsIdentifier(e.errorCode.value))
    && (e.score.Some? ==> !e.score.value.NotFinite?)
    && (!IsTerminal(e.status) ==> e.success.None? && e.score.None? && e.errorCode.None?)
  }

  function OptionalBool(b: Option<bool>): Value { if b.None? then Null else Bool(b.value) }

  function OptionalNumber(n: Option<Number>): Value { if n.None? then Null else Num(n.value) }

  const EVENT_KEYS: set<Key> := {EventId, Ts, Status, Success, Score, ErrorCode}

  function EventFields(e: WorkflowEvent): map<Key, Value> {
    map[EventId := Str(e.eventId), Ts := Num(e.ts), Status := Str(e.status), Success := OptionalBool(e.success),
        Score := OptionalNumber(e.score), ErrorCode := OptionalString(e.errorCode)]
  }

  function Payload(e: WorkflowEvent): map<Key, Value> { Carrier(e.identity) + EventFields(e) }

  /** `newId` and `now` are what a fresh identifier and the clock would give if the payload omits them. */
  function FromPayload(p: map<Key, Value>, newId: string, now: Number): Option<WorkflowEvent> {
    if !(p.Keys <= IDENTITY_KEYS + EVENT_KEYS) then None
    else
      var identity := FromCarrier(Restrict(p, IDENTITY_KEYS));
      if identity.None? || Status !in p then None
      else ConstructEvent(identity.value, p[Status], Get(p, EventId, Str(newId)), Get(p, Success, Null),
                          Get(p, Score, Null), Get(p, ErrorCode, Null), Get(p, Ts, Num(now)))
  }

  function ConstructEvent(identity: WorkflowIdentity, status: Value, eventId: Value, success: Value,
                          score: Value, errorCode: Value, ts: Value): (e: Option<WorkflowEvent>)
    ensures e.Some? && Valid(identity) ==> ValidEvent(e.value)
  {
    if !IsIdentifierValue(eventId) || !status.Str? then None
    else if !(IsTerminal(status.s) || status.s == "started") || !IsFinite(ts) then None
    else if !IsOptionalIdentifier(errorCode) || !(success.Null? || success.Bool?) then None
    else if !(score.Null? || IsFinite(score)) then None
    else if !IsTerminal(status.s) && !(success.Null? && score.Null? && errorCode.Null?) then None
    else Some(WorkflowEvent(
                identity, status.s, eventId.s,
                if success.Null? then None else Some(success.b), if score.Null? then None else Some(score.n),
                if errorCode.Null? then None else Some(errorCode.s), ts.n))
  }

  lemma RestrictMerged(c: map<Key, Value>, f: map<Key, Value>)
    requires c.Keys !! f.Keys
    ensures Restrict(c + f, c.Keys) == c && (c + f).Keys == c.Keys + f.Keys
  {
  }

  lemma MergedEntry(c: map<Key, Value>, f: map<Key, Value>, k: Key)
    ensures k in f ==> k in c + f && (c + f)[k] == f[k]
    ensures k in c && k !in f ==> k in c + f && (c + f)[k] == c[k]
  {
  }

  lemma EventKeys(e: WorkflowEvent)
    ensures EventFields(e).Keys == EVENT_KEYS
  {
  }

  lemma PayloadParts(e: WorkflowEvent)
    ensures Payload(e).Keys == IDENTITY_KEYS + EVENT_KEYS
    ensures Restrict(Payload(e), IDENTITY_KEYS) == Carrier(e.identity)
  {
    CarrierKeys(e.identity);
    EventKeys(e);
    var c, f := Carrier(e.identity), EventFields(e);
    hide Carrier;
    hide EventFields;
    assert c.Keys !! f.Keys;
    RestrictMerged(c, f);
  }

  lemma EventRebuilt(e: WorkflowEvent)
    requires ValidEvent(e)
    ensures ConstructEvent(e.identity, Str(e.status), Str(e.eventId), OptionalBool(e.success),
                           OptionalNumber(e.score), OptionalString(e.errorCode), Num(e.ts)) == Some(e)
  {
    hide Valid;
    hide IsIdentifier;
  }

  lemma EventFieldsRead(e: WorkflowEvent, p: map<Key, Value>)
    requires ValidEvent(e) && p == Payload(e)
    ensures EVENT_KEYS <= p.Keys
    ensures ConstructEvent(e.identity, p[Status], p[EventId], p[Success], p[Score], p[ErrorCode], p[Ts]) == Some(e)
  {
    var c, f := Carrier(e.identity), EventFields(e);
    hide Carrier;
    MergedEntry(c, f, Status);
    MergedEntry(c, f, EventId);
    MergedEntry(c, f, Success);
    MergedEntry(c, f, Score);
    MergedEntry(c, f, ErrorCode);
    MergedEntry(c, f, Ts);
    EventRebuilt(e);
    hide ConstructEvent;
    hide ValidEvent;
  }

  /** Every valid event survives its payload, whatever identifier and clock the reader would have used. */
  lemma EventRoundTrip(e: WorkflowEvent, newId: string, now: Number)
    requires ValidEvent(e)
    ensures FromPayload(Payload(e), newId, now) == Some(e)
  {
    PayloadParts(e);
    EventFieldsRead(e, Payload(e));
    CarrierRoundTrip(e.identity);
    hide Payload;
    hide ConstructEvent;
    hide Valid;
    hide Carrier;
    hide FromCarrier;
  }

  lemma EventConstructed(e: WorkflowEvent, status: Value, eventId: Value, success: Value, score: Value,
                         errorCode: Value, ts: Value)
    requires ConstructEvent(e.identity, status, eventId, success, score, errorCode, ts) == Some(e)
    ensures Str(e.status) == status && Str(e.eventId) == eventId && OptionalBool(e.success) == success
    ensures OptionalNumber(e.score) == score && OptionalString(e.errorCode) == errorCode && Num(e.ts) == ts
  {
  }

  /** Whatever is read is a valid event, and printing it gives back every entry that was read. */
  lemma EventPayloadLosesNothing(p: map<Key, Value>, newId: string, now: Number)
    requires FromPayload(p, newId, now).Some?
    ensures var e := FromPayload(p, newId, now).value;
            && ValidEvent(e)
            && (forall k :: k in p ==> k in Payload(e) && Payload(e)[k] == p[k])
            && (Ts in p || e.ts == now) && (EventId in p || e.eventId == newId)
  {
    hide IsIdentifier;
    hide Valid;
    hide Carrier;
    hide FromCarrier;
    var e := FromPayload(p, newId, now).value;
    var carrier := Restrict(p, IDENTITY_KEYS);
    CarrierLosesNothing(carrier);
    EventConstructed(e, p[Status], Get(p, EventId, Str(newId)), Get(p, Success, Null), Get(p, Score, Null),
                     Get(p, ErrorCode, Null), Get(p, Ts, Num(now)));
    hide ConstructEvent;
    forall k | k in p ensures k in Payload(e) && Payload(e)[k] == p[k] {
      if k in EVENT_KEYS {
        assert k in EventFields(e) && EventFields(e)[k] == p[k];
      } else {
        assert k in carrier && k !in EventFields(e);
      }
    }
  }
}
