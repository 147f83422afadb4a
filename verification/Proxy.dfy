/** The pass-through handler: which admissions it asks for, and which traces it hands to the recorder. */
module Proxy {
  import opened Prelude
  import Headers
  import opened Pricing
  import opened Budget
  import opened BudgetSafety

  // ----- one call ------------------------------------------------------------------------------

  /** A provider-owned credential, and whether its secret can be read. */
  datatype Credential = Credential(available: bool)

  datatype Upstream = Upstream(name: Option<string>, api: Option<string>, free: bool, credential: Option<Credential>)

  /** What a serving decision tells the handler. */
  datatype Serve = Serve(arm: Option<string>, servedModel: string, provider: Option<string>, isCandidate: bool)

  /** A body as the gate reads it. */
  datatype Served = Served(model: Option<string>, price: Option<ModelPrice>, body: Body)

  /** The serving hook's answer; a raise, or a body that is not bytes, is `HookRaised`. */
  datatype Hook =
    | NoHook
    | HookRaised
    | Decided(forward: Served, serve: Option<Serve>)
    | Terminal(breach: Serve, record: bool)

  datatype FallbackHook = NoFallback | FallbackRaised | FallbackTo(forward: Served, serve: Option<Serve>)

  /** `digest` is that of the original body's structure, when it has one. */
  datatype Call = Call(
    original: Served, headers: Headers.Lines, digest: Option<string>,
    hook: Hook, fallback: FallbackHook,
    upstream: Upstream, resolver: Option<map<string, Upstream>>,
    trustedHost: bool, recording: bool)

  datatype Reason = Ceiling | ProviderMismatch | BudgetRefusal(error: BudgetError) | UntrustedHost
                  | NoCredential | SendFailure | Completed

  /** One trace handed over; `important` traces wait for a queue slot, the others never block. */
  datatype Handover = Handover(
    reason: Reason, serve: Option<Serve>, reservation: Option<nat>, free: bool, important: bool)

  /** What is fixed once the request goes upstream. */
  datatype Sending = Sending(
    forward: Served, serve: Option<Serve>, upstream: Upstream, switched: bool, reservation: Option<nat>)

  datatype Stage = Answered(status: nat, traces: seq<Handover>) | Forwarding(sending: Sending)

  // ----- specification -------------------------------------------------------------------------

  function RequestFor(c: Call, forward: Served, free: bool, fallbackApplied: bool): Request {
    Request(forward.model, forward.price, Headers.CheckedSession(c.headers),
            Headers.CheckedUseCase(c.headers, c.digest), forward.body, free, fallbackApplied)
  }

  function Resolve(c: Call, provider: Option<string>): Option<Upstream> {
    if provider.Some? && c.resolver.Some? && provider.value in c.resolver.value
    then Some(c.resolver.value[provider.value]) else None
  }

  function StatusOf(e: BudgetError): nat {
    match e
    case UnpricedModel => 503
    case UnknownSessionCost => 503
    case UnreservableRequest => 400
    case SessionRequired => 400
    case FallbackRequired(_, _, _) => 429
    case Exceeded(_, _, _) => 429
  }

  /** What the handler has settled on before it asks the gate. */
  datatype Selection = Selection(forward: Served, serve: Option<Serve>, upstream: Upstream, switched: bool)

  function Note(c: Call, always: bool, h: Handover): seq<Handover> {
    if c.recording && (always || h.serve.Some? || h.reservation.Some?) then [h] else []
  }

  /** The hook's decision and its provider override, or the answer that ends the call. */
  function Select(c: Call): Result<Selection, Stage> {
    if c.hook.Terminal? then
      Err(Answered(429, if c.recording && c.hook.record
                        then [Handover(Ceiling, Some(c.hook.breach), None, c.upstream.free, false)] else []))
    else
      var forward := if c.hook.Decided? then c.hook.forward else c.original;
      var serve := if c.hook.Decided? then c.hook.serve else None;
      if serve.None? || serve.value.provider.None? then Ok(Selection(forward, serve, c.upstream, false))
      else
        var target := Resolve(c, serve.value.provider);
        if target.None? || c.upstream.api.None? || target.value.api != c.upstream.api then
          Err(Answered(502, Note(c, false, Handover(ProviderMismatch, serve, None,
                                                    target.Some? && target.value.free, false))))
        else Ok(Selection(forward, serve, target.value, target.value.name != c.upstream.name))
  }

  /** The approved fallback a refused selection may switch to. */
  function FallbackSelection(c: Call, sel: Selection): Option<Selection> {
    if sel.serve.Some? || !c.fallback.FallbackTo? || c.fallback.serve.None? then None
    else
      var provider := c.fallback.serve.value.provider;
      if provider.None? then Some(sel.(forward := c.fallback.forward, serve := c.fallback.serve))
      else
        var target := Resolve(c, provider);
        if target.None? || c.upstream.api.None? || target.value.api != c.upstream.api then None
        else Some(Selection(c.fallback.forward, c.fallback.serve, target.value, target.value.name != c.upstream.name))
  }

  /** The check, and the second check that an approved fallback leads to: what is then settled on, the
      decision, and the gate. */
  function AskGate(c: Call, sel: Selection, s: GateState, now: real, later: real): (Selection, Decision, GateState) {
    var (d, s1) := Admission(s, RequestFor(c, sel.forward, sel.upstream.free, false), now);
    if d.Refused? && d.error.FallbackRequired? && FallbackSelection(c, sel).Some? then
      var sel2 := FallbackSelection(c, sel).value;
      var (d2, s2) := Admission(s1, RequestFor(c, sel2.forward, sel2.upstream.free, true), later);
      (sel2, d2, s2)
    else (sel, d, s1)
  }

  /** Everything up to the upstream send; the two clock readings are those of the two possible checks. */
  function BeforeSend(c: Call, s: GateState, now: real, later: real): (Stage, GateState) {
    match Select(c)
    case Err(stage) => (stage, s)
    case Ok(sel) =>
      var (final, d, s1) := AskGate(c, sel, s, now, later);
      (Conclude(c, final, d), s1)
  }

  function Conclude(c: Call, sel: Selection, d: Decision): Stage {
    if d.Refused? then
      Answered(StatusOf(d.error),
               Note(c, true, Handover(BudgetRefusal(d.error), sel.serve, None, sel.upstream.free, false)))
    else
      var id := if d.AllowedReserving? then Some(d.id) else None;
      if sel.upstream.credential.Some? && !c.trustedHost then
        Answered(403, Note(c, false, Handover(UntrustedHost, sel.serve, id, sel.upstream.free, false)))
      else if sel.upstream.credential.Some? && !sel.upstream.credential.value.available then
        Answered(503, Note(c, false, Handover(NoCredential, sel.serve, id, sel.upstream.free, false)))
      else Forwarding(Sending(sel.forward, sel.serve, sel.upstream, sel.switched, id))
  }

  /** The upstream's part: the send raised, or a response streamed to its end or to a disconnect. */
  function AfterSend(recording: bool, x: Sending, sent: bool): seq<Handover> {
    if !recording then []
    else if sent then
      [Handover(Completed, x.serve, x.reservation, x.upstream.free,
                (x.serve.Some? && x.serve.value.isCandidate) || x.reservation.Some?)]
    else if x.serve.Some? || x.reservation.Some? then
      [Handover(SendFailure, x.serve, x.reservation, x.upstream.free, false)]
    else []
  }

  // ----- the handler ---------------------------------------------------------------------------

  method HandleBeforeSend(c: Call, gate: BudgetGate, now: real, later: real) returns (stage: Stage)
    requires ValidPolicy(gate.policy)
    modifies gate`next, gate`live, gate.snapshot
    ensures (stage, gate.State()) == BeforeSend(c, old(gate.State()), now, later)
  {
    hide Conclude, AskGate, Resolve;
    var chosen := ChooseUpstream(c);
    if chosen.Err? { return chosen.error; }
    var final, budget := CheckBudget(c, chosen.value, gate, now, later);
    stage := Finish(c, final.forward, final.serve, final.upstream, final.switched, budget);
  }

  /** The hook's answer and its provider override. */
  method ChooseUpstream(c: Call) returns (r: Result<Selection, Stage>)
    ensures r == Select(c)
  {
    var forward, serve := c.original, None;
    match c.hook {
      case Terminal(breach, record) =>
        var traces := [];
        if c.recording && record {
          traces := [Handover(Ceiling, Some(breach), None, c.upstream.free, false)];
        }
        return Err(Answered(429, traces));
      case Decided(body, decision) => forward, serve := body, decision;
      case _ =>
    }
    var selected, switched := c.upstream, false;
    if serve.Some? && serve.value.provider.Some? {
      var override := Resolve(c, serve.value.provider);
      if override.None? || selected.api.None? || override.value.api != selected.api {
        var traces := [];
        if c.recording {
          traces := [Handover(ProviderMismatch, serve, None, override.Some? && override.value.free, false)];
        }
        return Err(Answered(502, traces));
      }
      selected := override.value;
      switched := selected.name != c.upstream.name;
    }
    r := Ok(Selection(forward, serve, selected, switched));
  }

  /** The budget check, and the fallback re-check when the gate asks for one. */
  method CheckBudget(c: Call, sel: Selection, gate: BudgetGate, now: real, later: real)
    returns (final: Selection, budget: Decision)
    requires ValidPolicy(gate.policy)
    modifies gate`next, gate`live, gate.snapshot
    ensures (final, budget, gate.State()) == AskGate(c, sel, old(gate.State()), now, later)
  {
    hide Admission, FallbackSelection, RequestFor;
    final := sel;
    budget := gate.Check(RequestFor(c, sel.forward, sel.upstream.free, false), now);
    if budget.Refused? && budget.error.FallbackRequired? {
      var fallback := FallbackSelection(c, sel);
      if fallback.Some? {
        final := fallback.value;
        budget := gate.Check(RequestFor(c, final.forward, final.upstream.free, true), later);
      }
    }
  }

  method Finish(c: Call, forward: Served, serve: Option<Serve>, selected: Upstream, switched: bool, budget: Decision)
    returns (stage: Stage)
    ensures stage == Conclude(c, Selection(forward, serve, selected, switched), budget)
  {
    if budget.Refused? {
      var traces := [];
      if c.recording {
        traces := [Handover(BudgetRefusal(budget.error), serve, None, selected.free, false)];
      }
      return Answered(StatusOf(budget.error), traces);
    }
    var id := if budget.AllowedReserving? then Some(budget.id) else None;
    if selected.credential.Some? && !c.trustedHost {
      var traces := [];
      if c.recording && (serve.Some? || id.Some?) {
        traces := [Handover(UntrustedHost, serve, id, selected.free, false)];
      }
      return Answered(403, traces);
    }
    if selected.credential.Some? && !selected.credential.value.available {
      var traces := [];
      if c.recording && (serve.Some? || id.Some?) {
        traces := [Handover(NoCredential, serve, id, selected.free, false)];
      }
      return Answered(503, traces);
    }
    return Forwarding(Sending(forward, serve, selected, switched, id));
  }

  // ----- what the handler guarantees -----------------------------------------------------------

  /** All traces of a call, given how the upstream part ends if it is reached. */
  function Traces(c: Call, s: GateState, now: real, later: real, sent: bool): seq<Handover> {
    match BeforeSend(c, s, now, later).0
    case Answered(_, traces) => traces
    case Forwarding(x) => AfterSend(c.recording, x, sent)
  }

  /** The gate state a call leaves behind. */
  function GateAfter(c: Call, s: GateState, now: real, later: real): GateState { BeforeSend(c, s, now, later).1 }

  function Carried(traces: seq<Handover>): seq<nat> {
    if traces == [] then []
    else (if traces[0].reservation.Some? then [traces[0].reservation.value] else []) + Carried(traces[1..])
  }

  /** One request, one reservation: whatever the hook, the fallback, the gate, the host check, the
      credential and the upstream do, a call creates at most one reservation, and a recorded call
      hands over at most one trace, which carries precisely the reservation that was created. */
  lemma OneRequestOneReservation(c: Call, s: GateState, now: real, later: real, sent: bool)
    ensures var s1 := GateAfter(c, s, now, later);
            || (s1.next == s.next && s1.live == s.live && Carried(Traces(c, s, now, later, sent)) == [])
            || (s1.next == s.next + 1 && s1.live.Keys == s.live.Keys + {s.next}
                && s1.live == s.live[s.next := s1.live[s.next]]
                && Carried(Traces(c, s, now, later, sent)) == if c.recording then [s.next] else [])
    ensures |Traces(c, s, now, later, sent)| <= 1
  {
    match Select(c) {
      case Err(stage) =>
      case Ok(sel) =>
        var q := RequestFor(c, sel.forward, sel.upstream.free, false);
        var (d, s1) := Admission(s, q, now);
        OnlyReservingHolds(s, q, now);
        if d.Refused? && d.error.FallbackRequired? && FallbackSelection(c, sel).Some? {
          var sel2 := FallbackSelection(c, sel).value;
          OnlyReservingHolds(s1, RequestFor(c, sel2.forward, sel2.upstream.free, true), later);
          ConcludeCarries(c, sel2, Admission(s1, RequestFor(c, sel2.forward, sel2.upstream.free, true), later).0, sent);
        } else {
          ConcludeCarries(c, sel, d, sent);
        }
    }
  }

  function TracesOf(c: Call, stage: Stage, sent: bool): seq<Handover> {
    match stage
    case Answered(_, traces) => traces
    case Forwarding(x) => AfterSend(c.recording, x, sent)
  }

  lemma ConcludeCarries(c: Call, sel: Selection, d: Decision, sent: bool)
    ensures var traces := TracesOf(c, Conclude(c, sel, d), sent);
            && |traces| <= 1
            && Carried(traces) == if c.recording && d.AllowedReserving? then [d.id] else []
  {}

  /** The fallback check runs only after a check that reserved nothing, and a refused call never
      leaves a reservation behind. */
  lemma RefusalHoldsNothing(c: Call, s: GateState, now: real, later: real)
    ensures var (stage, s1) := BeforeSend(c, s, now, later);
            stage.Answered? && stage.status in {400, 429, 502} ==> s1.live == s.live && s1.next == s.next
  {
    if Select(c).Ok? {
      var sel := Select(c).value;
      OnlyReservingHolds(s, RequestFor(c, sel.forward, sel.upstream.free, false), now);
      var s1 := Admission(s, RequestFor(c, sel.forward, sel.upstream.free, false), now).1;
      if FallbackSelection(c, sel).Some? {
        var sel2 := FallbackSelection(c, sel).value;
        OnlyReservingHolds(s1, RequestFor(c, sel2.forward, sel2.upstream.free, true), later);
      }
    }
  }

  /** No arm vanishes: a recorded call that was given an experiment arm leaves exactly one trace and
      that trace names the arm, unless it repeats a ceiling terminal that was already recorded. */
  lemma ArmIsAlwaysRecorded(c: Call, s: GateState, now: real, later: real, sent: bool, arm: Serve)
    requires c.recording
    requires c.hook == Terminal(arm, true) || (c.hook.Decided? && c.hook.serve == Some(arm))
    ensures |Traces(c, s, now, later, sent)| == 1 && Traces(c, s, now, later, sent)[0].serve == Some(arm)
  {
    if Select(c).Ok? {
      var sel := Select(c).value;
      assert sel.serve == Some(arm) && FallbackSelection(c, sel).None?;
      var d := Admission(s, RequestFor(c, sel.forward, sel.upstream.free, false), now).0;
      assert BeforeSend(c, s, now, later).0 == Conclude(c, sel, d);
    }
  }
}
