/** The ceilings hold over every run of whole gateway calls. What `AdmissionSystem` assumes of the traces
    handed over is derived here from what the handler does, and each assumption left is shown exact. */
module GatewaySafety {
  import opened Prelude
  import opened Pricing
  import opened Budget
  import opened BudgetSafety
  import opened Proxy
  import opened AdmissionSystem
  import opened GatewaySystem
  import Headers
  import Recorder
  import RecorderSafety

  // ----- what is asked of the world ------------------------------------------------------------

  /** A body that names no model has no price, and prices are not negative. */
  predicate Priced(x: Served) {
    && (x.price.Some? ==> ValidPrice(x.price.value))
    && (x.model.None? ==> x.price.None?)
  }

  /** Reservations require a recorder. */
  predicate Usable(c: Call) {
    && c.recording && Priced(c.original)
    && (c.hook.Decided? ==> Priced(c.hook.forward))
    && (c.fallback.FallbackTo? ==> Priced(c.fallback.forward))
  }

  /** What a provider must keep to: a reserved call is billed at the price it was reserved at, for
      tokens that fit, and a body that named no model is not billed at all. */
  predicate FairBilling(x: Served, reserved: bool, found: Enrichment)
    requires found.Enriched?
  {
    && (found.price.Some? ==> ValidPrice(found.price.value)) && NoNegative(found.usage)
    && (reserved ==>
          found.price == x.price && (found.price.Some? ==> UsageFits(x.body, found.price.value, found.usage)))
    && (x.model.None? ==> found.price.None?)
  }

  /** What a caller must keep to: where a ceiling stands over the recorded use-case or session, the
      check was made for that use-case or session. */
  predicate Labelled(p: Policy, c: Call) {
    var useCase, session := Headers.RecordedUseCase(c.headers, c.digest), Headers.RecordedSession(c.headers);
    && (useCase.Some? && useCase.value in p.useCaseDaily ==>
          useCase == Headers.CheckedUseCase(c.headers, c.digest))
    && (p.sessionLimit.Some? && session.Some? ==> session == Headers.CheckedSession(c.headers))
  }

  ghost predicate Fair(s: Gateway, e: GatewayEvent) {
    match e
    case Begin(_, c, _, _, _, _) => Usable(c)
    case End(k, sent, found, _, _) =>
      k in s.open && sent && found.Enriched? && !s.open[k].sending.upstream.free ==>
        && FairBilling(s.open[k].sending.forward, s.open[k].sending.reservation.Some?, found)
        && Labelled(s.sys.gate.policy, s.open[k].call)
    case Cancel(_) => true
    case Mirror(t, _) => t.reservation.None? && Uncharged(s.sys.gate.policy, t)
    case Tick(e, _) => !e.Enqueue? && !e.Put?
  }

  ghost predicate FairRun(s: Gateway, es: seq<GatewayEvent>)
    decreases |es|
  {
    es == [] || (Fair(s, es[0]) && FairRun(GatewayStep(s, es[0]), es[1..]))
  }

  // ----- which labels are enough ---------------------------------------------------------------

  /** The ceilings a call's trace is charged to: those of the recorded use-case and session. */
  predicate Faces(p: Policy, c: Call, scope: Scope) {
    && Limit(p, scope).Some?
    && match scope
       case GlobalScope => true
       case UseCaseScope(u) => Headers.RecordedUseCase(c.headers, c.digest) == Some(u)
       case SessionScope(x) => Headers.RecordedSession(c.headers) == Some(x)
  }

  /** A call's reservation counts against every ceiling its trace is charged to if and only if the call
      is labelled. */
  lemma ReservationCountsIff(p: Policy, c: Call, q: Request, amount: real)
    requires ValidPolicy(p)
    requires q.fingerprint == Headers.CheckedUseCase(c.headers, c.digest)
    requires q.session == Headers.CheckedSession(c.headers)
    ensures (forall scope :: Faces(p, c, scope) ==> Counts(scope, ReservationFor(p, q, amount))) <==> Labelled(p, c)
  {
    hide Headers.RecordedUseCase, Headers.RecordedSession, Headers.CheckedUseCase, Headers.CheckedSession;
    var useCase, session := Headers.RecordedUseCase(c.headers, c.digest), Headers.RecordedSession(c.headers);
    var r := ReservationFor(p, q, amount);
    if forall scope :: Faces(p, c, scope) ==> Counts(scope, r) {
      if useCase.Some? && useCase.value in p.useCaseDaily {
        assert Faces(p, c, UseCaseScope(useCase.value));
        assert Counts(UseCaseScope(useCase.value), r);
      }
      if p.sessionLimit.Some? && session.Some? {
        assert Faces(p, c, SessionScope(session.value));
        assert Counts(SessionScope(session.value), r);
      }
    }
  }

  /** A call is labelled under every policy if and only if its recorded use-case and session, where it
      has them, are the checked ones; a call that repeats neither header always is. */
  lemma LabelledAlwaysIff(c: Call)
    ensures var useCase, session := Headers.RecordedUseCase(c.headers, c.digest), Headers.RecordedSession(c.headers);
            (forall p :: ValidPolicy(p) ==> Labelled(p, c))
            <==> && (useCase.Some? ==> useCase == Headers.CheckedUseCase(c.headers, c.digest))
                 && (session.Some? ==> session == Headers.CheckedSession(c.headers))
    ensures Headers.Once(c.headers, Headers.ROUTE) && Headers.Once(c.headers, Headers.SESSION) ==>
              forall p :: Labelled(p, c)
  {
    Headers.ReadingsAgreeIff(c.headers, c.digest);
    Headers.KeyIsNotEmpty(c.headers, c.digest);
    hide Headers.RecordedUseCase, Headers.RecordedSession, Headers.CheckedUseCase, Headers.CheckedSession, Headers.Once;
    var useCase, session := Headers.RecordedUseCase(c.headers, c.digest), Headers.RecordedSession(c.headers);
    if forall p :: ValidPolicy(p) ==> Labelled(p, c) {
      if useCase.Some? {
        var p := Policy(None, map[useCase.value := 1.0], map[], None, false);
        assert ValidPolicy(p) && Labelled(p, c);
      }
      if session.Some? {
        var p := Policy(None, map[], map[], Some(1.0), false);
        assert ValidPolicy(p) && Labelled(p, c);
      }
    }
  }

  // ----- what a call holds ---------------------------------------------------------------------

  /** The reservation a call holds is live, is its own, and is the worst-case cost of the body sent. */
  ghost predicate Backed(s: Sys, c: Call, forward: Served, id: nat) {
    && id in s.inflight && id in s.gate.live
    && s.inflight[id].fingerprint == Headers.CheckedUseCase(c.headers, c.digest)
    && s.inflight[id].session == Headers.CheckedSession(c.headers)
    && ReservationCost(forward.body, forward.price) == Some(s.gate.live[id].amount)
  }

  /** A call without a reservation is free, names no model, or was checked against no ceiling. */
  predicate Exempt(p: Policy, c: Call, forward: Served, free: bool) {
    free || !UnderCeiling(p, RequestFor(c, forward, free, false))
  }

  ghost predicate Holds(s: Sys, c: Call, forward: Served, free: bool, reservation: Option<nat>) {
    if reservation.Some? then Backed(s, c, forward, reservation.value) else Exempt(s.gate.policy, c, forward, free)
  }

  /** What an admission grants: a reservation of exactly the worst-case cost, or no reservation to a
      request that is free or that no ceiling was consulted for. */
  lemma AdmissionGrants(s: GateState, q: Request, now: real)
    requires s.policy.reserveInFlight && !Admission(s, q, now).0.Refused?
    ensures var d := Admission(s, q, now).0;
            if d.AllowedReserving? then ReservationCost(q.body, q.price) == Some(d.amount)
            else q.providerFree || !UnderCeiling(s.policy, q)
  {}

  /** A call that gets past the checks holds a live reservation of exactly the worst-case
      cost of the body it sends, for the use-case and session checked; or none, if it is free or was
      checked against no ceiling. */
  lemma AskedHolds(s: Sys, c: Call, sel: Selection, now: real, later: real)
    requires s.gate.policy.reserveInFlight && SysPlaced(s)
    ensures var (final, d, _) := AskGate(c, sel, s.gate, now, later);
            && (!d.Refused? ==>
                  Holds(Asked(s, c, sel, now, later), c, final.forward, final.upstream.free, Granted(d)))
            && (d.AllowedReserving? ==> d.id == s.gate.next)
  {
    hide Decide, ReservationCost, SysPlaced;
    var q := RequestFor(c, sel.forward, sel.upstream.free, false);
    OnlyReservingHolds(s.gate, q, now);
    var (d1, g1) := Admission(s.gate, q, now);
    if FallsBack(c, sel, s.gate, now) {
      var sel2 := FallbackSelection(c, sel).value;
      var q2 := RequestFor(c, sel2.forward, sel2.upstream.free, true);
      OnlyReservingHolds(g1, q2, later);
      if !Admission(g1, q2, later).0.Refused? { AdmissionGrants(g1, q2, later); }
    } else {
      if !d1.Refused? { AdmissionGrants(s.gate, q, now); }
    }
  }

  // ----- a held reservation covers the trace ---------------------------------------------------

  lemma NothingBilled(price: Option<ModelPrice>, free: bool)
    ensures var cost := CostUsd(price, Some(NO_USAGE), free);
            cost.Some? ==> cost.value == 0.0
  {}

  lemma CostNonNegative(price: Option<ModelPrice>, u: Usage, free: bool)
    requires (price.Some? ==> ValidPrice(price.value)) && NoNegative(u)
    ensures var cost := CostUsd(price, Some(u), free); cost.Some? ==> 0.0 <= cost.value
  {
    if price.Some? {
      var room := Count(u.input) + Count(u.cacheRead) + Count(u.cacheWrite);
      BillCovered(Count(u.input) as real, Count(u.output) as real, Count(u.cacheRead) as real,
                  Count(u.cacheWrite) as real, room as real, Count(u.output) as real, price.value);
    }
  }

  /** A trace that carries a bill. */
  predicate Bills(h: Handover, found: Enrichment) { h.reason.Completed? && !h.free && found.Enriched? }

  predicate Due(p: Policy, c: Call, x: Served, h: Handover, found: Enrichment) {
    Bills(h, found) ==> FairBilling(x, h.reservation.Some?, found) && Labelled(p, c)
  }

  lemma ChargesAreFaced(p: Policy, c: Call, h: Handover, found: Enrichment, ts: real, scope: Scope)
    requires Limit(p, scope).Some? && found.Enriched?
    ensures Charges(scope, TraceOf(c, h, found, ts)) <==> Faces(p, c, scope)
  {
    hide Headers.RecordedUseCase, Headers.RecordedSession, CostUsd;
  }

  /** What the admission system asks of a trace, derived: its reservation is live, at least the bill,
      and counts against every ceiling the trace is charged to. */
  lemma BackedTraceIsOwn(s: Sys, c: Call, x: Served, h: Handover, found: Enrichment, ts: real)
    requires SysPlaced(s) && ValidPolicy(s.gate.policy) && Due(s.gate.policy, c, x, h, found)
    requires h.reservation.Some? && Backed(s, c, x, h.reservation.value)
    ensures Own(s, TraceOf(c, h, found, ts))
  {
    hide Bill, WorstBill, Headers.RecordedUseCase, Headers.RecordedSession, Labelled, CarriedOnce, HeldFor;
    var t, id, p := TraceOf(c, h, found, ts), h.reservation.value, s.gate.policy;
    if found.Enriched? { NothingBilled(found.price, h.free); }
    if Bills(h, found) {
      if found.price.Some? { ReservationCoversCost(x.body, found.price.value, found.usage); }
      ReservationCountsIff(p, c, s.inflight[id], s.gate.live[id].amount);
      forall scope | Limit(p, scope).Some? && Charges(scope, t) ensures Counts(scope, s.gate.live[id]) {
        ChargesAreFaced(p, c, h, found, ts, scope);
      }
    }
  }

  lemma NoCeilingNoCharge(p: Policy, q: Request, scope: Scope)
    requires ValidPolicy(p) && q.model.Some? && !UnderCeiling(p, q) && Limit(p, scope).Some?
    ensures scope.UseCaseScope? && q.fingerprint != Some(scope.useCase)
  {
    assert scope.UseCaseScope? && p.useCaseDaily != map[];
  }

  /** A labelled call that no ceiling was asked about is charged to none. */
  lemma ExemptTraceIsUncharged(p: Policy, c: Call, x: Served, h: Handover, found: Enrichment, ts: real)
    requires ValidPolicy(p) && h.reservation.None? && Due(p, c, x, h, found)
    requires h.reason.Completed? ==> Exempt(p, c, x, h.free)
    ensures Uncharged(p, TraceOf(c, h, found, ts))
  {
    hide Bill, Headers.RecordedUseCase, Headers.RecordedSession, Headers.CheckedUseCase, Headers.CheckedSession;
    var t := TraceOf(c, h, found, ts);
    if found.Enriched? { NothingBilled(found.price, h.free); }
    if Bills(h, found) && found.price.Some? {
      CostNonNegative(found.price, found.usage, h.free);
      forall scope | Limit(p, scope).Some? ensures !Charges(scope, t) {
        NoCeilingNoCharge(p, RequestFor(c, x, h.free, false), scope);
      }
    }
  }

  // ----- the invariant -------------------------------------------------------------------------

  ghost predicate Sends(s: Sys, o: Open) {
    Holds(s, o.call, o.sending.forward, o.sending.upstream.free, o.sending.reservation)
  }

  ghost predicate GatewayInv(s: Gateway) {
    && GatewayPlaced(s) && Covered(s.sys.gate, RecorderSafety.Pending(s.sys.rec))
    && s.sys.gate.policy.reserveInFlight && forall k <- s.open :: Sends(s.sys, s.open[k])
  }

  /** A call keeps what it holds unless its own reservation is handed over. */
  lemma HoldsThroughShrinking(s: Sys, s1: Sys, taken: set<nat>, c: Call, x: Served, free: bool, id: Option<nat>)
    requires SysPlaced(s1) && Shrinks(s, s1, taken) && Holds(s, c, x, free, id)
    requires id.Some? ==> id.value !in taken
    ensures Holds(s1, c, x, free, id)
  {
    hide ReservationCost, CarriedOnce, HeldFor;
  }

  lemma HoldsThroughExtending(s: Sys, s1: Sys, granted: set<nat>, c: Call, x: Served, free: bool, id: Option<nat>)
    requires Extends(s, s1, granted) && Holds(s, c, x, free, id)
    ensures Holds(s1, c, x, free, id)
  {
    hide ReservationCost, UnderCeiling;
  }

  lemma OpenKeepTheirs(s: Sys, s1: Sys, taken: set<nat>, open: map<nat, Open>, lost: set<nat>)
    requires SysPlaced(s1) && Shrinks(s, s1, taken) && Shared(s1.inflight.Keys, open, lost)
    requires forall k <- open :: Sends(s, open[k])
    ensures forall k <- open :: Sends(s1, open[k])
  {
    hide SysPlaced, Holds;
    forall k | k in open ensures Sends(s1, open[k]) {
      var o := open[k];
      assert Sends(s, o);
      var id := o.sending.reservation;
      if id.Some? { assert Holder(open, k, id.value); }
      HoldsThroughShrinking(s, s1, taken, o.call, o.sending.forward, o.sending.upstream.free, id);
    }
  }

  lemma OpenKeepMore(s: Sys, s1: Sys, granted: set<nat>, open: map<nat, Open>)
    requires Extends(s, s1, granted) && forall k <- open :: Sends(s, open[k])
    ensures forall k <- open :: Sends(s1, open[k])
  {
    hide Holds, Extends;
    forall k | k in open ensures Sends(s1, open[k]) {
      var o := open[k];
      assert Sends(s, o);
      HoldsThroughExtending(s, s1, granted, o.call, o.sending.forward, o.sending.upstream.free, o.sending.reservation);
    }
  }

  lemma SelectedIsPriced(c: Call, sel: Selection)
    requires Usable(c) && Select(c) == Ok(sel)
    ensures Priced(sel.forward)
    ensures FallbackSelection(c, sel).Some? ==> Priced(FallbackSelection(c, sel).value.forward)
  {}

  lemma AskedKeepsInv(s: Sys, c: Call, sel: Selection, now: real, later: real)
    requires SysInv(s) && Usable(c) && Select(c) == Ok(sel)
    ensures SysInv(Asked(s, c, sel, now, later))
  {
    hide SysInv, Select, FallbackSelection;
    SelectedIsPriced(c, sel);
    var es := Arrivals(s.gate, c, sel, now, later);
    var s1 := AdmissionSystem.Step(s, es[0]);
    assert AllowedRun(s1, es[1..]) by {
      if |es| == 2 { assert AllowedRun(AdmissionSystem.Step(s1, es[1]), []); }
    }
    SystemSafety(s, es);
    AskedIsArrivals(s, c, sel, now, later);
  }

  /** One trace handed over by a call that is not open, or not any more. */
  lemma OneHandOver(s: Sys, c: Call, x: Served, h: Handover, found: Enrichment, ts: real, now: real)
    requires SysInv(s) && Due(s.gate.policy, c, x, h, found)
    requires if h.reservation.Some? then Backed(s, c, x, h.reservation.value)
             else h.reason.Completed? ==> Exempt(s.gate.policy, c, x, h.free)
    ensures var s1 := AdmissionSystem.Run(s, HandOvers(c, [h], found, ts, now));
            SysInv(s1) && Shrinks(s, s1, IdSet(h.reservation))
  {
    hide Own, Uncharged, Exempt, Due, Shrinks, SysPlaced, SettlesOwn, Within, CostUsd, ReservationCost;
    var t := TraceOf(c, h, found, ts);
    assert HandOvers(c, [h], found, ts, now) == [HandOver(t, h.important, now)];
    RunOne(s, HandOver(t, h.important, now));
    if h.reservation.Some? {
      BackedTraceIsOwn(s, c, x, h, found, ts);
    } else {
      ExemptTraceIsUncharged(s.gate.policy, c, x, h, found, ts);
    }
    HandOverKeepsInv(s, t, h.important, now);
    HandOverShrinks(s, t, h.important, now);
  }

  // ----- every step keeps it -------------------------------------------------------------------

  lemma AnsweredKeepsInv(s: Gateway, c: Call, x: Served, id: Option<nat>, s1: Sys, traces: seq<Handover>,
                         found: Enrichment, ts: real, now: real)
    requires GatewayInv(s) && SysInv(s1) && Extends(s.sys, s1, IdSet(id))
    requires id.Some? ==> Backed(s1, c, x, id.value)
    requires |traces| <= 1 && (traces == [] ==> id.None?)
    requires forall h <- traces :: !h.reason.Completed? && h.reservation == id
    ensures GatewayInv(s.(sys := AdmissionSystem.Run(s1, HandOvers(c, traces, found, ts, now))))
  {
    hide SysPlaced, Covered, Sends, Backed, Labelled, Shared;
    AnsweredKeepsPlaced(s, c, id, s1, traces, found, ts, now);
    OpenKeepMore(s.sys, s1, IdSet(id), s.open);
    if traces == [] {
      NoHandOver(s1, c, found, ts, now);
    } else {
      var h := traces[0];
      assert h in traces && traces == [h];
      OneHandOver(s1, c, x, h, found, ts, now);
      OpenKeepTheirs(s1, AdmissionSystem.Run(s1, HandOvers(c, traces, found, ts, now)), IdSet(id), s.open, s.lost);
    }
  }

  lemma ForwardingKeepsInv(s: Gateway, k: nat, c: Call, x: Sending, s1: Sys)
    requires GatewayInv(s) && k !in s.open && c.recording && SysInv(s1) && Extends(s.sys, s1, IdSet(x.reservation))
    requires Holds(s1, c, x.forward, x.upstream.free, x.reservation)
    ensures GatewayInv(s.(sys := s1, open := s.open[k := Open(c, x)]))
  {
    hide SysPlaced, Covered, Holds, Shared;
    ForwardingKeepsPlaced(s, k, c, x, s1);
    OpenKeepMore(s.sys, s1, IdSet(x.reservation), s.open);
  }

  lemma BeginKeepsInv(s: Gateway, k: nat, c: Call, found: Enrichment, ts: real, now: real, later: real)
    requires GatewayInv(s) && Usable(c)
    ensures GatewayInv(GatewayStep(s, Begin(k, c, found, ts, now, later)))
  {
    hide SysPlaced, Covered, Sends, Backed, Shared, Extends, AskGate, Asked, Conclude;
    if k !in s.open {
      match Select(c) {
        case Err(stage) =>
          ChosenAnswers(c);
          NothingAsked(s.sys);
          AnsweredKeepsInv(s, c, c.original, None, s.sys, stage.traces, found, ts, later);
        case Ok(sel) =>
          var (final, d, _) := AskGate(c, sel, s.sys.gate, now, later);
          AskedKeepsInv(s.sys, c, sel, now, later);
          AskedHolds(s.sys, c, sel, now, later);
          AskedExtends(s.sys, c, sel, now, later);
          AnswersAreSynthetic(c, final, d);
          var stage, s1 := Conclude(c, final, d), Asked(s.sys, c, sel, now, later);
          assert BeforeSend(c, s.sys.gate, now, later).0 == stage;
          if stage.Answered? {
            AnsweredKeepsInv(s, c, final.forward, Granted(d), s1, stage.traces, found, ts, later);
          } else {
            ForwardingKeepsInv(s, k, c, stage.sending, s1);
          }
      }
    }
  }

  lemma EndKeepsInv(s: Gateway, k: nat, sent: bool, found: Enrichment, ts: real, now: real)
    requires GatewayInv(s) && Fair(s, End(k, sent, found, ts, now))
    ensures GatewayInv(GatewayStep(s, End(k, sent, found, ts, now)))
  {
    hide SysPlaced, Covered, Backed, Exempt, FairBilling, Labelled, AfterSend, Shared;
    if k in s.open {
      var o := s.open[k];
      assert Sends(s.sys, o);
      EndKeepsPlaced(s, k, sent, found, ts, now);
      EndingCarries(o.sending, sent);
      var traces := AfterSend(true, o.sending, sent);
      if traces == [] {
        NoHandOver(s.sys, o.call, found, ts, now);
      } else {
        var h := traces[0];
        assert h in traces && traces == [h];
        OneHandOver(s.sys, o.call, o.sending.forward, h, found, ts, now);
        var s1 := AdmissionSystem.Run(s.sys, HandOvers(o.call, traces, found, ts, now));
        OpenKeepTheirs(s.sys, s1, IdSet(h.reservation), s.open - {k}, s.lost);
      }
    }
  }

  lemma MirrorKeepsInv(s: Gateway, t: Trace, now: real)
    requires GatewayInv(s) && Fair(s, Mirror(t, now))
    ensures GatewayInv(GatewayStep(s, Mirror(t, now)))
  {
    hide SysPlaced, Covered, Sends, Shared, Uncharged;
    MirrorKeepsPlaced(s, t, now);
    HandOverShrinks(s.sys, t, true, now);
    HandOverKeepsInv(s.sys, t, true, now);
    OpenKeepTheirs(s.sys, AdmissionSystem.Step(s.sys, HandOver(t, true, now)), {}, s.open, s.lost);
  }

  lemma TickKeepsInv(s: Gateway, e: Recorder.Event<Trace>, now: real)
    requires GatewayInv(s) && !e.Enqueue? && !e.Put?
    ensures GatewayInv(GatewayStep(s, Tick(e, now)))
  {
    hide SysPlaced, Covered, Sends, Shared;
    TickKeepsPlaced(s, e, now);
    TickShrinks(s.sys, e, now);
    StepKeepsInv(s.sys, Settle(e, now));
    OpenKeepTheirs(s.sys, AdmissionSystem.Step(s.sys, Settle(e, now)), {}, s.open, s.lost);
  }

  lemma CancelKeepsInv(s: Gateway, k: nat)
    requires GatewayInv(s)
    ensures GatewayInv(GatewayStep(s, Cancel(k)))
  {
    hide GatewayPlaced, Covered, Sends;
    CancelKeepsPlaced(s, k);
  }

  lemma GatewayStepKeepsInv(s: Gateway, e: GatewayEvent)
    requires GatewayInv(s) && Fair(s, e)
    ensures GatewayInv(GatewayStep(s, e))
  {
    hide GatewayInv, GatewayStep;
    match e {
      case Begin(k, c, found, ts, now, later) => BeginKeepsInv(s, k, c, found, ts, now, later);
      case End(k, sent, found, ts, now) => EndKeepsInv(s, k, sent, found, ts, now);
      case Cancel(k) => CancelKeepsInv(s, k);
      case Mirror(t, now) => MirrorKeepsInv(s, t, now);
      case Tick(e, now) => TickKeepsInv(s, e, now);
    }
  }

  // ----- the ceilings --------------------------------------------------------------------------

  /** End to end: whatever hooks, fallbacks, credentials and upstreams do, and however calls, recorder
      steps, full queues, failed saves, failed enrichments, cancellations and shutdown interleave, spend
      recorded plus spend reserved stays within every ceiling, provided paid calls are labelled and
      billed as they were reserved. */
  lemma {:induction false} GatewayCeilings(s: Gateway, es: seq<GatewayEvent>)
    requires GatewayInv(s) && FairRun(s, es)
    ensures GatewayInv(GatewayRun(s, es)) && Within(GatewayRun(s, es).sys.gate)
    decreases |es|
  {
    if es != [] {
      GatewayStepKeepsInv(s, es[0]);
      GatewayCeilings(GatewayStep(s, es[0]), es[1..]);
    }
  }

  /** Which new gateways are safe: valid policy, reservations on, persisted totals within the ceilings. */
  lemma GatewayStartsIff(p: Policy, l: Ledger, maxsize: nat)
    ensures GatewayInv(Gateway(Fresh(p, l, maxsize), map[], {}))
            <==> && ValidPolicy(p) && p.reserveInFlight && 0.0 <= l.total && NonNegative(l.byUseCase)
                 && forall scope :: Limit(p, scope).Some? ==> RecordedSpend(l, scope) <= Limit(p, scope).value
  {
    NewGatewayIsPlaced(p, l, maxsize);
    StartIsSafeIff(p, l, maxsize);
  }

  // ----- spend that no reservation covers ------------------------------------------------------

  /** A completed call that holds no reservation, and is charged against `scope` all the same. */
  predicate ChargesUncovered(p: Policy, c: Call, h: Handover, found: Enrichment, scope: Scope) {
    var t := TraceOf(c, h, found, 0.0);
    && found.Enriched? && (found.price.Some? ==> ValidPrice(found.price.value)) && NoNegative(found.usage)
    && Limit(p, scope).Some? && Charges(scope, t) && t.cost.Some? && 0.0 < t.cost.value
  }

  const COSTLY := Enriched(Some(ModelPrice(MILLION, 0.0, 0.0, 0.0, None)), Usage(Some(2), None, None, None))

  /** When a completed call without a reservation can be charged against a ceiling, exactly: its
      upstream is paid and a ceiling stands over its recorded use-case or session, or over all. */
  lemma UncoveredChargeIff(p: Policy, c: Call, h: Handover)
    requires h.reason.Completed?
    ensures (exists found, scope :: ChargesUncovered(p, c, h, found, scope))
            <==> !h.free && exists scope :: Faces(p, c, scope)
  {
    hide Headers.RecordedUseCase, Headers.RecordedSession;
    forall found, scope | ChargesUncovered(p, c, h, found, scope) ensures !h.free && Faces(p, c, scope) {
      ChargesAreFaced(p, c, h, found, 0.0, scope);
    }
    if !h.free && exists scope :: Faces(p, c, scope) {
      var scope :| Faces(p, c, scope);
      ChargesAreFaced(p, c, h, COSTLY, 0.0, scope);
      assert ChargesUncovered(p, c, h, COSTLY, scope);
    }
  }

  /** Among the calls the gate admits without a reservation there are two kinds. A body that names no
      model passes before any ceiling is looked at, and is charged if its response names a priced one.
      A body that names a model is charged exactly when a ceiling stands over the recorded use-case,
      which then is not the checked one. */
  lemma AdmittedUncoveredIff(p: Policy, c: Call, x: Served, h: Handover)
    requires ValidPolicy(p) && h.reason.Completed? && h.reservation.None? && Exempt(p, c, x, h.free)
    ensures var useCase := Headers.RecordedUseCase(c.headers, c.digest);
            (exists found, scope :: ChargesUncovered(p, c, h, found, scope))
            <==> !h.free && if x.model.None? then exists scope :: Faces(p, c, scope)
                            else useCase.Some? && useCase.value in p.useCaseDaily
    ensures x.model.Some? && (exists found, scope :: ChargesUncovered(p, c, h, found, scope)) ==> !Labelled(p, c)
  {
    hide Headers.RecordedUseCase, Headers.RecordedSession, Headers.CheckedUseCase, Headers.CheckedSession;
    UncoveredChargeIff(p, c, h);
    hide ChargesUncovered;
    var useCase := Headers.RecordedUseCase(c.headers, c.digest);
    if x.model.Some? && !h.free {
      forall scope | Faces(p, c, scope) ensures useCase.Some? && useCase.value in p.useCaseDaily {
        NoCeilingNoCharge(p, RequestFor(c, x, h.free, false), scope);
      }
      if useCase.Some? && useCase.value in p.useCaseDaily { assert Faces(p, c, UseCaseScope(useCase.value)); }
    }
  }

  // ----- the labels are needed: one request that repeats its route header ----------------------

  const PRICE := ModelPrice(MILLION, 0.0, 0.0, 0.0, None)
  const BODY := Served(Some("m"), Some(PRICE), Object(10, Missing, Missing))
  const REPEATED: Headers.Lines := [(Headers.ROUTE, "r1"), (Headers.ROUTE, "r2")]
  const TWICE_ROUTED := Call(BODY, REPEATED, None, NoHook, NoFallback,
                             Upstream(None, None, false, None), None, true, true)
  const ONE_CEILING := Policy(None, map["tag:r2" := 1.0], map[], None, true)

  lemma TwiceRoutedReads()
    ensures Headers.CheckedUseCase(REPEATED, None) == Some("tag:r1")
    ensures Headers.RecordedUseCase(REPEATED, None) == Some("tag:r2")
    ensures Headers.CheckedSession(REPEATED) == None && Headers.RecordedSession(REPEATED) == None
  {
    assert REPEATED[..1] == [(Headers.ROUTE, "r1")] && REPEATED[1..] == [(Headers.ROUTE, "r2")];
    assert REPEATED[..1][..0] == [] && REPEATED[1..][1..] == [];
    Headers.CopyKeepsLast(REPEATED, Headers.ROUTE);
    Headers.CopyKeepsLast(REPEATED, Headers.SESSION);
    assert Headers.Last(REPEATED[..1], Headers.SESSION) == None;
    assert Headers.First(REPEATED[1..], Headers.SESSION) == None;
    assert Headers.First(REPEATED, Headers.ROUTE) == Some("r1") && Headers.Last(REPEATED, Headers.ROUTE) == Some("r2");
    assert "tag:" + "r1" == "tag:r1" && "tag:" + "r2" == "tag:r2";
  }

  const SENT := Handover(Completed, None, None, false, false)

  function EscapingRun(ts: real): seq<GatewayEvent> {
    [Begin(0, TWICE_ROUTED, COSTLY, ts, ts, ts), End(0, true, COSTLY, ts, ts),
     Tick(Recorder.Start, ts), Tick(Recorder.Take, ts), Tick(Recorder.SaveOk, ts)]
  }

  const NEW := Gateway(Fresh(ONE_CEILING, EMPTY_LEDGER, 0), map[], {})

  /** The call names its model and its priced use-case has no ceiling, so it is admitted without a
      reservation and sent. */
  lemma TwiceRoutedIsSent(ts: real)
    ensures GatewayStep(NEW, Begin(0, TWICE_ROUTED, COSTLY, ts, ts, ts))
            == NEW.(open := map[0 := Open(TWICE_ROUTED, Sending(BODY, None, TWICE_ROUTED.upstream, false, None))])
  {
    TwiceRoutedReads();
    hide Headers.RecordedUseCase, Headers.RecordedSession, Headers.CheckedUseCase, Headers.CheckedSession;
    var g, q := NEW.sys.gate, RequestFor(TWICE_ROUTED, BODY, false, false);
    assert Admission(g, q, ts) == (Allowed, g);
  }

  lemma TwiceRoutedIsCharged(ts: real)
    ensures !Within(Settled(NEW.sys.gate, TraceOf(TWICE_ROUTED, SENT, COSTLY, ts), ts))
  {
    TwiceRoutedReads();
    hide Headers.RecordedUseCase, Headers.RecordedSession, Headers.CheckedUseCase, Headers.CheckedSession;
    var g, t := NEW.sys.gate, TraceOf(TWICE_ROUTED, SENT, COSTLY, ts);
    assert t.useCase == Some("tag:r2") && t.cost == Some(2.0);
    NothingReserved(UseCaseScope("tag:r2"), 1);
    var g1 := Settled(g, t, ts);
    assert Spent(g1, UseCaseScope("tag:r2")) == 2.0;
    assert Limit(g1.policy, UseCaseScope("tag:r2")) == Some(1.0);
  }

  lemma RunFive(s: Gateway, es: seq<GatewayEvent>)
    requires |es| == 5
    ensures GatewayRun(s, es)
            == GatewayStep(GatewayStep(GatewayStep(GatewayStep(GatewayStep(s, es[0]), es[1]), es[2]), es[3]), es[4])
  {
    hide GatewayStep;
    assert es[1..][1..] == es[2..] && es[2..][1..] == es[3..] && es[3..][1..] == es[4..] && es[4..][1..] == [];
    var s1 := GatewayStep(s, es[0]);
    var s2 := GatewayStep(s1, es[1]);
    var s3 := GatewayStep(s2, es[2]);
    var s4 := GatewayStep(s3, es[3]);
    assert GatewayRun(s4, es[4..]) == GatewayRun(GatewayStep(s4, es[4]), []);
    assert GatewayRun(s3, es[3..]) == GatewayRun(s4, es[4..]);
    assert GatewayRun(s2, es[2..]) == GatewayRun(s3, es[3..]);
    assert GatewayRun(s1, es[1..]) == GatewayRun(s2, es[2..]);
  }

  lemma EndHandsOver(s: Gateway, ts: real)
    requires s == NEW.(open := map[0 := Open(TWICE_ROUTED, Sending(BODY, None, TWICE_ROUTED.upstream, false, None))])
    ensures GatewayStep(s, End(0, true, COSTLY, ts, ts)).sys
            == s.sys.(rec := Recorder.Accept(s.sys.rec, TraceOf(TWICE_ROUTED, SENT, COSTLY, ts)))
  {
    hide CostUsd;
    var t := TraceOf(TWICE_ROUTED, SENT, COSTLY, ts);
    assert HandOvers(TWICE_ROUTED, [SENT], COSTLY, ts, ts) == [HandOver(t, false, ts)];
    RunOne(s.sys, HandOver(t, false, ts));
    assert RecorderSafety.News(s.sys.rec, Recorder.Enqueue(t)) == [];
  }

  lemma RecordedAtOnce(s: Sys, t: Trace, now: real)
    requires s.rec.worker.NotRunning? && s.rec.queue == [t]
    ensures var s1 := AdmissionSystem.Step(s, Settle(Recorder.Start, now));
            var s2 := AdmissionSystem.Step(s1, Settle(Recorder.Take, now));
            AdmissionSystem.Step(s2, Settle(Recorder.SaveOk, now)).gate == Settled(s.gate, t, now)
  {
    hide Settled;
    var s1 := AdmissionSystem.Step(s, Settle(Recorder.Start, now));
    assert s1 == s.(rec := s.rec.(worker := Recorder.Idle));
    var s2 := AdmissionSystem.Step(s1, Settle(Recorder.Take, now));
    assert s2.gate == s.gate && s2.rec.worker == Recorder.Saving(t);
    var news := RecorderSafety.Items(RecorderSafety.News(s2.rec, Recorder.SaveOk));
    assert news == [t];
    assert SettleAll(s.gate, news, now) == SettleAll(Settled(s.gate, t, now), news[1..], now);
  }

  /** The recorder settles the one trace, and nothing else has happened at the gate. */
  lemma EscapingRunSettles(ts: real)
    ensures GatewayRun(NEW, EscapingRun(ts)).sys.gate
            == Settled(NEW.sys.gate, TraceOf(TWICE_ROUTED, SENT, COSTLY, ts), ts)
  {
    hide Settled, TraceOf, Recorder.Step, AdmissionSystem.Step, BeforeSend, Checked, GatewayRun, Day;
    var t, es := TraceOf(TWICE_ROUTED, SENT, COSTLY, ts), EscapingRun(ts);
    TwiceRoutedIsSent(ts);
    var s1 := GatewayStep(NEW, es[0]);
    EndHandsOver(s1, ts);
    RecordedAtOnce(s1.sys.(rec := Recorder.Accept(s1.sys.rec, t)), t, ts);
    RunFive(NEW, es);
  }

  /** A whole run from a new, safe gateway in which the one call is usable and billed fairly, and only
      its label is wrong: at the end the ceiling on the use-case its trace names is passed. */
  lemma RepeatedRouteEscapes(ts: real)
    ensures GatewayInv(NEW) && Usable(TWICE_ROUTED) && FairBilling(BODY, false, COSTLY)
    ensures !Labelled(ONE_CEILING, TWICE_ROUTED)
    ensures ProperRun(EscapingRun(ts)) && !Within(GatewayRun(NEW, EscapingRun(ts)).sys.gate)
  {
    hide Within, Settled, TraceOf, GatewayRun, GatewayInv;
    NewIsSafe();
    TwiceRoutedReads();
    hide Headers.RecordedUseCase, Headers.RecordedSession, Headers.CheckedUseCase, Headers.CheckedSession;
    EscapingRunSettles(ts);
    TwiceRoutedIsCharged(ts);
  }

  lemma NewIsSafe()
    ensures GatewayInv(NEW)
  {
    GatewayStartsIff(ONE_CEILING, EMPTY_LEDGER, 0);
    assert "tag:r2" in ONE_CEILING.useCaseDaily && Enabled(ONE_CEILING) && ValidPolicy(ONE_CEILING);
    forall scope | Limit(ONE_CEILING, scope).Some?
      ensures RecordedSpend(EMPTY_LEDGER, scope) <= Limit(ONE_CEILING, scope).value
    {
      assert scope == UseCaseScope("tag:r2");
    }
  }

  // ----- and one that repeats its session header -----------------------------------------------

  const TWO_SESSIONS: Headers.Lines := [(Headers.SESSION, "a"), (Headers.SESSION, "b")]
  const BOUNDED := Served(Some("m"), Some(ModelPrice(0.0, MILLION, 0.0, 0.0, None)), Object(10, Cap(1), Missing))
  const TWO_SESSION_CALL := Call(BOUNDED, TWO_SESSIONS, None, NoHook, NoFallback,
                                 Upstream(None, None, false, None), None, true, true)
  const PER_SESSION := Policy(None, map[], map[], Some(1.0), true)
  const HALF_SPENT := GateState(PER_SESSION, Ledger(None, 0.0, map[], map["b" := 0.5], {}), 1, map[])
  const ONE_OUTPUT_TOKEN := Usage(None, Some(1), None, None)

  lemma TwoSessionsRead()
    ensures Headers.CheckedSession(TWO_SESSIONS) == Some("a") && Headers.RecordedSession(TWO_SESSIONS) == Some("b")
  {
    Headers.CopyKeepsLast(TWO_SESSIONS, Headers.SESSION);
    assert Headers.First(TWO_SESSIONS, Headers.SESSION) == Some("a");
    assert Headers.Last(TWO_SESSIONS, Headers.SESSION) == Some("b");
  }

  /** The call is admitted under session "a" with a reservation that covers its bill exactly, and its
      trace takes session "b" over its ceiling. */
  lemma RepeatedSessionEscapes(now: real)
    ensures var (d, g) := Admission(HALF_SPENT, RequestFor(TWO_SESSION_CALL, BOUNDED, false, false), now);
            var found := Enriched(BOUNDED.price, ONE_OUTPUT_TOKEN);
            var h := Handover(Completed, None, Some(1), false, true);
            && d == AllowedReserving(1, 1.0) && g.live.Keys == {1} && Inv(HALF_SPENT)
            && Usable(TWO_SESSION_CALL) && FairBilling(BOUNDED, true, found)
            && !Within(Settled(g, TraceOf(TWO_SESSION_CALL, h, found, now), now))
  {
    TwoSessionsRead();
    hide Headers.RecordedSession, Headers.CheckedSession, Headers.RecordedUseCase, Headers.CheckedUseCase;
    HalfSpentIsSafe();
    var q := RequestFor(TWO_SESSION_CALL, BOUNDED, false, false);
    assert ReservationCost(q.body, q.price) == Some(1.0);
    assert RecordedSpend(HALF_SPENT.ledger, SessionScope("a")) == 0.0;
    var (d, g) := Admission(HALF_SPENT, q, now);
    assert d == AllowedReserving(1, 1.0);
    var h := Handover(Completed, None, Some(1), false, true);
    var t := TraceOf(TWO_SESSION_CALL, h, Enriched(BOUNDED.price, ONE_OUTPUT_TOKEN), now);
    assert t.session == Some("b") && t.cost == Some(1.0);
    var g1 := Settled(g, t, now);
    assert g1.live == map[];
    NothingReserved(SessionScope("b"), g1.next);
    assert Spent(g1, SessionScope("b")) == 1.5;
    assert Limit(g1.policy, SessionScope("b")) == Some(1.0);
  }

  lemma HalfSpentIsSafe()
    ensures Inv(HALF_SPENT) && forall scope :: Reserved(HALF_SPENT, scope) == 0.0
  {
    assert Enabled(PER_SESSION) && ValidPolicy(PER_SESSION);
    forall scope ensures Reserved(HALF_SPENT, scope) == 0.0 { NothingReserved(scope, 1); }
    forall scope | Limit(PER_SESSION, scope).Some? ensures Spent(HALF_SPENT, scope) <= Limit(PER_SESSION, scope).value {
      assert scope.SessionScope?;
    }
  }
}
