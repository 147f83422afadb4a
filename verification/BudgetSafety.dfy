/** No run of admissions and settlements ever takes recorded plus reserved spend over a ceiling. */
module BudgetSafety {
  import opened Prelude
  import opened Pricing
  import opened Budget

  // ----- sums over the live reservations -------------------------------------------------------

  function Share(live: map<nat, Reservation>, scope: Scope, id: nat): real {
    if id in live && Counts(scope, live[id]) then live[id].amount else 0.0
  }

  lemma {:induction false} SumIgnoresLaterIds(live: map<nat, Reservation>, scope: Scope, n: nat,
                                            id: nat, r: Reservation)
    requires n <= id
    ensures ReservedBelow(live[id := r], scope, n) == ReservedBelow(live, scope, n)
  {
    if n > 0 { SumIgnoresLaterIds(live, scope, n - 1, id, r); }
  }

  lemma {:induction false} SumAfterRelease(live: map<nat, Reservation>, scope: Scope, n: nat, id: nat)
    ensures ReservedBelow(live - {id}, scope, n)
         == ReservedBelow(live, scope, n) - if id < n then Share(live, scope, id) else 0.0
  {
    if n > 0 { SumAfterRelease(live, scope, n - 1, id); }
  }

  lemma {:induction false} SumNonNegative(live: map<nat, Reservation>, scope: Scope, n: nat)
    requires forall id <- live :: 0.0 <= live[id].amount
    ensures 0.0 <= ReservedBelow(live, scope, n)
  {
    if n > 0 { SumNonNegative(live, scope, n - 1); }
  }

  // ----- what one step does to one ceiling -----------------------------------------------------

  /** Whether a trace's cost is charged against a ceiling. */
  predicate Charges(scope: Scope, t: Trace) {
    match scope
    case GlobalScope => true
    case UseCaseScope(u) => t.useCase == Some(u)
    case SessionScope(s) => t.session == Some(s)
  }

  function RecordedSpend(l: Ledger, scope: Scope): real {
    match scope
    case GlobalScope => l.total
    case UseCaseScope(u) => Get(l.byUseCase, u, 0.0)
    case SessionScope(s) => Get(l.bySession, s, 0.0)
  }

  predicate Daily(scope: Scope) { !scope.SessionScope? }

  /** Recording is exact: a cost is added once to each ceiling it is charged against, except that a
      trace from another day than the clock's adds nothing to the daily totals. */
  lemma RecordingIsExact(l: Ledger, t: Trace, now: real, scope: Scope)
    ensures RecordedSpend(Recorded(l, t, now), scope)
         == (if Daily(scope) && l.day != Some(Day(now)) then 0.0 else RecordedSpend(l, scope))
            + if t.cost.Some? && Charges(scope, t) && (Daily(scope) ==> Day(t.ts) == Day(now))
              then t.cost.value else 0.0
  {}

  /** Settling releases exactly the reservation the trace names and records exactly its cost. */
  lemma SettlementIsExact(s: GateState, t: Trace, now: real, scope: Scope)
    requires forall id <- s.live :: id < s.next
    ensures Spent(Settled(s, t, now), scope)
         == RecordedSpend(Recorded(s.ledger, t, now), scope) + Reserved(s, scope)
            - if t.reservation.Some? then Share(s.live, scope, t.reservation.value) else 0.0
  {
    if t.reservation.Some? { SumAfterRelease(s.live, scope, s.next, t.reservation.value); }
  }

  /** Reserving adds exactly the amount to each ceiling the reservation names. */
  lemma ReservingIsExact(s: GateState, q: Request, amount: real, scope: Scope)
    requires forall id <- s.live :: id < s.next
    ensures Spent(Reserve(s, q, amount), scope)
         == Spent(s, scope) + if Counts(scope, ReservationFor(s.policy, q, amount)) then amount else 0.0
  {
    SumIgnoresLaterIds(s.live, scope, s.next, s.next, ReservationFor(s.policy, q, amount));
  }

  // ----- the invariant -------------------------------------------------------------------------

  /** Recorded plus reserved spend is within the global ceiling, every use-case ceiling and every
      session's ceiling at once. */
  ghost predicate Within(s: GateState) {
    forall scope :: Limit(s.policy, scope).Some? ==> Spent(s, scope) <= Limit(s.policy, scope).value
  }

  ghost predicate Sound(s: GateState) {
    && ValidPolicy(s.policy)
    && (forall id <- s.live :: id < s.next && 0.0 <= s.live[id].amount)
    && 0.0 <= s.ledger.total && NonNegative(s.ledger.byUseCase)
  }

  ghost predicate Inv(s: GateState) { Sound(s) && Within(s) }

  lemma RolloverKeepsInv(s: GateState, q: Request, now: real)
    requires Inv(s)
    ensures Inv(Consulted(s, q, now))
  {
    var s1 := Consulted(s, q, now);
    forall scope | Limit(s1.policy, scope).Some?
      ensures Spent(s1, scope) <= Limit(s1.policy, scope).value
    {
      assert Spent(s, scope) <= Limit(s.policy, scope).value;
      assert Spent(s1, scope) <= Spent(s, scope);
    }
  }

  lemma AdmissionKeepsInv(s: GateState, q: Request, now: real)
    requires Inv(s) && (q.price.Some? ==> ValidPrice(q.price.value))
    ensures Inv(Admission(s, q, now).1)
  {
    var s1 := Consulted(s, q, now);
    RolloverKeepsInv(s, q, now);
    var d := Admission(s, q, now).0;
    if d.AllowedReserving? {
      ReservationNonNegative(q.body, q.price.value);
      var s2 := Admission(s, q, now).1;
      assert s2 == Reserve(s1, q, d.amount);
      forall scope | Limit(s2.policy, scope).Some?
        ensures Spent(s2, scope) <= Limit(s2.policy, scope).value
      {
        ReservingIsExact(s1, q, d.amount, scope);
        assert Spent(s1, scope) <= Limit(s1.policy, scope).value;
        assert Overflow(s1, KeyOf(s1.policy, q), q.session, d.amount).None?;
      }
    }
  }

  lemma ReservationNonNegative(body: Body, price: ModelPrice)
    requires ValidPrice(price)
    ensures ReservationCost(body, Some(price)).Some? ==> 0.0 <= ReservationCost(body, Some(price)).value
  {
    var bound := OutputBound(body, price);
    if bound.Some? {
      BillCovered(0.0, 0.0, 0.0, 0.0, (body.length + REQUEST_TOKEN_OVERHEAD) as real, bound.value as real, price);
    }
  }

  /** A cost-bearing trace settles its own live reservation: for every ceiling the trace is charged
      to, the reservation counts against that ceiling and is at least the cost. */
  ghost predicate SettlesOwn(s: GateState, t: Trace) {
    t.cost.Some? ==>
      && 0.0 <= t.cost.value
      && forall scope :: Limit(s.policy, scope).Some? && Charges(scope, t) && t.cost.value != 0.0
                         ==> Covers(s, t, scope)
  }

  predicate Covers(s: GateState, t: Trace, scope: Scope) {
    && t.reservation.Some? && t.reservation.value in s.live
    && Counts(scope, s.live[t.reservation.value])
    && t.cost.Some? && t.cost.value <= s.live[t.reservation.value].amount
  }

  lemma SettlementKeepsInv(s: GateState, t: Trace, now: real)
    requires Inv(s) && SettlesOwn(s, t)
    ensures Inv(Settled(s, t, now))
  {
    var s1 := Settled(s, t, now);
    forall scope | Limit(s1.policy, scope).Some?
      ensures Spent(s1, scope) <= Limit(s1.policy, scope).value
    {
      SettlementIsExact(s, t, now, scope);
      RecordingIsExact(s.ledger, t, now, scope);
      assert Spent(s, scope) <= Limit(s.policy, scope).value;
      assert RecordedSpend(s.ledger, scope) + Reserved(s, scope) == Spent(s, scope);
    }
  }

  // ----- whole runs ----------------------------------------------------------------------------

  datatype Event = CheckEvent(q: Request, now: real) | ObserveEvent(t: Trace, now: real)

  function Step(s: GateState, e: Event): GateState {
    match e
    case CheckEvent(q, now) => Admission(s, q, now).1
    case ObserveEvent(t, now) => Settled(s, t, now)
  }

  function Run(s: GateState, es: seq<Event>): GateState
    decreases |es|
  {
    if es == [] then s else Run(Step(s, es[0]), es[1..])
  }

  ghost predicate Honest(s: GateState, e: Event) {
    match e
    case CheckEvent(q, _) => q.price.Some? ==> ValidPrice(q.price.value)
    case ObserveEvent(t, _) => SettlesOwn(s, t)
  }

  ghost predicate HonestRun(s: GateState, es: seq<Event>)
    decreases |es|
  {
    es == [] || (Honest(s, es[0]) && HonestRun(Step(s, es[0]), es[1..]))
  }

  /** Ceiling safety: along every run, with the clock moving forwards or backwards over any number of
      days, spend recorded plus spend reserved never exceeds any ceiling. */
  lemma {:induction false} CeilingSafety(s: GateState, es: seq<Event>)
    requires Inv(s) && HonestRun(s, es)
    ensures Inv(Run(s, es)) && Within(Run(s, es))
    decreases |es|
  {
    if es != [] {
      match es[0] {
        case CheckEvent(q, now) => AdmissionKeepsInv(s, q, now);
        case ObserveEvent(t, now) => SettlementKeepsInv(s, t, now);
      }
      CeilingSafety(Step(s, es[0]), es[1..]);
    }
  }

  /** The hypothesis is needed: one trace that settles no reservation takes the gate over its ceiling. */
  lemma UnreservedSpendBreaksCeiling()
    ensures exists s: GateState, t: Trace ::
              Inv(s) && t.cost == Some(2.0) && t.reservation.None? && !Within(Settled(s, t, t.ts))
  {
    var p := Policy(Some(1.0), map[], map[], None, true);
    var s := GateState(p, EMPTY_LEDGER, 1, map[]);
    var t := Trace(None, None, 0.0, Some(2.0), false, false, None);
    assert ReservedBelow(map[], GlobalScope, 1) == 0.0 by {
      assert ReservedBelow(map[], GlobalScope, 0) == 0.0;
    }
    assert Spent(s, GlobalScope) == 0.0;
    assert Inv(s);
    var s1 := Settled(s, t, 0.0);
    assert Spent(s1, GlobalScope) == 2.0;
    assert Limit(s1.policy, GlobalScope) == Some(1.0);
    assert !Within(s1);
  }

  // ----- what a decision means -----------------------------------------------------------------

  /** The ceilings a request is charged against. */
  predicate Touches(q: Request, scope: Scope, p: Policy) {
    match scope
    case GlobalScope => true
    case UseCaseScope(u) => KeyOf(p, q) == Some(u)
    case SessionScope(s) => q.session == Some(s)
  }

  ghost predicate Room(s: GateState, q: Request, need: real) {
    forall scope :: Limit(s.policy, scope).Some? && Touches(q, scope, s.policy) ==>
      && Spent(s, scope) < Limit(s.policy, scope).value
      && Spent(s, scope) + need <= Limit(s.policy, scope).value
  }

  /** Admission is exact: under reservation, a paid request is admitted, and holds precisely its
      worst-case cost, if and only if every ceiling it touches is not yet full and still has room
      for that cost, no fallback is due, its session has no unknown cost, and the cost can be
      computed at all. */
  lemma AdmissionExact(s: GateState, q: Request, now: real)
    requires ValidPolicy(s.policy) && s.policy.reserveInFlight && UnderCeiling(s.policy, q) && !q.providerFree
    ensures var s1 := Consulted(s, q, now); var need := ReservationCost(q.body, q.price);
            Admission(s, q, now).0.AllowedReserving? <==>
            && (s.policy.sessionLimit.Some? ==> q.session.Some? && q.session.value !in s.ledger.unknownSessions)
            && q.price.Some? && need.Some?
            && !WantsFallback(s1, q, KeyOf(s.policy, q))
            && Room(s1, q, need.value)
    ensures Admission(s, q, now).0.AllowedReserving? ==>
            Admission(s, q, now).0 == AllowedReserving(s.next, ReservationCost(q.body, q.price).value)
  {
    var s1 := Consulted(s, q, now);
    var need := ReservationCost(q.body, q.price);
    var useCase := KeyOf(s.policy, q);
    if need.Some? && Room(s1, q, need.value) && (s.policy.sessionLimit.Some? ==> q.session.Some?) {
      assert !AtLimit(s1, GlobalScope) && !Overflows(s1, GlobalScope, need.value);
      if useCase.Some? {
        assert Touches(q, UseCaseScope(useCase.value), s.policy);
        assert !AtLimit(s1, UseCaseScope(useCase.value)) && !Overflows(s1, UseCaseScope(useCase.value), need.value);
      }
      if q.session.Some? {
        assert Touches(q, SessionScope(q.session.value), s.policy);
        assert !AtLimit(s1, SessionScope(q.session.value)) && !Overflows(s1, SessionScope(q.session.value), need.value);
      }
    }
  }

  /** A refusal for lack of budget is justified: the ceiling it names touches the request, its figures
      are the gate's own, and either that ceiling is full or the worst-case cost does not fit. */
  lemma ExceededIsJustified(s: GateState, q: Request, now: real)
    requires ValidPolicy(s.policy)
    requires Admission(s, q, now).0.Refused? && Admission(s, q, now).0.error.Exceeded?
    ensures var e := Admission(s, q, now).0.error; var s1 := Admission(s, q, now).1;
            && Touches(q, e.scope, s.policy)
            && Limit(s.policy, e.scope) == Some(e.limit) && Spent(s1, e.scope) == e.spent
            && (e.limit <= e.spent
                || (ReservationCost(q.body, q.price).Some?
                    && e.limit < e.spent + ReservationCost(q.body, q.price).value))
  {
    var s1 := Consulted(s, q, now);
    assert Admission(s, q, now) == (Decide(s1, q), s1);
  }

  /** A refusal, or an admission that reserves nothing, leaves every reservation alone. */
  lemma OnlyReservingHolds(s: GateState, q: Request, now: real)
    ensures var (d, s1) := Admission(s, q, now);
            && s1.policy == s.policy
            && (d.AllowedReserving? ==>
                  && d.id == s.next && s1.next == s.next + 1
                  && s1.live == s.live[d.id := ReservationFor(s.policy, q, d.amount)])
            && (!d.AllowedReserving? ==> s1.live == s.live && s1.next == s.next)
  {}
}
