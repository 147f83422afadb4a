/** What the gate answers, exactly and in terms of today's spend alone: when it admits, and for which
    reason it refuses. */
module BudgetDecisions {
  import opened Prelude
  import opened Pricing
  import opened Budget
  import opened BudgetSafety

  // ----- days ----------------------------------------------------------------------------------

  /** A day is the half-open stretch of 86400 seconds that starts at a multiple of 86400. */
  lemma DayIs(ts: real, day: int)
    ensures Day(ts) == day <==> day as real * SECONDS_PER_DAY <= ts < (day + 1) as real * SECONDS_PER_DAY
  {
    var q := ts / SECONDS_PER_DAY;
    assert q * SECONDS_PER_DAY == ts;
    assert q.Floor as real <= q < q.Floor as real + 1.0;
    assert Day(ts) == day <==> day as real <= q < day as real + 1.0;
  }

  // ----- spend as a check sees it ----------------------------------------------------------------

  /** Recorded plus reserved spend; daily totals of another day than the clock's count as nothing. */
  function SpendNow(s: GateState, scope: Scope, now: real): real {
    Reserved(s, scope) + if Daily(scope) && s.ledger.day != Some(Day(now)) then 0.0 else RecordedSpend(s.ledger, scope)
  }

  /** A ceiling that stands over the request. */
  predicate Over(p: Policy, q: Request, scope: Scope) {
    && Limit(p, scope).Some?
    && match scope
       case GlobalScope => true
       case UseCaseScope(u) => q.fingerprint == Some(u)
       case SessionScope(x) => q.session == Some(x)
  }

  predicate FullNow(s: GateState, q: Request, scope: Scope, now: real) {
    Over(s.policy, q, scope) && Limit(s.policy, scope).value <= SpendNow(s, scope, now)
  }

  /** The request's use-case has reached the threshold at which an approved fallback takes over. */
  predicate FallbackDue(s: GateState, q: Request, now: real) {
    && q.fingerprint.Some? && q.fingerprint.value in s.policy.useCaseFallback && !q.fallbackApplied
    && s.policy.useCaseFallback[q.fingerprint.value] <= SpendNow(s, UseCaseScope(q.fingerprint.value), now)
  }

  /** The check applies at all: a model is named, and a ceiling stands over the request or over sessions. */
  ghost predicate Applies(p: Policy, q: Request) {
    q.model.Some? && (p.sessionLimit.Some? || exists scope :: Over(p, q, scope))
  }

  ghost predicate RoomNow(s: GateState, q: Request, now: real, need: real) {
    forall scope :: Over(s.policy, q, scope) ==> SpendNow(s, scope, now) + need <= Limit(s.policy, scope).value
  }

  predicate Reserves(p: Policy, q: Request) { p.reserveInFlight && !q.providerFree }

  lemma AppliesIs(p: Policy, q: Request)
    requires ValidPolicy(p)
    ensures Applies(p, q) <==> UnderCeiling(p, q)
  {
    if p.globalDaily.Some? { assert Over(p, q, GlobalScope); }
    if Lookup(p.useCaseDaily, KeyOf(p, q)).Some? { assert Over(p, q, UseCaseScope(q.fingerprint.value)); }
  }

  /** The consulted state shows today's spend for every ceiling over the request. */
  lemma ConsultedShowsToday(s: GateState, q: Request, now: real, scope: Scope)
    requires ValidPolicy(s.policy)
    ensures Over(s.policy, q, scope) ==> Spent(Consulted(s, q, now), scope) == SpendNow(s, scope, now)
    ensures scope.SessionScope? ==> Spent(Consulted(s, q, now), scope) == SpendNow(s, scope, now)
  {
    if Over(s.policy, q, scope) && scope.UseCaseScope? { assert scope.useCase in s.policy.useCaseDaily; }
  }

  lemma DailyFullIff(s: GateState, q: Request, now: real)
    requires ValidPolicy(s.policy)
    ensures DailyAtLimit(Consulted(s, q, now), KeyOf(s.policy, q)).Some?
            <==> exists scope :: Daily(scope) && FullNow(s, q, scope, now)
  {
    hide Consulted, SpendNow;
    var s1, useCase := Consulted(s, q, now), KeyOf(s.policy, q);
    assert s1.policy == s.policy by { SamePolicy(s, q, now); }
    forall scope ensures Over(s.policy, q, scope) ==> Spent(s1, scope) == SpendNow(s, scope, now) {
      ConsultedShowsToday(s, q, now, scope);
    }
    var found := DailyAtLimit(s1, useCase);
    if found.Some? { assert FullNow(s, q, found.value, now); }
    if scope :| Daily(scope) && FullNow(s, q, scope, now) {
      assert AtLimit(s1, scope);
    }
  }

  lemma SamePolicy(s: GateState, q: Request, now: real)
    ensures Consulted(s, q, now).policy == s.policy && Consulted(s, q, now).live == s.live
    ensures Consulted(s, q, now).ledger.unknownSessions == s.ledger.unknownSessions
  {}

  lemma OverflowIff(s: GateState, q: Request, now: real, need: real)
    requires ValidPolicy(s.policy)
    ensures Overflow(Consulted(s, q, now), KeyOf(s.policy, q), q.session, need).None? <==> RoomNow(s, q, now, need)
  {
    hide Consulted, SpendNow;
    var s1, useCase := Consulted(s, q, now), KeyOf(s.policy, q);
    SamePolicy(s, q, now);
    forall scope ensures Over(s.policy, q, scope) ==> Spent(s1, scope) == SpendNow(s, scope, now) {
      ConsultedShowsToday(s, q, now, scope);
    }
    var found := Overflow(s1, useCase, q.session, need);
    if found.Some? { assert Over(s.policy, q, found.value); }
    if !RoomNow(s, q, now, need) {
      var scope :| Over(s.policy, q, scope) && SpendNow(s, scope, now) + need > Limit(s.policy, scope).value;
      assert Overflows(s1, scope, need);
    }
  }

  lemma FallbackDueIff(s: GateState, q: Request, now: real)
    requires ValidPolicy(s.policy)
    ensures WantsFallback(Consulted(s, q, now), q, KeyOf(s.policy, q)) <==> FallbackDue(s, q, now)
  {
    SamePolicy(s, q, now);
    if q.fingerprint.Some? && q.fingerprint.value in s.policy.useCaseFallback {
      ConsultedShowsToday(s, q, now, UseCaseScope(q.fingerprint.value));
    }
  }

  lemma SessionFullIff(s: GateState, q: Request, now: real)
    requires ValidPolicy(s.policy) && s.policy.sessionLimit.Some? && q.session.Some?
    ensures AtLimit(Consulted(s, q, now), SessionScope(q.session.value))
            <==> FullNow(s, q, SessionScope(q.session.value), now)
  {
    SamePolicy(s, q, now);
    ConsultedShowsToday(s, q, now, SessionScope(q.session.value));
  }

  // ----- the answer ------------------------------------------------------------------------------

  datatype Reason = NoReason | NoSession | Threshold | Unknown | Full | Unpriced | Unreservable

  function ReasonOf(d: Decision): Reason {
    if !d.Refused? then NoReason
    else match d.error
      case SessionRequired => NoSession
      case FallbackRequired(_, _, _) => Threshold
      case UnknownSessionCost => Unknown
      case Exceeded(_, _, _) => Full
      case UnpricedModel => Unpriced
      case UnreservableRequest => Unreservable
  }

  ghost predicate DailyFull(s: GateState, q: Request, now: real) {
    exists scope :: Daily(scope) && FullNow(s, q, scope, now)
  }

  predicate SessionFull(s: GateState, q: Request, now: real) {
    s.policy.sessionLimit.Some? && q.session.Some? && FullNow(s, q, SessionScope(q.session.value), now)
  }

  predicate SessionUnknown(s: GateState, q: Request) {
    s.policy.sessionLimit.Some? && q.session.Some? && q.session.value in s.ledger.unknownSessions
  }

  /** The decision of a check that has a session wherever it needs one. */
  lemma DecideReason(s: GateState, q: Request, now: real)
    requires ValidPolicy(s.policy) && (s.policy.sessionLimit.Some? ==> q.session.Some?)
    ensures var d := Decide(Consulted(s, q, now), q); var need := ReservationCost(q.body, q.price);
            && (ReasonOf(d) == Threshold <==> !DailyFull(s, q, now) && FallbackDue(s, q, now))
            && (ReasonOf(d) == Unknown <==>
                  !DailyFull(s, q, now) && !FallbackDue(s, q, now) && SessionUnknown(s, q))
            && (ReasonOf(d) == Unpriced <==>
                  && !DailyFull(s, q, now) && !FallbackDue(s, q, now) && !SessionUnknown(s, q)
                  && !SessionFull(s, q, now) && !q.providerFree && q.price.None?)
            && (ReasonOf(d) == Unreservable <==>
                  && !DailyFull(s, q, now) && !FallbackDue(s, q, now) && !SessionUnknown(s, q)
                  && !SessionFull(s, q, now) && Reserves(s.policy, q) && q.price.Some? && need.None?)
            && (d.Refused? <==>
                  || DailyFull(s, q, now) || FallbackDue(s, q, now) || SessionUnknown(s, q) || SessionFull(s, q, now)
                  || (!q.providerFree && q.price.None?)
                  || (Reserves(s.policy, q) && (need.None? || !RoomNow(s, q, now, need.value))))
            && ReasonOf(d) != NoSession
            && (!d.Refused? ==> (d.AllowedReserving? <==> Reserves(s.policy, q)))
            && (d.AllowedReserving? ==> Some(d.amount) == need)
  {
    hide Consulted, SpendNow, FullNow, ReservationCost, DailyAtLimit, Overflow, WantsFallback, FallbackDue,
      AtLimit, RoomNow;
    SamePolicy(s, q, now);
    DailyFullIff(s, q, now);
    FallbackDueIff(s, q, now);
    if s.policy.sessionLimit.Some? { SessionFullIff(s, q, now); }
    var need := ReservationCost(q.body, q.price);
    if need.Some? { OverflowIff(s, q, now, need.value); }
  }

  /** The gate admits a request if and only if it names no model, or no ceiling applies to it, or all of
      this holds: it has a session of known cost where sessions have a ceiling, no fallback is due, every
      ceiling over it has some spend left today, its upstream is free or its model priced, and, where
      reservations are on and the upstream is paid, its worst-case cost is known and fits them all. */
  lemma AdmittedIff(s: GateState, q: Request, now: real)
    requires ValidPolicy(s.policy)
    ensures var need := ReservationCost(q.body, q.price);
            !Admission(s, q, now).0.Refused? <==>
            || !Applies(s.policy, q)
            || (&& (s.policy.sessionLimit.Some? ==> q.session.Some? && q.session.value !in s.ledger.unknownSessions)
                && !FallbackDue(s, q, now) && (forall scope :: !FullNow(s, q, scope, now))
                && (q.providerFree || q.price.Some?)
                && (Reserves(s.policy, q) ==> need.Some? && RoomNow(s, q, now, need.value)))
    ensures Admission(s, q, now).0.AllowedReserving? <==>
            !Admission(s, q, now).0.Refused? && Applies(s.policy, q) && Reserves(s.policy, q)
    ensures Admission(s, q, now).0.AllowedReserving? ==>
            Some(Admission(s, q, now).0.amount) == ReservationCost(q.body, q.price)
  {
    hide SpendNow, ReservationCost, RoomNow, FallbackDue, Consulted, Decide, FullNow;
    AppliesIs(s.policy, q);
    if UnderCeiling(s.policy, q) && (s.policy.sessionLimit.Some? ==> q.session.Some?) {
      DecideReason(s, q, now);
      SomeCeilingFull(s, q, now);
    }
  }

  lemma SomeCeilingFull(s: GateState, q: Request, now: real)
    ensures (exists scope :: FullNow(s, q, scope, now)) <==> DailyFull(s, q, now) || SessionFull(s, q, now)
  {
    hide SpendNow;
    forall scope | FullNow(s, q, scope, now) && !Daily(scope) ensures SessionFull(s, q, now) {
      assert scope == SessionScope(q.session.value);
    }
  }

  /** Why it refuses. A missing session comes first; then a full daily ceiling or a due fallback, a
      session of unknown cost, a full session, a missing price, a worst-case cost that cannot be
      computed, and last one that does not fit. */
  lemma RefusalReasons(s: GateState, q: Request, now: real)
    requires ValidPolicy(s.policy) && Applies(s.policy, q)
    ensures var r := ReasonOf(Admission(s, q, now).0); var need := ReservationCost(q.body, q.price);
            && (r == NoSession <==> s.policy.sessionLimit.Some? && q.session.None?)
            && (r == Threshold <==> r != NoSession && !DailyFull(s, q, now) && FallbackDue(s, q, now))
            && (r == Unknown <==>
                  r != NoSession && !DailyFull(s, q, now) && !FallbackDue(s, q, now) && SessionUnknown(s, q))
            && (r == Unpriced <==>
                  && r != NoSession && (forall scope :: !FullNow(s, q, scope, now)) && !FallbackDue(s, q, now)
                  && !SessionUnknown(s, q) && !q.providerFree && q.price.None?)
            && (r == Unreservable <==>
                  && r != NoSession && (forall scope :: !FullNow(s, q, scope, now)) && !FallbackDue(s, q, now)
                  && !SessionUnknown(s, q) && Reserves(s.policy, q) && q.price.Some? && need.None?)
  {
    hide SpendNow, ReservationCost, RoomNow, FallbackDue, Consulted, Decide, FullNow;
    AppliesIs(s.policy, q);
    if s.policy.sessionLimit.Some? ==> q.session.Some? {
      DecideReason(s, q, now);
      SomeCeilingFull(s, q, now);
    }
  }

  // ----- sessions of unknown cost ----------------------------------------------------------------

  /** Exactly one kind of trace makes a session's cost unknown: one without a cost that did reach a paid
      provider. */
  lemma UnknownExactly(l: Ledger, t: Trace, now: real, session: string)
    ensures session in Recorded(l, t, now).unknownSessions <==>
            || session in l.unknownSessions
            || (t.session == Some(session) && t.cost.None? && !t.terminal && !t.providerFree)
  {}

  lemma {:induction false} UnknownStays(s: GateState, es: seq<Event>, session: string)
    requires session in s.ledger.unknownSessions
    ensures session in Run(s, es).ledger.unknownSessions && Run(s, es).policy == s.policy
    decreases |es|
  {
    if es != [] { UnknownStays(Step(s, es[0]), es[1..], session); }
  }

  /** From then on the session is closed: no later request of it that names a model is admitted, however
      long the gate runs and whatever it settles. */
  lemma UnknownCostClosesSession(s: GateState, t: Trace, settledAt: real, es: seq<Event>, q: Request, now: real)
    requires ValidPolicy(s.policy) && s.policy.sessionLimit.Some?
    requires t.session.Some? && t.cost.None? && !t.terminal && !t.providerFree
    requires q.session == t.session && q.model.Some?
    ensures Admission(Run(Settled(s, t, settledAt), es), q, now).0.Refused?
  {
    var s1 := Settled(s, t, settledAt);
    UnknownExactly(s.ledger, t, settledAt, t.session.value);
    UnknownStays(s1, es, t.session.value);
    hide Run, Settled;
    AdmittedIff(Run(s1, es), q, now);
  }

  // ----- what a gate starts from -----------------------------------------------------------------

  /** A gate starts from the day's persisted totals, and from the persisted sessions, their spend and those
      of unknown cost, exactly when sessions have a ceiling. */
  lemma SeededShows(policy: Policy, total: real, byUseCase: map<string, real>, bySession: map<string, real>,
                    unknown: set<string>, now: real, scope: Scope)
    ensures var l := Seeded(policy, total, byUseCase, bySession, unknown, now);
            && l.day == Some(Day(now)) && l.unknownSessions == (if policy.sessionLimit.None? then {} else unknown)
            && RecordedSpend(l, scope)
               == match scope
                  case GlobalScope => total
                  case UseCaseScope(u) => Get(byUseCase, u, 0.0)
                  case SessionScope(x) => if policy.sessionLimit.None? then 0.0 else Get(bySession, x, 0.0)
  {
  }
}
