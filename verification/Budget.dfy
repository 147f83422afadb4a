/** Spend ceilings, the in-memory spend snapshot, and admission with in-flight reservations. */
module Budget {
  import opened Prelude
  import opened Pricing

  // ----- policy ------------------------------------------------------------------------------

  datatype Policy = Policy(
    globalDaily: Option<real>,
    useCaseDaily: map<string, real>,
    useCaseFallback: map<string, real>,
    sessionLimit: Option<real>,
    reserveInFlight: bool)

  predicate Enabled(p: Policy) {
    p.globalDaily.Some? || p.useCaseDaily != map[] || p.sessionLimit.Some?
  }

  predicate NonNegative(m: map<string, real>) { forall k <- m :: 0.0 <= m[k] }

  /** What constructing a policy checks. */
  predicate ValidPolicy(p: Policy) {
    && (p.globalDaily.Some? ==> 0.0 <= p.globalDaily.value)
    && (p.sessionLimit.Some? ==> 0.0 <= p.sessionLimit.value)
    && NonNegative(p.useCaseDaily) && NonNegative(p.useCaseFallback)
    && "" !in p.useCaseDaily && "" !in p.useCaseFallback
    && (forall k <- p.useCaseFallback :: k in p.useCaseDaily && p.useCaseFallback[k] < p.useCaseDaily[k])
    && (p.reserveInFlight ==> Enabled(p))
  }

  // ----- spend snapshot, as a value ------------------------------------------------------------

  /** An enriched trace, as far as accounting reads it. */
  datatype Trace = Trace(
    useCase: Option<string>, session: Option<string>, ts: real, cost: Option<real>,
    terminal: bool, providerFree: bool, reservation: Option<nat>)

  /** Today's totals, and lifetime totals for each session. */
  datatype Ledger = Ledger(
    day: Option<int>, total: real, byUseCase: map<string, real>,
    bySession: map<string, real>, unknownSessions: set<string>)

  const SECONDS_PER_DAY := 86_400.0
  const EMPTY_LEDGER := Ledger(None, 0.0, map[], map[], {})

  /** The UTC calendar day of a Unix timestamp. */
  function Day(ts: real): int { (ts / SECONDS_PER_DAY).Floor }

  function Rollover(l: Ledger, now: real): Ledger {
    if l.day == Some(Day(now)) then l else l.(day := Some(Day(now)), total := 0.0, byUseCase := map[])
  }

  function Plus(m: map<string, real>, key: string, amount: real): map<string, real> {
    m[key := Get(m, key, 0.0) + amount]
  }

  function RecordSession(l: Ledger, t: Trace, cost: real): Ledger {
    if t.session.Some? then l.(bySession := Plus(l.bySession, t.session.value, cost)) else l
  }

  function RecordDaily(l: Ledger, t: Trace, cost: real): Ledger {
    var counted := l.(total := l.total + cost);
    if t.useCase.Some? then counted.(byUseCase := Plus(l.byUseCase, t.useCase.value, cost)) else counted
  }

  function Recorded(l: Ledger, t: Trace, now: real): Ledger {
    var l1 := Rollover(l, now);
    if t.cost.None? then
      if t.session.Some? && !t.terminal && !t.providerFree
      then l1.(unknownSessions := l1.unknownSessions + {t.session.value})
      else l1
    else
      var l2 := RecordSession(l1, t, t.cost.value);
      if Day(t.ts) != Day(now) then l2 else RecordDaily(l2, t, t.cost.value)
  }

  class SpendSnapshot {
    var day: Option<int>
    var total: real
    var byUseCase: map<string, real>
    var bySession: map<string, real>
    var unknownSessions: set<string>

    ghost function Value(): Ledger
      reads this
    {
      Ledger(day, total, byUseCase, bySession, unknownSessions)
    }

    constructor ()
      ensures Value() == EMPTY_LEDGER
    {
      day, total, byUseCase, bySession, unknownSessions := None, 0.0, map[], map[], {};
    }

    method RollOver(now: real)
      modifies this
      ensures Value() == Rollover(old(Value()), now)
    {
      if day != Some(Day(now)) {
        day := Some(Day(now));
        total := 0.0;
        byUseCase := map[];
      }
    }

    method Seed(persistedTotal: real, persistedUseCases: map<string, real>, now: real)
      modifies this
      ensures Value() == old(Value()).(day := Some(Day(now)), total := persistedTotal, byUseCase := persistedUseCases)
    {
      RollOver(now);
      total := persistedTotal;
      byUseCase := persistedUseCases;
    }

    method SeedSessions(persisted: map<string, real>, unknown: set<string>)
      modifies this
      ensures Value() == old(Value()).(bySession := persisted, unknownSessions := unknown)
    {
      bySession := persisted;
      unknownSessions := unknown;
    }

    method Record(t: Trace, now: real)
      modifies this
      ensures Value() == Recorded(old(Value()), t, now)
    {
      RollOver(now);
      if t.cost.None? {
        if t.session.Some? && !t.terminal && !t.providerFree {
          unknownSessions := unknownSessions + {t.session.value};
        }
        return;
      }
      if t.session.Some? {
        bySession := bySession[t.session.value := Get(bySession, t.session.value, 0.0) + t.cost.value];
      }
      if Day(t.ts) != Day(now) {
        return;
      }
      total := total + t.cost.value;
      if t.useCase.Some? {
        byUseCase := byUseCase[t.useCase.value := Get(byUseCase, t.useCase.value, 0.0) + t.cost.value];
      }
    }

    method Totals(useCase: Option<string>, now: real) returns (daily: real, ofUseCase: real)
      modifies this
      ensures Value() == Rollover(old(Value()), now)
      ensures daily == Value().total
      ensures ofUseCase == Get(Value().byUseCase, OrEmpty(useCase), 0.0)
    {
      RollOver(now);
      daily := total;
      ofUseCase := Get(byUseCase, OrEmpty(useCase), 0.0);
    }
  }

  function OrEmpty(s: Option<string>): string { if s.Some? then s.value else "" }

  // ----- reservations --------------------------------------------------------------------------

  datatype Reservation = Reservation(amount: real, useCase: Option<string>, session: Option<string>)

  /** Which reservations a ceiling counts. */
  datatype Scope = GlobalScope | UseCaseScope(useCase: string) | SessionScope(session: string)

  predicate Counts(scope: Scope, r: Reservation) {
    match scope
    case GlobalScope => true
    case UseCaseScope(u) => r.useCase == Some(u)
    case SessionScope(s) => r.session == Some(s)
  }

  /** The sum of the live reservations with ids below `n` that `scope` counts. */
  function ReservedBelow(live: map<nat, Reservation>, scope: Scope, n: nat): real {
    if n == 0 then 0.0
    else ReservedBelow(live, scope, n - 1)
         + if n - 1 in live && Counts(scope, live[n - 1]) then live[n - 1].amount else 0.0
  }

  /** The gate's whole state: reservation ids are handed out in order and are all below `next`. */
  datatype GateState = GateState(policy: Policy, ledger: Ledger, next: nat, live: map<nat, Reservation>)

  function Reserved(s: GateState, scope: Scope): real { ReservedBelow(s.live, scope, s.next) }

  // ----- admission -----------------------------------------------------------------------------

  /** One request as the gate reads it: the served model (None when the body names none), its price,
      the session header (empty counts as absent), the fingerprint of the original body, and the
      served body. */
  datatype Request = Request(
    model: Option<string>, price: Option<ModelPrice>, session: Option<string>,
    fingerprint: Option<string>, body: Body, providerFree: bool, fallbackApplied: bool)

  datatype BudgetError =
    | SessionRequired
    | Exceeded(scope: Scope, spent: real, limit: real)
    | FallbackRequired(useCase: string, spent: real, threshold: real)
    | UnknownSessionCost
    | UnpricedModel
    | UnreservableRequest

  datatype Decision = Allowed | AllowedReserving(id: nat, amount: real) | Refused(error: BudgetError)

  function Lookup(m: map<string, real>, key: Option<string>): Option<real> {
    if OrEmpty(key) in m then Some(m[OrEmpty(key)]) else None
  }

  /** The use-case key a check works with: only computed when some use-case has a ceiling. */
  function KeyOf(p: Policy, q: Request): Option<string> { if p.useCaseDaily != map[] then q.fingerprint else None }

  function Spent(s: GateState, scope: Scope): real {
    Reserved(s, scope) + match scope
    case GlobalScope => s.ledger.total
    case UseCaseScope(u) => Get(s.ledger.byUseCase, u, 0.0)
    case SessionScope(x) => Get(s.ledger.bySession, x, 0.0)
  }

  /** The ceiling, if any, that `scope` stands under. */
  function Limit(p: Policy, scope: Scope): Option<real> {
    match scope
    case GlobalScope => p.globalDaily
    case UseCaseScope(u) => if u in p.useCaseDaily then Some(p.useCaseDaily[u]) else None
    case SessionScope(_) => p.sessionLimit
  }

  /** Daily totals roll over only when a daily ceiling is consulted. */
  function Consulted(s: GateState, q: Request, now: real): GateState {
    if s.policy.globalDaily.Some? || Lookup(s.policy.useCaseDaily, KeyOf(s.policy, q)).Some?
    then s.(ledger := Rollover(s.ledger, now))
    else s
  }

  predicate AtLimit(s: GateState, scope: Scope) {
    Limit(s.policy, scope).Some? && Limit(s.policy, scope).value <= Spent(s, scope)
  }

  predicate Overflows(s: GateState, scope: Scope, amount: real) {
    Limit(s.policy, scope).Some? && Limit(s.policy, scope).value < Spent(s, scope) + amount
  }

  function Over(s: GateState, scope: Scope): Decision
    requires Limit(s.policy, scope).Some?
  {
    Refused(Exceeded(scope, Spent(s, scope), Limit(s.policy, scope).value))
  }

  predicate WantsFallback(s: GateState, q: Request, useCase: Option<string>) {
    && useCase.Some? && useCase.value in s.policy.useCaseFallback && !q.fallbackApplied
    && s.policy.useCaseFallback[useCase.value] <= Spent(s, UseCaseScope(useCase.value))
  }

  /** The daily ceiling, global before use-case, that already stands full. */
  function DailyAtLimit(s: GateState, useCase: Option<string>): (r: Option<Scope>)
    ensures r.Some? ==> AtLimit(s, r.value)
  {
    if AtLimit(s, GlobalScope) then Some(GlobalScope)
    else if useCase.Some? && AtLimit(s, UseCaseScope(useCase.value)) then Some(UseCaseScope(useCase.value))
    else None
  }

  /** The ceiling, in the order global, use-case, session, that `amount` more would exceed. */
  function Overflow(s: GateState, useCase: Option<string>, session: Option<string>, amount: real): (r: Option<Scope>)
    ensures r.Some? ==> Overflows(s, r.value, amount)
  {
    if Overflows(s, GlobalScope, amount) then Some(GlobalScope)
    else if useCase.Some? && Overflows(s, UseCaseScope(useCase.value), amount) then Some(UseCaseScope(useCase.value))
    else if session.Some? && Overflows(s, SessionScope(session.value), amount) then Some(SessionScope(session.value))
    else None
  }

  /** The reservation a request would hold: it names the use-case and the session only when they
      stand under a ceiling. */
  function ReservationFor(p: Policy, q: Request, amount: real): Reservation {
    Reservation(amount,
                if Lookup(p.useCaseDaily, KeyOf(p, q)).Some? then KeyOf(p, q) else None,
                if p.sessionLimit.Some? then q.session else None)
  }

  /** The decision on a consulted state, once some ceiling applies. */
  function Decide(s: GateState, q: Request): Decision
    requires s.policy.sessionLimit.Some? ==> q.session.Some?
  {
    var useCase := KeyOf(s.policy, q);
    var daily := DailyAtLimit(s, useCase);
    if daily.Some? then Over(s, daily.value)
    else if WantsFallback(s, q, useCase) then
      Refused(FallbackRequired(useCase.value, Spent(s, UseCaseScope(useCase.value)),
                               s.policy.useCaseFallback[useCase.value]))
    else if s.policy.sessionLimit.Some? && q.session.value in s.ledger.unknownSessions then
      Refused(UnknownSessionCost)
    else if s.policy.sessionLimit.Some? && AtLimit(s, SessionScope(q.session.value)) then
      Over(s, SessionScope(q.session.value))
    else if !q.providerFree && q.price.None? then Refused(UnpricedModel)
    else if !s.policy.reserveInFlight || q.providerFree then Allowed
    else
      var need := ReservationCost(q.body, q.price);
      if need.None? then Refused(UnreservableRequest)
      else
        var over := Overflow(s, useCase, q.session, need.value);
        if over.Some? then Over(s, over.value) else AllowedReserving(s.next, need.value)
  }

  /** Whether any ceiling applies to the request. */
  predicate UnderCeiling(p: Policy, q: Request) {
    && q.model.Some?
    && (p.globalDaily.Some? || Lookup(p.useCaseDaily, KeyOf(p, q)).Some? || p.sessionLimit.Some?)
  }

  function Reserve(s: GateState, q: Request, amount: real): GateState {
    s.(next := s.next + 1, live := s.live[s.next := ReservationFor(s.policy, q, amount)])
  }

  function Admission(s: GateState, q: Request, now: real): (Decision, GateState) {
    if !UnderCeiling(s.policy, q) then (Allowed, s)
    else if s.policy.sessionLimit.Some? && q.session.None? then (Refused(SessionRequired), s)
    else
      var s1 := Consulted(s, q, now);
      var d := Decide(s1, q);
      if d.AllowedReserving?
      then (d, Reserve(s1, q, d.amount))
      else (d, s1)
  }

  function Settled(s: GateState, t: Trace, now: real): GateState {
    var live := if t.reservation.Some? then s.live - {t.reservation.value} else s.live;
    s.(live := live, ledger := Recorded(s.ledger, t, now))
  }

  class BudgetGate {
    const policy: Policy
    const snapshot: SpendSnapshot
    var next: nat
    var live: map<nat, Reservation>

    ghost function State(): GateState
      reads this, snapshot
    {
      GateState(policy, snapshot.Value(), next, live)
    }

    constructor (policy: Policy, snapshot: SpendSnapshot)
      ensures this.snapshot == snapshot && State() == GateState(policy, snapshot.Value(), 1, map[])
    {
      this.policy := policy;
      this.snapshot := snapshot;
      this.next := 1;
      this.live := map[];
    }

    /** The generator sum over the live reservations. */
    method SumReserved(scope: Scope) returns (sum: real)
      ensures sum == ReservedBelow(live, scope, next)
    {
      sum := 0.0;
      for id := 0 to next
        invariant sum == ReservedBelow(live, scope, id)
      {
        if id in live && Counts(scope, live[id]) {
          sum := sum + live[id].amount;
        }
      }
    }

    method Hold(r: Reservation) returns (id: nat)
      modifies this`next, this`live
      ensures id == old(next) && next == old(next) + 1 && live == old(live)[id := r]
    {
      id := next;
      next := next + 1;
      live := live[id := r];
    }

    method Observe(t: Trace, now: real)
      modifies this`live, snapshot
      ensures State() == Settled(old(State()), t, now)
    {
      if t.reservation.Some? {
        live := live - {t.reservation.value};
      }
      snapshot.Record(t, now);
    }

    /** The daily figures a check compares: recorded spend plus the reservations still in flight. */
    method DailyFigures(useCase: Option<string>, consulted: bool, now: real) returns (total: real, useCaseTotal: real)
      modifies snapshot
      ensures snapshot.Value() == if consulted then Rollover(old(snapshot.Value()), now) else old(snapshot.Value())
      ensures consulted ==> total == Spent(State(), GlobalScope)
      ensures consulted && useCase.Some? ==> useCaseTotal == Spent(State(), UseCaseScope(useCase.value))
    {
      total, useCaseTotal := 0.0, 0.0;
      if consulted {
        total, useCaseTotal := snapshot.Totals(useCase, now);
        var inFlight := SumReserved(GlobalScope);
        total := total + inFlight;
        if useCase.Some? {
          inFlight := SumReserved(UseCaseScope(useCase.value));
          useCaseTotal := useCaseTotal + inFlight;
        }
      }
    }

    method SessionFigure(session: string) returns (total: real)
      ensures total == Spent(State(), SessionScope(session))
    {
      var inFlight := SumReserved(SessionScope(session));
      total := Get(snapshot.bySession, session, 0.0) + inFlight;
    }

    method Check(q: Request, now: real) returns (d: Decision)
      requires ValidPolicy(policy)
      modifies this`next, this`live, snapshot
      ensures (d, State()) == Admission(old(State()), q, now)
    {
      if !Enabled(policy) || q.model.None? {
        return Allowed;
      }
      if policy.sessionLimit.Some? && q.session.None? {
        return Refused(SessionRequired);
      }
      var useCase := if policy.useCaseDaily != map[] then q.fingerprint else None;
      var useCaseLimit := Lookup(policy.useCaseDaily, useCase);
      if policy.globalDaily.None? && useCaseLimit.None? && policy.sessionLimit.None? {
        return Allowed;
      }
      assert UnderCeiling(policy, q);
      var total, useCaseTotal :=
        DailyFigures(useCase, policy.globalDaily.Some? || useCaseLimit.Some?, now);
      d := CheckConsulted(q, useCase, useCaseLimit, total, useCaseTotal);
    }

    /** The stages of a check after the snapshot's daily totals have been brought up to date. */
    method CheckConsulted(q: Request, useCase: Option<string>, useCaseLimit: Option<real>,
                          total: real, useCaseTotal: real)
      returns (d: Decision)
      requires useCase == KeyOf(policy, q) && useCaseLimit == Lookup(policy.useCaseDaily, useCase)
      requires ValidPolicy(policy) && (policy.sessionLimit.Some? ==> q.session.Some?)
      requires policy.globalDaily.Some? || useCaseLimit.Some? ==> total == Spent(State(), GlobalScope)
      requires useCaseLimit.Some? ==> useCaseTotal == Spent(State(), UseCaseScope(useCase.value))
      modifies this`next, this`live
      ensures d == Decide(old(State()), q)
      ensures State() == if d.AllowedReserving? then Reserve(old(State()), q, d.amount) else old(State())
    {
      var refusal := DailyRefusal(q, useCase, useCaseLimit, total, useCaseTotal);
      if refusal.Some? {
        return refusal.value;
      }
      if policy.sessionLimit.Some? {
        if q.session.value in snapshot.unknownSessions {
          return Refused(UnknownSessionCost);
        }
        var sessionTotal := SessionFigure(q.session.value);
        if policy.sessionLimit.value <= sessionTotal {
          return Refused(Exceeded(SessionScope(q.session.value), sessionTotal, policy.sessionLimit.value));
        }
      }
      if !q.providerFree && q.price.None? {
        return Refused(UnpricedModel);
      }
      if !policy.reserveInFlight || q.providerFree {
        return Allowed;
      }
      var need := ReservationCost(q.body, q.price);
      if need.None? {
        return Refused(UnreservableRequest);
      }
      d := ReserveWithin(q, useCase, useCaseLimit, total, useCaseTotal, need.value);
    }

    /** The daily comparisons, in the order global ceiling, use-case ceiling, fallback threshold. */
    method DailyRefusal(q: Request, useCase: Option<string>, useCaseLimit: Option<real>,
                        total: real, useCaseTotal: real)
      returns (refusal: Option<Decision>)
      requires useCase == KeyOf(policy, q) && useCaseLimit == Lookup(policy.useCaseDaily, useCase)
      requires ValidPolicy(policy)
      requires policy.globalDaily.Some? || useCaseLimit.Some? ==> total == Spent(State(), GlobalScope)
      requires useCaseLimit.Some? ==> useCaseTotal == Spent(State(), UseCaseScope(useCase.value))
      ensures var full := DailyAtLimit(State(), useCase);
              refusal == if full.Some? then Some(Over(State(), full.value))
                         else if WantsFallback(State(), q, useCase)
                         then Some(Refused(FallbackRequired(useCase.value, useCaseTotal,
                                                            policy.useCaseFallback[useCase.value])))
                         else None
    {
      var fallbackLimit := Lookup(policy.useCaseFallback, useCase);
      if policy.globalDaily.Some? && policy.globalDaily.value <= total {
        return Some(Refused(Exceeded(GlobalScope, total, policy.globalDaily.value)));
      }
      if useCaseLimit.Some? && useCaseLimit.value <= useCaseTotal {
        return Some(Refused(Exceeded(UseCaseScope(useCase.value), useCaseTotal, useCaseLimit.value)));
      }
      if fallbackLimit.Some? && !q.fallbackApplied && fallbackLimit.value <= useCaseTotal {
        return Some(Refused(FallbackRequired(useCase.value, useCaseTotal, fallbackLimit.value)));
      }
      return None;
    }

    /** The last stage of a check: every ceiling must still hold with the reservation added. */
    method ReserveWithin(q: Request, useCase: Option<string>, useCaseLimit: Option<real>,
                         total: real, useCaseTotal: real, need: real)
      returns (d: Decision)
      requires useCase == KeyOf(policy, q) && useCaseLimit == Lookup(policy.useCaseDaily, useCase)
      requires ValidPolicy(policy) && (policy.sessionLimit.Some? ==> q.session.Some?)
      requires policy.globalDaily.Some? ==> total == Spent(State(), GlobalScope)
      requires useCaseLimit.Some? ==> useCaseTotal == Spent(State(), UseCaseScope(useCase.value))
      modifies this`next, this`live
      ensures var over := Overflow(old(State()), useCase, q.session, need);
              if over.Some? then d == Over(old(State()), over.value) && State() == old(State())
              else d == AllowedReserving(old(next), need)
                   && State() == Reserve(old(State()), q, need)
    {
      if policy.globalDaily.Some? && policy.globalDaily.value < total + need {
        return Refused(Exceeded(GlobalScope, total, policy.globalDaily.value));
      }
      if useCaseLimit.Some? && useCaseLimit.value < useCaseTotal + need {
        return Refused(Exceeded(UseCaseScope(useCase.value), useCaseTotal, useCaseLimit.value));
      }
      if policy.sessionLimit.Some? {
        var sessionTotal := SessionFigure(q.session.value);
        if policy.sessionLimit.value < sessionTotal + need {
          return Refused(Exceeded(SessionScope(q.session.value), sessionTotal, policy.sessionLimit.value));
        }
      }
      var id := Hold(Reservation(need,
                                 if useCaseLimit.Some? then useCase else None,
                                 if policy.sessionLimit.Some? then q.session else None));
      return AllowedReserving(id, need);
    }
  }

  /** The ledger a gate starts from: today's persisted totals, and the sessions' when they have a ceiling. */
  function Seeded(policy: Policy, total: real, byUseCase: map<string, real>,
                  bySession: map<string, real>, unknown: set<string>, now: real): Ledger
  {
    if policy.sessionLimit.Some? then Ledger(Some(Day(now)), total, byUseCase, bySession, unknown)
    else Ledger(Some(Day(now)), total, byUseCase, map[], {})
  }

  method OpenGate(policy: Policy, total: real, byUseCase: map<string, real>,
                  bySession: map<string, real>, unknown: set<string>, now: real)
    returns (gate: BudgetGate)
    ensures fresh(gate) && fresh(gate.snapshot)
    ensures gate.State() == GateState(policy, Seeded(policy, total, byUseCase, bySession, unknown, now), 1, map[])
  {
    var snapshot := new SpendSnapshot();
    snapshot.Seed(total, byUseCase, now);
    if policy.sessionLimit.Some? {
      snapshot.SeedSessions(bySession, unknown);
    }
    gate := new BudgetGate(policy, snapshot);
  }
}
