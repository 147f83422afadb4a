/** The gate, the calls in flight and the recorder together: the recorder's observers settle what the
    gate reserved, so the ceilings hold and no reservation is lost, whatever the interleaving. */
module AdmissionSystem {
  import opened Prelude
  import opened Pricing
  import opened Budget
  import opened BudgetSafety
  import Recorder
  import RecorderSafety

  /** Calls admitted with a reservation and not yet handed over, by reservation id. */
  datatype Sys = Sys(gate: GateState, inflight: map<nat, Request>, rec: Recorder.State<Trace>)

  /** `Settle` drives the recorder; its observers call the gate with the clock reading `now`. */
  datatype Event =
    | Arrive(q: Request, now: real)
    | HandOver(t: Trace, important: bool, now: real)
    | Settle(e: Recorder.Event<Trace>, now: real)

  function SettleAll(g: GateState, items: seq<Trace>, now: real): GateState
    decreases |items|
  {
    if items == [] then g else SettleAll(Settled(g, items[0], now), items[1..], now)
  }

  /** A recorder step, followed by the observers of every trace the step settled. */
  function Drive(s: Sys, e: Recorder.Event<Trace>, now: real): Sys {
    s.(rec := Recorder.Step(s.rec, e),
       gate := SettleAll(s.gate, RecorderSafety.Items(RecorderSafety.News(s.rec, e)), now))
  }

  /** The calls still in flight once `t` is handed over. */
  function Left(s: Sys, t: Trace): map<nat, Request> {
    if t.reservation.Some? then s.inflight - {t.reservation.value} else s.inflight
  }

  function Giving(t: Trace, important: bool): Recorder.Event<Trace> {
    if important then Recorder.Put(t) else Recorder.Enqueue(t)
  }

  function Step(s: Sys, e: Event): Sys {
    match e
    case Arrive(q, now) =>
      var (d, g) := Admission(s.gate, q, now);
      if d.AllowedReserving? then s.(gate := g, inflight := s.inflight[d.id := q]) else s.(gate := g)
    case HandOver(t, important, now) =>
      Drive(s.(inflight := Left(s, t)), Giving(t, important), now)
    case Settle(e, now) => Drive(s, e, now)
  }

  function Run(s: Sys, es: seq<Event>): Sys
    decreases |es|
  {
    if es == [] then s else Run(Step(s, es[0]), es[1..])
  }

  // ----- what callers do -----------------------------------------------------------------------

  /** Calls hand over reservations that are in flight; the recorder gets its traces from calls alone. */
  predicate Orderly(s: Sys, e: Event) {
    match e
    case Arrive(_, _) => true
    case HandOver(t, _, _) => t.reservation.Some? ==> t.reservation.value in s.inflight
    case Settle(e, _) => !e.Enqueue? && !e.Put?
  }

  predicate OrderlyRun(s: Sys, es: seq<Event>)
    decreases |es|
  {
    es == [] || (Orderly(s, es[0]) && OrderlyRun(Step(s, es[0]), es[1..]))
  }

  /** The trace costs nothing, or its reservation is live, is at least its cost, and counts against
      every ceiling that the trace is charged to. */
  ghost predicate Own(s: Sys, t: Trace)
    requires t.reservation.Some?
  {
    var id := t.reservation.value;
    id in s.inflight && id in s.gate.live &&
    (t.cost.Some? ==>
       && 0.0 <= t.cost.value
       && (t.cost.value == 0.0
           || (t.cost.value <= s.gate.live[id].amount
               && forall scope :: Limit(s.gate.policy, scope).Some? && Charges(scope, t) ==>
                                    Counts(scope, s.gate.live[id]))))
  }

  /** A trace without a reservation costs nothing that any ceiling counts. */
  ghost predicate Uncharged(p: Policy, t: Trace) {
    t.cost.Some? ==>
      0.0 <= t.cost.value && (t.cost.value == 0.0 || forall scope :: Limit(p, scope).Some? ==> !Charges(scope, t))
  }

  ghost predicate Allowed(s: Sys, e: Event) {
    match e
    case Arrive(q, _) => q.price.Some? ==> ValidPrice(q.price.value)
    case HandOver(t, _, _) => if t.reservation.Some? then Own(s, t) else Uncharged(s.gate.policy, t)
    case Settle(e, _) => !e.Enqueue? && !e.Put?
  }

  ghost predicate AllowedRun(s: Sys, es: seq<Event>)
    decreases |es|
  {
    es == [] || (Allowed(s, es[0]) && AllowedRun(Step(s, es[0]), es[1..]))
  }

  // ----- who holds a reservation ---------------------------------------------------------------

  ghost predicate HeldFor(held: multiset<Trace>, id: nat) { exists t :: t in held && t.reservation == Some(id) }

  /** Every reservation in flight is live and is the one its request was granted. */
  ghost predicate FlightsLive(g: GateState, inflight: map<nat, Request>) {
    && (forall id <- g.live :: id < g.next)
    && (forall id <- inflight :: id in g.live
          && g.live[id] == ReservationFor(g.policy, inflight[id], g.live[id].amount))
  }

  /** A reservation carried by a held trace is live, out of flight, and carried by no other. */
  ghost predicate CarriedOnce(g: GateState, inflight: map<nat, Request>, held: multiset<Trace>) {
    && (forall t <- held :: t.reservation.Some? ==>
          t.reservation.value in g.live && t.reservation.value !in inflight && held[t] == 1)
    && (forall t, u :: t in held && u in held && t.reservation.Some? && t.reservation == u.reservation ==> t == u)
  }

  /** Each live reservation belongs to one call in flight or to one trace still held. */
  ghost predicate Placed(g: GateState, inflight: map<nat, Request>, held: multiset<Trace>) {
    && FlightsLive(g, inflight) && CarriedOnce(g, inflight, held)
    && forall id <- g.live :: id in inflight || HeldFor(held, id)
  }

  ghost predicate SysPlaced(s: Sys) { Placed(s.gate, s.inflight, RecorderSafety.Pending(s.rec)) }

  lemma RestIsOther(g: GateState, inflight: map<nat, Request>, held: multiset<Trace>, t: Trace, u: Trace)
    requires CarriedOnce(g, inflight, held) && t in held && u in held - multiset{t}
    ensures u in held && (u.reservation.Some? ==> u.reservation != t.reservation)
  {}

  lemma RestIsCarried(g: GateState, inflight: map<nat, Request>, held: multiset<Trace>, t: Trace, g1: GateState)
    requires CarriedOnce(g, inflight, held) && t in held
    requires forall id <- g.live :: t.reservation != Some(id) ==> id in g1.live
    ensures CarriedOnce(g1, inflight, held - multiset{t})
  {
    forall u | u in held - multiset{t} ensures u in held && (u.reservation.Some? ==> u.reservation != t.reservation) {
      RestIsOther(g, inflight, held, t, u);
    }
  }

  /** Settling one held trace hands its reservation back and leaves the others' alone. */
  lemma SettleOnePlaced(g: GateState, inflight: map<nat, Request>, held: multiset<Trace>, t: Trace, now: real)
    requires Placed(g, inflight, held) && t in held
    ensures Placed(Settled(g, t, now), inflight, held - multiset{t})
  {
    hide Recorded, CarriedOnce, HeldFor;
    var g1, rest := Settled(g, t, now), held - multiset{t};
    RestIsCarried(g, inflight, held, t, g1);
    assert t.reservation.Some? ==> t.reservation.value !in inflight by { CarriedIsOut(g, inflight, held, t); }
    forall id | id in g1.live ensures id in inflight || HeldFor(rest, id) {
      if id !in inflight { StillHeld(held, t, id); }
    }
  }

  lemma CarriedIsOut(g: GateState, inflight: map<nat, Request>, held: multiset<Trace>, t: Trace)
    requires CarriedOnce(g, inflight, held) && t in held
    ensures t.reservation.Some? ==> t.reservation.value in g.live && t.reservation.value !in inflight
  {}

  lemma StillHeld(held: multiset<Trace>, t: Trace, id: nat)
    requires HeldFor(held, id) && t.reservation != Some(id)
    ensures HeldFor(held - multiset{t}, id)
  {
    var u :| u in held && u.reservation == Some(id);
    assert u in held - multiset{t};
  }

  lemma {:induction false} SettleManyPlaced(g: GateState, inflight: map<nat, Request>, held: multiset<Trace>,
                                            items: seq<Trace>, now: real)
    requires Placed(g, inflight, held + multiset(items))
    ensures Placed(SettleAll(g, items, now), inflight, held)
    decreases |items|
  {
    hide Placed;
    if items != [] {
      RecorderSafety.HeadAndRest(items);
      assert items[0] in held + multiset(items);
      SettleOnePlaced(g, inflight, held + multiset(items), items[0], now);
      assert held + multiset(items) - multiset{items[0]} == held + multiset(items[1..]);
      SettleManyPlaced(Settled(g, items[0], now), inflight, held, items[1..], now);
    } else {
      assert held + multiset(items) == held;
    }
  }

  lemma DriveKeepsPlaced(s: Sys, e: Recorder.Event<Trace>, now: real)
    requires Placed(s.gate, s.inflight, RecorderSafety.Pending(s.rec) + RecorderSafety.Handed(e))
    ensures SysPlaced(Drive(s, e, now))
  {
    hide Placed;
    RecorderSafety.StepConserves(s.rec, e);
    SettleManyPlaced(s.gate, s.inflight, RecorderSafety.Pending(Recorder.Step(s.rec, e)),
                     RecorderSafety.Items(RecorderSafety.News(s.rec, e)), now);
  }

  /** A trace handed over takes its call's reservation along. */
  lemma HandOverPlaces(s: Sys, t: Trace)
    requires SysPlaced(s) && (t.reservation.Some? ==> t.reservation.value in s.inflight)
    ensures Placed(s.gate, Left(s, t), RecorderSafety.Pending(s.rec) + multiset{t})
  {
    hide HeldFor, CarriedOnce, RecorderSafety.Pending;
    var held := RecorderSafety.Pending(s.rec);
    MoreCarried(s.gate, s.inflight, held, t);
    forall id | id in s.gate.live ensures id in Left(s, t) || HeldFor(held + multiset{t}, id) {
      if id !in Left(s, t) { MoreHeld(held, t, id); }
    }
  }

  lemma MoreHeld(held: multiset<Trace>, t: Trace, id: nat)
    requires t.reservation == Some(id) || HeldFor(held, id)
    ensures HeldFor(held + multiset{t}, id)
  {
    if t.reservation == Some(id) {
      assert t in held + multiset{t};
    } else {
      var u :| u in held && u.reservation == Some(id);
      assert u in held + multiset{t};
    }
  }

  lemma MoreCarried(g: GateState, inflight: map<nat, Request>, held: multiset<Trace>, t: Trace)
    requires FlightsLive(g, inflight) && CarriedOnce(g, inflight, held)
    requires t.reservation.Some? ==> t.reservation.value in inflight
    ensures CarriedOnce(g, if t.reservation.Some? then inflight - {t.reservation.value} else inflight,
                        held + multiset{t})
  {
    forall u | u in held + multiset{t} ensures u in held || u == t {}
    if t.reservation.Some? { assert t !in held; }
  }

  lemma ArrivePlaces(s: Sys, q: Request, now: real)
    requires SysPlaced(s)
    ensures SysPlaced(Step(s, Arrive(q, now)))
  {
    hide Admission;
    OnlyReservingHolds(s.gate, q, now);
  }

  lemma StepKeepsPlaced(s: Sys, e: Event)
    requires SysPlaced(s) && Orderly(s, e)
    ensures SysPlaced(Step(s, e))
  {
    hide Placed;
    match e {
      case Arrive(q, now) => ArrivePlaces(s, q, now);
      case HandOver(t, important, now) =>
        HandOverPlaces(s, t);
        DriveKeepsPlaced(s.(inflight := Left(s, t)), Giving(t, important), now);
      case Settle(e, now) =>
        assert RecorderSafety.Pending(s.rec) + RecorderSafety.Handed(e) == RecorderSafety.Pending(s.rec);
        DriveKeepsPlaced(s, e, now);
    }
  }

  lemma {:induction false} RunKeepsPlaced(s: Sys, es: seq<Event>)
    requires SysPlaced(s) && OrderlyRun(s, es)
    ensures SysPlaced(Run(s, es))
    decreases |es|
  {
    if es != [] {
      StepKeepsPlaced(s, es[0]);
      RunKeepsPlaced(Step(s, es[0]), es[1..]);
    }
  }

  /** Which reservations are live, exactly, whatever is charged: those of calls in flight and those of
      traces the recorder still holds. After shutdown that is the traces put too late, and no others. */
  lemma LiveExactly(s: Sys, es: seq<Event>, id: nat)
    requires SysPlaced(s) && OrderlyRun(s, es)
    ensures var end := Run(s, es);
            id in end.gate.live <==>
            id in end.inflight || HeldFor(RecorderSafety.Pending(end.rec), id)
  {
    RunKeepsPlaced(s, es);
  }

  /** Capacity comes back: once no call is in flight and the recorder holds nothing, whatever was
      charged, saved, dropped, timed out, failed or drained on the way, no reservation is left. */
  lemma AllCapacityReturns(s: Sys, es: seq<Event>)
    requires SysPlaced(s) && OrderlyRun(s, es)
    requires Run(s, es).inflight == map[] && RecorderSafety.Pending(Run(s, es).rec) == multiset{}
    ensures Run(s, es).gate.live == map[]
    ensures forall scope :: Reserved(Run(s, es).gate, scope) == 0.0
  {
    RunKeepsPlaced(s, es);
    var g := Run(s, es).gate;
    assert g.live == map[];
    forall scope ensures Reserved(g, scope) == 0.0 { NothingReserved(scope, g.next); }
  }

  lemma {:induction false} NothingReserved(scope: Scope, n: nat)
    ensures ReservedBelow(map[], scope, n) == 0.0
  {
    if n > 0 { NothingReserved(scope, n - 1); }
  }

  // ----- the ceilings --------------------------------------------------------------------------

  /** The ceilings hold, and every held trace can settle its own. */
  ghost predicate Covered(g: GateState, held: multiset<Trace>) { Inv(g) && forall t <- held :: SettlesOwn(g, t) }

  ghost predicate SysInv(s: Sys) { SysPlaced(s) && Covered(s.gate, RecorderSafety.Pending(s.rec)) }

  /** A trace keeps its cover as long as its own reservation stays. */
  lemma CoverStays(g: GateState, g1: GateState, t: Trace)
    requires SettlesOwn(g, t) && g1.policy == g.policy
    requires t.reservation.Some? && t.reservation.value in g.live ==>
               t.reservation.value in g1.live && g1.live[t.reservation.value] == g.live[t.reservation.value]
    ensures SettlesOwn(g1, t)
  {
    forall scope | Limit(g1.policy, scope).Some? && Charges(scope, t) && t.cost.Some? && t.cost.value != 0.0
      ensures Covers(g1, t, scope)
    {
      assert Covers(g, t, scope);
    }
  }

  /** Settling one held trace returns its reservation and leaves every other trace its cover. */
  lemma SettleOne(g: GateState, inflight: map<nat, Request>, held: multiset<Trace>, t: Trace, now: real)
    requires Placed(g, inflight, held) && Covered(g, held) && t in held
    ensures Covered(Settled(g, t, now), held - multiset{t})
  {
    hide Inv, SettlesOwn, Recorded;
    var g1, rest := Settled(g, t, now), held - multiset{t};
    SettlementKeepsInv(g, t, now);
    forall u | u in rest ensures SettlesOwn(g1, u) {
      assert u in held;
      assert u.reservation.Some? ==> u.reservation != t.reservation;
      CoverStays(g, g1, u);
    }
  }

  lemma {:induction false} SettleMany(g: GateState, inflight: map<nat, Request>, held: multiset<Trace>,
                                      items: seq<Trace>, now: real)
    requires Placed(g, inflight, held + multiset(items)) && Covered(g, held + multiset(items))
    ensures Covered(SettleAll(g, items, now), held)
    decreases |items|
  {
    hide Placed, Covered;
    if items != [] {
      RecorderSafety.HeadAndRest(items);
      assert items[0] in held + multiset(items);
      SettleOnePlaced(g, inflight, held + multiset(items), items[0], now);
      SettleOne(g, inflight, held + multiset(items), items[0], now);
      assert held + multiset(items) - multiset{items[0]} == held + multiset(items[1..]);
      SettleMany(Settled(g, items[0], now), inflight, held, items[1..], now);
    } else {
      assert held + multiset(items) == held;
    }
  }

  lemma DriveKeepsInv(s: Sys, e: Recorder.Event<Trace>, now: real)
    requires Placed(s.gate, s.inflight, RecorderSafety.Pending(s.rec) + RecorderSafety.Handed(e))
    requires Covered(s.gate, RecorderSafety.Pending(s.rec) + RecorderSafety.Handed(e))
    ensures SysInv(Drive(s, e, now))
  {
    hide Placed, Covered;
    DriveKeepsPlaced(s, e, now);
    RecorderSafety.StepConserves(s.rec, e);
    SettleMany(s.gate, s.inflight, RecorderSafety.Pending(Recorder.Step(s.rec, e)),
               RecorderSafety.Items(RecorderSafety.News(s.rec, e)), now);
  }

  lemma OwnTraceSettles(s: Sys, t: Trace)
    requires if t.reservation.Some? then Own(s, t) else Uncharged(s.gate.policy, t)
    ensures SettlesOwn(s.gate, t)
  {}

  lemma ArriveKeepsInv(s: Sys, q: Request, now: real)
    requires SysInv(s) && (q.price.Some? ==> ValidPrice(q.price.value))
    ensures SysInv(Step(s, Arrive(q, now)))
  {
    hide Admission, Inv, SettlesOwn;
    ArrivePlaces(s, q, now);
    AdmissionKeepsInv(s.gate, q, now);
    OnlyReservingHolds(s.gate, q, now);
    var g := Admission(s.gate, q, now).1;
    forall t | t in RecorderSafety.Pending(s.rec) ensures SettlesOwn(g, t) { CoverStays(s.gate, g, t); }
  }

  lemma HandOverKeepsInv(s: Sys, t: Trace, important: bool, now: real)
    requires SysInv(s) && Allowed(s, HandOver(t, important, now))
    ensures SysInv(Step(s, HandOver(t, important, now)))
  {
    hide Placed, Inv, SettlesOwn;
    HandOverPlaces(s, t);
    OwnTraceSettles(s, t);
    var held := RecorderSafety.Pending(s.rec);
    forall u | u in held + multiset{t} ensures u in held || u == t {}
    DriveKeepsInv(s.(inflight := Left(s, t)), Giving(t, important), now);
  }

  lemma StepKeepsInv(s: Sys, e: Event)
    requires SysInv(s) && Allowed(s, e)
    ensures SysInv(Step(s, e))
  {
    hide Placed, Covered;
    match e {
      case Arrive(q, now) => ArriveKeepsInv(s, q, now);
      case HandOver(t, important, now) => HandOverKeepsInv(s, t, important, now);
      case Settle(e, now) =>
        assert RecorderSafety.Pending(s.rec) + RecorderSafety.Handed(e) == RecorderSafety.Pending(s.rec);
        DriveKeepsInv(s, e, now);
    }
  }

  /** The whole admission path is safe. In every interleaving of arrivals, hand-overs, recorder steps,
      save failures, full queues, expired waits and shutdown, spend recorded plus spend reserved
      respects every ceiling. */
  lemma {:induction false} SystemSafety(s: Sys, es: seq<Event>)
    requires SysInv(s) && AllowedRun(s, es)
    ensures SysInv(Run(s, es)) && Within(Run(s, es).gate)
    decreases |es|
  {
    if es != [] {
      StepKeepsInv(s, es[0]);
      SystemSafety(Step(s, es[0]), es[1..]);
    }
  }

  // ----- the start -----------------------------------------------------------------------------

  /** A new gate over a seeded snapshot, and a new recorder. */
  function Fresh(p: Policy, l: Ledger, maxsize: nat): Sys {
    Sys(GateState(p, l, 1, map[]), map[], Recorder.Init(maxsize))
  }

  lemma StartIsPlaced(p: Policy, l: Ledger, maxsize: nat)
    ensures SysPlaced(Fresh(p, l, maxsize))
  {
    assert RecorderSafety.Pending(Recorder.Init<Trace>(maxsize)) == multiset{};
  }

  /** It is a state the safety theorem starts from exactly when the policy is valid and the persisted
      totals are not negative and within the ceilings. */
  lemma StartIsSafeIff(p: Policy, l: Ledger, maxsize: nat)
    ensures SysInv(Fresh(p, l, maxsize))
            <==> && ValidPolicy(p) && 0.0 <= l.total && NonNegative(l.byUseCase)
                 && forall scope :: Limit(p, scope).Some? ==> RecordedSpend(l, scope) <= Limit(p, scope).value
  {
    var g := GateState(p, l, 1, map[]);
    StartIsPlaced(p, l, maxsize);
    forall scope ensures Spent(g, scope) == RecordedSpend(l, scope) { NothingReserved(scope, 1); }
    assert RecorderSafety.Pending(Recorder.Init<Trace>(maxsize)) == multiset{};
  }
}
