/** The gateway as one machine: calls that run through the pass-through handler, the gate they ask, and the
    recorder that settles them. Who holds which reservation is proved here for every run, whatever the
    calls cost; `GatewaySafety` proves the ceilings. */
module GatewaySystem {
  import opened Prelude
  import opened Pricing
  import opened Budget
  import opened BudgetSafety
  import opened Proxy
  import opened AdmissionSystem
  import Headers
  import Recorder
  import RecorderSafety

  /** A call whose request went upstream and which has not ended. */
  datatype Open = Open(call: Call, sending: Sending)

  /** `lost` holds the reservations of calls cancelled while their request was being sent, or before
      their response was first read: nothing hands a trace over for those. */
  datatype Gateway = Gateway(sys: Sys, open: map<nat, Open>, lost: set<nat>)

  /** What enrichment finds: the price of the model the provider names and its token counts; or it
      fails, at its first step (nothing is `labelled`) or after the trace has its use-case and session. */
  datatype Enrichment = Enriched(price: Option<ModelPrice>, usage: Usage) | Failed(labelled: bool)

  /** `Begin` is everything up to the upstream send, which runs without a pause; `later` is the clock
      reading of the second check and of the observers. `Mirror` is a shadow candidate's trace. */
  datatype GatewayEvent =
    | Begin(k: nat, c: Call, found: Enrichment, ts: real, now: real, later: real)
    | End(k: nat, sent: bool, found: Enrichment, ts: real, now: real)
    | Cancel(k: nat)
    | Mirror(t: Trace, now: real)
    | Tick(e: Recorder.Event<Trace>, now: real)

  const NO_USAGE := Usage(None, None, None, None)

  // ----- traces --------------------------------------------------------------------------------

  /** The trace as the observers see it. Its use-case and session are read from the copy of the headers
      that it keeps; a synthetic trace has no response and so no tokens. */
  function TraceOf(c: Call, h: Handover, found: Enrichment, ts: real): Trace {
    var labelled := found.Enriched? || found.labelled;
    Trace(if labelled then Headers.RecordedUseCase(c.headers, c.digest) else None,
          if labelled then Headers.RecordedSession(c.headers) else None,
          ts,
          if found.Enriched?
          then CostUsd(found.price, Some(if h.reason.Completed? then found.usage else NO_USAGE), h.free)
          else None,
          !h.reason.Completed?, h.free, h.reservation)
  }

  function HandOvers(c: Call, hs: seq<Handover>, found: Enrichment, ts: real, now: real)
    : (es: seq<AdmissionSystem.Event>)
  {
    seq(|hs|, i requires 0 <= i < |hs| => HandOver(TraceOf(c, hs[i], found, ts), hs[i].important, now))
  }

  // ----- steps ---------------------------------------------------------------------------------

  /** Whether the first check sends the call to its approved fallback. */
  predicate FallsBack(c: Call, sel: Selection, g: GateState, now: real) {
    var d := Admission(g, RequestFor(c, sel.forward, sel.upstream.free, false), now).0;
    d.Refused? && d.error.FallbackRequired? && FallbackSelection(c, sel).Some?
  }

  /** The checks of a call: the gate they leave, and the request admitted with a reservation. */
  function Asked(s: Sys, c: Call, sel: Selection, now: real, later: real): Sys {
    var (final, d, g) := AskGate(c, sel, s.gate, now, later);
    var q := RequestFor(c, final.forward, final.upstream.free, FallsBack(c, sel, s.gate, now));
    s.(gate := g, inflight := if d.AllowedReserving? then s.inflight[d.id := q] else s.inflight)
  }

  function Checked(s: Sys, c: Call, now: real, later: real): Sys {
    if Select(c).Ok? then Asked(s, c, Select(c).value, now, later) else s
  }

  function GatewayStep(s: Gateway, e: GatewayEvent): Gateway {
    match e
    case Begin(k, c, found, ts, now, later) =>
      if k in s.open then s
      else
        var sys := Checked(s.sys, c, now, later);
        (match BeforeSend(c, s.sys.gate, now, later).0
         case Answered(_, traces) => s.(sys := AdmissionSystem.Run(sys, HandOvers(c, traces, found, ts, later)))
         case Forwarding(x) => s.(sys := sys, open := s.open[k := Open(c, x)]))
    case End(k, sent, found, ts, now) =>
      if k !in s.open then s
      else
        var o := s.open[k];
        var traces := AfterSend(o.call.recording, o.sending, sent);
        s.(sys := AdmissionSystem.Run(s.sys, HandOvers(o.call, traces, found, ts, now)), open := s.open - {k})
    case Cancel(k) =>
      if k !in s.open then s
      else
        var id := s.open[k].sending.reservation;
        s.(open := s.open - {k}, lost := if id.Some? then s.lost + {id.value} else s.lost)
    case Mirror(t, now) => s.(sys := AdmissionSystem.Step(s.sys, HandOver(t, true, now)))
    case Tick(e, now) => s.(sys := AdmissionSystem.Step(s.sys, Settle(e, now)))
  }

  function GatewayRun(s: Gateway, es: seq<GatewayEvent>): Gateway
    decreases |es|
  {
    if es == [] then s else GatewayRun(GatewayStep(s, es[0]), es[1..])
  }

  /** Calls are recorded, mirrored traces carry no reservation, and the recorder gets its traces from
      calls alone. */
  predicate Proper(e: GatewayEvent) {
    match e
    case Begin(_, c, _, _, _, _) => c.recording
    case Mirror(t, _) => t.reservation.None?
    case Tick(e, _) => !e.Enqueue? && !e.Put?
    case _ => true
  }

  predicate ProperRun(es: seq<GatewayEvent>) { forall i :: 0 <= i < |es| ==> Proper(es[i]) }

  // ----- the checks are arrivals ---------------------------------------------------------------

  function Arrivals(g: GateState, c: Call, sel: Selection, now: real, later: real): (es: seq<AdmissionSystem.Event>) {
    [Arrive(RequestFor(c, sel.forward, sel.upstream.free, false), now)]
    + if FallsBack(c, sel, g, now) then
        var sel2 := FallbackSelection(c, sel).value;
        [Arrive(RequestFor(c, sel2.forward, sel2.upstream.free, true), later)]
      else []
  }

  lemma RunOne(s: Sys, e: AdmissionSystem.Event)
    ensures AdmissionSystem.Run(s, [e]) == AdmissionSystem.Step(s, e)
  {
    assert AdmissionSystem.Run(AdmissionSystem.Step(s, e), []) == AdmissionSystem.Step(s, e);
  }

  /** The handler's checks are one arrival, or two of which the first reserved nothing. */
  lemma AskedIsArrivals(s: Sys, c: Call, sel: Selection, now: real, later: real)
    ensures Asked(s, c, sel, now, later) == AdmissionSystem.Run(s, Arrivals(s.gate, c, sel, now, later))
  {
    var q := RequestFor(c, sel.forward, sel.upstream.free, false);
    var s1 := AdmissionSystem.Step(s, Arrive(q, now));
    if FallsBack(c, sel, s.gate, now) {
      var sel2 := FallbackSelection(c, sel).value;
      var second := Arrive(RequestFor(c, sel2.forward, sel2.upstream.free, true), later);
      assert Arrivals(s.gate, c, sel, now, later)[1..] == [second];
      RunOne(s1, second);
    } else {
      RunOne(s, Arrive(q, now));
    }
  }

  lemma ArrivalsAreOrderly(s: Sys, c: Call, sel: Selection, now: real, later: real)
    requires SysPlaced(s)
    ensures SysPlaced(Asked(s, c, sel, now, later))
  {
    hide SysPlaced;
    var es := Arrivals(s.gate, c, sel, now, later);
    var s1 := AdmissionSystem.Step(s, es[0]);
    assert OrderlyRun(s1, es[1..]) by {
      if |es| == 2 { assert OrderlyRun(AdmissionSystem.Step(s1, es[1]), []); }
    }
    RunKeepsPlaced(s, es);
    AskedIsArrivals(s, c, sel, now, later);
  }

  function Granted(d: Decision): Option<nat> { if d.AllowedReserving? then Some(d.id) else None }

  function IdSet(id: Option<nat>): set<nat> { if id.Some? then {id.value} else {} }

  /** The checks add at most one reservation, under a new id, and change no other. */
  ghost predicate Extends(s: Sys, s1: Sys, granted: set<nat>) {
    && s1.gate.policy == s.gate.policy
    && s1.inflight.Keys == s.inflight.Keys + granted && granted !! s.inflight.Keys
    && (forall id <- s.inflight :: s1.inflight[id] == s.inflight[id])
    && (forall id <- s.gate.live :: id in s1.gate.live && s1.gate.live[id] == s.gate.live[id])
  }

  /** One arrival, and what it grants. */
  lemma ArrivalExtends(s: Sys, q: Request, now: real)
    requires SysPlaced(s)
    ensures var d := Admission(s.gate, q, now).0;
            Extends(s, AdmissionSystem.Step(s, Arrive(q, now)), IdSet(Granted(d)))
  {
    hide Admission, SysPlaced;
    OnlyReservingHolds(s.gate, q, now);
    NextIsNew(s);
  }

  lemma NextIsNew(s: Sys)
    requires SysPlaced(s)
    ensures s.gate.next !in s.inflight && s.gate.next !in s.gate.live
  {
    hide CarriedOnce, HeldFor;
  }

  lemma ExtendsInTurn(s: Sys, s1: Sys, s2: Sys, granted: set<nat>)
    requires Extends(s, s1, {}) && Extends(s1, s2, granted)
    ensures Extends(s, s2, granted)
  {
    assert s1.inflight.Keys == s.inflight.Keys;
  }

  lemma AskedExtends(s: Sys, c: Call, sel: Selection, now: real, later: real)
    requires SysPlaced(s)
    ensures var d := AskGate(c, sel, s.gate, now, later).1;
            Extends(s, Asked(s, c, sel, now, later), IdSet(Granted(d)))
  {
    hide Admission, SysPlaced, Extends, FallbackSelection;
    var q := RequestFor(c, sel.forward, sel.upstream.free, false);
    ArrivalExtends(s, q, now);
    if FallsBack(c, sel, s.gate, now) {
      var sel2 := FallbackSelection(c, sel).value;
      var q2 := RequestFor(c, sel2.forward, sel2.upstream.free, true);
      var s1 := AdmissionSystem.Step(s, Arrive(q, now));
      StepKeepsPlaced(s, Arrive(q, now));
      ArrivalExtends(s1, q2, later);
      ExtendsInTurn(s, s1, AdmissionSystem.Step(s1, Arrive(q2, later)),
                    IdSet(Granted(Admission(s1.gate, q2, later).0)));
    }
  }

  // ----- a trace handed over leaves the rest alone ---------------------------------------------

  /** Reservations go, and none is changed; `taken` is the one handed over. */
  ghost predicate Shrinks(s: Sys, s1: Sys, taken: set<nat>) {
    && s1.gate.policy == s.gate.policy && s1.gate.next == s.gate.next
    && s1.inflight == s.inflight - taken
    && (forall id <- s1.gate.live :: id in s.gate.live && s1.gate.live[id] == s.gate.live[id])
  }

  lemma {:induction false} SettlingShrinks(g: GateState, items: seq<Trace>, now: real)
    ensures var g1 := SettleAll(g, items, now);
            && g1.policy == g.policy && g1.next == g.next
            && forall id <- g1.live :: id in g.live && g1.live[id] == g.live[id]
    decreases |items|
  {
    if items != [] { SettlingShrinks(Settled(g, items[0], now), items[1..], now); }
  }

  lemma HandOverShrinks(s: Sys, t: Trace, important: bool, now: real)
    ensures Shrinks(s, AdmissionSystem.Step(s, HandOver(t, important, now)), IdSet(t.reservation))
  {
    SettlingShrinks(s.gate, RecorderSafety.Items(RecorderSafety.News(s.rec, Giving(t, important))), now);
  }

  lemma TickShrinks(s: Sys, e: Recorder.Event<Trace>, now: real)
    ensures Shrinks(s, AdmissionSystem.Step(s, Settle(e, now)), {})
  {
    SettlingShrinks(s.gate, RecorderSafety.Items(RecorderSafety.News(s.rec, e)), now);
  }

  /** One trace handed over by a call that is not open, or not any more. */
  lemma OneHandOverPlaced(s: Sys, c: Call, h: Handover, found: Enrichment, ts: real, now: real)
    requires SysPlaced(s) && (h.reservation.Some? ==> h.reservation.value in s.inflight)
    ensures var s1 := AdmissionSystem.Run(s, HandOvers(c, [h], found, ts, now));
            SysPlaced(s1) && Shrinks(s, s1, IdSet(h.reservation))
  {
    hide SysPlaced, Shrinks, CostUsd;
    var t := TraceOf(c, h, found, ts);
    assert HandOvers(c, [h], found, ts, now) == [HandOver(t, h.important, now)];
    RunOne(s, HandOver(t, h.important, now));
    StepKeepsPlaced(s, HandOver(t, h.important, now));
    HandOverShrinks(s, t, h.important, now);
  }

  lemma NoHandOver(s: Sys, c: Call, found: Enrichment, ts: real, now: real)
    ensures AdmissionSystem.Run(s, HandOvers(c, [], found, ts, now)) == s
  {
    assert HandOvers(c, [], found, ts, now) == [];
  }

  // ----- who holds a reservation ---------------------------------------------------------------

  predicate Holder(open: map<nat, Open>, k: nat, id: nat) { k in open && open[k].sending.reservation == Some(id) }

  /** The reservations in flight are those of open calls, each held by one, and those of cancelled calls. */
  ghost predicate Shared(ids: set<nat>, open: map<nat, Open>, lost: set<nat>) {
    && (forall id <- ids :: id in lost || exists k :: Holder(open, k, id))
    && lost <= ids
    && (forall k, id :: Holder(open, k, id) ==> id in ids && id !in lost)
    && (forall j, k, id :: Holder(open, j, id) && Holder(open, k, id) ==> j == k)
  }

  ghost predicate GatewayPlaced(s: Gateway) {
    && SysPlaced(s.sys) && (forall k <- s.open :: s.open[k].call.recording)
    && Shared(s.sys.inflight.Keys, s.open, s.lost)
  }

  lemma NewHolderShares(ids: set<nat>, open: map<nat, Open>, lost: set<nat>, k: nat, o: Open)
    requires Shared(ids, open, lost) && k !in open && IdSet(o.sending.reservation) !! ids
    ensures Shared(ids + IdSet(o.sending.reservation), open[k := o], lost)
  {
    var open1 := open[k := o];
    forall j, id | Holder(open1, j, id) ensures if j == k then id !in ids else Holder(open, j, id) {}
    forall id | id in ids + IdSet(o.sending.reservation) ensures id in lost || exists j :: Holder(open1, j, id) {
      if id in ids {
        if id !in lost {
          var j :| Holder(open, j, id);
          assert Holder(open1, j, id);
        }
      } else {
        assert Holder(open1, k, id);
      }
    }
  }

  lemma LeaverShares(ids: set<nat>, open: map<nat, Open>, lost: set<nat>, k: nat)
    requires Shared(ids, open, lost) && k in open
    ensures var own := IdSet(open[k].sending.reservation);
            Shared(ids - own, open - {k}, lost) && Shared(ids, open - {k}, lost + own)
  {
    var own, open1 := IdSet(open[k].sending.reservation), open - {k};
    forall id | id in own ensures Holder(open, k, id) {}
    forall j, id | Holder(open1, j, id) ensures Holder(open, j, id) && id !in own {
      if id in own { assert Holder(open, k, id) && Holder(open, j, id); }
    }
    forall id | id in ids - own ensures id in lost || exists j :: Holder(open1, j, id) {
      if id !in lost {
        var j :| Holder(open, j, id);
        assert Holder(open1, j, id);
      }
    }
  }

  // ----- what the handler hands over -----------------------------------------------------------

  /** What the handler answers before it sends: at most one synthetic trace, with the reservation
      just granted if there was one. */
  lemma AnswersAreSynthetic(c: Call, sel: Selection, d: Decision)
    requires c.recording
    ensures var stage := Conclude(c, sel, d);
            && (stage.Answered? ==>
                  && |stage.traces| <= 1
                  && (forall h <- stage.traces :: !h.reason.Completed? && h.reservation == Granted(d))
                  && (stage.traces == [] ==> Granted(d).None?))
            && (stage.Forwarding? ==>
                  && !d.Refused? && stage.sending.reservation == Granted(d)
                  && stage.sending.forward == sel.forward && stage.sending.upstream == sel.upstream)
  {}

  lemma ChosenAnswers(c: Call)
    ensures Select(c).Err? ==>
              && Select(c).error.Answered? && |Select(c).error.traces| <= 1
              && forall h <- Select(c).error.traces :: !h.reason.Completed? && h.reservation.None?
  {}

  /** The end of a sent call: at most one trace, carrying the reservation the call holds. */
  lemma EndingCarries(x: Sending, sent: bool)
    ensures var traces := AfterSend(true, x, sent);
            && |traces| <= 1 && (traces == [] ==> x.reservation.None?)
            && forall h <- traces ::
                 h.reservation == x.reservation && h.free == x.upstream.free && (h.reason.Completed? ==> sent)
  {}

  // ----- every step keeps it -------------------------------------------------------------------

  /** Begin, when the handler answers by itself: a granted reservation goes straight to the recorder. */
  lemma AnsweredKeepsPlaced(s: Gateway, c: Call, id: Option<nat>, s1: Sys, traces: seq<Handover>,
                            found: Enrichment, ts: real, now: real)
    requires GatewayPlaced(s) && SysPlaced(s1) && Extends(s.sys, s1, IdSet(id))
    requires |traces| <= 1 && (traces == [] ==> id.None?) && forall h <- traces :: h.reservation == id
    ensures GatewayPlaced(s.(sys := AdmissionSystem.Run(s1, HandOvers(c, traces, found, ts, now))))
  {
    hide SysPlaced, Shared;
    assert s1.inflight.Keys - IdSet(id) == s.sys.inflight.Keys;
    if traces == [] {
      NoHandOver(s1, c, found, ts, now);
      assert s1.inflight.Keys == s.sys.inflight.Keys;
    } else {
      var h := traces[0];
      assert h in traces && traces == [h];
      OneHandOverPlaced(s1, c, h, found, ts, now);
    }
  }

  lemma ForwardingKeepsPlaced(s: Gateway, k: nat, c: Call, x: Sending, s1: Sys)
    requires GatewayPlaced(s) && k !in s.open && c.recording
    requires SysPlaced(s1) && Extends(s.sys, s1, IdSet(x.reservation))
    ensures GatewayPlaced(s.(sys := s1, open := s.open[k := Open(c, x)]))
  {
    hide SysPlaced, Shared;
    NewHolderShares(s.sys.inflight.Keys, s.open, s.lost, k, Open(c, x));
  }

  lemma NothingAsked(s: Sys)
    ensures Extends(s, s, {})
  {}

  lemma BeginKeepsPlaced(s: Gateway, k: nat, c: Call, found: Enrichment, ts: real, now: real, later: real)
    requires GatewayPlaced(s) && c.recording
    ensures GatewayPlaced(GatewayStep(s, Begin(k, c, found, ts, now, later)))
  {
    hide SysPlaced, Shared, Extends, AskGate, Asked, Conclude;
    if k !in s.open {
      match Select(c) {
        case Err(stage) =>
          ChosenAnswers(c);
          NothingAsked(s.sys);
          AnsweredKeepsPlaced(s, c, None, s.sys, stage.traces, found, ts, later);
        case Ok(sel) =>
          var (final, d, _) := AskGate(c, sel, s.sys.gate, now, later);
          ArrivalsAreOrderly(s.sys, c, sel, now, later);
          AskedExtends(s.sys, c, sel, now, later);
          AnswersAreSynthetic(c, final, d);
          var stage, s1 := Conclude(c, final, d), Asked(s.sys, c, sel, now, later);
          assert BeforeSend(c, s.sys.gate, now, later).0 == stage;
          if stage.Answered? {
            AnsweredKeepsPlaced(s, c, Granted(d), s1, stage.traces, found, ts, later);
          } else {
            ForwardingKeepsPlaced(s, k, c, stage.sending, s1);
          }
      }
    }
  }

  lemma EndKeepsPlaced(s: Gateway, k: nat, sent: bool, found: Enrichment, ts: real, now: real)
    requires GatewayPlaced(s)
    ensures GatewayPlaced(GatewayStep(s, End(k, sent, found, ts, now)))
  {
    hide SysPlaced, AfterSend;
    if k in s.open {
      var o := s.open[k];
      EndingCarries(o.sending, sent);
      LeaverShares(s.sys.inflight.Keys, s.open, s.lost, k);
      assert o.sending.reservation.Some? ==> Holder(s.open, k, o.sending.reservation.value);
      var traces := AfterSend(true, o.sending, sent);
      if traces == [] {
        NoHandOver(s.sys, o.call, found, ts, now);
        assert s.sys.inflight.Keys - {} == s.sys.inflight.Keys;
      } else {
        var h := traces[0];
        assert h in traces && traces == [h];
        OneHandOverPlaced(s.sys, o.call, h, found, ts, now);
      }
    }
  }

  lemma CancelKeepsPlaced(s: Gateway, k: nat)
    requires GatewayPlaced(s)
    ensures GatewayPlaced(GatewayStep(s, Cancel(k)))
  {
    hide SysPlaced, Shared;
    if k in s.open {
      LeaverShares(s.sys.inflight.Keys, s.open, s.lost, k);
      assert s.lost + {} == s.lost;
    }
  }

  lemma MirrorKeepsPlaced(s: Gateway, t: Trace, now: real)
    requires GatewayPlaced(s) && t.reservation.None?
    ensures GatewayPlaced(GatewayStep(s, Mirror(t, now)))
  {
    hide SysPlaced, Shared;
    HandOverShrinks(s.sys, t, true, now);
    StepKeepsPlaced(s.sys, HandOver(t, true, now));
    assert s.sys.inflight.Keys - {} == s.sys.inflight.Keys;
  }

  lemma TickKeepsPlaced(s: Gateway, e: Recorder.Event<Trace>, now: real)
    requires GatewayPlaced(s) && !e.Enqueue? && !e.Put?
    ensures GatewayPlaced(GatewayStep(s, Tick(e, now)))
  {
    hide SysPlaced, Shared;
    TickShrinks(s.sys, e, now);
    StepKeepsPlaced(s.sys, Settle(e, now));
    assert s.sys.inflight.Keys - {} == s.sys.inflight.Keys;
  }

  lemma GatewayStepKeepsPlaced(s: Gateway, e: GatewayEvent)
    requires GatewayPlaced(s) && Proper(e)
    ensures GatewayPlaced(GatewayStep(s, e))
  {
    hide GatewayPlaced, GatewayStep;
    match e {
      case Begin(k, c, found, ts, now, later) => BeginKeepsPlaced(s, k, c, found, ts, now, later);
      case End(k, sent, found, ts, now) => EndKeepsPlaced(s, k, sent, found, ts, now);
      case Cancel(k) => CancelKeepsPlaced(s, k);
      case Mirror(t, now) => MirrorKeepsPlaced(s, t, now);
      case Tick(e, now) => TickKeepsPlaced(s, e, now);
    }
  }

  lemma {:induction false} GatewayRunKeepsPlaced(s: Gateway, es: seq<GatewayEvent>)
    requires GatewayPlaced(s) && ProperRun(es)
    ensures GatewayPlaced(GatewayRun(s, es))
    decreases |es|
  {
    if es != [] {
      assert Proper(es[0]);
      GatewayStepKeepsPlaced(s, es[0]);
      GatewayRunKeepsPlaced(GatewayStep(s, es[0]), es[1..]);
    }
  }

  // ----- main results --------------------------------------------------------------------------

  /** Who holds capacity, exactly, in every run, whatever the policy, the headers, the bills and the
      failures: open calls, traces in the recorder, and cancelled calls. */
  lemma LiveReservationsAre(s: Gateway, es: seq<GatewayEvent>, id: nat)
    requires GatewayPlaced(s) && ProperRun(es)
    ensures var end := GatewayRun(s, es);
            id in end.sys.gate.live <==>
            || (exists k :: Holder(end.open, k, id))
            || id in end.lost
            || HeldFor(RecorderSafety.Pending(end.sys.rec), id)
  {
    hide HeldFor;
    GatewayRunKeepsPlaced(s, es);
    HeldIsLive(GatewayRun(s, es).sys, id);
  }

  lemma HeldIsLive(s: Sys, id: nat)
    requires SysPlaced(s)
    ensures HeldFor(RecorderSafety.Pending(s.rec), id) ==> id in s.gate.live
    ensures id in s.inflight ==> id in s.gate.live
  {}

  /** No call with a reservation is cancelled before its response is read. */
  predicate NoReservedCancel(s: Gateway, es: seq<GatewayEvent>)
    decreases |es|
  {
    es == [] ||
    (&& (es[0].Cancel? && es[0].k in s.open ==> s.open[es[0].k].sending.reservation.None?)
     && NoReservedCancel(GatewayStep(s, es[0]), es[1..]))
  }

  lemma {:induction false} LostIffCancelled(s: Gateway, es: seq<GatewayEvent>)
    ensures s.lost <= GatewayRun(s, es).lost
    ensures GatewayRun(s, es).lost == {} ==> NoReservedCancel(s, es)
    ensures s.lost == {} && NoReservedCancel(s, es) ==> GatewayRun(s, es).lost == {}
    decreases |es|
  {
    if es != [] { LostIffCancelled(GatewayStep(s, es[0]), es[1..]); }
  }

  /** When all capacity comes back: with every call ended and the recorder empty, nothing is reserved
      if and only if no call with a reservation was cancelled before its response was read. */
  lemma CapacityReturnsIff(s: Gateway, es: seq<GatewayEvent>)
    requires GatewayPlaced(s) && ProperRun(es) && s.lost == {}
    requires GatewayRun(s, es).open == map[]
    requires RecorderSafety.Pending(GatewayRun(s, es).sys.rec) == multiset{}
    ensures GatewayRun(s, es).sys.gate.live == map[] <==> NoReservedCancel(s, es)
  {
    hide GatewayPlaced, ProperRun;
    GatewayRunKeepsPlaced(s, es);
    LostIffCancelled(s, es);
    AtRest(GatewayRun(s, es));
  }

  /** With no call open and an empty recorder, what is live is what was lost. */
  lemma AtRest(s: Gateway)
    requires GatewayPlaced(s) && s.open == map[] && RecorderSafety.Pending(s.sys.rec) == multiset{}
    ensures s.sys.gate.live.Keys == s.lost
  {
    hide RecorderSafety.Pending;
    assert Placed(s.sys.gate, s.sys.inflight, multiset{});
    forall id | id in s.sys.gate.live ensures id in s.sys.inflight { assert !HeldFor(multiset{}, id); }
    assert s.sys.gate.live.Keys == s.sys.inflight.Keys;
    forall id | id in s.sys.inflight ensures id in s.lost {
      forall k ensures !Holder(s.open, k, id) {}
    }
  }

  lemma NewGatewayIsPlaced(p: Policy, l: Ledger, maxsize: nat)
    ensures GatewayPlaced(Gateway(Fresh(p, l, maxsize), map[], {}))
  {
    StartIsPlaced(p, l, maxsize);
  }
}
