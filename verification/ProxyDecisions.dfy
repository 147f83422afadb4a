/** What the handler sends, to whom, and when it answers by itself instead. */
module ProxyDecisions {
  import opened Prelude
  import opened Budget
  import opened Proxy
  import Recorder

  // ----- the upstream ----------------------------------------------------------------------------

  /** The named provider exists and speaks the same API as the call's own. */
  predicate Compatible(c: Call, provider: string) {
    && c.resolver.Some? && provider in c.resolver.value
    && c.upstream.api.Some? && c.resolver.value[provider].api == c.upstream.api
  }

  function ArmOf(c: Call): Option<Serve> { if c.hook.Decided? then c.hook.serve else None }

  /** The handler goes on exactly when the hook did not stop the call and named no provider or a
      compatible one; then the hook's body, or the original, goes to that provider or the call's own. */
  lemma SelectedIff(c: Call)
    ensures var arm := ArmOf(c);
            && (Select(c).Ok? <==>
                  !c.hook.Terminal?
                  && (arm.Some? && arm.value.provider.Some? ==> Compatible(c, arm.value.provider.value)))
            && (Select(c).Ok? ==>
                  && Select(c).value.serve == arm
                  && Select(c).value.forward == (if c.hook.Decided? then c.hook.forward else c.original)
                  && Select(c).value.upstream == (if arm.Some? && arm.value.provider.Some?
                                                  then c.resolver.value[arm.value.provider.value] else c.upstream))
            && (Select(c).Err? && c.hook.Terminal? ==> Select(c).error.Answered? && Select(c).error.status == 429)
            && (Select(c).Err? && !c.hook.Terminal? ==> Select(c).error.Answered? && Select(c).error.status == 502)
  {}

  /** The first check asks for the fallback, no arm was assigned, and an approved one on a compatible
      provider is offered. */
  predicate FallbackTaken(c: Call, sel: Selection, s: GateState, now: real) {
    var d := Admission(s, RequestFor(c, sel.forward, sel.upstream.free, false), now).0;
    && d.Refused? && d.error.FallbackRequired? && sel.serve.None? && c.fallback.FallbackTo? && c.fallback.serve.Some?
    && (c.fallback.serve.value.provider.Some? ==> Compatible(c, c.fallback.serve.value.provider.value))
  }

  /** What is finally settled on: the approved fallback, checked again, exactly when it is taken; the
      first selection, checked once, otherwise. */
  lemma FinalIs(c: Call, sel: Selection, s: GateState, now: real, later: real)
    ensures var (final, d, g) := AskGate(c, sel, s, now, later);
            var (first, g1) := Admission(s, RequestFor(c, sel.forward, sel.upstream.free, false), now);
            if FallbackTaken(c, sel, s, now) then
              && final.forward == c.fallback.forward && final.serve == c.fallback.serve
              && final.upstream == (if c.fallback.serve.value.provider.Some?
                                    then c.resolver.value[c.fallback.serve.value.provider.value] else sel.upstream)
              && (d, g) == Admission(g1, RequestFor(c, final.forward, final.upstream.free, true), later)
            else final == sel && d == first && g == g1
  {
    hide Admission;
  }

  // ----- sending ---------------------------------------------------------------------------------

  /** The request goes upstream exactly when the selection stands, the gate admits it, and a
      provider-owned credential, if there is one, is readable and asked for by a trusted host. */
  lemma SentIff(c: Call, s: GateState, now: real, later: real)
    ensures var stage := BeforeSend(c, s, now, later).0;
            stage.Forwarding? <==>
            Select(c).Ok? &&
            var (final, d, _) := AskGate(c, Select(c).value, s, now, later);
            !d.Refused?
            && (final.upstream.credential.Some? ==> c.trustedHost && final.upstream.credential.value.available)
  {
    hide AskGate;
  }

  /** No provider-owned credential is ever spent for an untrusted host, or without its secret; and what is
      sent is what was selected, with the reservation the gate granted. */
  lemma CredentialsAreGuarded(c: Call, s: GateState, now: real, later: real)
    requires BeforeSend(c, s, now, later).0.Forwarding?
    ensures var x := BeforeSend(c, s, now, later).0.sending;
            var (final, d, _) := AskGate(c, Select(c).value, s, now, later);
            && (x.upstream.credential.Some? ==> c.trustedHost && x.upstream.credential.value.available)
            && x.forward == final.forward && x.serve == final.serve && x.upstream == final.upstream
            && x.reservation == (if d.AllowedReserving? then Some(d.id) else None)
  {
    hide AskGate;
  }

  /** How the handler answers an admitted or refused call that it does not send. */
  lemma AnswerIs(c: Call, s: GateState, now: real, later: real)
    requires Select(c).Ok? && BeforeSend(c, s, now, later).0.Answered?
    ensures var (final, d, _) := AskGate(c, Select(c).value, s, now, later);
            var status := BeforeSend(c, s, now, later).0.status;
            && (!d.Refused? ==> status == if c.trustedHost then 503 else 403)
            && (d.Refused? && (d.error.UnpricedModel? || d.error.UnknownSessionCost?) ==> status == 503)
            && (d.Refused? && (d.error.UnreservableRequest? || d.error.SessionRequired?) ==> status == 400)
            && (d.Refused? && (d.error.Exceeded? || d.error.FallbackRequired?) ==> status == 429)
  {
    hide AskGate;
  }

  // ----- the trace of a call that is not sent ----------------------------------------------------

  /** A call stopped before the gate: a breach of the ceiling is recorded as the hook asks, a provider that
      does not fit is always, each with its arm and never with a reservation. */
  lemma TraceOfStopped(c: Call)
    requires Select(c).Err?
    ensures var traces := Select(c).error.traces;
            && |traces| == (if c.recording && (c.hook.Terminal? ==> c.hook.record) then 1 else 0)
            && forall h <- traces ::
                 && (h.reason.Ceiling? <==> c.hook.Terminal?) && (h.reason.ProviderMismatch? <==> !c.hook.Terminal?)
                 && h.serve == (if c.hook.Terminal? then Some(c.hook.breach) else ArmOf(c))
                 && h.reservation.None? && !h.important
                 && h.free == if c.hook.Terminal? then c.upstream.free
                              else c.resolver.Some? && h.serve.value.provider.value in c.resolver.value
                                   && c.resolver.value[h.serve.value.provider.value].free
  {}

  /** A call stopped by the gate always leaves a trace and holds nothing; one stopped after it leaves one
      exactly if it has an arm or a reservation, and its trace carries the reservation home. */
  lemma TraceOfRefused(c: Call, s: GateState, now: real, later: real)
    requires Select(c).Ok? && BeforeSend(c, s, now, later).0.Answered?
    ensures var (final, d, _) := AskGate(c, Select(c).value, s, now, later);
            var traces := BeforeSend(c, s, now, later).0.traces;
            && |traces| == (if c.recording && (d.Refused? || final.serve.Some? || d.AllowedReserving?) then 1 else 0)
            && forall h <- traces ::
                 && (d.Refused? ==> h.reason == BudgetRefusal(d.error))
                 && (!d.Refused? ==> h.reason == if c.trustedHost then NoCredential else UntrustedHost)
                 && h.serve == final.serve && h.free == final.upstream.free && !h.important
                 && h.reservation == if d.AllowedReserving? then Some(d.id) else None
  {
    hide AskGate;
  }

  // ----- the trace of a sent call ----------------------------------------------------------------

  /** A sent call leaves a completed trace; one whose send failed leaves a trace if it had an arm or a
      reservation. Only a completed trace with a candidate arm or a reservation waits for a queue slot. */
  lemma TraceAfterSend(x: Sending, sent: bool)
    ensures var traces := AfterSend(true, x, sent);
            && |traces| == (if sent || x.serve.Some? || x.reservation.Some? then 1 else 0)
            && forall h <- traces ::
                 && (h.reason.Completed? <==> sent) && (h.reason.SendFailure? <==> !sent)
                 && h.serve == x.serve && h.reservation == x.reservation && h.free == x.upstream.free
                 && (h.important <==> sent && (x.reservation.Some? || (x.serve.Some? && x.serve.value.isCandidate)))
  {}

  /** Waiting means never being lost to a full queue: neither counter moves and nothing is discarded. */
  lemma WaitingIsNotDropped<T>(s: Recorder.State<T>, t: T)
    ensures var s1 := Recorder.Step(s, Recorder.Put(t));
            && s1.dropped == s.dropped && s1.droppedImportant == s.droppedImportant && s1.settled == s.settled
            && (t in s1.queue || t in s1.waiting)
  {}
}
