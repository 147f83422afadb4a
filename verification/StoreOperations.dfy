/** What each operation of the control store does in a reachable store, when it refuses, and what it
    leaves alone. */
module StoreOperations {
  import opened Prelude
  import opened Policies
  import opened ControlStore

  predicate Occupied(s: Store, useCase: string) {
    || (exists e <- s.experiments :: e.running && e.scope.useCase == useCase)
    || (exists x <- s.shadows :: x.running && x.scope.useCase == useCase)
  }

  /** A test is created exactly when its id is new and, if it starts running, its use-case has neither a
      running test nor a running shadow; then it is added and nothing else changes. */
  lemma CreateIff(s: Store, e: Experiment)
    ensures var r := CreateExperiment(s, e);
            && (r.Ok? <==> (forall x <- s.experiments :: x.id != e.id)
                           && (e.running ==> !Occupied(s, e.scope.useCase)))
            && (r.Ok? ==> r.value == s.(experiments := s.experiments + [e]))
            && (r.Err? && r.error.DuplicateId? <==> exists x <- s.experiments :: x.id == e.id)
  {
    RunningShadowsExact(s.shadows, e.scope.useCase);
  }

  /** Likewise a shadow, whatever its state; its counters start at zero. */
  lemma CreateShadowIff(s: Store, x: Shadow)
    requires Inv(s)
    ensures var r := CreateShadow(s, x);
            && (r.Ok? <==> (forall y <- s.shadows :: y.id != x.id) && !Occupied(s, x.scope.useCase))
            && (r.Ok? ==> r.value == s.(shadows := s.shadows + [x], stats := s.stats[x.id := Stats(0, 0, 0, 0)]))
            && (r.Err? && r.error.DuplicateId? <==> exists y <- s.shadows :: y.id == x.id)
  {
    hide Running, RunningShadows;
    RunningShadowsExact(s.shadows, x.scope.useCase);
    RunningHas(s.experiments, x.scope.useCase);
  }

  /** Stopping stops the test with the id, if it runs, and touches no other. */
  lemma StopIs(s: Store, id: string)
    ensures var s1 := StopExperiment(s, id);
            && s1 == s.(experiments := s1.experiments) && |s1.experiments| == |s.experiments|
            && forall i :: 0 <= i < |s.experiments| ==>
                 s1.experiments[i]
                  == s.experiments[i].(running := s.experiments[i].running && s.experiments[i].id != id)
  {}

  lemma {:induction false} StopShadowEffect(xs: seq<Shadow>, id: string)
    requires forall i, j :: 0 <= i < j < |xs| ==> xs[i].id != xs[j].id
    ensures |StopShadowIn(xs, id)| == |xs|
    ensures forall i :: 0 <= i < |xs| ==> StopShadowIn(xs, id)[i] == xs[i].(running := xs[i].running && xs[i].id != id)
  {
    if xs != [] {
      if !(xs[0].id == id && xs[0].running) { StopShadowEffect(xs[1..], id); }
    }
  }

  /** And so does stopping a shadow. */
  lemma StopShadowIs(s: Store, id: string)
    requires Inv(s)
    ensures var s1 := Step(s, StopS(id));
            && s1 == s.(shadows := s1.shadows) && |s1.shadows| == |s.shadows|
            && forall i :: 0 <= i < |s.shadows| ==>
                 s1.shadows[i] == s.shadows[i].(running := s.shadows[i].running && s.shadows[i].id != id)
  {
    StopShadowEffect(s.shadows, id);
  }

  /** An adoption is carried out exactly when the test exists and the route is its own candidate's; an
      unknown test and a mismatched route change nothing. */
  lemma AdoptIff(s: Store, id: string, route: Route)
    requires Inv(s)
    ensures var (s1, r) := Adopt(s, id, route);
            && (r == Ok(true) <==> exists e <- s.experiments ::
                  e.id == id && route.useCase == e.scope.useCase && route.model == e.candidate
                  && route.provider == e.provider)
            && (r == Ok(false) <==> forall e <- s.experiments :: e.id != id)
            && (r != Ok(true) ==> s1 == s)
            && (r == Ok(true) ==> s1 == StopExperiment(s, id).(routes := s.routes[route.useCase := route]))
  {
    FindExact(s.experiments, id);
  }

  /** Counters only move by what is added, each its own, and only for a known shadow. */
  lemma IncrementIs(s: Store, id: string, d: Stats, other: string)
    ensures Increment(s, id, d).Ok? <==> id in s.stats
    ensures Increment(s, id, d).Ok? ==>
              var s1 := Increment(s, id, d).value;
              && s1 == s.(stats := s1.stats) && s1.stats.Keys == s.stats.Keys
              && s1.stats[id].submitted == s.stats[id].submitted + d.submitted
              && s1.stats[id].completed == s.stats[id].completed + d.completed
              && s1.stats[id].failed == s.stats[id].failed + d.failed
              && s1.stats[id].dropped == s.stats[id].dropped + d.dropped
              && (other in s.stats && other != id ==> s1.stats[other] == s.stats[other])
  {}

  /** Routes and fallbacks are what was last set for their target, until cleared. */
  lemma SettingsAreLast(s: Store, r: Route, w: WorkflowRoute, f: Fallback, useCase: string)
    ensures var s1 := Step(s, SetRouteE(r)); s1.routes == s.routes[r.useCase := r] && s1 == s.(routes := s1.routes)
    ensures var s1 := Step(s, SetWorkflowRouteE(w));
            s1.workflowRoutes == s.workflowRoutes[w.key := w] && s1 == s.(workflowRoutes := s1.workflowRoutes)
    ensures var s1 := Step(s, SetFallbackE(f));
            s1.fallbacks == s.fallbacks[f.useCase := f] && s1 == s.(fallbacks := s1.fallbacks)
    ensures Step(s, ClearRouteE(useCase)).routes == s.routes - {useCase}
    ensures Step(s, ClearFallbackE(useCase)).fallbacks == s.fallbacks - {useCase}
  {}
}
