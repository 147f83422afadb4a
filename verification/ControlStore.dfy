/** The control store: experiments, shadows, routes, fallbacks and attrition counters. */
module ControlStore {
  import opened Prelude
  import opened Policies

  datatype Stats = Stats(submitted: nat, completed: nat, failed: nat, dropped: nat)

  datatype Store = Store(
    experiments: seq<Experiment>, shadows: seq<Shadow>, routes: map<string, Route>,
    workflowRoutes: map<WorkflowKey, WorkflowRoute>, fallbacks: map<string, Fallback>, stats: map<string, Stats>)

  const EMPTY := Store([], [], map[], map[], map[], map[])

  datatype StoreError = DuplicateId | ExperimentRunning | ShadowRunning | RouteMismatch | UnknownShadow

  // ----- queries -------------------------------------------------------------------------------

  /** A dictionary comprehension: a later entry replaces an earlier one with the same key. */
  function Running(es: seq<Experiment>): map<string, Experiment> {
    if es == [] then map[]
    else
      var e, before := es[|es| - 1], Running(es[..|es| - 1]);
      if e.running then before[e.scope.useCase := e] else before
  }

  function RunningShadows(xs: seq<Shadow>): map<string, Shadow> {
    if xs == [] then map[]
    else
      var x, before := xs[|xs| - 1], RunningShadows(xs[..|xs| - 1]);
      if x.running then before[x.scope.useCase := x] else before
  }

  /** The first experiment with this id. */
  function Find(es: seq<Experiment>, id: string): Option<Experiment> {
    if es == [] then None else if es[0].id == id then Some(es[0]) else Find(es[1..], id)
  }

  // ----- updates -------------------------------------------------------------------------------

  function CreateExperiment(s: Store, e: Experiment): Result<Store, StoreError> {
    if exists x <- s.experiments :: x.id == e.id then Err(DuplicateId)
    else if e.running && exists x <- s.experiments :: x.running && x.scope.useCase == e.scope.useCase
    then Err(ExperimentRunning)
    else if e.running && e.scope.useCase in RunningShadows(s.shadows) then Err(ShadowRunning)
    else Ok(s.(experiments := s.experiments + [e]))
  }

  function StopIn(es: seq<Experiment>, id: string): seq<Experiment> {
    seq(|es|, i requires 0 <= i < |es| => if es[i].id == id && es[i].running then Stopped(es[i]) else es[i])
  }

  function StopExperiment(s: Store, id: string): Store { s.(experiments := StopIn(s.experiments, id)) }

  predicate RouteMatches(r: Route, e: Experiment) {
    r.useCase == e.scope.useCase && r.model == e.candidate && r.provider == e.provider
  }

  /** Adoption; Ok(false) when there is no such experiment. */
  function Adopt(s: Store, id: string, r: Route): (Store, Result<bool, StoreError>) {
    var e := Find(s.experiments, id);
    if e.None? then (s, Ok(false))
    else if !RouteMatches(r, e.value) then (s, Err(RouteMismatch))
    else (StopExperiment(s, id).(routes := s.routes[r.useCase := r]), Ok(true))
  }

  function CreateShadow(s: Store, x: Shadow): Result<Store, StoreError> {
    if exists y <- s.shadows :: y.id == x.id then Err(DuplicateId)
    else if x.scope.useCase in RunningShadows(s.shadows) then Err(ShadowRunning)
    else if x.scope.useCase in Running(s.experiments) then Err(ExperimentRunning)
    else Ok(s.(shadows := s.shadows + [x], stats := s.stats[x.id := Stats(0, 0, 0, 0)]))
  }

  /** Only the first running shadow with this id is stopped. */
  function StopShadowIn(xs: seq<Shadow>, id: string): seq<Shadow> {
    if xs == [] then []
    else if xs[0].id == id && xs[0].running then [StoppedShadow(xs[0])] + xs[1..]
    else [xs[0]] + StopShadowIn(xs[1..], id)
  }

  function Increment(s: Store, id: string, delta: Stats): Result<Store, StoreError> {
    if id !in s.stats then Err(UnknownShadow)
    else
      var row := s.stats[id];
      Ok(s.(stats := s.stats[id := Stats(row.submitted + delta.submitted, row.completed + delta.completed,
                                         row.failed + delta.failed, row.dropped + delta.dropped)]))
  }

  lemma {:induction false} StopShadowAt(xs: seq<Shadow>, i: nat, id: string)
    requires i < |xs| && xs[i].id == id && xs[i].running
    requires forall k :: 0 <= k < i ==> !(xs[k].id == id && xs[k].running)
    ensures StopShadowIn(xs, id) == xs[i := StoppedShadow(xs[i])]
  {
    if i > 0 { StopShadowAt(xs[1..], i - 1, id); }
  }

  lemma {:induction false} StopShadowNone(xs: seq<Shadow>, id: string)
    requires forall k :: 0 <= k < |xs| ==> !(xs[k].id == id && xs[k].running)
    ensures StopShadowIn(xs, id) == xs
  {
    if xs != [] { StopShadowNone(xs[1..], id); }
  }

  // ----- the store object ----------------------------------------------------------------------

  class ControlMemory {
    var experiments: seq<Experiment>
    var shadows: seq<Shadow>
    var routes: map<string, Route>
    var workflowRoutes: map<WorkflowKey, WorkflowRoute>
    var fallbacks: map<string, Fallback>
    var stats: map<string, Stats>

    ghost function Value(): Store
      reads this
    {
      Store(experiments, shadows, routes, workflowRoutes, fallbacks, stats)
    }

    constructor ()
      ensures Value() == EMPTY
    {
      experiments, shadows, routes, workflowRoutes, fallbacks, stats := [], [], map[], map[], map[], map[];
    }

    method RunningExperiments() returns (m: map<string, Experiment>)
      ensures m == Running(experiments)
    {
      m := map[];
      for i := 0 to |experiments|
        invariant m == Running(experiments[..i])
      {
        assert experiments[..i + 1][..i] == experiments[..i];
        if experiments[i].running {
          m := m[experiments[i].scope.useCase := experiments[i]];
        }
      }
      assert experiments[..|experiments|] == experiments;
    }

    method RunningShadowExperiments() returns (m: map<string, Shadow>)
      ensures m == RunningShadows(shadows)
    {
      m := map[];
      for i := 0 to |shadows|
        invariant m == RunningShadows(shadows[..i])
      {
        assert shadows[..i + 1][..i] == shadows[..i];
        if shadows[i].running {
          m := m[shadows[i].scope.useCase := shadows[i]];
        }
      }
      assert shadows[..|shadows|] == shadows;
    }

    method Create(e: Experiment) returns (r: Result<(), StoreError>)
      modifies this`experiments
      ensures match CreateExperiment(old(Value()), e)
              case Ok(s) => r == Ok(()) && Value() == s
              case Err(error) => r == Err(error) && Value() == old(Value())
    {
      if e.id in (set x <- experiments :: x.id) {
        return Err(DuplicateId);
      }
      if e.running && e.scope.useCase in (set x <- experiments | x.running :: x.scope.useCase) {
        return Err(ExperimentRunning);
      }
      var mirrored := RunningShadowExperiments();
      if e.running && e.scope.useCase in mirrored {
        return Err(ShadowRunning);
      }
      experiments := experiments + [e];
      return Ok(());
    }

    method Stop(id: string) returns (stopped: bool)
      modifies this`experiments
      ensures Value() == StopExperiment(old(Value()), id)
      ensures stopped <==> exists e <- old(experiments) :: e.id == id && e.running
    {
      stopped := false;
      for i := 0 to |experiments|
        invariant |experiments| == |old(experiments)|
        invariant experiments[..i] == StopIn(old(experiments), id)[..i]
        invariant experiments[i..] == old(experiments)[i..]
        invariant stopped <==> exists k :: 0 <= k < i && old(experiments)[k].id == id && old(experiments)[k].running
      {
        if experiments[i].id == id && experiments[i].running {
          experiments := experiments[i := Stopped(experiments[i])];
          stopped := true;
        }
      }
    }

    method AdoptExperiment(id: string, route: Route) returns (r: Result<bool, StoreError>)
      modifies this`experiments, this`routes
      ensures (Value(), r) == Adopt(old(Value()), id, route)
    {
      var e := Find(experiments, id);
      if e.None? {
        return Ok(false);
      }
      if route.useCase != e.value.scope.useCase || route.model != e.value.candidate
         || route.provider != e.value.provider {
        return Err(RouteMismatch);
      }
      var stopped := Stop(id);
      SetRoute(route);
      return Ok(true);
    }

    method SetRoute(route: Route)
      modifies this`routes
      ensures routes == old(routes)[route.useCase := route]
    {
      routes := routes[route.useCase := route];
    }

    method ClearRoute(useCase: string) returns (had: bool)
      modifies this`routes
      ensures routes == old(routes) - {useCase} && had == (useCase in old(routes))
    {
      had := useCase in routes;
      routes := routes - {useCase};
    }

    method SetWorkflowRoute(route: WorkflowRoute)
      modifies this`workflowRoutes
      ensures workflowRoutes == old(workflowRoutes)[route.key := route]
    {
      workflowRoutes := workflowRoutes[route.key := route];
    }

    method SetFallback(fallback: Fallback)
      modifies this`fallbacks
      ensures fallbacks == old(fallbacks)[fallback.useCase := fallback]
    {
      fallbacks := fallbacks[fallback.useCase := fallback];
    }

    method ClearFallback(useCase: string) returns (had: bool)
      modifies this`fallbacks
      ensures fallbacks == old(fallbacks) - {useCase} && had == (useCase in old(fallbacks))
    {
      had := useCase in fallbacks;
      fallbacks := fallbacks - {useCase};
    }

    method CreateShadowExperiment(x: Shadow) returns (r: Result<(), StoreError>)
      modifies this`shadows, this`stats
      ensures match CreateShadow(old(Value()), x)
              case Ok(s) => r == Ok(()) && Value() == s
              case Err(error) => r == Err(error) && Value() == old(Value())
    {
      if x.id in (set y <- shadows :: y.id) {
        return Err(DuplicateId);
      }
      var mirrored := RunningShadowExperiments();
      if x.scope.useCase in mirrored {
        return Err(ShadowRunning);
      }
      var live := RunningExperiments();
      if x.scope.useCase in live {
        return Err(ExperimentRunning);
      }
      shadows := shadows + [x];
      stats := stats[x.id := Stats(0, 0, 0, 0)];
      return Ok(());
    }

    method StopShadowExperiment(id: string) returns (stopped: bool)
      modifies this`shadows
      ensures shadows == StopShadowIn(old(shadows), id)
      ensures stopped <==> exists x <- old(shadows) :: x.id == id && x.running
    {
      for i := 0 to |shadows|
        invariant shadows == old(shadows)
        invariant forall k :: 0 <= k < i ==> !(shadows[k].id == id && shadows[k].running)
      {
        if shadows[i].id == id && shadows[i].running {
          StopShadowAt(shadows, i, id);
          shadows := shadows[i := StoppedShadow(shadows[i])];
          return true;
        }
      }
      StopShadowNone(shadows, id);
      return false;
    }

    method IncrementShadowStats(id: string, delta: Stats) returns (r: Result<(), StoreError>)
      modifies this`stats
      ensures match Increment(old(Value()), id, delta)
              case Ok(s) => r == Ok(()) && Value() == s
              case Err(error) => r == Err(error) && Value() == old(Value())
    {
      if id !in stats {
        return Err(UnknownShadow);
      }
      var row := stats[id];
      stats := stats[id := Stats(row.submitted + delta.submitted, row.completed + delta.completed,
                                 row.failed + delta.failed, row.dropped + delta.dropped)];
      return Ok(());
    }
  }

  // ----- the invariant over every run ----------------------------------------------------------

  datatype Event =
    | CreateE(e: Experiment) | StopE(id: string) | AdoptE(id: string, route: Route)
    | SetRouteE(route: Route) | ClearRouteE(useCase: string)
    | SetWorkflowRouteE(workflowRoute: WorkflowRoute)
    | SetFallbackE(fallback: Fallback) | ClearFallbackE(useCase: string)
    | CreateS(x: Shadow) | StopS(id: string) | IncrementS(id: string, delta: Stats)

  function OrSame(r: Result<Store, StoreError>, s: Store): Store { if r.Ok? then r.value else s }

  function Step(s: Store, ev: Event): Store {
    match ev
    case CreateE(e) => OrSame(CreateExperiment(s, e), s)
    case StopE(id) => StopExperiment(s, id)
    case AdoptE(id, route) => Adopt(s, id, route).0
    case SetRouteE(route) => s.(routes := s.routes[route.useCase := route])
    case ClearRouteE(useCase) => s.(routes := s.routes - {useCase})
    case SetWorkflowRouteE(route) => s.(workflowRoutes := s.workflowRoutes[route.key := route])
    case SetFallbackE(fallback) => s.(fallbacks := s.fallbacks[fallback.useCase := fallback])
    case ClearFallbackE(useCase) => s.(fallbacks := s.fallbacks - {useCase})
    case CreateS(x) => OrSame(CreateShadow(s, x), s)
    case StopS(id) => s.(shadows := StopShadowIn(s.shadows, id))
    case IncrementS(id, delta) => OrSame(Increment(s, id, delta), s)
  }

  /** One event of the machine, carried out by the store object. */
  method Apply(store: ControlMemory, ev: Event)
    modifies store
    ensures store.Value() == Step(old(store.Value()), ev)
  {
    match ev {
      case CreateE(e) => var _ := store.Create(e);
      case StopE(id) => var _ := store.Stop(id);
      case AdoptE(id, route) => var _ := store.AdoptExperiment(id, route);
      case SetRouteE(route) => store.SetRoute(route);
      case ClearRouteE(useCase) => var _ := store.ClearRoute(useCase);
      case SetWorkflowRouteE(route) => store.SetWorkflowRoute(route);
      case SetFallbackE(fallback) => store.SetFallback(fallback);
      case ClearFallbackE(useCase) => var _ := store.ClearFallback(useCase);
      case CreateS(x) => var _ := store.CreateShadowExperiment(x);
      case StopS(id) => var _ := store.StopShadowExperiment(id);
      case IncrementS(id, delta) => var _ := store.IncrementShadowStats(id, delta);
    }
  }

  function Run(s: Store, evs: seq<Event>): Store
    decreases |evs|
  {
    if evs == [] then s else Run(Step(s, evs[0]), evs[1..])
  }

  /** Ids are unique, no use-case has two running experiments, two running shadows or one of each, and
      every shadow has its counters. */
  ghost predicate Inv(s: Store) {
    && (forall i, j :: 0 <= i < j < |s.experiments| ==> s.experiments[i].id != s.experiments[j].id)
    && (forall i, j :: 0 <= i < j < |s.experiments| && s.experiments[i].running && s.experiments[j].running
                       ==> s.experiments[i].scope.useCase != s.experiments[j].scope.useCase)
    && (forall i, j :: 0 <= i < j < |s.shadows| ==> s.shadows[i].id != s.shadows[j].id)
    && (forall i, j :: 0 <= i < j < |s.shadows| && s.shadows[i].running && s.shadows[j].running
                       ==> s.shadows[i].scope.useCase != s.shadows[j].scope.useCase)
    && (forall e <- s.experiments, x <- s.shadows :: e.running && x.running ==> e.scope.useCase != x.scope.useCase)
    && (forall x <- s.shadows :: x.id in s.stats)
  }

  /** The query neither invents nor loses a running experiment. */
  lemma {:induction false} RunningExact(es: seq<Experiment>)
    requires forall i, j :: 0 <= i < j < |es| && es[i].running && es[j].running
                            ==> es[i].scope.useCase != es[j].scope.useCase
    ensures forall e <- es :: e.running ==> e.scope.useCase in Running(es) && Running(es)[e.scope.useCase] == e
    ensures forall u <- Running(es) ::
              Running(es)[u] in es && Running(es)[u].running && Running(es)[u].scope.useCase == u
  {
    if es != [] {
      var init, last := es[..|es| - 1], es[|es| - 1];
      RunningExact(init);
      assert es == init + [last];
      forall e | e in es && e.running
        ensures e.scope.useCase in Running(es) && Running(es)[e.scope.useCase] == e
      {
        if e != last {
          var i :| 0 <= i < |es| && es[i] == e;
          assert e == init[i];
        }
      }
    }
  }

  lemma {:induction false} RunningShadowsExact(xs: seq<Shadow>, u: string)
    ensures u in RunningShadows(xs) <==> exists x <- xs :: x.running && x.scope.useCase == u
  {
    if xs != [] {
      var init, last := xs[..|xs| - 1], xs[|xs| - 1];
      RunningShadowsExact(init, u);
      assert xs == init + [last];
    }
  }

  lemma {:induction false} StopShadowPointwise(xs: seq<Shadow>, id: string)
    ensures |StopShadowIn(xs, id)| == |xs|
    ensures forall i :: 0 <= i < |xs| ==>
              && StopShadowIn(xs, id)[i].id == xs[i].id && StopShadowIn(xs, id)[i].scope == xs[i].scope
              && (StopShadowIn(xs, id)[i].running ==> xs[i].running)
  {
    if xs != [] { StopShadowPointwise(xs[1..], id); }
  }

  lemma RunningHas(es: seq<Experiment>, u: string)
    requires forall i, j :: 0 <= i < j < |es| && es[i].running && es[j].running
                            ==> es[i].scope.useCase != es[j].scope.useCase
    ensures u in Running(es) <==> exists e <- es :: e.running && e.scope.useCase == u
  {
    RunningExact(es);
  }

  lemma StopKeepsInv(s: Store, id: string)
    requires Inv(s)
    ensures Inv(StopExperiment(s, id))
  {
    var es := StopIn(s.experiments, id);
    forall e <- es, x <- s.shadows | e.running && x.running
      ensures e.scope.useCase != x.scope.useCase
    {
      var i :| 0 <= i < |es| && es[i] == e;
      assert s.experiments[i] in s.experiments;
    }
  }

  lemma StopShadowKeepsInv(s: Store, id: string)
    requires Inv(s)
    ensures Inv(s.(shadows := StopShadowIn(s.shadows, id)))
  {
    var xs := StopShadowIn(s.shadows, id);
    StopShadowPointwise(s.shadows, id);
    forall e <- s.experiments, x <- xs | e.running && x.running
      ensures e.scope.useCase != x.scope.useCase
    {
      var i :| 0 <= i < |xs| && xs[i] == x;
      assert s.shadows[i] in s.shadows;
    }
    forall x | x in xs ensures x.id in s.stats {
      var i :| 0 <= i < |xs| && xs[i] == x;
      assert s.shadows[i] in s.shadows;
    }
  }

  lemma CreateKeepsInv(s: Store, e: Experiment)
    requires Inv(s) && CreateExperiment(s, e).Ok?
    ensures Inv(CreateExperiment(s, e).value)
  {
    RunningShadowsExact(s.shadows, e.scope.useCase);
    assert forall x <- s.experiments + [e] :: x in s.experiments || x == e;
  }

  lemma CreateShadowKeepsInv(s: Store, x: Shadow)
    requires Inv(s) && CreateShadow(s, x).Ok?
    ensures Inv(CreateShadow(s, x).value)
  {
    RunningShadowsExact(s.shadows, x.scope.useCase);
    RunningHas(s.experiments, x.scope.useCase);
    assert forall y <- s.shadows + [x] :: y in s.shadows || y == x;
  }

  lemma StepKeepsInv(s: Store, ev: Event)
    requires Inv(s)
    ensures Inv(Step(s, ev))
  {
    match ev {
      case CreateE(e) => if CreateExperiment(s, e).Ok? { CreateKeepsInv(s, e); }
      case StopE(id) => StopKeepsInv(s, id);
      case AdoptE(id, route) => StopKeepsInv(s, id);
      case CreateS(x) => if CreateShadow(s, x).Ok? { CreateShadowKeepsInv(s, x); }
      case StopS(id) => StopShadowKeepsInv(s, id);
      case _ =>
    }
  }

  /** Every reachable store satisfies the invariant. */
  lemma {:induction false} RunKeepsInv(s: Store, evs: seq<Event>)
    requires Inv(s)
    ensures Inv(Run(s, evs))
    decreases |evs|
  {
    if evs != [] {
      StepKeepsInv(s, evs[0]);
      RunKeepsInv(Step(s, evs[0]), evs[1..]);
    }
  }

  // ----- experiments are immutable and stop for good ---------------------------------------------

  /** `later` keeps every experiment of `earlier` in its place, unchanged or stopped. */
  ghost predicate Evolves(earlier: seq<Experiment>, later: seq<Experiment>) {
    |earlier| <= |later|
    && forall i :: 0 <= i < |earlier| ==> later[i] == earlier[i] || later[i] == Stopped(earlier[i])
  }

  lemma StepEvolves(s: Store, ev: Event)
    ensures Evolves(s.experiments, Step(s, ev).experiments)
  {}

  /** Along every run an experiment keeps its parameters, and once stopped never runs again. */
  lemma {:induction false} RunEvolves(s: Store, evs: seq<Event>)
    ensures Evolves(s.experiments, Run(s, evs).experiments)
    decreases |evs|
  {
    if evs != [] {
      StepEvolves(s, evs[0]);
      RunEvolves(Step(s, evs[0]), evs[1..]);
    }
  }

  lemma StoppedForGood(s: Store, evs: seq<Event>, i: nat)
    requires i < |s.experiments| && !s.experiments[i].running
    ensures i < |Run(s, evs).experiments| && Run(s, evs).experiments[i] == s.experiments[i]
  {
    RunEvolves(s, evs);
  }

  lemma {:induction false} FindExact(es: seq<Experiment>, id: string)
    ensures match Find(es, id)
            case None => forall e <- es :: e.id != id
            case Some(e) => e in es && e.id == id
  {
    if es != [] { FindExact(es[1..], id); }
  }

  /** Adoption leaves the experiment stopped, and its own candidate as the exact route of its use-case,
      with no running experiment left on the use-case to keep that route dormant, if the adopted
      experiment was the running one. */
  lemma AdoptionTakesEffect(s: Store, id: string, route: Route, e: Experiment)
    requires Inv(s) && e in s.experiments && e.id == id && RouteMatches(route, e)
    ensures var (s1, r) := Adopt(s, id, route);
            && r == Ok(true)
            && Stopped(e) in s1.experiments && (forall x <- s1.experiments :: x.id == id ==> !x.running)
            && s1.routes == s.routes[e.scope.useCase := route]
            && route.model == e.candidate && route.provider == e.provider
            && (e.running ==> e.scope.useCase !in Running(s1.experiments))
  {
    FindExact(s.experiments, id);
    var k :| 0 <= k < |s.experiments| && s.experiments[k] == e;
    var s1 := Adopt(s, id, route).0;
    StopKeepsInv(s, id);
    assert s1.experiments == StopIn(s.experiments, id);
    assert s1.experiments[k] == Stopped(e);
    RunningHas(s1.experiments, e.scope.useCase);
    if e.running {
      forall x | x in s1.experiments && x.running ensures x.scope.useCase != e.scope.useCase {
        var i :| 0 <= i < |s1.experiments| && s1.experiments[i] == x;
        assert s.experiments[i] == x && i != k;
      }
    }
  }
}
