/** Which requests the router acts on, and how: who gets an arm and which one, and which rule routes. */
module ServingDecisions {
  import opened Prelude
  import opened Policies
  import opened Serving

  // ----- who gets an arm -----------------------------------------------------------------------

  /** The experiment's scope covers the request's declared step: all of the use-case, one workflow
      version, or one step of it. */
  predicate Covers(s: Scope, identity: Option<StepKey>) {
    s.workflow.Some? ==>
      && identity.Some? && s.workflow == Some(identity.value.workflow) && s.version == Some(identity.value.version)
      && (s.step.Some? ==> s.step == Some(identity.value.step))
  }

  /** The experiment of the request's use-case, when its scope covers the request. */
  predicate Tests(s: Snapshot, q: Request, e: Experiment) {
    && q.useCase.Some? && q.useCase.value in s.experiments && s.experiments[q.useCase.value] == e
    && Covers(e.scope, q.identity)
  }

  predicate Untested(s: Snapshot, q: Request) {
    q.useCase.Some? && q.useCase.value in s.experiments ==> !Covers(s.experiments[q.useCase.value].scope, q.identity)
  }

  /** A running test reaches a request with a task not bound elsewhere and a body that names a model. */
  predicate Reached(r: Router, q: Request, e: Experiment) {
    && Tests(r.snapshot, q, e) && e.running && e.id != ""
    && q.task.Some? && (q.task.value in r.tasks ==> r.tasks[q.task.value].experimentId == e.id)
    && q.body.Object? && q.body.model.Some?
  }

  predicate Acted(o: Outcome) { o.InArm? || o.AtCeiling? }

  function ArmOf(o: Outcome): ArmDecision
    requires Acted(o)
  {
    if o.InArm? then o.serve else o.breach
  }

  lemma TestsIs(s: Snapshot, q: Request, e: Experiment)
    ensures ExperimentFor(s, q) == Some(e) <==> Tests(s, q, e)
    ensures ExperimentFor(s, q).None? <==> Untested(s, q)
  {}

  /** A request is put in an arm, or held at its ceiling, exactly when a running test reaches it; and the
      decision is about that test, that task and the model the body asked for. */
  lemma ArmIff(env: Env, r: Router, q: Request, cap: nat)
    requires 0 < cap
    ensures var o := Decide(env, r, q, cap).0;
            && (Acted(o) <==> exists e :: Reached(r, q, e))
            && (forall e :: Reached(r, q, e) ==>
                  && ArmOf(o).experimentId == e.id && ArmOf(o).useCase == e.scope.useCase
                  && q.task == Some(ArmOf(o).task) && q.body.model == Some(ArmOf(o).originalModel)
                  && (ArmOf(o).arm.Baseline? ==>
                        o.InArm? && q.body.model == Some(ArmOf(o).servedModel) && ArmOf(o).provider.None?)
                  && (ArmOf(o).arm.Candidate? ==>
                        ArmOf(o).servedModel == e.candidate && ArmOf(o).provider == e.provider))
  {
    hide Bind;
    if q.useCase.Some? && q.useCase.value in r.snapshot.experiments {
      var e := r.snapshot.experiments[q.useCase.value];
      TestsIs(r.snapshot, q, e);
      if q.task.Some? { BindKeepsLast(r, q.task.value, e.id, cap); }
      if Acted(Decide(env, r, q, cap).0) { assert Reached(r, q, e); }
      forall x | Reached(r, q, x) ensures x == e {}
    }
  }

  // ----- the split -------------------------------------------------------------------------------

  /** The world in which every task falls into bucket `k`. */
  function InBucket(env: Env, k: nat): Env { env.(bucket := (id, task) => k) }

  predicate ToCandidate(o: Outcome) { Acted(o) && ArmOf(o).arm.Candidate? }

  /** The buckets in which the request would go to the candidate. */
  function CandidateBuckets(env: Env, r: Router, q: Request, cap: nat): set<nat>
    requires 0 < cap
  {
    set k | 0 <= k < 100 && ToCandidate(Decide(InBucket(env, k), r, q, cap).0)
  }

  function Below(n: nat): (r: set<nat>)
    ensures |r| == n && forall k: nat :: k in r <==> k < n
  {
    if n == 0 then {} else Below(n - 1) + {n - 1}
  }

  /** Only the bucket of this experiment and task matters, and it goes to the candidate when it is low. */
  lemma BucketDecides(env: Env, r: Router, q: Request, cap: nat, e: Experiment)
    requires 0 < cap && Reached(r, q, e)
    ensures ToCandidate(Decide(env, r, q, cap).0) <==> env.bucket(e.id, q.task.value) < e.splitPct
  {
    hide Bind;
    TestsIs(r.snapshot, q, e);
    BindKeepsLast(r, q.task.value, e.id, cap);
  }

  /** The candidate's share is the split: of the hundred buckets, exactly splitPct send a request to the
      candidate, the lowest ones. So none do at 0 and all do at 100. */
  lemma ShareIsSplit(env: Env, r: Router, q: Request, cap: nat, e: Experiment)
    requires 0 < cap && Reached(r, q, e)
    ensures |CandidateBuckets(env, r, q, cap)| == Min(e.splitPct, 100)
    ensures CandidateBuckets(env, r, q, cap) == Below(Min(e.splitPct, 100))
  {
    hide Decide;
    forall k | 0 <= k < 100 ensures ToCandidate(Decide(InBucket(env, k), r, q, cap).0) <==> k < e.splitPct {
      BucketDecides(InBucket(env, k), r, q, cap, e);
    }
    assert CandidateBuckets(env, r, q, cap) == Below(Min(e.splitPct, 100));
  }

  function WithSplit(r: Router, useCase: string, e: Experiment, pct: nat): Router {
    r.(snapshot := r.snapshot.(experiments := r.snapshot.experiments[useCase := e.(splitPct := pct)]))
  }

  /** Raising the split never takes a task away from the candidate. */
  lemma RaisingTheSplitKeepsCandidates(env: Env, r: Router, q: Request, cap: nat, e: Experiment, more: nat)
    requires 0 < cap && Reached(r, q, e) && e.splitPct <= more
    requires ToCandidate(Decide(env, r, q, cap).0)
    ensures ToCandidate(Decide(env, WithSplit(r, q.useCase.value, e, more), q, cap).0)
  {
    hide Decide;
    BucketDecides(env, r, q, cap, e);
    BucketDecides(env, WithSplit(r, q.useCase.value, e, more), q, cap, e.(splitPct := more));
  }

  // ----- which rule routes -----------------------------------------------------------------------

  predicate HasStepRule(s: Snapshot, q: Request) {
    q.identity.Some? &&
    WorkflowKey(q.identity.value.workflow, q.identity.value.version, Some(q.identity.value.step)) in s.workflowRoutes
  }

  predicate HasVersionRule(s: Snapshot, q: Request) {
    q.identity.Some? &&
    WorkflowKey(q.identity.value.workflow, q.identity.value.version, None) in s.workflowRoutes
  }

  predicate HasUseCaseRule(s: Snapshot, q: Request) { q.useCase.Some? && q.useCase.value in s.routes }

  /** The rule a request comes under, and where it points: that of its own step before that of its
      workflow version before that of its use-case. */
  predicate Governs(s: Snapshot, q: Request, scope: RuleScope, model: string, provider: Option<string>) {
    match scope
    case StepRule =>
      HasStepRule(s, q) &&
      var key := WorkflowKey(q.identity.value.workflow, q.identity.value.version, Some(q.identity.value.step));
      s.workflowRoutes[key].model == model && s.workflowRoutes[key].provider == provider
    case WorkflowRule =>
      !HasStepRule(s, q) && HasVersionRule(s, q) &&
      var key := WorkflowKey(q.identity.value.workflow, q.identity.value.version, None);
      s.workflowRoutes[key].model == model && s.workflowRoutes[key].provider == provider
    case UseCaseRule =>
      && !HasStepRule(s, q) && !HasVersionRule(s, q) && HasUseCaseRule(s, q)
      && s.routes[q.useCase.value].model == model && s.routes[q.useCase.value].provider == provider
  }

  lemma GovernsIs(s: Snapshot, q: Request, scope: RuleScope, model: string, provider: Option<string>)
    ensures Governs(s, q, scope, model, provider) <==> RuleFor(s, q) == Some(Rule(scope, model, provider))
    ensures RuleFor(s, q).None? <==> !HasStepRule(s, q) && !HasVersionRule(s, q) && !HasUseCaseRule(s, q)
  {}

  lemma ServeNeverRoutes(env: Env, r: Router, q: Request, e: Experiment, cap: nat)
    requires 0 < cap && Reaches(r, q, e)
    ensures !Serve(env, r, q, e, cap).0.Routed?
  {
    hide Bind;
    BindKeepsLast(r, q.task.value, e.id, cap);
  }

  /** A request is routed exactly when no test covers it, a rule governs it, and its body names another
      model than the rule's; the decision then names that rule, its model and its provider. */
  lemma RoutedIff(env: Env, r: Router, q: Request, cap: nat)
    requires 0 < cap
    ensures var o := Decide(env, r, q, cap).0;
            && (o.Routed? <==>
                  && Untested(r.snapshot, q) && q.body.Object? && q.body.model.Some?
                  && exists scope, model, provider ::
                       Governs(r.snapshot, q, scope, model, provider) && q.body.model.value != model)
            && (o.Routed? ==>
                  && Governs(r.snapshot, q, o.route.rule, o.route.servedModel, o.route.provider)
                  && q.body.model == Some(o.route.originalModel) && q.useCase == o.route.useCase
                  && o.forward.Object? && o.forward.model == Some(o.route.servedModel))
  {
    hide Governs, RuleFor, Serve;
    var rule := RuleFor(r.snapshot, q);
    if ExperimentFor(r.snapshot, q).Some? {
      var e := ExperimentFor(r.snapshot, q).value;
      TestsIs(r.snapshot, q, e);
      if Reaches(r, q, e) { ServeNeverRoutes(env, r, q, e, cap); }
    } else {
      TestsIs(r.snapshot, q, Experiment("", Scope("", None, None, None), "", None, 0, 0, false));
    }
    forall scope, model, provider
      ensures Governs(r.snapshot, q, scope, model, provider) <==> rule == Some(Rule(scope, model, provider))
    {
      GovernsIs(r.snapshot, q, scope, model, provider);
    }
    if rule.Some? {
      assert Governs(r.snapshot, q, rule.value.scope, rule.value.model, rule.value.provider);
    }
  }

  /** The router raises exactly on a JSON body that is not an object, where a rule or a test of an unbound
      task would have read it, and on a test that cannot run. */
  lemma RaisedIff(env: Env, r: Router, q: Request, cap: nat)
    requires 0 < cap
    ensures Decide(env, r, q, cap).0.Raised? <==>
            || (Untested(r.snapshot, q) && q.body.NotObject?
                && (HasStepRule(r.snapshot, q) || HasVersionRule(r.snapshot, q) || HasUseCaseRule(r.snapshot, q)))
            || exists e :: Tests(r.snapshot, q, e) && Raises(r, q, e)
  {
    hide Bind;
    if q.useCase.Some? && q.useCase.value in r.snapshot.experiments {
      var e := r.snapshot.experiments[q.useCase.value];
      TestsIs(r.snapshot, q, e);
      if q.task.Some? { BindKeepsLast(r, q.task.value, e.id, cap); }
      if Decide(env, r, q, cap).0.Raised? && Tests(r.snapshot, q, e) { assert Raises(r, q, e); }
    }
  }

  predicate Raises(r: Router, q: Request, e: Experiment) {
    && q.task.Some? && (q.task.value in r.tasks ==> r.tasks[q.task.value].experimentId == e.id)
    && (q.body.NotObject? || (q.body.Object? && q.body.model.Some? && (!e.running || e.id == "")))
  }
}
