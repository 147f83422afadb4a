/** The live A/B router: per-task binding in a bounded least-recently-bound table, arm assignment, the
    divergence ceiling, persistent routes and budget fallbacks. */
module Serving {
  import opened Prelude
  import opened Policies

  const MAX_TASK_BINDINGS: nat := 50_000

  // ----- requests and answers ------------------------------------------------------------------

  /** A request body: not JSON, JSON but not an object, or an object. `rest` is everything in the
      object other than the model (when it is a non-empty string) and an integer `max_tokens`. */
  datatype Body = NotJson | NotObject | Object(model: Option<string>, maxTokens: Option<int>, rest: string)

  /** The headers that matter (an empty task header counts as absent), the fingerprint and the body. */
  datatype Request = Request(task: Option<string>, identity: Option<StepKey>, useCase: Option<string>, body: Body)

  datatype Arm = Baseline | Candidate

  datatype ArmDecision = ArmDecision(
    experimentId: string, useCase: string, task: string, arm: Arm,
    servedModel: string, originalModel: string, provider: Option<string>)

  datatype RuleScope = UseCaseRule | WorkflowRule | StepRule

  datatype RouteDecision = RouteDecision(
    useCase: Option<string>, servedModel: string, originalModel: string, provider: Option<string>, rule: RuleScope)

  /** The hook's outcome: forward a body with or without a decision, stop the call at the divergence
      ceiling, or raise (which the proxy answers by forwarding the original body). */
  datatype Outcome =
    | PassThrough
    | InArm(forward: Body, serve: ArmDecision)
    | Routed(forward: Body, route: RouteDecision)
    | AtCeiling(breach: ArmDecision, record: bool)
    | Raised

  // ----- state ---------------------------------------------------------------------------------

  datatype TaskState = TaskState(experimentId: string, candidateCalls: nat, ceilingRecorded: bool)

  datatype Snapshot = Snapshot(
    experiments: map<string, Experiment>, routes: map<string, Route>,
    workflowRoutes: map<WorkflowKey, WorkflowRoute>, fallbacks: map<string, Fallback>)

  /** The task table is an ordered dictionary: `order` lists its keys from least to most recently bound. */
  datatype Router = Router(snapshot: Snapshot, order: seq<string>, tasks: map<string, TaskState>)

  /** The hash bucket of a task within an experiment, and the known output caps of models. */
  datatype Env = Env(bucket: (string, string) -> nat, maxOutput: string -> Option<nat>)

  function Remove(order: seq<string>, t: string): seq<string> {
    if order == [] then []
    else if order[0] == t then Remove(order[1..], t)
    else [order[0]] + Remove(order[1..], t)
  }

  function Suffix(order: seq<string>, cap: nat): seq<string> {
    if |order| <= cap then order else order[|order| - cap..]
  }

  function BindOrder(order: seq<string>, t: string, cap: nat): seq<string> { Suffix(Remove(order, t) + [t], cap) }

  function Restrict(tasks: map<string, TaskState>, order: seq<string>): map<string, TaskState> {
    map k | k in tasks && k in order :: tasks[k]
  }

  function Bind(r: Router, t: string, experimentId: string, cap: nat): Router {
    var state := if t in r.tasks && r.tasks[t].experimentId == experimentId
                 then r.tasks[t] else TaskState(experimentId, 0, false);
    var order := BindOrder(r.order, t, cap);
    r.(order := order, tasks := Restrict(r.tasks[t := state], order))
  }

  // ----- routing, as a function ----------------------------------------------------------------

  function Assign(env: Env, e: Experiment, task: string): Arm {
    if env.bucket(e.id, task) < e.splitPct then Candidate else Baseline
  }

  function ArmFor(env: Env, e: Experiment, task: string, model: string): ArmDecision {
    var arm := Assign(env, e, task);
    ArmDecision(e.id, e.scope.useCase, task, arm, if arm.Candidate? then e.candidate else model, model,
                if arm.Candidate? then e.provider else None)
  }

  function ExperimentFor(s: Snapshot, q: Request): Option<Experiment> {
    if q.useCase.Some? && q.useCase.value in s.experiments
       && MatchesIdentity(s.experiments[q.useCase.value].scope, q.identity)
    then Some(s.experiments[q.useCase.value]) else None
  }

  datatype Rule = Rule(scope: RuleScope, model: string, provider: Option<string>)

  /** The persistent rule for a request: the exact step, then its workflow version, then the use-case. */
  function RuleFor(s: Snapshot, q: Request): Option<Rule> {
    var stepKey := if q.identity.Some?
                   then Some(WorkflowKey(q.identity.value.workflow, q.identity.value.version,
                                          Some(q.identity.value.step)))
                   else None;
    var versionKey := if q.identity.Some?
                      then Some(WorkflowKey(q.identity.value.workflow, q.identity.value.version, None)) else None;
    if stepKey.Some? && stepKey.value in s.workflowRoutes then
      Some(Rule(StepRule, s.workflowRoutes[stepKey.value].model, s.workflowRoutes[stepKey.value].provider))
    else if versionKey.Some? && versionKey.value in s.workflowRoutes then
      Some(Rule(WorkflowRule, s.workflowRoutes[versionKey.value].model, s.workflowRoutes[versionKey.value].provider))
    else if q.useCase.Some? && q.useCase.value in s.routes then
      Some(Rule(UseCaseRule, s.routes[q.useCase.value].model, s.routes[q.useCase.value].provider))
    else None
  }

  /** Swap the model, and clamp `max_tokens` to the new model's known output cap. */
  function Swap(env: Env, body: Body, model: string): Body
    requires body.Object?
  {
    var cap := env.maxOutput(model);
    var tokens := if cap.Some? && body.maxTokens.Some? && cap.value < body.maxTokens.value
                  then Some(cap.value) else body.maxTokens;
    body.(model := Some(model), maxTokens := tokens)
  }

  function ApplyRule(env: Env, rule: Rule, q: Request): Outcome {
    if q.body.NotJson? then PassThrough
    else if q.body.NotObject? then Raised
    else if q.body.model.None? || q.body.model.value == rule.model then PassThrough
    else Routed(Swap(env, q.body, rule.model),
                RouteDecision(q.useCase, rule.model, q.body.model.value, rule.provider, rule.scope))
  }

  /** Whether the request reaches an arm of `e`: tasked, not bound to another experiment, and with a
      readable model. */
  predicate Reaches(r: Router, q: Request, e: Experiment) {
    && q.task.Some?
    && (q.task.value in r.tasks ==> r.tasks[q.task.value].experimentId == e.id)
    && q.body.Object? && q.body.model.Some?
  }

  function Serve(env: Env, r: Router, q: Request, e: Experiment, cap: nat): (Outcome, Router)
    requires Reaches(r, q, e) && 0 < cap
  {
    var task := q.task.value;
    var r1 := Bind(r, task, e.id, cap);
    if !e.running || e.id == "" then (Raised, r1)
    else
      BindKeepsLast(r, task, e.id, cap);
      var serve := ArmFor(env, e, task, q.body.model.value);
      var state := r1.tasks[task];
      if serve.arm.Baseline? then (InArm(q.body, serve), r1)
      else if e.maxCalls <= state.candidateCalls then
        (AtCeiling(serve, !state.ceilingRecorded), r1.(tasks := r1.tasks[task := state.(ceilingRecorded := true)]))
      else
        (InArm(q.body.(model := Some(serve.servedModel)), serve),
         r1.(tasks := r1.tasks[task := state.(candidateCalls := state.candidateCalls + 1)]))
  }

  function Decide(env: Env, r: Router, q: Request, cap: nat): (Outcome, Router)
    requires 0 < cap
  {
    var e := ExperimentFor(r.snapshot, q);
    if e.None? then
      var rule := RuleFor(r.snapshot, q);
      (if rule.None? then PassThrough else ApplyRule(env, rule.value, q), r)
    else if Reaches(r, q, e.value) then Serve(env, r, q, e.value, cap)
    else
      (if q.task.Some? && q.body.NotObject?
          && (q.task.value in r.tasks ==> r.tasks[q.task.value].experimentId == e.value.id)
       then Raised else PassThrough, r)
  }

  lemma BindKeepsLast(r: Router, t: string, experimentId: string, cap: nat)
    requires 0 < cap
    ensures var r1 := Bind(r, t, experimentId, cap);
            r1.order != [] && r1.order[|r1.order| - 1] == t && t in r1.tasks
  {}

  // ----- the budget fallback -------------------------------------------------------------------

  /** A downgrade needs an approval for the use-case, no experiment or route that owns its traffic, and
      the exact baseline model the evidence was collected for. */
  function FallbackFor(env: Env, s: Snapshot, q: Request, served: Body): Result<Option<(Body, Fallback)>, ()> {
    if q.useCase.None? || q.useCase.value in s.experiments || q.useCase.value in s.routes
       || q.useCase.value !in s.fallbacks || served.NotJson? then Ok(None)
    else if served.NotObject? then Err(())
    else
      var approved := s.fallbacks[q.useCase.value];
      if served.model != Some(approved.baseline) || approved.model == approved.baseline then Ok(None)
      else Ok(Some((Swap(env, served, approved.model), approved)))
  }

  // ----- the router object ---------------------------------------------------------------------

  class ExperimentRouter {
    const env: Env
    var snapshot: Snapshot
    var order: seq<string>
    var tasks: map<string, TaskState>

    ghost function Value(): Router
      reads this
    {
      Router(snapshot, order, tasks)
    }

    /** The dictionary's two views agree and the table is within its cap. */
    ghost predicate Valid()
      reads this
    {
      Ordered(Value()) && |order| <= MAX_TASK_BINDINGS
    }

    constructor (env: Env)
      ensures Valid() && Value() == Router(Snapshot(map[], map[], map[], map[]), [], map[]) && this.env == env
    {
      this.env := env;
      snapshot, order, tasks := Snapshot(map[], map[], map[], map[]), [], map[];
    }

    method Refresh(latest: Snapshot)
      requires Valid()
      modifies this
      ensures Valid() && Value() == old(Value()).(snapshot := latest)
    {
      snapshot := latest;
    }

    method BindTask(t: string, experimentId: string) returns (state: TaskState)
      requires Valid()
      modifies this`order, this`tasks
      ensures Valid() && Value() == Bind(old(Value()), t, experimentId, MAX_TASK_BINDINGS)
      ensures t in tasks && state == tasks[t]
    {
      if t in tasks && tasks[t].experimentId == experimentId {
        state := tasks[t];
      } else {
        state := TaskState(experimentId, 0, false);
      }
      RemoveFacts(order, t);
      AppendFresh(Remove(order, t), t);
      tasks := tasks[t := state];
      order := Remove(order, t) + [t];
      EvictOldest();
    }

    /** Evict from the least-recently-bound end until the table is within its cap. */
    method EvictOldest()
      requires Ordered(Value())
      modifies this`order, this`tasks
      ensures Valid()
      ensures order == Suffix(old(order), MAX_TASK_BINDINGS) && tasks == Restrict(old(tasks), order)
    {
      RestrictAll(tasks, order);
      while |order| > MAX_TASK_BINDINGS
        invariant Distinct(order)
        invariant Suffix(order, MAX_TASK_BINDINGS) == Suffix(old(order), MAX_TASK_BINDINGS)
        invariant forall k <- order :: k in old(tasks)
        invariant tasks == Restrict(old(tasks), order)
        decreases |order|
      {
        EvictStep(old(tasks), order);
        tasks := tasks - {order[0]};
        order := order[1..];
      }
    }

    method Route(q: Request) returns (outcome: Outcome)
      requires Valid()
      modifies this`order, this`tasks
      ensures Valid()
      ensures (outcome, Value()) == Decide(env, old(Value()), q, MAX_TASK_BINDINGS)
    {
      if snapshot.experiments == map[] && snapshot.routes == map[] && snapshot.workflowRoutes == map[] {
        return PassThrough;
      }
      if snapshot.routes == map[] && snapshot.workflowRoutes == map[] && q.task.None? {
        return PassThrough;
      }
      var found := ExperimentFor(snapshot, q);
      if found.None? {
        var rule := RuleFor(snapshot, q);
        if rule.None? {
          return PassThrough;
        }
        return ApplyRule(env, rule.value, q);
      }
      var e := found.value;
      if q.task.None? {
        return PassThrough;
      }
      var task := q.task.value;
      if task in tasks && tasks[task].experimentId != e.id {
        return PassThrough;
      }
      if q.body.NotJson? {
        return PassThrough;
      }
      if q.body.NotObject? {
        return Raised;
      }
      if q.body.model.None? {
        return PassThrough;
      }
      outcome := ServeArm(q, e);
    }

    /** The stretch of `Route` from the binding to the answer. */
    method ServeArm(q: Request, e: Experiment) returns (outcome: Outcome)
      requires Valid() && Reaches(Value(), q, e)
      modifies this`order, this`tasks
      ensures Valid() && (outcome, Value()) == Serve(env, old(Value()), q, e, MAX_TASK_BINDINGS)
    {
      var task := q.task.value;
      var state := BindTask(task, e.id);
      if !e.running || e.id == "" {
        return Raised;
      }
      var serve := ArmFor(env, e, task, q.body.model.value);
      if serve.arm.Baseline? {
        return InArm(q.body, serve);
      }
      if e.maxCalls <= state.candidateCalls {
        var first := !state.ceilingRecorded;
        tasks := tasks[task := state.(ceilingRecorded := true)];
        return AtCeiling(serve, first);
      }
      tasks := tasks[task := state.(candidateCalls := state.candidateCalls + 1)];
      return InArm(q.body.(model := Some(serve.servedModel)), serve);
    }
  }

  ghost predicate Distinct(s: seq<string>) { forall i, j :: 0 <= i < j < |s| ==> s[i] != s[j] }

  ghost predicate Ordered(r: Router) {
    Distinct(r.order) && forall k :: k in r.tasks <==> k in r.order
  }

  lemma {:induction false} RemoveFacts(order: seq<string>, t: string)
    ensures forall k :: k in Remove(order, t) <==> k in order && k != t
    ensures Distinct(order) ==> Distinct(Remove(order, t))
    ensures t !in order ==> Remove(order, t) == order
  {
    if order != [] {
      RemoveFacts(order[1..], t);
      assert forall k :: k in order <==> k == order[0] || k in order[1..];
      if Distinct(order) {
        assert order[0] !in order[1..];
        assert Distinct(order[1..]);
      }
    }
  }

  lemma AppendFresh(order: seq<string>, t: string)
    requires Distinct(order) && t !in order
    ensures Distinct(order + [t])
    ensures forall k :: k in order + [t] <==> k in order || k == t
  {}

  lemma RestrictAll(tasks: map<string, TaskState>, order: seq<string>)
    requires forall k :: k in tasks <==> k in order
    ensures Restrict(tasks, order) == tasks
  {}

  lemma EvictStep(tasks: map<string, TaskState>, order: seq<string>)
    requires Distinct(order) && order != []
    ensures Distinct(order[1..])
    ensures Restrict(tasks, order[1..]) == Restrict(tasks, order) - {order[0]}
  {
    assert forall k :: k in order <==> k == order[0] || k in order[1..];
  }
}
