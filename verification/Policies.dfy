/** The inert policy records shared by serving, the control store and desired-state documents. */
module Policies {
  import opened Prelude

  /** Where an experiment applies: a use-case, optionally one workflow version or one step of it. */
  datatype Scope = Scope(useCase: string, workflow: Option<string>, version: Option<string>, step: Option<string>)

  /** One explicit step of a workflow version, as declared by a request. */
  datatype StepKey = StepKey(workflow: string, version: string, step: string)

  predicate MatchesIdentity(s: Scope, identity: Option<StepKey>) {
    s.workflow.None?
    || (identity.Some? && Some(identity.value.workflow) == s.workflow && Some(identity.value.version) == s.version
        && (s.step.None? || s.step == Some(identity.value.step)))
  }

  /** A live test of one candidate model; immutable except that it can be stopped. */
  datatype Experiment = Experiment(
    id: string, scope: Scope, candidate: string, provider: Option<string>,
    splitPct: nat, maxCalls: nat, running: bool)

  datatype Shadow = Shadow(id: string, scope: Scope, candidate: string, provider: Option<string>, running: bool)

  datatype Route = Route(useCase: string, model: string, provider: Option<string>, ts: real)

  datatype WorkflowKey = WorkflowKey(workflow: string, version: string, step: Option<string>)

  datatype WorkflowRoute = WorkflowRoute(key: WorkflowKey, model: string, provider: Option<string>, ts: real)

  datatype Fallback = Fallback(
    useCase: string, model: string, baseline: string, provider: Option<string>, approvedAt: real)

  function Stopped(e: Experiment): Experiment { e.(running := false) }

  function StoppedShadow(s: Shadow): Shadow { s.(running := false) }
}
