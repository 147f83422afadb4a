/** The store behind the router: whatever is done to the control store between refreshes, the snapshots
    the router sees agree on every experiment, which is what its divergence ceiling relies on. */
module ServingControl {
  import opened Prelude
  import opened Policies
  import ControlStore
  import Serving
  import ServingSafety

  /** One experiment per id, as it was while it ran. */
  function Catalogue(es: seq<Experiment>): map<string, Experiment> {
    if es == [] then map[]
    else
      var last := es[|es| - 1];
      Catalogue(es[..|es| - 1])[last.id := last.(running := true)]
  }

  lemma {:induction false} CatalogueExact(es: seq<Experiment>)
    requires forall i, j :: 0 <= i < j < |es| ==> es[i].id != es[j].id
    ensures forall i :: 0 <= i < |es| ==>
              es[i].id in Catalogue(es) && Catalogue(es)[es[i].id] == es[i].(running := true)
    ensures forall id <- Catalogue(es) :: Catalogue(es)[id].id == id
  {
    if es != [] {
      var init := es[..|es| - 1];
      CatalogueExact(init);
      forall i | 0 <= i < |es|
        ensures es[i].id in Catalogue(es) && Catalogue(es)[es[i].id] == es[i].(running := true)
      {
        if i < |init| { assert init[i] == es[i]; }
      }
    }
  }

  /** The parts of a snapshot a refresh reads after the experiments, each at its own later moment; they
      are left arbitrary. */
  datatype Others = Others(routes: map<string, Route>, workflowRoutes: map<WorkflowKey, WorkflowRoute>,
                           fallbacks: map<string, Fallback>)

  const NOTHING := Others(map[], map[], map[])

  /** The snapshot of a refresh whose experiments are read from `s`. */
  function SnapshotOf(s: ControlStore.Store, others: Others): Serving.Snapshot {
    Serving.Snapshot(ControlStore.Running(s.experiments), others.routes, others.workflowRoutes, others.fallbacks)
  }

  /** Every snapshot taken during a run of the store is consistent with one catalogue: the one the
      store ends with. */
  lemma SnapshotsAreConsistent(s: ControlStore.Store, evs: seq<ControlStore.Event>, others: Others)
    requires ControlStore.Inv(s)
    ensures ServingSafety.Consistent(Catalogue(ControlStore.Run(s, evs).experiments), SnapshotOf(s, others))
  {
    var end := ControlStore.Run(s, evs);
    ControlStore.RunKeepsInv(s, evs);
    ControlStore.RunEvolves(s, evs);
    ControlStore.RunningExact(s.experiments);
    CatalogueExact(end.experiments);
    var running := ControlStore.Running(s.experiments);
    forall u | u in running
      ensures running[u].id in Catalogue(end.experiments) && Catalogue(end.experiments)[running[u].id] == running[u]
    {
      var i :| 0 <= i < |s.experiments| && s.experiments[i] == running[u];
      assert end.experiments[i] == s.experiments[i] || end.experiments[i] == Stopped(s.experiments[i]);
    }
  }

  /** The store's history and the router's, interleaved: between two router events the store may change
      in any way, and a refresh reads its running experiments. */
  datatype Joint = StoreStep(ev: ControlStore.Event) | CallStep(q: Serving.Request) | RefreshStep(others: Others)

  /** The router events of a joint run, each refresh carrying the snapshot the store then gives. */
  function RouterEvents(s: ControlStore.Store, js: seq<Joint>): seq<ServingSafety.Event>
    decreases |js|
  {
    if js == [] then []
    else match js[0]
      case StoreStep(ev) => RouterEvents(ControlStore.Step(s, ev), js[1..])
      case CallStep(q) => [ServingSafety.RouteEvent(q)] + RouterEvents(s, js[1..])
      case RefreshStep(others) => [ServingSafety.RefreshEvent(SnapshotOf(s, others))] + RouterEvents(s, js[1..])
  }

  function StoreEvents(js: seq<Joint>): seq<ControlStore.Event> {
    if js == [] then []
    else (if js[0].StoreStep? then [js[0].ev] else []) + StoreEvents(js[1..])
  }

  lemma {:induction false} JointRunIsConsistent(s: ControlStore.Store, js: seq<Joint>)
    requires ControlStore.Inv(s)
    ensures ServingSafety.ConsistentRun(Catalogue(ControlStore.Run(s, StoreEvents(js)).experiments),
                                        RouterEvents(s, js))
    decreases |js|
  {
    if js != [] {
      match js[0] {
        case StoreStep(ev) =>
          ControlStore.StepKeepsInv(s, ev);
          assert StoreEvents(js)[1..] == StoreEvents(js[1..]);
          JointRunIsConsistent(ControlStore.Step(s, ev), js[1..]);
        case CallStep(q) =>
          assert StoreEvents(js) == StoreEvents(js[1..]);
          JointRunIsConsistent(s, js[1..]);
        case RefreshStep(others) =>
          assert StoreEvents(js) == StoreEvents(js[1..]);
          JointRunIsConsistent(s, js[1..]);
          SnapshotsAreConsistent(s, StoreEvents(js), others);
      }
    }
  }

  /** The divergence ceiling end to end, with nothing assumed about the snapshots: start from an empty
      store and an empty router, let operators create, stop and adopt experiments in any way while the
      router is refreshed and called in any order. A task that is not evicted meets one experiment and
      one arm, is forwarded exactly as many candidate bodies as it asks for up to that experiment's
      ceiling, and has its breach recorded exactly once. */
  lemma EndToEndCeiling(env: Serving.Env, js: seq<Joint>, cap: nat, t: string)
    requires 0 < cap && ServingSafety.Kept(env, FreshRouter(), RouterEvents(ControlStore.EMPTY, js), cap, t)
    ensures ServingSafety.OneExperimentWithinCeiling(env, FreshRouter(), RouterEvents(ControlStore.EMPTY, js), cap, t)
  {
    JointRunIsConsistent(ControlStore.EMPTY, js);
    SnapshotsAreConsistent(ControlStore.EMPTY, StoreEvents(js), NOTHING);
    ServingSafety.TaskCeiling(env, FreshRouter(), RouterEvents(ControlStore.EMPTY, js), cap, t,
                              Catalogue(ControlStore.Run(ControlStore.EMPTY, StoreEvents(js)).experiments));
  }

  /** A router with an empty table whose first snapshot is of the empty store. */
  function FreshRouter(): Serving.Router { Serving.Router(SnapshotOf(ControlStore.EMPTY, NOTHING), [], map[]) }
}
