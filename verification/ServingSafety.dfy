/** What the router guarantees over whole runs: one experiment and one arm per bound task, an exact
    divergence ceiling, and a task table that is exactly a least-recently-bound cache. */
module ServingSafety {
  import opened Prelude
  import opened Policies
  import opened Serving

  // ----- the table is a least-recently-bound cache -----------------------------------------------

  /** The tasks of a history of binds, without repetition, in the order of their last bind. */
  function LastBindOrder(hist: seq<string>): seq<string> {
    if hist == [] then []
    else Remove(LastBindOrder(hist[..|hist| - 1]), hist[|hist| - 1]) + [hist[|hist| - 1]]
  }

  /** The table's order after a history of binds, starting empty. */
  function TableOrder(hist: seq<string>, cap: nat): seq<string> {
    if hist == [] then []
    else BindOrder(TableOrder(hist[..|hist| - 1], cap), hist[|hist| - 1], cap)
  }

  lemma {:induction false} RemoveAppend(a: seq<string>, b: seq<string>, t: string)
    ensures Remove(a + b, t) == Remove(a, t) + Remove(b, t)
  {
    if a == [] {
      assert a + b == b;
    } else {
      assert (a + b)[1..] == a[1..] + b;
      RemoveAppend(a[1..], b, t);
    }
  }

  lemma {:induction false} RemoveShrinksByOne(order: seq<string>, t: string)
    requires Distinct(order)
    ensures |Remove(order, t)| == |order| - if t in order then 1 else 0
  {
    if order != [] {
      RemoveShrinksByOne(order[1..], t);
      assert t in order <==> t == order[0] || t in order[1..];
      if order[0] == t { RemoveFacts(order[1..], t); }
    }
  }

  /** Evicting early or late makes no difference: what the cap cut off would be cut off anyway. */
  lemma BindAfterCut(order: seq<string>, t: string, cap: nat)
    requires Distinct(order) && 0 < cap
    ensures BindOrder(Suffix(order, cap), t, cap) == BindOrder(order, t, cap)
  {
    var kept := Suffix(order, cap);
    if |order| > cap {
      var cut := order[..|order| - cap];
      assert order == cut + kept && |kept| == cap;
      RemoveAppend(cut, kept, t);
      RemoveShrinksByOne(kept, t);
      SuffixOfAppend(Remove(cut, t), Remove(kept, t) + [t], cap);
      assert Remove(order, t) + [t] == Remove(cut, t) + (Remove(kept, t) + [t]);
    }
  }

  lemma SuffixOfAppend(a: seq<string>, b: seq<string>, cap: nat)
    requires cap <= |b|
    ensures Suffix(a + b, cap) == Suffix(b, cap)
  {}

  lemma {:induction false} LastBindOrderFacts(hist: seq<string>)
    ensures Distinct(LastBindOrder(hist))
    ensures forall t :: t in LastBindOrder(hist) <==> t in hist
  {
    if hist != [] {
      var init, last := hist[..|hist| - 1], hist[|hist| - 1];
      LastBindOrderFacts(init);
      RemoveFacts(LastBindOrder(init), last);
      AppendFresh(Remove(LastBindOrder(init), last), last);
      assert hist == init + [last];
    }
  }

  /** The table after any history is exactly the `cap` most recently bound distinct tasks, in the
      order of their last bind. */
  lemma {:induction false} TableIsRecentSuffix(hist: seq<string>, cap: nat)
    requires 0 < cap
    ensures TableOrder(hist, cap) == Suffix(LastBindOrder(hist), cap)
  {
    if hist != [] {
      var init, last := hist[..|hist| - 1], hist[|hist| - 1];
      TableIsRecentSuffix(init, cap);
      LastBindOrderFacts(init);
      BindAfterCut(LastBindOrder(init), last, cap);
    }
  }

  /** The distinct tasks bound since the last bind of `t`. */
  function Since(hist: seq<string>, t: string): set<string> {
    if hist == [] || hist[|hist| - 1] == t then {}
    else Since(hist[..|hist| - 1], t) + {hist[|hist| - 1]}
  }

  /** The tasks that stand after `t` in an order. */
  function After(order: seq<string>, t: string): seq<string> {
    if order == [] then [] else if order[0] == t then order[1..] else After(order[1..], t)
  }

  lemma {:induction false} AfterAppend(order: seq<string>, t: string, x: string)
    requires t in order
    ensures After(order + [x], t) == After(order, t) + [x]
  {
    if order[0] == t {
      assert (order + [x])[1..] == order[1..] + [x];
    } else {
      assert t in order[1..];
      assert (order + [x])[1..] == order[1..] + [x];
      AfterAppend(order[1..], t, x);
    }
  }

  lemma {:induction false} AfterRemove(order: seq<string>, t: string, x: string)
    requires x != t && t in order
    ensures After(Remove(order, x), t) == Remove(After(order, t), x)
  {
    if order[0] != t {
      assert t in order[1..];
      AfterRemove(order[1..], t, x);
    }
  }

  lemma {:induction false} SinceIsAfter(hist: seq<string>, t: string)
    requires t in hist
    ensures forall k :: k in Since(hist, t) <==> k in After(LastBindOrder(hist), t)
  {
    var init, last := hist[..|hist| - 1], hist[|hist| - 1];
    assert hist == init + [last];
    var before := LastBindOrder(init);
    LastBindOrderFacts(init);
    RemoveFacts(before, last);
    if last == t {
      AfterFresh(Remove(before, t), t);
    } else {
      assert t in init;
      SinceIsAfter(init, t);
      assert t in Remove(before, last);
      AfterAppend(Remove(before, last), t, last);
      AfterRemove(before, t, last);
      RemoveFacts(After(before, t), last);
    }
  }

  lemma {:induction false} AfterFresh(order: seq<string>, t: string)
    requires t !in order
    ensures After(order + [t], t) == []
  {
    if order == [] {
      assert (order + [t])[1..] == [];
    } else {
      assert (order + [t])[1..] == order[1..] + [t];
      AfterFresh(order[1..], t);
    }
  }

  lemma SuffixOfRest(order: seq<string>, cap: nat)
    requires |order| > cap
    ensures Suffix(order, cap) == Suffix(order[1..], cap)
    ensures forall k <- Suffix(order, cap) :: k in order[1..]
  {}

  lemma {:induction false} AfterPosition(order: seq<string>, t: string, cap: nat)
    requires Distinct(order) && t in order
    ensures Distinct(After(order, t)) && |After(order, t)| < |order|
    ensures t in Suffix(order, cap) <==> |After(order, t)| < cap
  {
    assert Distinct(order[1..]);
    if order[0] == t {
      assert t !in order[1..];
      if |order| > cap { SuffixOfRest(order, cap); }
    } else {
      assert t in order[1..];
      AfterPosition(order[1..], t, cap);
      if |order| > cap { SuffixOfRest(order, cap); }
    }
  }

  lemma {:induction false} DistinctCount(order: seq<string>, s: set<string>)
    requires Distinct(order) && forall k :: k in s <==> k in order
    ensures |s| == |order|
  {
    if order == [] {
      assert s == {};
    } else {
      assert order[0] !in order[1..];
      assert forall k :: k in order <==> k == order[0] || k in order[1..];
      DistinctCount(order[1..], s - {order[0]});
      assert |s - {order[0]}| == |s| - 1;
    }
  }

  /** Working-set guarantee, both ways: a task that has been bound is in the table if and only if
      fewer than `cap` distinct other tasks have been bound since its own last bind. */
  lemma EvictedIffCapOthersSince(hist: seq<string>, t: string, cap: nat)
    requires t in hist && 0 < cap
    ensures t in TableOrder(hist, cap) <==> |Since(hist, t)| < cap
  {
    TableIsRecentSuffix(hist, cap);
    LastBindOrderFacts(hist);
    SinceIsAfter(hist, t);
    AfterPosition(LastBindOrder(hist), t, cap);
    DistinctCount(After(LastBindOrder(hist), t), Since(hist, t));
  }

  // ----- runs of the router --------------------------------------------------------------------

  datatype Event = RouteEvent(q: Request) | RefreshEvent(snapshot: Snapshot)

  function Step(env: Env, r: Router, e: Event, cap: nat): Router
    requires 0 < cap
  {
    match e
    case RouteEvent(q) => Decide(env, r, q, cap).1
    case RefreshEvent(s) => r.(snapshot := s)
  }

  function Run(env: Env, r: Router, es: seq<Event>, cap: nat): Router
    requires 0 < cap
    decreases |es|
  {
    if es == [] then r else Run(env, Step(env, r, es[0], cap), es[1..], cap)
  }

  /** The task an event binds, if it binds one. */
  function Binds(r: Router, e: Event): seq<string> {
    if e.RouteEvent? && ExperimentFor(r.snapshot, e.q).Some? && Reaches(r, e.q, ExperimentFor(r.snapshot, e.q).value)
    then [e.q.task.value] else []
  }

  function BindHistory(env: Env, r: Router, es: seq<Event>, cap: nat): seq<string>
    requires 0 < cap
    decreases |es|
  {
    if es == [] then [] else Binds(r, es[0]) + BindHistory(env, Step(env, r, es[0], cap), es[1..], cap)
  }

  lemma StepOrder(env: Env, r: Router, e: Event, cap: nat)
    requires 0 < cap
    ensures Step(env, r, e, cap).order
         == if Binds(r, e) == [] then r.order else BindOrder(r.order, Binds(r, e)[0], cap)
  {}

  /** Binding a list of tasks one after the other, from any table order. */
  function BindMany(order: seq<string>, ts: seq<string>, cap: nat): seq<string>
    decreases |ts|
  {
    if ts == [] then order else BindMany(BindOrder(order, ts[0], cap), ts[1..], cap)
  }

  lemma {:induction false} BindManyIsTable(hist: seq<string>, ts: seq<string>, cap: nat)
    ensures BindMany(TableOrder(hist, cap), ts, cap) == TableOrder(hist + ts, cap)
    decreases |ts|
  {
    if ts == [] {
      assert hist + ts == hist;
    } else {
      var next := hist + [ts[0]];
      assert next[..|next| - 1] == hist;
      BindManyIsTable(next, ts[1..], cap);
      assert next + ts[1..] == hist + ts;
    }
  }

  lemma {:induction false} RunOrder(env: Env, r: Router, es: seq<Event>, cap: nat)
    requires 0 < cap
    ensures Run(env, r, es, cap).order == BindMany(r.order, BindHistory(env, r, es, cap), cap)
    decreases |es|
  {
    if es != [] {
      var r1, bound := Step(env, r, es[0], cap), Binds(r, es[0]);
      var rest := BindHistory(env, r1, es[1..], cap);
      StepOrder(env, r, es[0], cap);
      RunOrder(env, r1, es[1..], cap);
      if bound == [] {
        assert bound + rest == rest;
      } else {
        assert (bound + rest)[1..] == rest;
      }
    }
  }

  /** Serving a bound call changes at most the state of its own task, and answers for that task. */
  lemma ServeTouchesOwn(env: Env, r: Router, q: Request, e: Experiment, cap: nat)
    requires 0 < cap && Reaches(r, q, e)
    ensures var (outcome, r1) := Serve(env, r, q, e, cap); var bound := Bind(r, q.task.value, e.id, cap);
            && r1.order == bound.order && (forall k :: k in r1.tasks <==> k in bound.tasks)
            && (forall k <- bound.tasks :: k != q.task.value ==> r1.tasks[k] == bound.tasks[k])
            && (outcome.InArm? ==> outcome.serve.task == q.task.value)
            && (outcome.AtCeiling? ==> outcome.breach.task == q.task.value)
  {
    BindKeepsLast(r, q.task.value, e.id, cap);
    hide Bind;
  }

  lemma StepOrdered(env: Env, r: Router, e: Event, cap: nat)
    requires 0 < cap && Ordered(r)
    ensures Ordered(Step(env, r, e, cap))
  {
    hide Bind, Serve;
    if Binds(r, e) != [] {
      var t, found := e.q.task.value, ExperimentFor(r.snapshot, e.q).value;
      BindOrdered(r, t, found.id, cap);
      ServeTouchesOwn(env, r, e.q, found, cap);
    }
  }

  lemma {:induction false} RunOrdered(env: Env, r: Router, es: seq<Event>, cap: nat)
    requires 0 < cap && Ordered(r)
    ensures Ordered(Run(env, r, es, cap))
    decreases |es|
  {
    if es != [] {
      StepOrdered(env, r, es[0], cap);
      RunOrdered(env, Step(env, r, es[0], cap), es[1..], cap);
    }
  }

  lemma BindOrdered(r: Router, t: string, id: string, cap: nat)
    requires 0 < cap && Ordered(r)
    ensures Ordered(Bind(r, t, id, cap))
  {
    RemoveFacts(r.order, t);
    AppendFresh(Remove(r.order, t), t);
    var full := Remove(r.order, t) + [t];
    assert Distinct(Suffix(full, cap));
    forall k | k in Suffix(full, cap) ensures k in full {}
  }

  /** In every run of a fresh router, whatever the snapshots it is refreshed with, the table holds a
      task if and only if that task was bound and fewer than `cap` others were bound since. */
  lemma RouterKeepsWorkingSet(env: Env, s: Snapshot, es: seq<Event>, cap: nat, t: string)
    requires 0 < cap
    ensures var start := Router(s, [], map[]); var hist := BindHistory(env, start, es, cap);
            && (t in Run(env, start, es, cap).tasks <==> t in hist && |Since(hist, t)| < cap)
            && |Run(env, start, es, cap).order| <= cap
  {
    var start := Router(s, [], map[]);
    var hist := BindHistory(env, start, es, cap);
    RunOrdered(env, start, es, cap);
    RunOrder(env, start, es, cap);
    BindManyIsTable([], hist, cap);
    assert [] + hist == hist;
    TableIsRecentSuffix(hist, cap);
    LastBindOrderFacts(hist);
    if t in hist {
      EvictedIffCapOthersSince(hist, t, cap);
    } else {
      assert forall k <- Suffix(LastBindOrder(hist), cap) :: k in LastBindOrder(hist);
    }
  }

  // ----- the divergence ceiling ------------------------------------------------------------------

  /** Experiments are immutable and their ids unique, so each id stands for one experiment. */
  ghost predicate Consistent(catalogue: map<string, Experiment>, s: Snapshot) {
    && (forall id <- catalogue :: catalogue[id].id == id)
    && (forall u <- s.experiments ::
          s.experiments[u].id in catalogue && catalogue[s.experiments[u].id] == s.experiments[u])
  }

  ghost predicate ConsistentRun(catalogue: map<string, Experiment>, es: seq<Event>) {
    forall i :: 0 <= i < |es| && es[i].RefreshEvent? ==> Consistent(catalogue, es[i].snapshot)
  }

  /** The arm decision of an event for `t`, if it makes one. */
  function DecisionFor(env: Env, r: Router, e: Event, cap: nat, t: string): Option<ArmDecision>
    requires 0 < cap
  {
    if e.RefreshEvent? then None
    else match Decide(env, r, e.q, cap).0
      case InArm(_, serve) => if serve.task == t then Some(serve) else None
      case AtCeiling(breach, _) => if breach.task == t then Some(breach) else None
      case _ => None
  }

  /** Per-task tallies of a run: candidate-arm decisions, candidate bodies forwarded, breaches recorded. */
  datatype Tally = Tally(asked: nat, forwarded: nat, recorded: nat)

  function TallyOf(env: Env, r: Router, e: Event, cap: nat, t: string): Tally
    requires 0 < cap
  {
    if e.RefreshEvent? then Tally(0, 0, 0)
    else match Decide(env, r, e.q, cap).0
      case InArm(_, serve) => if serve.task == t && serve.arm.Candidate? then Tally(1, 1, 0) else Tally(0, 0, 0)
      case AtCeiling(breach, record) =>
        if breach.task == t then Tally(1, 0, if record then 1 else 0) else Tally(0, 0, 0)
      case _ => Tally(0, 0, 0)
  }

  function RunTally(env: Env, r: Router, es: seq<Event>, cap: nat, t: string): Tally
    requires 0 < cap
    decreases |es|
  {
    if es == [] then Tally(0, 0, 0)
    else
      var one := TallyOf(env, r, es[0], cap, t);
      var rest := RunTally(env, Step(env, r, es[0], cap), es[1..], cap, t);
      Tally(one.asked + rest.asked, one.forwarded + rest.forwarded, one.recorded + rest.recorded)
  }

  /** Once bound, `t` is not evicted during the run. */
  ghost predicate Kept(env: Env, r: Router, es: seq<Event>, cap: nat, t: string)
    requires 0 < cap
    decreases |es|
  {
    es == [] || ((t in r.tasks ==> t in Step(env, r, es[0], cap).tasks)
                 && Kept(env, Step(env, r, es[0], cap), es[1..], cap, t))
  }

  // ----- what is forwarded -----------------------------------------------------------------------

  /** Only the model, and a token cap that would be refused, are ever changed: a baseline body is the
      original, a candidate body differs in its model alone, and a routed body differs in its model
      and at most in a `max_tokens` lowered to the routed model's known cap. */
  lemma ForwardedBodies(env: Env, r: Router, q: Request, cap: nat)
    requires 0 < cap
    ensures match Decide(env, r, q, cap).0
            case InArm(forward, serve) =>
              && q.body.Object? && q.body.model == Some(serve.originalModel)
              && forward == (if serve.arm.Baseline? then q.body else q.body.(model := Some(serve.servedModel)))
              && (serve.arm.Baseline? ==> serve.servedModel == serve.originalModel && serve.provider.None?)
            case Routed(forward, route) =>
              && q.body.Object? && q.body.model == Some(route.originalModel)
              && forward.Object? && forward.model == Some(route.servedModel) && forward.rest == q.body.rest
              && (forward.maxTokens == q.body.maxTokens
                  || (q.body.maxTokens.Some? && env.maxOutput(route.servedModel).Some?
                      && forward.maxTokens == Some(env.maxOutput(route.servedModel).value)
                      && forward.maxTokens.value < q.body.maxTokens.value))
              && (forward.maxTokens.Some? && env.maxOutput(route.servedModel).Some?
                  ==> forward.maxTokens.value <= env.maxOutput(route.servedModel).value)
            case _ => true
  {}

  /** An arm decision for `t` carries this experiment and its one arm for `t`, and what goes upstream is
      the body asked for, or that body with the experiment's candidate as its model. */
  predicate RightArm(env: Env, r: Router, e: Event, cap: nat, t: string, x: Experiment)
    requires 0 < cap
  {
    var d := DecisionFor(env, r, e, cap, t);
    d.Some? ==>
      && d.value.experimentId == x.id && d.value.arm == Assign(env, x, t) && e.q.body.Object?
      && (Decide(env, r, e.q, cap).0.InArm? ==>
            Decide(env, r, e.q, cap).0.forward
            == if d.value.arm.Baseline? then e.q.body else e.q.body.(model := Some(x.candidate)))
  }

  /** All of the run's arm decisions for `t` are right for this experiment. */
  ghost predicate OneArm(env: Env, r: Router, es: seq<Event>, cap: nat, t: string, e: Experiment)
    requires 0 < cap
    decreases |es|
  {
    es == [] ||
    (RightArm(env, r, es[0], cap, t, e) && OneArm(env, Step(env, r, es[0], cap), es[1..], cap, t, e))
  }

  function Left(max: nat, used: nat): nat { if used < max then max - used else 0 }

  /** What a run's tally must be for a task with `used` candidate calls so far. */
  predicate CeilingExact(tally: Tally, max: nat, used: nat, recorded: bool) {
    && tally.forwarded == Min(tally.asked, Left(max, used))
    && tally.recorded == if tally.asked > Left(max, used) && !recorded then 1 else 0
  }

  lemma BindLeavesOthers(r: Router, u: string, id: string, cap: nat, t: string)
    requires t != u && t in Bind(r, u, id, cap).tasks
    ensures t in r.tasks && Bind(r, u, id, cap).tasks[t] == r.tasks[t]
  {
    hide BindOrder;
  }

  lemma OtherTasksUntouched(env: Env, r: Router, ev: Event, cap: nat, t: string)
    requires 0 < cap && t in r.tasks && t in Step(env, r, ev, cap).tasks && Binds(r, ev) != [t]
    ensures Step(env, r, ev, cap).tasks[t] == r.tasks[t]
    ensures DecisionFor(env, r, ev, cap, t).None? && TallyOf(env, r, ev, cap, t) == Tally(0, 0, 0)
  {
    hide Bind;
    if Binds(r, ev) != [] {
      var u, found := ev.q.task.value, ExperimentFor(r.snapshot, ev.q).value;
      ServeTouchesOwn(env, r, ev.q, found, cap);
      hide Serve;
      if t in Bind(r, u, found.id, cap).tasks { BindLeavesOthers(r, u, found.id, cap, t); }
    }
  }

  function CallsSoFar(r: Router, t: string): nat { if t in r.tasks then r.tasks[t].candidateCalls else 0 }

  predicate BreachRecorded(r: Router, t: string) { t in r.tasks && r.tasks[t].ceilingRecorded }

  /** One binding call, spelled out. */
  lemma BindingCall(env: Env, r: Router, ev: Event, cap: nat, t: string, e: Experiment)
    requires 0 < cap && Binds(r, ev) == [t] && ExperimentFor(r.snapshot, ev.q) == Some(e)
    ensures var r1 := Step(env, r, ev, cap);
            var tally := TallyOf(env, r, ev, cap, t);
            && t in r1.tasks && r1.tasks[t].experimentId == e.id
            && RightArm(env, r, ev, cap, t, e)
            && CallsSoFar(r1, t) == CallsSoFar(r, t) + tally.forwarded
            && BreachRecorded(r1, t) == (BreachRecorded(r, t) || tally.recorded == 1)
            && tally.asked <= 1
            && CeilingExact(tally, e.maxCalls, CallsSoFar(r, t), BreachRecorded(r, t))
  {
    BindKeepsLast(r, t, e.id, cap);
    ForwardedBodies(env, r, ev.q, cap);
  }

  lemma CeilingChains(one: Tally, rest: Tally, max: nat, used: nat, rec: bool)
    requires CeilingExact(one, max, used, rec) && one.asked <= 1
    requires CeilingExact(rest, max, used + one.forwarded, rec || one.recorded == 1)
    ensures CeilingExact(Tally(one.asked + rest.asked, one.forwarded + rest.forwarded, one.recorded + rest.recorded),
                         max, used, rec)
  {}

  lemma RefreshConsistent(env: Env, r: Router, es: seq<Event>, cap: nat, catalogue: map<string, Experiment>)
    requires 0 < cap && es != [] && Consistent(catalogue, r.snapshot) && ConsistentRun(catalogue, es)
    ensures Consistent(catalogue, Step(env, r, es[0], cap).snapshot) && ConsistentRun(catalogue, es[1..])
  {
    if es[0].RefreshEvent? { assert Consistent(catalogue, es[0].snapshot); }
  }

  /** Divergence ceiling for a bound task. Over any run of calls and refreshes in which the binding is
      not evicted, every arm decision of the task carries the experiment it is bound to, one arm and the right body;
      the number of candidate bodies forwarded is exactly the number asked for, cut off at what the
      ceiling leaves; and a breach is recorded exactly once, on the first call over the ceiling. */
  lemma {:induction false} BoundTaskCeiling(env: Env, r: Router, es: seq<Event>, cap: nat, t: string,
                                            catalogue: map<string, Experiment>)
    requires 0 < cap && Consistent(catalogue, r.snapshot) && ConsistentRun(catalogue, es)
    requires t in r.tasks && r.tasks[t].experimentId in catalogue && Kept(env, r, es, cap, t)
    ensures OneArm(env, r, es, cap, t, catalogue[r.tasks[t].experimentId])
    ensures CeilingExact(RunTally(env, r, es, cap, t), catalogue[r.tasks[t].experimentId].maxCalls,
                         r.tasks[t].candidateCalls, r.tasks[t].ceilingRecorded)
    decreases |es|
  {
    if es != [] {
      var e := catalogue[r.tasks[t].experimentId];
      var r1 := Step(env, r, es[0], cap);
      RefreshConsistent(env, r, es, cap, catalogue);
      if Binds(r, es[0]) == [t] {
        BindingCall(env, r, es[0], cap, t, e);
      } else {
        OtherTasksUntouched(env, r, es[0], cap, t);
      }
      BoundTaskCeiling(env, r1, es[1..], cap, t, catalogue);
      CeilingChains(TallyOf(env, r, es[0], cap, t), RunTally(env, r1, es[1..], cap, t),
                    e.maxCalls, r.tasks[t].candidateCalls, r.tasks[t].ceilingRecorded);
    }
  }

  /** The experiment a task that is not bound yet is first bound to in a run. */
  function FirstBinding(env: Env, r: Router, es: seq<Event>, cap: nat, t: string): Option<Experiment>
    requires 0 < cap
    decreases |es|
  {
    if es == [] then None
    else if Binds(r, es[0]) == [t] then ExperimentFor(r.snapshot, es[0].q)
    else FirstBinding(env, Step(env, r, es[0], cap), es[1..], cap, t)
  }

  lemma UnboundTaskUntouched(env: Env, r: Router, ev: Event, cap: nat, t: string)
    requires 0 < cap && t !in r.tasks && Binds(r, ev) != [t]
    ensures t !in Step(env, r, ev, cap).tasks
    ensures DecisionFor(env, r, ev, cap, t).None? && TallyOf(env, r, ev, cap, t) == Tally(0, 0, 0)
  {}

  /** Nothing happens to a task that is never bound; otherwise all its decisions carry the experiment
      and the arm of its first binding, `Min(asked, maxCalls)` candidate bodies are forwarded, and one
      breach is recorded if and only if more were asked for. */
  ghost predicate OneExperimentWithinCeiling(env: Env, r: Router, es: seq<Event>, cap: nat, t: string)
    requires 0 < cap
  {
    match FirstBinding(env, r, es, cap, t)
    case None => RunTally(env, r, es, cap, t) == Tally(0, 0, 0)
    case Some(e) =>
      && OneArm(env, r, es, cap, t, e)
      && CeilingExact(RunTally(env, r, es, cap, t), e.maxCalls, 0, false)
  }

  /** A task never straddles two experiments: from its first call on, for as long as it is not evicted,
      all its arm decisions belong to the experiment it first met, whatever the snapshots later say,
      with at most that experiment's ceiling of candidate bodies and at most one recorded breach. */
  lemma {:induction false} TaskCeiling(env: Env, r: Router, es: seq<Event>, cap: nat, t: string,
                                       catalogue: map<string, Experiment>)
    requires 0 < cap && Consistent(catalogue, r.snapshot) && ConsistentRun(catalogue, es)
    requires t !in r.tasks && Kept(env, r, es, cap, t)
    ensures OneExperimentWithinCeiling(env, r, es, cap, t)
    decreases |es|
  {
    if es != [] {
      var r1 := Step(env, r, es[0], cap);
      RefreshConsistent(env, r, es, cap, catalogue);
      if Binds(r, es[0]) == [t] {
        var e := ExperimentFor(r.snapshot, es[0].q).value;
        BindingCall(env, r, es[0], cap, t, e);
        BoundTaskCeiling(env, r1, es[1..], cap, t, catalogue);
        CeilingChains(TallyOf(env, r, es[0], cap, t), RunTally(env, r1, es[1..], cap, t), e.maxCalls, 0, false);
      } else {
        UnboundTaskUntouched(env, r, es[0], cap, t);
        TaskCeiling(env, r1, es[1..], cap, t, catalogue);
      }
    }
  }

  /** A budget downgrade happens exactly when the use-case has an approval, nothing else owns its
      traffic, and the body still asks for the model the approval's evidence was collected on. */
  lemma FallbackIff(env: Env, s: Snapshot, q: Request, served: Body)
    ensures FallbackFor(env, s, q, served).Ok? && FallbackFor(env, s, q, served).value.Some? <==>
            && q.useCase.Some? && q.useCase.value in s.fallbacks
            && q.useCase.value !in s.experiments && q.useCase.value !in s.routes
            && served.Object? && served.model == Some(s.fallbacks[q.useCase.value].baseline)
            && s.fallbacks[q.useCase.value].model != s.fallbacks[q.useCase.value].baseline
    ensures FallbackFor(env, s, q, served).Ok? && FallbackFor(env, s, q, served).value.Some? ==>
            FallbackFor(env, s, q, served).value.value.0.model == Some(s.fallbacks[q.useCase.value].model)
  {}

  /** At most one mechanism acts on a request: one that the router puts in an arm, holds at a ceiling or
      sends along its use-case's route is never downgraded. */
  lemma DowngradeOnlyUnowned(env: Env, r: Router, q: Request, served: Body, cap: nat)
    requires 0 < cap
    ensures var outcome := Decide(env, r, q, cap).0;
            outcome.InArm? || outcome.AtCeiling? || (outcome.Routed? && outcome.route.rule.UseCaseRule?) ==>
              !(FallbackFor(env, r.snapshot, q, served).Ok? && FallbackFor(env, r.snapshot, q, served).value.Some?)
  {
    FallbackIff(env, r.snapshot, q, served);
  }
}
