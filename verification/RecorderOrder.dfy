/** In which order the recorder saves, what counts as saved, and that every loss is counted. */
module RecorderOrder {
  import opened Prelude
  import opened Recorder
  import opened RecorderSafety

  // ----- first come, first saved -----------------------------------------------------------------

  /** What leaves the queue in a step, as seen from outside: the trace the worker then holds, or the
      traces a drain settles. */
  function Leaves<T>(s: State<T>, e: Event<T>): seq<T> {
    if e.Take? && !s.worker.Saving? && Step(s, e).worker.Saving? then [Step(s, e).worker.item]
    else if e.Drain? then Items(Step(s, e).settled[|s.settled|..])
    else []
  }

  function LeavesBy<T>(s: State<T>, es: seq<Event<T>>): seq<T>
    decreases |es|
  {
    if es == [] then [] else Leaves(s, es[0]) + LeavesBy(Step(s, es[0]), es[1..])
  }

  lemma StepIsFifo<T>(s: State<T>, e: Event<T>)
    ensures s.queue + Accepted(s, e) == Leaves(s, e) + Step(s, e).queue
  {
    if e.Drain? {
      LogGrowsByNews(s, e);
      NewsItems(s, e);
      assert Items(Step(s, e).settled[|s.settled|..]) == Items(News(s, e));
    }
  }

  /** Whatever interleaves, traces are taken to be saved, or drained, in exactly the order in which they
      entered the queue: none overtakes another. */
  lemma {:induction false} FirstComeFirstSaved<T>(s: State<T>, es: seq<Event<T>>)
    ensures s.queue + AcceptedBy(s, es) == LeavesBy(s, es) + Run(s, es).queue
    decreases |es|
  {
    if es != [] {
      hide Step, Leaves, Accepted;
      var s1 := Step(s, es[0]);
      StepIsFifo(s, es[0]);
      FirstComeFirstSaved(s1, es[1..]);
      InTurn(s.queue, Accepted(s, es[0]), Leaves(s, es[0]), s1.queue,
             AcceptedBy(s1, es[1..]), LeavesBy(s1, es[1..]), Run(s, es).queue);
    }
  }

  lemma InTurn<T>(q: seq<T>, a: seq<T>, l: seq<T>, q1: seq<T>, more: seq<T>, rest: seq<T>, end: seq<T>)
    requires q + a == l + q1 && q1 + more == rest + end
    ensures q + (a + more) == (l + rest) + end
  {
    assert q + (a + more) == (q + a) + more;
    assert (l + q1) + more == l + (q1 + more);
    assert l + (rest + end) == (l + rest) + end;
  }

  // ----- saved or lost ---------------------------------------------------------------------------

  /** A trace counts as saved exactly when the store accepted it from the worker's hands; whatever else is
      settled in a step was lost. */
  lemma SavedIff<T>(s: State<T>, e: Event<T>, t: T)
    ensures Saved(t) in News(s, e) <==> e.SaveOk? && s.worker == Saving(t)
    ensures Step(s, e).settled == s.settled + News(s, e)
    ensures forall n <- News(s, e) :: n.Saved? || n.Discarded?
  {
    LogGrowsByNews(s, e);
  }

  function Lost<T>(log: seq<Settlement<T>>): nat {
    if log == [] then 0 else (if log[0].Discarded? then 1 else 0) + Lost(log[1..])
  }

  lemma {:induction false} LostAppend<T>(a: seq<Settlement<T>>, b: seq<Settlement<T>>)
    ensures Lost(a + b) == Lost(a) + Lost(b)
  {
    if a == [] {
      assert a + b == b;
    } else {
      assert (a + b)[1..] == a[1..] + b;
      LostAppend(a[1..], b);
    }
  }

  lemma {:induction false} AllLost<T>(log: seq<Settlement<T>>)
    requires forall n <- log :: n.Discarded?
    ensures Lost(log) == |log|
  {
    if log != [] { AllLost(log[1..]); }
  }

  /** Traces lost at the worker or in shutdown: a save that failed or was cancelled, and what was drained. */
  function Interrupted<T>(s: State<T>, e: Event<T>): nat {
    if (e.SaveFail? || e.CancelWorker?) && s.worker.Saving? then 1
    else if e.Drain? && s.worker.Finished? then |s.queue|
    else 0
  }

  function InterruptedBy<T>(s: State<T>, es: seq<Event<T>>): nat
    decreases |es|
  {
    if es == [] then 0 else Interrupted(s, es[0]) + InterruptedBy(Step(s, es[0]), es[1..])
  }

  lemma StepCountsLoss<T>(s: State<T>, e: Event<T>)
    ensures Lost(News(s, e)) == (Step(s, e).dropped - s.dropped) + (Step(s, e).droppedImportant - s.droppedImportant)
                                + Interrupted(s, e)
    ensures Step(s, e).dropped == s.dropped + if e.Enqueue? && Full(s) then 1 else 0
    ensures Step(s, e).droppedImportant == s.droppedImportant + if e.GiveUp? && e.waiter < |s.waiting| then 1 else 0
  {
    if forall n <- News(s, e) :: n.Discarded? { AllLost(News(s, e)); }
  }

  /** Every loss is counted: the traces lost so far are those refused by a full queue, those whose wait
      was given up, and those interrupted at the worker or in shutdown. */
  lemma {:induction false} LossesAreCounted<T>(s: State<T>, es: seq<Event<T>>)
    ensures var end := Run(s, es);
            Lost(end.settled) == Lost(s.settled) + (end.dropped - s.dropped)
                                 + (end.droppedImportant - s.droppedImportant) + InterruptedBy(s, es)
    decreases |es|
  {
    if es != [] {
      var s1 := Step(s, es[0]);
      LogGrowsByNews(s, es[0]);
      LostAppend(s.settled, News(s, es[0]));
      StepCountsLoss(s, es[0]);
      LossesAreCounted(s1, es[1..]);
    }
  }
}
