/** The life of one mirrored call, and what its counters say at the end of it. */
module ShadowLife {
  import opened Prelude
  import opened Shadow

  function Added(row: Stats, d: Stats): Stats {
    Stats(row.submitted + d.submitted, row.completed + d.completed, row.failed + d.failed, row.dropped + d.dropped)
  }

  /** From the head of the queue through a free worker to its end, with every counter written. */
  function Life(worker: nat, failed: bool, outcome: Recorder): seq<Event> {
    [Take(worker), Counted(worker, true), Answered(worker, failed), Recorded(worker, outcome), Closed(worker, true)]
  }

  lemma RunFive(s: State, es: seq<Event>)
    requires |es| == 5
    ensures Run(s, es) == Step(Step(Step(Step(Step(s, es[0]), es[1]), es[2]), es[3]), es[4])
  {
    hide Step;
    assert es[1..][1..] == es[2..] && es[2..][1..] == es[3..] && es[3..][1..] == es[4..] && es[4..][1..] == [];
    var s1 := Step(s, es[0]);
    var s2 := Step(s1, es[1]);
    var s3 := Step(s2, es[2]);
    var s4 := Step(s3, es[3]);
    assert Run(s4, es[4..]) == Run(Step(s4, es[4]), []);
    assert Run(s3, es[3..]) == Run(s4, es[4..]);
    assert Run(s2, es[2..]) == Run(s3, es[3..]);
    assert Run(s1, es[1..]) == Run(s2, es[2..]);
  }

  lemma Sent(s: State, k: nat)
    requires s.queue != [] && k < |s.workers| && s.workers[k].Free?
    ensures Step(Step(s, Take(k)), Counted(k, true))
            == Increment(s, s.queue[0], Stats(1, 0, 0, 0)).(queue := s.queue[1..],
                                                            workers := s.workers[k := Slot.Sending(s.queue[0])])
  {
    var s1 := Step(s, Take(k));
    assert s1.workers[k] == Counting(s.queue[0]);
    assert s1.workers[k := Slot.Sending(s.queue[0])] == s.workers[k := Slot.Sending(s.queue[0])];
  }

  lemma Ended(s: State, k: nat, failed: bool, outcome: Recorder, id: string)
    requires k < |s.workers| && s.workers[k] == Slot.Sending(id) && !outcome.Raised?
    ensures var s1 := Step(Step(Step(s, Answered(k, failed)), Recorded(k, outcome)), Closed(k, true));
            s1 == Increment(s, id, LastDelta(failed, outcome))
                  .(workers := s.workers[k := Free])
  {
    var s1 := Step(s, Answered(k, failed));
    var s2 := Step(s1, Recorded(k, outcome));
    assert s2.workers[k].Closing? && s2.stats == s.stats;
    assert Step(s2, Closed(k, true)).workers == s.workers[k := Free];
  }

  /** A mirror counts as submitted when it is sent; then, if the recorder keeps its trace, as completed
      when the candidate answered and as failed when it did not, and otherwise as dropped. The oldest
      mirror goes first, and no other shadow's counters move. */
  lemma LifeOfAMirror(s: State, k: nat, failed: bool, outcome: Recorder, other: string)
    requires s.queue != [] && k < |s.workers| && s.workers[k].Free? && !outcome.Raised?
    ensures var s1 := Run(s, Life(k, failed, outcome)); var id := s.queue[0];
            && s1.queue == s.queue[1..] && s1.workers == s.workers && s1.pending == s.pending
            && StatsOf(s1, id) == Added(StatsOf(s, id), Stats(1,
                                                              if outcome.Kept? && !failed then 1 else 0,
                                                              if outcome.Kept? && failed then 1 else 0,
                                                              if outcome.NotKept? then 1 else 0))
            && (other != id ==> StatsOf(s1, other) == StatsOf(s, other))
  {
    hide *;
    var id, d := s.queue[0], LastDelta(failed, outcome);
    LifeIs(s, k, failed, outcome);
    TwoIncrements(s, id, d, other);
    var counted := Increment(Increment(s, id, Stats(1, 0, 0, 0)), id, d);
    SameRow(Run(s, Life(k, failed, outcome)), counted, id);
    SameRow(Run(s, Life(k, failed, outcome)), counted, other);
    OneSum(StatsOf(s, id), failed, outcome);
  }

  lemma SameRow(s: State, t: State, id: string)
    requires s.stats == t.stats
    ensures StatsOf(s, id) == StatsOf(t, id)
  {}

  lemma OneSum(row: Stats, failed: bool, outcome: Recorder)
    requires !outcome.Raised?
    ensures Added(Added(row, Stats(1, 0, 0, 0)), LastDelta(failed, outcome))
            == Added(row, Stats(1, if outcome.Kept? && !failed then 1 else 0, if outcome.Kept? && failed then 1 else 0,
                                if outcome.NotKept? then 1 else 0))
  {}

  function LastDelta(failed: bool, outcome: Recorder): Stats {
    if outcome.NotKept? then Stats(0, 0, 0, 1) else if failed then Stats(0, 0, 1, 0) else Stats(0, 1, 0, 0)
  }

  lemma LifeIs(s: State, k: nat, failed: bool, outcome: Recorder)
    requires s.queue != [] && k < |s.workers| && s.workers[k].Free? && !outcome.Raised?
    ensures var s1 := Run(s, Life(k, failed, outcome));
            && s1.queue == s.queue[1..] && s1.workers == s.workers && s1.pending == s.pending
            && s1.stats
               == Increment(Increment(s, s.queue[0], Stats(1, 0, 0, 0)), s.queue[0], LastDelta(failed, outcome)).stats
  {
    var id, es := s.queue[0], Life(k, failed, outcome);
    assert es[0] == Take(k) && es[1] == Counted(k, true) && es[2] == Answered(k, failed)
        && es[3] == Recorded(k, outcome) && es[4] == Closed(k, true);
    hide *;
    RunFive(s, es);
    Sent(s, k);
    var s2 := Step(Step(s, Take(k)), Counted(k, true));
    IncrementFrame(s, id, Stats(1, 0, 0, 0));
    Ended(s2, k, failed, outcome, id);
    IncrementFrame(s2, id, LastDelta(failed, outcome));
    SameStats(s2, Increment(s, id, Stats(1, 0, 0, 0)), id, LastDelta(failed, outcome));
    BackToFree(s.workers, k, id);
  }

  lemma IncrementFrame(s: State, id: string, d: Stats)
    ensures Increment(s, id, d) == s.(stats := Increment(s, id, d).stats)
  {}

  lemma SameStats(s: State, t: State, id: string, d: Stats)
    requires s.stats == t.stats
    ensures Increment(s, id, d).stats == Increment(t, id, d).stats
  {}

  lemma BackToFree(workers: seq<Slot>, k: nat, id: string)
    requires k < |workers| && workers[k].Free?
    ensures workers[k := Slot.Sending(id)][k := Free] == workers
  {}

  lemma TwoIncrements(s: State, id: string, d: Stats, other: string)
    ensures var s1 := Increment(Increment(s, id, Stats(1, 0, 0, 0)), id, d);
            && StatsOf(s1, id) == Added(Added(StatsOf(s, id), Stats(1, 0, 0, 0)), d)
            && (other != id ==> StatsOf(s1, other) == StatsOf(s, other))
  {}

  /** A mirror is accepted exactly when its upstream can be reached and the queue has room; otherwise one
      drop of its shadow is noted. */
  lemma SubmittedIff(s: State, id: string, reachable: bool)
    ensures var s1 := Step(s, Submit(id, reachable));
            && (s1.queue == s.queue + [id] <==> reachable && !(0 < s.capacity <= |s.queue|))
            && (s1.queue != s.queue + [id] ==> s1.queue == s.queue && Owed(s1.pending, id) == Owed(s.pending, id) + 1)
            && s1.workers == s.workers && s1.stats == s.stats
  {
    OwedAdd(s.pending, id, 1, id);
    assert s.queue != s.queue + [id];
  }
}
