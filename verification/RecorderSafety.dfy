/** Every trace handed to a recorder is settled exactly once, in every interleaving of its steps. */
module RecorderSafety {
  import opened Prelude
  import opened Recorder

  // ----- conservation --------------------------------------------------------------------------

  function InHand<T>(w: Worker<T>): multiset<T> { if w.Saving? then multiset{w.item} else multiset{} }

  /** The traces a recorder still holds: blocked producers, the queue, and the worker's hands. */
  function Pending<T>(s: State<T>): multiset<T> { multiset(s.waiting) + multiset(s.queue) + InHand(s.worker) }

  /** The traces behind a list of settlements. */
  function Items<T>(log: seq<Settlement<T>>): seq<T> { seq(|log|, i requires 0 <= i < |log| => log[i].item) }

  function Handed<T>(e: Event<T>): multiset<T> {
    match e
    case Enqueue(item) => multiset{item}
    case Put(item) => multiset{item}
    case _ => multiset{}
  }

  function HandedBy<T>(es: seq<Event<T>>): multiset<T>
    decreases |es|
  {
    if es == [] then multiset{} else Handed(es[0]) + HandedBy(es[1..])
  }

  /** The settlements a step adds. */
  function News<T>(s: State<T>, e: Event<T>): seq<Settlement<T>> {
    match e
    case Enqueue(item) => if Full(s) then [Discarded(item)] else []
    case GiveUp(i) => if i < |s.waiting| then [Discarded(s.waiting[i])] else []
    case SaveOk => if s.worker.Saving? then [Saved(s.worker.item)] else []
    case SaveFail => if s.worker.Saving? then [Discarded(s.worker.item)] else []
    case CancelWorker => if s.worker.Saving? then [Discarded(s.worker.item)] else []
    case Drain => if s.worker.Finished? then DiscardEach(s.queue) else []
    case _ => []
  }

  lemma LogGrowsByNews<T>(s: State<T>, e: Event<T>)
    ensures Step(s, e).settled == s.settled + News(s, e)
    ensures Items(Step(s, e).settled) == Items(s.settled) + Items(News(s, e))
  {}

  lemma WithoutTakesOne<T>(s: seq<T>, i: nat)
    requires i < |s|
    ensures multiset(s) == multiset(Without(s, i)) + multiset{s[i]}
  {
    assert s == s[..i] + [s[i]] + s[i + 1..];
  }

  lemma HeadAndRest<T>(s: seq<T>)
    requires s != []
    ensures multiset(s) == multiset{s[0]} + multiset(s[1..])
  {
    assert s == [s[0]] + s[1..];
  }

  lemma NewsItems<T>(s: State<T>, e: Event<T>)
    ensures match e
            case Enqueue(item) => Items(News(s, e)) == if Full(s) then [item] else []
            case GiveUp(i) => Items(News(s, e)) == if i < |s.waiting| then [s.waiting[i]] else []
            case Drain => Items(News(s, e)) == if s.worker.Finished? then s.queue else []
            case SaveOk => Items(News(s, e)) == if s.worker.Saving? then [s.worker.item] else []
            case SaveFail => Items(News(s, e)) == if s.worker.Saving? then [s.worker.item] else []
            case CancelWorker => Items(News(s, e)) == if s.worker.Saving? then [s.worker.item] else []
            case _ => Items(News(s, e)) == []
  {}

  lemma AcceptAddsOne<T>(s: State<T>, item: T)
    ensures Pending(Accept(s, item)) == Pending(s) + multiset{item}
  {
    assert multiset(s.queue + [item]) == multiset(s.queue) + multiset{item};
  }

  lemma WaitAddsOne<T>(s: State<T>, item: T)
    ensures Pending(s.(waiting := s.waiting + [item])) == Pending(s) + multiset{item}
  {
    assert multiset(s.waiting + [item]) == multiset(s.waiting) + multiset{item};
  }

  lemma LeaveTakesOne<T>(s: State<T>, i: nat)
    requires i < |s.waiting|
    ensures Pending(s.(waiting := Without(s.waiting, i))) + multiset{s.waiting[i]} == Pending(s)
  {
    WithoutTakesOne(s.waiting, i);
  }

  lemma TakeKeeps<T>(s: State<T>)
    requires s.worker.Idle? && s.queue != []
    ensures Pending(s.(queue := s.queue[1..], worker := Saving(s.queue[0]))) == Pending(s)
  {
    HeadAndRest(s.queue);
  }

  lemma ReleaseTakesOne<T>(s: State<T>, w: Worker<T>)
    requires s.worker.Saving? && !w.Saving?
    ensures Pending(s.(worker := w)) + multiset{s.worker.item} == Pending(s)
  {}

  lemma DrainTakesAll<T>(s: State<T>, w: Worker<T>)
    requires !s.worker.Saving? && !w.Saving?
    ensures Pending(s.(worker := w, queue := [])) + multiset(s.queue) == Pending(s)
  {}

  /** What a step holds depends on nothing but the producers, the queue and the worker. */
  lemma PendingFrame<T>(s: State<T>, r: State<T>)
    requires s.waiting == r.waiting && s.queue == r.queue && InHand(s.worker) == InHand(r.worker)
    ensures Pending(s) == Pending(r)
  {}

  lemma ResumeKeeps<T>(s: State<T>, i: nat)
    requires i < |s.waiting| && !Full(s)
    ensures Pending(Step(s, Resume(i))) == Pending(s)
  {
    LeaveTakesOne(s, i);
    AcceptAddsOne(s.(waiting := Without(s.waiting, i)), s.waiting[i]);
  }

  lemma GiveUpTakesOne<T>(s: State<T>, i: nat)
    requires i < |s.waiting|
    ensures Pending(Step(s, GiveUp(i))) + multiset{s.waiting[i]} == Pending(s)
  {
    LeaveTakesOne(s, i);
    PendingFrame(Step(s, GiveUp(i)), s.(waiting := Without(s.waiting, i)));
  }

  lemma WorkerStepConserves<T>(s: State<T>, e: Event<T>)
    requires e.Start? || e.Take? || e.SaveOk? || e.SaveFail? || e.CancelWorker? || e.Drain?
    ensures Pending(s) == Pending(Step(s, e)) + multiset(Items(News(s, e)))
  {
    NewsItems(s, e);
    var s1 := Step(s, e);
    if e.Drain? {
      if s.worker.Finished? {
        DrainTakesAll(s, s1.worker);
        PendingFrame(s1, s.(worker := s1.worker, queue := []));
      }
    } else if e.Take? {
      if s.worker.Idle? && s.queue != [] {
        TakeKeeps(s);
        PendingFrame(s1, s.(queue := s.queue[1..], worker := Saving(s.queue[0])));
      }
    } else if s.worker.Saving? && !e.Start? {
      ReleaseTakesOne(s, s1.worker);
      PendingFrame(s1, s.(worker := s1.worker));
    } else {
      PendingFrame(s1, s);
    }
  }

  lemma ProducerStepConserves<T>(s: State<T>, e: Event<T>)
    requires e.Enqueue? || e.Put? || e.Resume? || e.GiveUp?
    ensures Pending(s) + Handed(e) == Pending(Step(s, e)) + multiset(Items(News(s, e)))
  {
    NewsItems(s, e);
    if e.Enqueue? {
      if Full(s) { PendingFrame(Step(s, e), s); } else { AcceptAddsOne(s, e.item); }
    } else if e.Put? {
      if Full(s) { WaitAddsOne(s, e.item); } else { AcceptAddsOne(s, e.item); }
    } else if e.waiter < |s.waiting| {
      if e.GiveUp? { GiveUpTakesOne(s, e.waiter); } else if !Full(s) { ResumeKeeps(s, e.waiter); }
    }
  }

  /** One step moves traces and neither loses nor copies any: what is held before plus what is handed
      over equals what is held after plus what the step settles. */
  lemma StepConserves<T>(s: State<T>, e: Event<T>)
    ensures Pending(s) + Handed(e) == Pending(Step(s, e)) + multiset(Items(News(s, e)))
  {
    if e.Enqueue? || e.Put? || e.Resume? || e.GiveUp? {
      ProducerStepConserves(s, e);
    } else {
      WorkerStepConserves(s, e);
    }
  }

  /** Two conserving steps make one. */
  lemma Telescope<T>(p0: multiset<T>, h0: multiset<T>, p1: multiset<T>, n: multiset<T>,
                     h1: multiset<T>, log: multiset<T>, p2: multiset<T>, log2: multiset<T>)
    requires p0 + h0 == p1 + n
    requires p1 + h1 + (log + n) == p2 + log2
    ensures p0 + (h0 + h1) + log == p2 + log2
  {
    assert p0 + (h0 + h1) + log == (p0 + h0) + h1 + log;
  }

  lemma {:induction false} RunConserves<T>(s: State<T>, es: seq<Event<T>>)
    ensures Pending(s) + HandedBy(es) + multiset(Items(s.settled))
         == Pending(Run(s, es)) + multiset(Items(Run(s, es).settled))
    decreases |es|
  {
    if es != [] {
      var s1, news := Step(s, es[0]), Items(News(s, es[0]));
      StepConserves(s, es[0]);
      LogGrowsByNews(s, es[0]);
      RunConserves(s1, es[1..]);
      var end := Run(s1, es[1..]);
      assert multiset(Items(s1.settled)) == multiset(Items(s.settled)) + multiset(news);
      Telescope(Pending(s), Handed(es[0]), Pending(s1), multiset(news), HandedBy(es[1..]),
                multiset(Items(s.settled)), Pending(end), multiset(Items(end.settled)));
    }
  }

  // ----- bookkeeping ---------------------------------------------------------------------------

  /** The queue never exceeds its bound and `task_done` is never called too often. */
  ghost predicate Tidy<T>(s: State<T>) {
    && (0 < s.maxsize ==> |s.queue| <= s.maxsize)
    && s.unfinished == |s.queue| + (if s.worker.Saving? then 1 else 0)
  }

  lemma {:induction false} RunTidy<T>(s: State<T>, es: seq<Event<T>>)
    requires Tidy(s)
    ensures Tidy(Run(s, es)) && 0 <= Run(s, es).unfinished
    decreases |es|
  {
    if es != [] { RunTidy(Step(s, es[0]), es[1..]); }
  }

  /** The traces a step enriches. */
  function Enriches<T>(s: State<T>, e: Event<T>): seq<T> {
    match e
    case Take => if s.worker.Idle? && s.queue != [] then [s.queue[0]] else []
    case Enqueue(_) => Items(News(s, e))
    case GiveUp(_) => Items(News(s, e))
    case Drain => Items(News(s, e))
    case _ => []
  }

  lemma StepEnriches<T>(s: State<T>, e: Event<T>)
    ensures Step(s, e).enriched == s.enriched + Enriches(s, e)
  {
    NewsItems(s, e);
  }

  lemma TakeBalances<T>(s: State<T>, t: T)
    ensures multiset(Enriches(s, Take))[t] + InHand(s.worker)[t]
         == multiset(Items(News(s, Take)))[t] + InHand(Step(s, Take).worker)[t]
  {
    NewsItems(s, Take);
    assert multiset(Items(News(s, Take))) == multiset{};
    if s.worker.Idle? && s.queue != [] {
      assert multiset([s.queue[0]]) == multiset{s.queue[0]};
    }
  }

  lemma ReleaseBalances<T>(s: State<T>, e: Event<T>, t: T)
    requires e.SaveOk? || e.SaveFail? || e.CancelWorker?
    ensures multiset(Enriches(s, e))[t] + InHand(s.worker)[t]
         == multiset(Items(News(s, e)))[t] + InHand(Step(s, e).worker)[t]
  {
    NewsItems(s, e);
    if s.worker.Saving? {
      assert multiset([s.worker.item]) == multiset{s.worker.item};
    }
  }

  lemma OthersBalance<T>(s: State<T>, e: Event<T>)
    requires e.Start? || e.Enqueue? || e.Put? || e.Resume? || e.GiveUp? || e.Drain?
    ensures Enriches(s, e) == Items(News(s, e))
    ensures InHand(Step(s, e).worker) == InHand(s.worker)
  {
    NewsItems(s, e);
  }

  lemma EnrichmentBalances<T>(s: State<T>, e: Event<T>, t: T)
    ensures multiset(Enriches(s, e))[t] + InHand(s.worker)[t]
         == multiset(Items(News(s, e)))[t] + InHand(Step(s, e).worker)[t]
  {
    if e.Take? {
      TakeBalances(s, t);
    } else if e.SaveOk? || e.SaveFail? || e.CancelWorker? {
      ReleaseBalances(s, e, t);
    } else {
      OthersBalance(s, e);
    }
  }

  /** Every settled trace was enriched exactly once, and so was the one the worker is saving. */
  ghost predicate EnrichedOnce<T>(s: State<T>, t: T) {
    multiset(s.enriched)[t] == multiset(Items(s.settled))[t] + InHand(s.worker)[t]
  }

  lemma {:induction false} RunEnrichesOnce<T>(s: State<T>, es: seq<Event<T>>, t: T)
    requires EnrichedOnce(s, t)
    ensures EnrichedOnce(Run(s, es), t)
    decreases |es|
  {
    if es != [] {
      var s1, news, more := Step(s, es[0]), Items(News(s, es[0])), Enriches(s, es[0]);
      LogGrowsByNews(s, es[0]);
      StepEnriches(s, es[0]);
      EnrichmentBalances(s, es[0], t);
      assert multiset(s.enriched + more)[t] == multiset(s.enriched)[t] + multiset(more)[t];
      assert multiset(Items(s.settled) + news)[t] == multiset(Items(s.settled))[t] + multiset(news)[t];
      RunEnrichesOnce(s1, es[1..], t);
    }
  }

  // ----- exactly once --------------------------------------------------------------------------

  /** Settled exactly once: as many settlements as times the trace was handed over, and no more. */
  ghost predicate ExactlyOnce<T(!new)>(s: State<T>, es: seq<Event<T>>) {
    forall t :: multiset(Items(Run(s, es).settled))[t] == HandedBy(es)[t]
  }

  /** From a fresh recorder, after any run, each trace has been settled at most once for each time it
      was handed over, and is settled exactly once unless it is still held. */
  lemma SettledOrHeld<T>(maxsize: nat, es: seq<Event<T>>, t: T)
    ensures var s := Run(Init<T>(maxsize), es);
            multiset(Items(s.settled))[t] + Pending(s)[t] == HandedBy(es)[t]
  {
    var first := Init<T>(maxsize);
    RunConserves(first, es);
    assert Pending(first) == multiset{};
    assert Items(first.settled) == [];
    var end := Run(first, es);
    assert Pending(first) + HandedBy(es) + multiset(Items(first.settled)) == HandedBy(es);
    assert (Pending(end) + multiset(Items(end.settled)))[t] == HandedBy(es)[t];
  }

  lemma RunSplits<T>(s: State<T>, es: seq<Event<T>>, fs: seq<Event<T>>)
    ensures Run(s, es + fs) == Run(Run(s, es), fs)
    decreases |es|
  {
    if es == [] {
      assert es + fs == fs;
    } else {
      assert (es + fs)[1..] == es[1..] + fs;
      RunSplits(Step(s, es[0]), es[1..], fs);
    }
  }

  lemma RunOne<T>(s: State<T>, e: Event<T>)
    ensures Run(s, [e]) == Step(s, e)
  {
    assert [e][1..] == [];
  }

  // ----- after the drain -----------------------------------------------------------------------

  /** The put a step completes, if any: a trace entering the queue. */
  function Accepted<T>(s: State<T>, e: Event<T>): seq<T> {
    match e
    case Enqueue(item) => if Full(s) then [] else [item]
    case Put(item) => if Full(s) then [] else [item]
    case Resume(i) => if i < |s.waiting| && !Full(s) then [s.waiting[i]] else []
    case _ => []
  }

  function AcceptedBy<T>(s: State<T>, es: seq<Event<T>>): seq<T>
    decreases |es|
  {
    if es == [] then [] else Accepted(s, es[0]) + AcceptedBy(Step(s, es[0]), es[1..])
  }

  ghost predicate NoRestart<T>(es: seq<Event<T>>) { forall i :: 0 <= i < |es| ==> !es[i].Start? }

  /** Once the worker is gone nothing empties the queue: it holds exactly the puts accepted since. */
  lemma {:induction false} ClosedQueueOnlyFills<T>(s: State<T>, es: seq<Event<T>>)
    requires s.worker.NotRunning? && NoRestart(es)
    ensures Run(s, es).worker.NotRunning?
    ensures Run(s, es).queue == s.queue + AcceptedBy(s, es)
    decreases |es|
  {
    if es != [] {
      var s1 := Step(s, es[0]);
      assert s1.queue == s.queue + Accepted(s, es[0]);
      ClosedQueueOnlyFills(s1, es[1..]);
    }
  }

  /** A run through the drain, and what its queue holds at the end. */
  lemma EndOfRun<T>(start: State<T>, before: seq<Event<T>>, after: seq<Event<T>>)
    requires Run(start, before).worker.Finished? && NoRestart(after)
    ensures var closed := Step(Run(start, before), Drain);
            && Run(start, before + [Drain] + after) == Run(closed, after)
            && Run(closed, after).queue == AcceptedBy(closed, after)
            && !Run(closed, after).worker.Saving?
  {
    var closed := Step(Run(start, before), Drain);
    RunSplits(start, before, [Drain]);
    RunOne(Run(start, before), Drain);
    RunSplits(start, before + [Drain], after);
    ClosedQueueOnlyFills(closed, after);
  }

  /** Exactly-once settlement, and exactly when it holds. Take any run of a fresh recorder up to and
      including shutdown's drain, followed by any further steps without a restart. Every trace handed
      over in the whole run has been settled exactly once if and only if no put was accepted after
      the drain and no producer is left waiting. */
  lemma ExactlyOnceIff<T(!new)>(maxsize: nat, before: seq<Event<T>>, after: seq<Event<T>>)
    requires Run(Init<T>(maxsize), before).worker.Finished? && NoRestart(after)
    ensures var closed := Step(Run(Init<T>(maxsize), before), Drain);
            ExactlyOnce(Init<T>(maxsize), before + [Drain] + after)
            <==> AcceptedBy(closed, after) == [] && Run(closed, after).waiting == []
  {
    hide Run, Step, AcceptedBy, HandedBy, Items;
    var start := Init<T>(maxsize);
    var es := before + [Drain] + after;
    var closed := Step(Run(start, before), Drain);
    var end := Run(closed, after);
    EndOfRun(start, before, after);
    forall t ensures multiset(Items(end.settled))[t] + Pending(end)[t] == HandedBy(es)[t] {
      SettledOrHeld(maxsize, es, t);
    }
    if end.queue != [] {
      assert end.queue[0] in Pending(end);
    } else if end.waiting != [] {
      assert end.waiting[0] in Pending(end);
    } else {
      assert Pending(end) == multiset{};
    }
  }

  /** No restart and no new trace: only what is already waiting can still move. */
  ghost predicate Quiet<T>(es: seq<Event<T>>) {
    NoRestart(es) && forall i :: 0 <= i < |es| ==> !es[i].Enqueue? && !es[i].Put?
  }

  /** Whatever happens after the drain, once no producer waits any more every trace has been settled
      exactly once. */
  ghost predicate CleanShutdown<T(!new)>(maxsize: nat, before: seq<Event<T>>) {
    forall after :: Quiet(after) && Run(Step(Run(Init<T>(maxsize), before), Drain), after).waiting == [] ==>
                      ExactlyOnce(Init<T>(maxsize), before + [Drain] + after)
  }

  lemma {:induction false} NobodyWaitsNothingMoves<T>(s: State<T>, es: seq<Event<T>>)
    requires s.waiting == [] && Quiet(es)
    ensures AcceptedBy(s, es) == [] && Run(s, es).waiting == []
    decreases |es|
  {
    if es != [] {
      assert Accepted(s, es[0]) == [] && Step(s, es[0]).waiting == [];
      NobodyWaitsNothingMoves(Step(s, es[0]), es[1..]);
    }
  }

  function GiveUps<T>(n: nat): (es: seq<Event<T>>)
    ensures |es| == n && forall i :: 0 <= i < n ==> es[i] == GiveUp(0)
  {
    seq(n, _ => GiveUp(0))
  }

  lemma {:induction false} AllGiveUp<T>(s: State<T>)
    ensures Run(s, GiveUps<T>(|s.waiting|)).waiting == []
    decreases |s.waiting|
  {
    var n := |s.waiting|;
    if n > 0 {
      assert GiveUps<T>(n)[1..] == GiveUps<T>(n - 1);
      AllGiveUp(Step(s, GiveUp(0)));
    }
  }

  /** A producer waiting at the drain can be let in afterwards, and the others give up. */
  lemma LateEntry<T>(closed: State<T>) returns (after: seq<Event<T>>)
    requires closed.waiting != [] && closed.queue == []
    ensures Quiet(after) && Run(closed, after).waiting == [] && AcceptedBy(closed, after) != []
  {
    var next := Step(closed, Resume(0));
    var rest := GiveUps<T>(|next.waiting|);
    after := [Resume(0)] + rest;
    assert after[1..] == rest;
    AllGiveUp(next);
    assert Accepted(closed, Resume(0)) == [closed.waiting[0]];
  }

  /** The condition shutdown can check: when it starts to drain, every trace handed over will have been
      settled exactly once, whatever happens next short of a restart or a new trace, if and only if no
      producer is waiting. */
  lemma CleanShutdownIff<T(!new)>(maxsize: nat, before: seq<Event<T>>)
    requires Run(Init<T>(maxsize), before).worker.Finished?
    ensures CleanShutdown(maxsize, before) <==> Run(Init<T>(maxsize), before).waiting == []
  {
    hide ExactlyOnce;
    var start := Run(Init<T>(maxsize), before);
    var closed := Step(start, Drain);
    assert closed.waiting == start.waiting && closed.queue == [];
    if start.waiting == [] {
      forall after | Quiet(after) ensures ExactlyOnce(Init<T>(maxsize), before + [Drain] + after) {
        NobodyWaitsNothingMoves(closed, after);
        ExactlyOnceIff(maxsize, before, after);
      }
    } else {
      var after := LateEntry(closed);
      ExactlyOnceIff(maxsize, before, after);
      assert !ExactlyOnce(Init<T>(maxsize), before + [Drain] + after);
    }
  }

  /** The failing case is real: with a queue of one, a producer waiting when the drain frees its slot
      has its trace accepted by a queue that no worker will ever read. */
  lemma LatePutIsStranded()
    ensures var es := [Start, Enqueue(1), Put(2), CancelWorker, Drain, Resume(0)];
            && HandedBy(es)[2] == 1
            && multiset(Items(Run(Init<nat>(1), es).settled))[2] == 0
            && Run(Init<nat>(1), es).queue == [2] && Run(Init<nat>(1), es).worker.NotRunning?
  {
    var es: seq<Event<nat>> := [Start, Enqueue(1), Put(2), CancelWorker, Drain, Resume(0)];
    RunSix(Init<nat>(1), es);
    StrandedState();
    var end := Run(Init<nat>(1), es);
    assert end == State(1, [2], [], NotRunning, 1, 0, 0, [Discarded(1)], [1]);
    assert Items(end.settled) == [1];
    assert Pending(end)[2] == 1;
    SettledOrHeld(1, es, 2);
  }

  lemma StrandedState()
    ensures Step(Step(Step(Step(Step(Step(Init<nat>(1), Start), Enqueue(1)), Put(2)), CancelWorker), Drain), Resume(0))
         == State(1, [2], [], NotRunning, 1, 0, 0, [Discarded(1)], [1])
  {
    var s3 := Step(Step(Step(Init<nat>(1), Start), Enqueue(1)), Put(2));
    assert s3 == State(1, [1], [2], Idle, 1, 0, 0, [], []);
    var s5 := Step(Step(s3, CancelWorker), Drain);
    assert s5 == State(1, [], [2], NotRunning, 0, 0, 0, [Discarded(1)], [1]);
  }

  lemma RunSix<T>(s: State<T>, es: seq<Event<T>>)
    requires |es| == 6
    ensures Run(s, es) == Step(Step(Step(Step(Step(Step(s, es[0]), es[1]), es[2]), es[3]), es[4]), es[5])
  {
    RunSplits(s, es[..3], es[3..]);
    assert es == es[..3] + es[3..];
    RunThree(s, es[..3]);
    RunThree(Run(s, es[..3]), es[3..]);
  }

  lemma RunThree<T>(s: State<T>, es: seq<Event<T>>)
    requires |es| == 3
    ensures Run(s, es) == Step(Step(Step(s, es[0]), es[1]), es[2])
  {
    RunOne(Step(Step(s, es[0]), es[1]), es[2]);
    assert es[1..][1..] == [es[2]];
    assert Run(s, es) == Run(Step(s, es[0]), es[1..]);
    assert Run(Step(s, es[0]), es[1..]) == Run(Step(Step(s, es[0]), es[1]), [es[2]]);
  }
}
