/** The trace recorder as a machine of atomic steps: everything that runs between two awaits is one
    step, and any interleaving of producers, worker and shutdown is a sequence of steps. */
module Recorder {
  import opened Prelude

  /** The worker task: never started or closed, blocked on the queue, awaiting the store, or cancelled
      and finished while shutdown has still to drain the queue. */
  datatype Worker<T> = NotRunning | Idle | Saving(item: T) | Finished

  /** How a trace left the recorder: persisted (`on_record` ran) or lost (the discard observers ran). */
  datatype Settlement<T> = Saved(item: T) | Discarded(item: T)

  datatype State<T> = State(
    maxsize: nat,
    queue: seq<T>,
    waiting: seq<T>,
    worker: Worker<T>,
    unfinished: int,
    dropped: nat,
    droppedImportant: nat,
    settled: seq<Settlement<T>>,
    enriched: seq<T>)

  /** `maxsize` 0 means unbounded. */
  predicate Full<T>(s: State<T>) { 0 < s.maxsize <= |s.queue| }

  function Init<T>(maxsize: nat): State<T> { State(maxsize, [], [], NotRunning, 0, 0, 0, [], []) }

  datatype Event<T> =
    | Start
    | Enqueue(item: T)
    | Put(item: T)
    | Resume(waiter: nat)
    | GiveUp(waiter: nat)
    | Take
    | SaveOk
    | SaveFail
    | CancelWorker
    | Drain

  function Without<T>(s: seq<T>, i: nat): seq<T>
    requires i < |s|
  {
    s[..i] + s[i + 1..]
  }

  function Accept<T>(s: State<T>, item: T): State<T> {
    s.(queue := s.queue + [item], unfinished := s.unfinished + 1)
  }

  /** Discard with enrichment: the observers see an enriched trace. */
  function Lose<T>(s: State<T>, item: T): State<T> {
    s.(enriched := s.enriched + [item], settled := s.settled + [Discarded(item)])
  }

  function DiscardEach<T>(items: seq<T>): seq<Settlement<T>> {
    seq(|items|, i requires 0 <= i < |items| => Discarded(items[i]))
  }

  /** One step; a step that cannot happen in `s` changes nothing. */
  function Step<T>(s: State<T>, e: Event<T>): State<T> {
    match e
    case Start => if s.worker.NotRunning? then s.(worker := Idle) else s
    case Enqueue(item) =>
      if Full(s) then Lose(s.(dropped := s.dropped + 1), item) else Accept(s, item)
    case Put(item) =>
      if Full(s) then s.(waiting := s.waiting + [item]) else Accept(s, item)
    case Resume(i) =>
      if i < |s.waiting| && !Full(s) then Accept(s.(waiting := Without(s.waiting, i)), s.waiting[i]) else s
    case GiveUp(i) =>
      if i < |s.waiting|
      then Lose(s.(waiting := Without(s.waiting, i), droppedImportant := s.droppedImportant + 1), s.waiting[i])
      else s
    case Take =>
      if s.worker.Idle? && s.queue != []
      then s.(queue := s.queue[1..], worker := Saving(s.queue[0]), enriched := s.enriched + [s.queue[0]])
      else s
    case SaveOk =>
      if s.worker.Saving?
      then s.(worker := Idle, unfinished := s.unfinished - 1, settled := s.settled + [Saved(s.worker.item)])
      else s
    case SaveFail =>
      if s.worker.Saving?
      then s.(worker := Idle, unfinished := s.unfinished - 1, settled := s.settled + [Discarded(s.worker.item)])
      else s
    case CancelWorker =>
      if s.worker.Idle? then s.(worker := Finished)
      else if s.worker.Saving?
      then s.(worker := Finished, unfinished := s.unfinished - 1, settled := s.settled + [Discarded(s.worker.item)])
      else s
    case Drain =>
      if s.worker.Finished?
      then s.(worker := NotRunning, queue := [], unfinished := s.unfinished - |s.queue|,
              enriched := s.enriched + s.queue, settled := s.settled + DiscardEach(s.queue))
      else s
  }

  function Run<T>(s: State<T>, es: seq<Event<T>>): State<T>
    decreases |es|
  {
    if es == [] then s else Run(Step(s, es[0]), es[1..])
  }

  // ----- the recorder object -------------------------------------------------------------------

  class TraceRecorder<T(==)> {
    const maxsize: nat
    var queue: seq<T>
    var waiting: seq<T>
    var worker: Worker<T>
    var unfinished: int
    var dropped: nat
    var droppedImportant: nat
    ghost var settled: seq<Settlement<T>>
    ghost var enriched: seq<T>

    ghost function Value(): State<T>
      reads this
    {
      State(maxsize, queue, waiting, worker, unfinished, dropped, droppedImportant, settled, enriched)
    }

    constructor (maxsize: nat)
      ensures Value() == Init(maxsize)
    {
      this.maxsize := maxsize;
      queue, waiting, worker, unfinished, dropped, droppedImportant := [], [], NotRunning, 0, 0, 0;
      settled, enriched := [], [];
    }

    predicate IsFull()
      reads this
    {
      0 < maxsize <= |queue|
    }

    method PutNowait(item: T)
      requires !IsFull()
      modifies this`queue, this`unfinished
      ensures Value() == Accept(old(Value()), item)
    {
      queue := queue + [item];
      unfinished := unfinished + 1;
    }

    method Discard(item: T, enrich: bool)
      modifies this`settled, this`enriched
      ensures settled == old(settled) + [Discarded(item)]
      ensures enriched == if enrich then old(enriched) + [item] else old(enriched)
    {
      if enrich {
        enriched := enriched + [item];
      }
      settled := settled + [Discarded(item)];
    }

    method StartWorker()
      modifies this
      ensures Value() == Step(old(Value()), Start)
    {
      if worker.NotRunning? {
        worker := Idle;
      }
    }

    method EnqueueTrace(item: T) returns (accepted: bool)
      modifies this
      ensures Value() == Step(old(Value()), Enqueue(item)) && accepted == !Full(old(Value()))
    {
      if IsFull() {
        dropped := dropped + 1;
        Discard(item, true);
        return false;
      }
      PutNowait(item);
      return true;
    }

    /** `enqueue_important` up to its first suspension. */
    method BeginImportant(item: T)
      modifies this
      ensures Value() == Step(old(Value()), Put(item))
    {
      if IsFull() {
        waiting := waiting + [item];
      } else {
        PutNowait(item);
      }
    }

    method ResumeImportant(i: nat)
      modifies this
      ensures Value() == Step(old(Value()), Resume(i))
    {
      if i < |waiting| && !IsFull() {
        var item := waiting[i];
        waiting := Without(waiting, i);
        PutNowait(item);
      }
    }

    /** The wait timed out, or the producer was cancelled: the trace was not enqueued. */
    method AbandonImportant(i: nat)
      modifies this
      ensures Value() == Step(old(Value()), GiveUp(i))
    {
      if i < |waiting| {
        var item := waiting[i];
        waiting := Without(waiting, i);
        droppedImportant := droppedImportant + 1;
        Discard(item, true);
      }
    }

    method WorkerTake()
      modifies this
      ensures Value() == Step(old(Value()), Take)
    {
      if worker.Idle? && queue != [] {
        var item := queue[0];
        queue := queue[1..];
        enriched := enriched + [item];
        worker := Saving(item);
      }
    }

    /** The store answered: `ok` is false when saving raised. */
    method WorkerSaved(ok: bool)
      modifies this
      ensures Value() == Step(old(Value()), if ok then SaveOk else SaveFail)
    {
      if worker.Saving? {
        if ok {
          settled := settled + [Saved(worker.item)];
        } else {
          Discard(worker.item, false);
        }
        unfinished := unfinished - 1;
        worker := Idle;
      }
    }

    method StopWorker()
      modifies this
      ensures Value() == Step(old(Value()), CancelWorker)
    {
      if worker.Saving? {
        Discard(worker.item, false);
        unfinished := unfinished - 1;
        worker := Finished;
      } else if worker.Idle? {
        worker := Finished;
      }
    }

    /** The last stretch of shutdown: no await, so no producer runs in between. */
    method DrainQueue()
      modifies this
      ensures Value() == Step(old(Value()), Drain)
    {
      if !worker.Finished? {
        return;
      }
      hide DiscardEach;
      ghost var before := Value();
      ghost var n := 0;
      DrainedNone(before);
      while queue != []
        invariant 0 <= n <= |before.queue| && Value() == Drained(before, n)
        decreases |queue|
      {
        var item := queue[0];
        queue := queue[1..];
        Discard(item, true);
        unfinished := unfinished - 1;
        DrainedNext(before, n);
        n := n + 1;
      }
      assert before.queue[..n] == before.queue;
      worker := NotRunning;
    }
  }

  /** The drain after its first `n` traces. */
  ghost function Drained<T>(s: State<T>, n: nat): State<T>
    requires n <= |s.queue|
  {
    s.(queue := s.queue[n..], unfinished := s.unfinished - n, enriched := s.enriched + s.queue[..n],
       settled := s.settled + DiscardEach(s.queue[..n]))
  }

  lemma DrainedNone<T>(s: State<T>)
    ensures Drained(s, 0) == s
  {}

  lemma DrainedNext<T>(s: State<T>, n: nat)
    requires n < |s.queue|
    ensures var d := Drained(s, n);
            && d.queue != [] && d.queue[0] == s.queue[n]
            && Drained(s, n + 1) == d.(queue := d.queue[1..], unfinished := d.unfinished - 1,
                                       enriched := d.enriched + [d.queue[0]],
                                       settled := d.settled + [Discarded(d.queue[0])])
  {
    assert s.queue[..n + 1] == s.queue[..n] + [s.queue[n]];
    assert DiscardEach(s.queue[..n + 1]) == DiscardEach(s.queue[..n]) + [Discarded(s.queue[n])];
  }
}
