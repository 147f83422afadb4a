/** Online shadowing: a bounded queue, workers that may fail at every await, and attrition counters
    that are flushed in the background. */
module Shadow {
  import opened Prelude

  /** How a mirrored call ended, as its last counter increment will say. */
  datatype Ending = Completed | Failed | Refused

  /** A worker: free, waiting for the `submitted` increment, waiting for the candidate's response,
      waiting for the recorder, or waiting for its last increment. */
  datatype Slot =
    | Free
    | Counting(id: string)
    | Sending(id: string)
    | Recording(id: string, failed: bool)
    | Closing(id: string, ending: Ending)

  /** The durable counters of one shadow. */
  datatype Stats = Stats(submitted: nat, completed: nat, failed: nat, dropped: nat)

  /** One entry of the insertion-ordered dictionary of unflushed drops. */
  datatype Entry = Entry(id: string, count: nat)

  datatype State = State(
    capacity: nat, queue: seq<string>, workers: seq<Slot>,
    pending: seq<Entry>, flushing: seq<Entry>, stats: map<string, Stats>)

  function StatsOf(s: State, id: string): Stats { Get(s.stats, id, Stats(0, 0, 0, 0)) }

  function Full(s: State): bool { 0 < s.capacity <= |s.queue| }

  function AddTo(entries: seq<Entry>, id: string, n: nat): seq<Entry> {
    if entries == [] then [Entry(id, n)]
    else if entries[0].id == id then [Entry(id, entries[0].count + n)] + entries[1..]
    else [entries[0]] + AddTo(entries[1..], id, n)
  }

  function Drop(s: State, id: string): State { s.(pending := AddTo(s.pending, id, 1)) }

  function Increment(s: State, id: string, d: Stats): State {
    var row := StatsOf(s, id);
    s.(stats := s.stats[id := Stats(row.submitted + d.submitted, row.completed + d.completed,
                                    row.failed + d.failed, row.dropped + d.dropped)])
  }

  function EndingDelta(e: Ending): Stats {
    match e
    case Completed => Stats(0, 1, 0, 0)
    case Failed => Stats(0, 0, 1, 0)
    case Refused => Stats(0, 0, 0, 1)
  }

  /** What the recorder did with the candidate trace. */
  datatype Recorder = Kept | NotKept | Raised

  datatype Event =
    | Submit(id: string, reachable: bool)
    | Take(worker: nat)
    | Counted(worker: nat, ok: bool)
    | Answered(worker: nat, failed: bool)
    | Recorded(worker: nat, outcome: Recorder)
    | Closed(worker: nat, ok: bool)
    | FlushStart
    | FlushNext(ok: bool)
    | FlushCancel(written: bool)

  function SetSlot(s: State, k: nat, slot: Slot): State
    requires k < |s.workers|
  {
    s.(workers := s.workers[k := slot])
  }

  /** One step; a step that cannot happen changes nothing. Increments are all-or-nothing, a raise in a
      worker is counted as a drop, and a failing flush restores its own entry and gives up. Shutdown may
      cancel a flush that awaits a write: the write may still land, and nothing is restored. */
  function Step(s: State, e: Event): State {
    match e
    case Submit(id, reachable) =>
      if !reachable || Full(s) then Drop(s, id) else s.(queue := s.queue + [id])
    case Take(k) =>
      if k < |s.workers| && s.workers[k].Free? && s.queue != []
      then SetSlot(s.(queue := s.queue[1..]), k, Counting(s.queue[0])) else s
    case Counted(k, ok) =>
      if k < |s.workers| && s.workers[k].Counting? then
        var id := s.workers[k].id;
        if ok then SetSlot(Increment(s, id, Stats(1, 0, 0, 0)), k, Sending(id)) else SetSlot(Drop(s, id), k, Free)
      else s
    case Answered(k, failed) =>
      if k < |s.workers| && s.workers[k].Sending? then SetSlot(s, k, Recording(s.workers[k].id, failed)) else s
    case Recorded(k, outcome) =>
      if k < |s.workers| && s.workers[k].Recording? then
        var id, failed := s.workers[k].id, s.workers[k].failed;
        (match outcome
         case Kept => SetSlot(s, k, Closing(id, if failed then Failed else Completed))
         case NotKept => SetSlot(s, k, Closing(id, Refused))
         case Raised => SetSlot(Drop(s, id), k, Free))
      else s
    case Closed(k, ok) =>
      if k < |s.workers| && s.workers[k].Closing? then
        var id, ending := s.workers[k].id, s.workers[k].ending;
        if ok then SetSlot(Increment(s, id, EndingDelta(ending)), k, Free) else SetSlot(Drop(s, id), k, Free)
      else s
    case FlushStart => if s.flushing == [] then s.(flushing := s.pending, pending := []) else s
    case FlushNext(ok) =>
      if s.flushing == [] then s
      else
        var head := s.flushing[0];
        if ok then Increment(s.(flushing := s.flushing[1..]), head.id, Stats(0, 0, 0, head.count))
        else s.(flushing := [], pending := AddTo(s.pending, head.id, head.count))
    case FlushCancel(written) =>
      if s.flushing == [] then s
      else
        var head := s.flushing[0];
        if written then Increment(s.(flushing := []), head.id, Stats(0, 0, 0, head.count)) else s.(flushing := [])
  }

  function Run(s: State, es: seq<Event>): State
    decreases |es|
  {
    if es == [] then s else Run(Step(s, es[0]), es[1..])
  }

  // ----- the manager object ----------------------------------------------------------------------

  class ShadowManager {
    const capacity: nat
    var queue: seq<string>
    var workers: seq<Slot>
    var pending: seq<Entry>
    var flushing: seq<Entry>
    var stats: map<string, Stats>

    ghost function Value(): State
      reads this
    {
      State(capacity, queue, workers, pending, flushing, stats)
    }

    constructor (capacity: nat, workerCount: nat)
      ensures Value() == State(capacity, [], seq(workerCount, _ => Free), [], [], map[])
    {
      this.capacity := capacity;
      queue, workers, pending, flushing, stats := [], seq(workerCount, _ => Free), [], [], map[];
    }

    method CountDrop(id: string)
      modifies this`pending
      ensures Value() == Drop(old(Value()), id)
    {
      pending := AddTo(pending, id, 1);
    }

    /** The durable counters; the caller models whether the write succeeded. */
    method IncrementStats(id: string, d: Stats)
      modifies this`stats
      ensures Value() == Increment(old(Value()), id, d)
    {
      var row := Get(stats, id, Stats(0, 0, 0, 0));
      stats := stats[id := Stats(row.submitted + d.submitted, row.completed + d.completed,
                                 row.failed + d.failed, row.dropped + d.dropped)];
    }

    method SubmitMirror(id: string, reachable: bool) returns (paired: bool)
      modifies this
      ensures Value() == Step(old(Value()), Submit(id, reachable))
      ensures paired == (reachable && !Full(old(Value())))
    {
      if !reachable {
        CountDrop(id);
        return false;
      }
      if 0 < capacity <= |queue| {
        CountDrop(id);
        return false;
      }
      queue := queue + [id];
      return true;
    }

    method TakeWork(k: nat)
      modifies this
      ensures Value() == Step(old(Value()), Take(k))
    {
      if k < |workers| && workers[k].Free? && queue != [] {
        workers := workers[k := Counting(queue[0])];
        queue := queue[1..];
      }
    }

    method SubmittedWritten(k: nat, ok: bool)
      modifies this
      ensures Value() == Step(old(Value()), Counted(k, ok))
    {
      if k < |workers| && workers[k].Counting? {
        var id := workers[k].id;
        if ok {
          IncrementStats(id, Stats(1, 0, 0, 0));
          workers := workers[k := Sending(id)];
        } else {
          CountDrop(id);
          workers := workers[k := Free];
        }
      }
    }

    method CandidateAnswered(k: nat, failed: bool)
      modifies this
      ensures Value() == Step(old(Value()), Answered(k, failed))
    {
      if k < |workers| && workers[k].Sending? {
        workers := workers[k := Recording(workers[k].id, failed)];
      }
    }

    method TraceRecorded(k: nat, outcome: Recorder)
      modifies this
      ensures Value() == Step(old(Value()), Recorded(k, outcome))
    {
      if k < |workers| && workers[k].Recording? {
        var id, failed := workers[k].id, workers[k].failed;
        match outcome {
          case Kept => workers := workers[k := Closing(id, if failed then Failed else Completed)];
          case NotKept => workers := workers[k := Closing(id, Refused)];
          case Raised =>
            CountDrop(id);
            workers := workers[k := Free];
        }
      }
    }

    method OutcomeWritten(k: nat, ok: bool)
      modifies this
      ensures Value() == Step(old(Value()), Closed(k, ok))
    {
      if k < |workers| && workers[k].Closing? {
        var id, ending := workers[k].id, workers[k].ending;
        if ok {
          IncrementStats(id, EndingDelta(ending));
        } else {
          CountDrop(id);
        }
        workers := workers[k := Free];
      }
    }

    method BeginFlush()
      modifies this
      ensures Value() == Step(old(Value()), FlushStart)
    {
      if flushing == [] {
        flushing, pending := pending, [];
      }
    }

    method FlushEntry(ok: bool)
      modifies this
      ensures Value() == Step(old(Value()), FlushNext(ok))
    {
      if flushing != [] {
        var head := flushing[0];
        if ok {
          flushing := flushing[1..];
          IncrementStats(head.id, Stats(0, 0, 0, head.count));
        } else {
          flushing := [];
          pending := AddTo(pending, head.id, head.count);
        }
      }
    }

    /** Shutdown cancels the refresh task while it awaits a write of the flush. */
    method CancelFlush(written: bool)
      modifies this
      ensures Value() == Step(old(Value()), FlushCancel(written))
    {
      if flushing != [] {
        var head := flushing[0];
        flushing := [];
        if written {
          IncrementStats(head.id, Stats(0, 0, 0, head.count));
        }
      }
    }
  }

  // ----- per-shadow accounting -------------------------------------------------------------------

  function Queued(queue: seq<string>, id: string): nat {
    if queue == [] then 0 else (if queue[0] == id then 1 else 0) + Queued(queue[1..], id)
  }

  function Holds(slot: Slot, id: string): nat { if !slot.Free? && slot.id == id then 1 else 0 }

  function InWorkers(workers: seq<Slot>, id: string): nat {
    if workers == [] then 0 else Holds(workers[0], id) + InWorkers(workers[1..], id)
  }

  /** Mirrors a worker has counted as submitted and not yet closed. */
  function Started(slot: Slot, id: string): nat { if slot.Counting? then 0 else Holds(slot, id) }

  function StartedIn(workers: seq<Slot>, id: string): nat {
    if workers == [] then 0 else Started(workers[0], id) + StartedIn(workers[1..], id)
  }

  function Owed(entries: seq<Entry>, id: string): nat {
    if entries == [] then 0 else (if entries[0].id == id then entries[0].count else 0) + Owed(entries[1..], id)
  }

  /** What an event adds to the history of a shadow: mirrors accepted, accepted mirrors dropped, drop
      events of any kind, and drops forgotten by a failing or cancelled flush. */
  datatype Tally = Tally(accepted: nat, lostMirrors: nat, drops: nat, forgotten: nat)

  function TallyOf(s: State, e: Event, id: string): Tally {
    var none := Tally(0, 0, 0, 0);
    var dropped := Tally(0, 1, 1, 0);
    match e
    case Submit(x, reachable) =>
      if x != id then none else if !reachable || Full(s) then Tally(0, 0, 1, 0) else Tally(1, 0, 0, 0)
    case Counted(k, ok) =>
      if k < |s.workers| && s.workers[k].Counting? && s.workers[k].id == id && !ok then dropped else none
    case Recorded(k, outcome) =>
      if k < |s.workers| && s.workers[k].Recording? && s.workers[k].id == id && outcome.Raised? then dropped else none
    case Closed(k, ok) =>
      if k < |s.workers| && s.workers[k].Closing? && s.workers[k].id == id && (!ok || s.workers[k].ending.Refused?)
      then dropped else none
    case FlushNext(ok) =>
      if s.flushing != [] && !ok then Tally(0, 0, 0, Owed(s.flushing[1..], id)) else none
    case FlushCancel(written) =>
      Tally(0, 0, 0, Owed(if written && s.flushing != [] then s.flushing[1..] else s.flushing, id))
    case _ => none
  }

  function Plus(a: Tally, b: Tally): Tally {
    Tally(a.accepted + b.accepted, a.lostMirrors + b.lostMirrors, a.drops + b.drops, a.forgotten + b.forgotten)
  }

  function RunTally(s: State, es: seq<Event>, id: string): Tally
    decreases |es|
  {
    if es == [] then Tally(0, 0, 0, 0) else Plus(TallyOf(s, es[0], id), RunTally(Step(s, es[0]), es[1..], id))
  }

  lemma {:induction false} OwedAdd(entries: seq<Entry>, id: string, n: nat, x: string)
    ensures Owed(AddTo(entries, id, n), x) == Owed(entries, x) + if id == x then n else 0
  {
    if entries != [] && entries[0].id != id { OwedAdd(entries[1..], id, n, x); }
  }

  lemma {:induction false} QueuedAppend(queue: seq<string>, x: string, id: string)
    ensures Queued(queue + [x], id) == Queued(queue, id) + if x == id then 1 else 0
  {
    if queue == [] {
      assert ([] + [x])[1..] == [];
    } else {
      assert (queue + [x])[1..] == queue[1..] + [x];
      QueuedAppend(queue[1..], x, id);
    }
  }

  lemma {:induction false} SlotChange(workers: seq<Slot>, k: nat, slot: Slot, id: string)
    requires k < |workers|
    ensures InWorkers(workers[k := slot], id) == InWorkers(workers, id) - Holds(workers[k], id) + Holds(slot, id)
    ensures StartedIn(workers[k := slot], id) == StartedIn(workers, id) - Started(workers[k], id) + Started(slot, id)
  {
    if k == 0 {
      assert workers[0 := slot][1..] == workers[1..];
    } else {
      assert workers[k := slot][1..] == workers[1..][k - 1 := slot];
      SlotChange(workers[1..], k - 1, slot, id);
    }
  }

  /** Where the accepted mirrors of a shadow are, where its drops are, and which of its mirrors it has
      counted as submitted. */
  datatype Places = Places(mirrors: int, drops: int, open: int)

  function PlacesOf(s: State, id: string): Places {
    var row := StatsOf(s, id);
    Places(Queued(s.queue, id) + InWorkers(s.workers, id) + row.completed + row.failed,
           row.dropped + Owed(s.pending, id) + Owed(s.flushing, id),
           row.submitted - row.completed - row.failed - StartedIn(s.workers, id))
  }

  lemma CountedConserves(s: State, k: nat, ok: bool, id: string)
    ensures var t := TallyOf(s, Counted(k, ok), id);
            var before, after := PlacesOf(s, id), PlacesOf(Step(s, Counted(k, ok)), id);
            && after.mirrors == before.mirrors + t.accepted - t.lostMirrors
            && after.drops == before.drops + t.drops - t.forgotten && after.open >= before.open
  {
    if k < |s.workers| && s.workers[k].Counting? {
      OwedAdd(s.pending, s.workers[k].id, 1, id);
      SlotChange(s.workers, k, if ok then Sending(s.workers[k].id) else Free, id);
    }
  }

  lemma RecordedConserves(s: State, k: nat, outcome: Recorder, id: string)
    ensures var t := TallyOf(s, Recorded(k, outcome), id);
            var before, after := PlacesOf(s, id), PlacesOf(Step(s, Recorded(k, outcome)), id);
            && after.mirrors == before.mirrors + t.accepted - t.lostMirrors
            && after.drops == before.drops + t.drops - t.forgotten && after.open >= before.open
  {
    if k < |s.workers| && s.workers[k].Recording? {
      OwedAdd(s.pending, s.workers[k].id, 1, id);
      SlotChange(s.workers, k, Step(s, Recorded(k, outcome)).workers[k], id);
    }
  }

  lemma ClosedConserves(s: State, k: nat, ok: bool, id: string)
    ensures var t := TallyOf(s, Closed(k, ok), id);
            var before, after := PlacesOf(s, id), PlacesOf(Step(s, Closed(k, ok)), id);
            && after.mirrors == before.mirrors + t.accepted - t.lostMirrors
            && after.drops == before.drops + t.drops - t.forgotten && after.open >= before.open
  {
    if k < |s.workers| && s.workers[k].Closing? {
      OwedAdd(s.pending, s.workers[k].id, 1, id);
      SlotChange(s.workers, k, Free, id);
    }
  }

  lemma FlushConserves(s: State, ok: bool, id: string)
    ensures var t := TallyOf(s, FlushNext(ok), id);
            var before, after := PlacesOf(s, id), PlacesOf(Step(s, FlushNext(ok)), id);
            && after.mirrors == before.mirrors + t.accepted - t.lostMirrors
            && after.drops == before.drops + t.drops - t.forgotten && after.open >= before.open
  {
    if s.flushing != [] { OwedAdd(s.pending, s.flushing[0].id, s.flushing[0].count, id); }
  }

  lemma CancelConserves(s: State, written: bool, id: string)
    ensures var t := TallyOf(s, FlushCancel(written), id);
            var before, after := PlacesOf(s, id), PlacesOf(Step(s, FlushCancel(written)), id);
            && after.mirrors == before.mirrors + t.accepted - t.lostMirrors
            && after.drops == before.drops + t.drops - t.forgotten && after.open >= before.open
  {}

  lemma TakeConserves(s: State, k: nat, id: string)
    ensures PlacesOf(Step(s, Take(k)), id) == PlacesOf(s, id)
  {
    if k < |s.workers| && s.queue != [] { SlotChange(s.workers, k, Counting(s.queue[0]), id); }
  }

  lemma AnsweredConserves(s: State, k: nat, failed: bool, id: string)
    ensures PlacesOf(Step(s, Answered(k, failed)), id) == PlacesOf(s, id)
  {
    if k < |s.workers| && s.workers[k].Sending? { SlotChange(s.workers, k, Recording(s.workers[k].id, failed), id); }
  }

  lemma SubmitConserves(s: State, x: string, reachable: bool, id: string)
    ensures var t := TallyOf(s, Submit(x, reachable), id);
            var before, after := PlacesOf(s, id), PlacesOf(Step(s, Submit(x, reachable)), id);
            && after.mirrors == before.mirrors + t.accepted - t.lostMirrors
            && after.drops == before.drops + t.drops - t.forgotten && after.open >= before.open
  {
    OwedAdd(s.pending, x, 1, id);
    QueuedAppend(s.queue, x, id);
  }

  /** One step moves mirrors and drops between their places exactly as the history says. */
  lemma StepConserves(s: State, e: Event, id: string)
    ensures var t := TallyOf(s, e, id); var before, after := PlacesOf(s, id), PlacesOf(Step(s, e), id);
            && after.mirrors == before.mirrors + t.accepted - t.lostMirrors
            && after.drops == before.drops + t.drops - t.forgotten
            && after.open >= before.open
  {
    match e {
      case Submit(x, reachable) => SubmitConserves(s, x, reachable, id);
      case Take(k) => TakeConserves(s, k, id);
      case Counted(k, ok) => CountedConserves(s, k, ok, id);
      case Answered(k, failed) => AnsweredConserves(s, k, failed, id);
      case Recorded(k, outcome) => RecordedConserves(s, k, outcome, id);
      case Closed(k, ok) => ClosedConserves(s, k, ok, id);
      case FlushStart =>
      case FlushNext(ok) => FlushConserves(s, ok, id);
      case FlushCancel(written) => CancelConserves(s, written, id);
    }
  }

  lemma {:induction false} RunConserves(s: State, es: seq<Event>, id: string)
    ensures var t := RunTally(s, es, id); var before, after := PlacesOf(s, id), PlacesOf(Run(s, es), id);
            && after.mirrors == before.mirrors + t.accepted - t.lostMirrors
            && after.drops == before.drops + t.drops - t.forgotten
            && after.open >= before.open
    decreases |es|
  {
    if es != [] {
      StepConserves(s, es[0], id);
      RunConserves(Step(s, es[0]), es[1..], id);
    }
  }

  function Initial(capacity: nat, workerCount: nat): State {
    State(capacity, [], seq(workerCount, _ => Free), [], [], map[])
  }

  lemma {:induction false} NoWork(workers: seq<Slot>, id: string)
    requires forall k :: 0 <= k < |workers| ==> workers[k].Free?
    ensures InWorkers(workers, id) == 0 && StartedIn(workers, id) == 0
  {
    if workers != [] { NoWork(workers[1..], id); }
  }

  lemma InitialPlaces(capacity: nat, workerCount: nat, id: string)
    ensures PlacesOf(Initial(capacity, workerCount), id) == Places(0, 0, 0)
  {
    NoWork(Initial(capacity, workerCount).workers, id);
  }

  /** Attrition is conserved. After any run, every accepted mirror of a shadow is in exactly one place:
      queued, with a worker, counted completed, counted failed, or dropped; and its durable, flushing
      and pending drops together are all its drop events, less those a failing or cancelled flush forgot. The
      durable outcomes never exceed what was counted as submitted. */
  lemma {:induction false} AttritionConserved(capacity: nat, workerCount: nat, es: seq<Event>, id: string)
    ensures var s := Run(Initial(capacity, workerCount), es);
            var t := RunTally(Initial(capacity, workerCount), es, id); var row := StatsOf(s, id);
            && t.accepted == Queued(s.queue, id) + InWorkers(s.workers, id) + row.completed + row.failed + t.lostMirrors
            && row.dropped + Owed(s.pending, id) + Owed(s.flushing, id) + t.forgotten == t.drops
            && row.completed + row.failed <= row.submitted
  {
    InitialPlaces(capacity, workerCount, id);
    RunConserves(Initial(capacity, workerCount), es, id);
  }

  lemma {:induction false} QueueBounded(s: State, es: seq<Event>)
    requires 0 < s.capacity ==> |s.queue| <= s.capacity
    ensures 0 < s.capacity ==> |Run(s, es).queue| <= s.capacity
    ensures |Run(s, es).workers| == |s.workers|
    decreases |es|
  {
    if es != [] { QueueBounded(Step(s, es[0]), es[1..]); }
  }

  // ----- when drops are forgotten ----------------------------------------------------------------

  /** Every pending entry stands for at least one drop. */
  predicate Positive(entries: seq<Entry>) { forall i :: 0 <= i < |entries| ==> 0 < entries[i].count }

  lemma {:induction false} AddPositive(entries: seq<Entry>, id: string, n: nat)
    requires Positive(entries) && 0 < n
    ensures Positive(AddTo(entries, id, n))
  {
    if entries != [] && entries[0].id != id { AddPositive(entries[1..], id, n); }
  }

  /** In every run, each unflushed entry stands for at least one drop. */
  lemma {:induction false} RunPositive(s: State, es: seq<Event>)
    requires Positive(s.pending) && Positive(s.flushing)
    ensures Positive(Run(s, es).pending) && Positive(Run(s, es).flushing)
    decreases |es|
  {
    if es != [] {
      forall id, n: nat | 0 < n ensures Positive(AddTo(s.pending, id, n)) { AddPositive(s.pending, id, n); }
      RunPositive(Step(s, es[0]), es[1..]);
    }
  }

  lemma {:induction false} OwedTotal(entries: seq<Entry>)
    requires Positive(entries) && entries != []
    ensures 0 < Owed(entries, entries[|entries| - 1].id)
  {
    if |entries| > 1 { OwedTotal(entries[1..]); }
  }

  /** A failing write in the middle of a flush forgets drops exactly when other shadows' entries are
      still waiting behind it: the code restores the failing entry only, and swaps the rest away. */
  lemma FailingFlushForgetsIff(s: State)
    requires s.flushing != [] && Positive(s.flushing)
    ensures (forall id :: TallyOf(s, FlushNext(false), id).forgotten == 0) <==> |s.flushing| == 1
  {
    if |s.flushing| > 1 {
      OwedTotal(s.flushing[1..]);
      var last := s.flushing[|s.flushing| - 1].id;
      assert TallyOf(s, FlushNext(false), last).forgotten > 0;
    }
  }

  /** Whether an event leaves nothing of a flush behind: a failing write may be the last of its flush, and
      so may a cancelled write that lands; a cancelled write that does not land loses its entry. */
  predicate Harmless(s: State, e: Event) {
    match e
    case FlushNext(ok) => ok || |s.flushing| <= 1
    case FlushCancel(written) => |s.flushing| <= if written then 1 else 0
    case _ => true
  }

  /** Every failing or cancelled write of the run was harmless. */
  predicate HarmlessRun(s: State, es: seq<Event>)
    decreases |es|
  {
    es == [] || (Harmless(s, es[0]) && HarmlessRun(Step(s, es[0]), es[1..]))
  }

  lemma OwedSomeone(entries: seq<Entry>) returns (id: string)
    requires Positive(entries) && entries != []
    ensures 0 < Owed(entries, id)
  {
    id := entries[|entries| - 1].id;
    OwedTotal(entries);
  }

  lemma HarmlessForgetsNothing(s: State, e: Event, id: string)
    requires Harmless(s, e)
    ensures TallyOf(s, e, id).forgotten == 0
  {}

  lemma HarmfulForgets(s: State, e: Event) returns (id: string)
    requires Positive(s.flushing) && !Harmless(s, e)
    ensures 0 < TallyOf(s, e, id).forgotten
  {
    var full := e.FlushCancel? && !e.written;
    id := OwedSomeone(if full then s.flushing else s.flushing[1..]);
  }

  lemma {:induction false} HarmlessRunForgetsNothing(s: State, es: seq<Event>, id: string)
    requires HarmlessRun(s, es)
    ensures RunTally(s, es, id).forgotten == 0
    decreases |es|
  {
    hide Step, TallyOf, Harmless;
    if es != [] {
      HarmlessForgetsNothing(s, es[0], id);
      HarmlessRunForgetsNothing(Step(s, es[0]), es[1..], id);
    }
  }

  lemma {:induction false} HarmfulRunForgets(s: State, es: seq<Event>) returns (id: string)
    requires Positive(s.pending) && Positive(s.flushing) && !HarmlessRun(s, es)
    ensures 0 < RunTally(s, es, id).forgotten
    decreases |es|
  {
    hide Step, TallyOf, Harmless;
    if !Harmless(s, es[0]) {
      id := HarmfulForgets(s, es[0]);
    } else {
      RunPositive(s, [es[0]]);
      assert [es[0]][1..] == [];
      assert Run(s, [es[0]]) == Step(s, es[0]);
      id := HarmfulRunForgets(Step(s, es[0]), es[1..]);
    }
  }

  /** Every drop of the run is still counted somewhere. */
  ghost predicate DropsCounted(s: State, es: seq<Event>, id: string) {
    var end := Run(s, es);
    StatsOf(end, id).dropped + Owed(end.pending, id) + Owed(end.flushing, id) == RunTally(s, es, id).drops
  }

  /** No drop is ever lost, and exactly when: in a run from a state without drops, every drop of every
      shadow is counted, durably or unflushed, if and only if each failing or cancelled write of a
      flush was harmless. */
  lemma AllDropsCountedIff(s: State, es: seq<Event>)
    requires Positive(s.pending) && Positive(s.flushing) && forall id :: PlacesOf(s, id).drops == 0
    ensures (forall id :: DropsCounted(s, es, id)) <==> HarmlessRun(s, es)
  {
    forall id ensures DropsCounted(s, es, id) <==> RunTally(s, es, id).forgotten == 0 {
      RunConserves(s, es, id);
      assert PlacesOf(s, id).drops == 0;
    }
    hide DropsCounted, RunTally, PlacesOf;
    if HarmlessRun(s, es) {
      forall id ensures DropsCounted(s, es, id) { HarmlessRunForgetsNothing(s, es, id); }
    } else {
      var id := HarmfulRunForgets(s, es);
      assert !DropsCounted(s, es, id);
    }
  }

  /** A new manager starts without drops. */
  lemma InitialDropsCountedIff(capacity: nat, workerCount: nat, es: seq<Event>)
    ensures (forall id :: DropsCounted(Initial(capacity, workerCount), es, id))
            <==> HarmlessRun(Initial(capacity, workerCount), es)
  {
    var s := Initial(capacity, workerCount);
    forall id ensures PlacesOf(s, id).drops == 0 { InitialPlaces(capacity, workerCount, id); }
    AllDropsCountedIff(s, es);
  }

  /** No write fails and no flush is cancelled. */
  predicate NoLostWrite(es: seq<Event>) {
    forall i :: 0 <= i < |es| ==> es[i] != FlushNext(false) && !es[i].FlushCancel?
  }

  lemma {:induction false} NoLostWriteIsHarmless(s: State, es: seq<Event>)
    requires NoLostWrite(es)
    ensures HarmlessRun(s, es)
    decreases |es|
  {
    hide Step;
    if es != [] { NoLostWriteIsHarmless(Step(s, es[0]), es[1..]); }
  }

  /** In particular while every write succeeds and no flush is cancelled. */
  lemma {:induction false} DropsAllCounted(s: State, es: seq<Event>, id: string)
    requires NoLostWrite(es) && PlacesOf(s, id).drops == 0
    ensures DropsCounted(s, es, id)
  {
    RunConserves(s, es, id);
    NoLostWriteIsHarmless(s, es);
    HarmlessRunForgetsNothing(s, es, id);
  }

  /** The failing case is real: two shadows each drop a mirror, the first write of the flush fails, and
      the second shadow's drop is in no counter, pending or durable. */
  lemma FlushFailureForgets(a: string, b: string)
    requires a != b
    ensures !DropsCounted(Initial(1, 1), [Submit(a, false), Submit(b, false), FlushStart, FlushNext(false)], b)
  {
    var s0 := Initial(1, 1);
    var s1 := s0.(pending := [Entry(a, 1)]);
    var s2 := s0.(pending := [Entry(a, 1), Entry(b, 1)]);
    var s3 := s0.(flushing := [Entry(a, 1), Entry(b, 1)]);
    FourSteps(a, b, s0, s1, s2, s3);
    FourEvents(s0, s1, s2, s3, s1, Submit(a, false), Submit(b, false), FlushStart, FlushNext(false), b);
    OwedPair(a, b);
  }

  /** So is the cancelled case: the write under way lands, but the other shadow's entry is gone. */
  lemma CancelledFlushForgets(a: string, b: string)
    requires a != b
    ensures var es := [Submit(a, false), Submit(b, false), FlushStart, FlushCancel(true)];
            !HarmlessRun(Initial(1, 1), es) && exists id :: !DropsCounted(Initial(1, 1), es, id)
  {
    var s0 := Initial(1, 1);
    var s1 := s0.(pending := [Entry(a, 1)]);
    var s2 := s0.(pending := [Entry(a, 1), Entry(b, 1)]);
    var s3 := s0.(flushing := [Entry(a, 1), Entry(b, 1)]);
    FourSteps(a, b, s0, s1, s2, s3);
    var e0, e1, e2, e3 := Submit(a, false), Submit(b, false), FlushStart, FlushCancel(true);
    assert [e0, e1, e2, e3][1..] == [e1, e2, e3] && [e1, e2, e3][1..] == [e2, e3] && [e2, e3][1..] == [e3];
    assert !HarmlessRun(s3, [e3]);
    assert !HarmlessRun(s2, [e2, e3]);
    assert !HarmlessRun(s1, [e1, e2, e3]);
    InitialDropsCountedIff(1, 1, [e0, e1, e2, e3]);
  }

  lemma OwedPair(a: string, b: string)
    requires a != b
    ensures Owed([Entry(a, 1)], b) == 0
  {
    assert [Entry(a, 1)][1..] == [];
  }

  lemma FourSteps(a: string, b: string, s0: State, s1: State, s2: State, s3: State)
    requires a != b && s0 == Initial(1, 1) && s1 == s0.(pending := [Entry(a, 1)])
    requires s2 == s0.(pending := [Entry(a, 1), Entry(b, 1)]) && s3 == s0.(flushing := [Entry(a, 1), Entry(b, 1)])
    ensures Step(s0, Submit(a, false)) == s1 && TallyOf(s0, Submit(a, false), b).drops == 0
    ensures Step(s1, Submit(b, false)) == s2 && TallyOf(s1, Submit(b, false), b).drops == 1
    ensures Step(s2, FlushStart) == s3 && TallyOf(s2, FlushStart, b).drops == 0
    ensures Step(s3, FlushNext(false)) == s1 && TallyOf(s3, FlushNext(false), b).drops == 0
  {
    assert [Entry(a, 1)] + AddTo([], b, 1) == [Entry(a, 1), Entry(b, 1)];
    assert [Entry(a, 1)][1..] == [];
  }

  lemma FourEvents(s0: State, s1: State, s2: State, s3: State, s4: State,
                   e0: Event, e1: Event, e2: Event, e3: Event, id: string)
    requires Step(s0, e0) == s1 && Step(s1, e1) == s2 && Step(s2, e2) == s3 && Step(s3, e3) == s4
    ensures Run(s0, [e0, e1, e2, e3]) == s4
    ensures RunTally(s0, [e0, e1, e2, e3], id).drops
         == TallyOf(s0, e0, id).drops + TallyOf(s1, e1, id).drops + TallyOf(s2, e2, id).drops
             + TallyOf(s3, e3, id).drops
  {
    hide Step, TallyOf;
    RunCons(s3, e3, [], id);
    RunCons(s2, e2, [e3], id);
    RunCons(s1, e1, [e2, e3], id);
    RunCons(s0, e0, [e1, e2, e3], id);
    assert [e3] + [] == [e3] && [e2] + [e3] == [e2, e3];
    assert [e1] + [e2, e3] == [e1, e2, e3] && [e0] + [e1, e2, e3] == [e0, e1, e2, e3];
  }

  lemma RunCons(s: State, e: Event, es: seq<Event>, id: string)
    ensures Run(s, [e] + es) == Run(Step(s, e), es)
    ensures RunTally(s, [e] + es, id) == Plus(TallyOf(s, e, id), RunTally(Step(s, e), es, id))
  {
    assert ([e] + es)[1..] == es;
  }
}
