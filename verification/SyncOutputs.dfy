/**
 The console output (output/console.go) and the Logstash output (output/logstash/output.go):
 one goroutine that fetches a batch, deals with all of it and reports it done in one call.
 Logstash also registers each batch with the wait group and leaves it in the batch's
 completion callback; the console does not.
 */
module SyncOutputs {
  import opened Basics
  import opened MemoryQueue

  const MAX_BATCH: nat := 1000

  datatype Kind = Console | Logstash
  datatype Loop = AtGet | Handling | AtRelease | AtCallback | Stopped
  datatype Output = Output(kind: Kind, queue: Queue, loop: Loop, wg: int)

  /** A fresh queue whose output has started, or failed to start. */
  function NewOutput(kind: Kind, firstId: nat, capacity: nat, started: bool): Output {
    Output(kind, NewQueue(firstId, capacity), if started then AtGet else Stopped, if started then 1 else 0)
  }

  datatype Step =
    | Arrive(id: nat, event: Event, owner: nat)
    | CloseDown
    | Fetch(count: nat)
    | ReportDone           // batch.Done(len(events)), whether or not sending succeeded
    | ReleaseBatch
    | Callback
    | QueueClosed

  function LastBatch(o: Output): Batch
    requires o.queue.batches != []
  {
    o.queue.batches[|o.queue.batches| - 1]
  }

  function WithLast(o: Output, b: Batch): Output
    requires o.queue.batches != []
  {
    o.(queue := SetBatch(o.queue, |o.queue.batches| - 1, b))
  }

  predicate Enabled(o: Output, s: Step) {
    match s
    case Arrive(id, _, _) => !o.queue.closed && HasRoom(o.queue) && o.queue.nextId <= id
    case CloseDown => true
    case Fetch(count) => o.loop.AtGet? && 0 < count <= MAX_BATCH && Fetched(o.queue) + count <= |o.queue.entries|
    case ReportDone => o.loop.Handling? && o.queue.batches != []
    case ReleaseBatch => o.loop.AtRelease? && o.queue.batches != []
    case Callback => o.loop.AtCallback?
    case QueueClosed => o.loop.AtGet? && o.queue.closed
  }

  function Apply(o: Output, s: Step): Output
    requires Enabled(o, s)
  {
    match s
    case Arrive(id, event, owner) => o.(queue := Enqueue(o.queue, id, event, owner))
    case CloseDown => o.(queue := CloseQueue(o.queue))
    case Fetch(count) =>
      o.(queue := TakeBatch(o.queue, count), loop := Handling, wg := if o.kind.Logstash? then o.wg + 1 else o.wg)
    case ReportDone =>
      var b := AddDone(LastBatch(o), LastBatch(o).count);
      WithLast(o, b).(loop := if ReachedCount(b) then AtRelease else AtGet)
    case ReleaseBatch =>
      WithLast(o, Release(LastBatch(o))).(loop := if o.kind.Logstash? then AtCallback else AtGet)
    case Callback => o.(loop := AtGet, wg := o.wg - 1)
    case QueueClosed => o.(loop := Stopped, wg := o.wg - 1)
  }

  /** Batches registered with the wait group whose callback has not run. */
  function Registered(o: Output): nat {
    if o.kind.Logstash? && (o.loop.Handling? || o.loop.AtRelease? || o.loop.AtCallback?) then 1 else 0
  }

  /** Only the last batch can be unreleased, and only while the loop is handling it. */
  ghost predicate Accounted(o: Output) {
    && (forall k :: 0 <= k < |o.queue.batches| ==> 0 < o.queue.batches[k].count <= MAX_BATCH)
    && (forall k :: 0 <= k < |o.queue.batches| - 1 ==>
          o.queue.batches[k].releases == 1 && o.queue.batches[k].doneCount == o.queue.batches[k].count)
    && (o.queue.batches == [] ==> o.loop.AtGet? || o.loop.Stopped?)
    && (o.queue.batches != [] ==>
          && LastBatch(o).doneCount == (if o.loop.Handling? then 0 else LastBatch(o).count)
          && LastBatch(o).releases == (if o.loop.Handling? || o.loop.AtRelease? then 0 else 1))
  }

  ghost predicate Valid(o: Output) {
    && MemoryQueue.Valid(o.queue) && Accounted(o)
    && o.wg == (if o.loop.Stopped? then 0 else 1) + Registered(o)
    && (o.kind.Console? ==> !o.loop.AtCallback?)
  }

  lemma StepKeepsQueue(o: Output, s: Step)
    requires MemoryQueue.Valid(o.queue) && Enabled(o, s)
    ensures MemoryQueue.Valid(Apply(o, s).queue) && Extends(o.queue, Apply(o, s).queue)
  {
    hide MemoryQueue.Valid;
    match s
    case Arrive(id, event, owner) => EnqueueKeeps(o.queue, id, event, owner);
    case Fetch(count) => TakeBatchKeeps(o.queue, count);
    case ReportDone =>
      SetBatchKeeps(o.queue, |o.queue.batches| - 1, AddDone(LastBatch(o), LastBatch(o).count));
    case ReleaseBatch =>
      SetBatchKeeps(o.queue, |o.queue.batches| - 1, Release(LastBatch(o)));
    case _ => CloseKeeps(o.queue);
  }

  lemma StepKeepsValid(o: Output, s: Step)
    requires Valid(o) && Enabled(o, s)
    ensures Valid(Apply(o, s)) && Extends(o.queue, Apply(o, s).queue)
  {
    StepKeepsQueue(o, s);
    StepKeepsAccounted(o, s);
    hide MemoryQueue.Valid, Accounted, Extends;
  }

  lemma StepKeepsAccounted(o: Output, s: Step)
    requires Accounted(o) && Enabled(o, s) && (o.kind.Console? ==> !o.loop.AtCallback?)
    ensures Accounted(Apply(o, s))
  {
    hide Fetched, HasRoom;
  }

  ghost predicate IsRun(o: Output, steps: seq<Step>)
    decreases |steps|
  {
    steps == [] || (Enabled(o, steps[0]) && IsRun(Apply(o, steps[0]), steps[1..]))
  }

  ghost function Run(o: Output, steps: seq<Step>): Output
    requires IsRun(o, steps)
    decreases |steps|
  {
    if steps == [] then o else Run(Apply(o, steps[0]), steps[1..])
  }

  lemma {:induction false} RunKeepsValid(o: Output, steps: seq<Step>)
    requires Valid(o) && IsRun(o, steps)
    ensures Valid(Run(o, steps)) && Run(o, steps).kind == o.kind
    decreases |steps|
  {
    if steps != [] {
      StepKeepsValid(o, steps[0]);
      RunKeepsValid(Apply(o, steps[0]), steps[1..]);
    }
  }

  /** Drain, in every run of either output: the wait group is the loop plus the registered
      batches, never negative; no batch is released twice; and when Wait returns, every
      fetched batch has been released. */
  lemma WaitMeansDrained(kind: Kind, firstId: nat, capacity: nat, started: bool, steps: seq<Step>)
    requires IsRun(NewOutput(kind, firstId, capacity, started), steps)
    ensures var o := Run(NewOutput(kind, firstId, capacity, started), steps);
            && o.wg == (if o.loop.Stopped? then 0 else 1) + Registered(o) >= 0
            && (forall k :: 0 <= k < |o.queue.batches| ==> o.queue.batches[k].releases <= 1)
            && (o.wg == 0 ==> forall k :: 0 <= k < |o.queue.batches| ==> o.queue.batches[k].releases == 1)
  {
    RunKeepsValid(NewOutput(kind, firstId, capacity, started), steps);
    hide MemoryQueue.Valid;
  }

  // ---------------------------------------------------------------- settled events

  /** The batch of position p was reported done: its events were printed, or sent, or given up. */
  ghost predicate Settled(o: Output, p: nat) {
    exists b :: 0 <= b < |o.queue.batches| && SettledIn(o.queue.batches[b], p)
  }

  predicate SettledIn(b: Batch, p: nat) { Holds(b, p) && b.doneCount >= b.count }

  lemma StepKeepsSettled(o: Output, s: Step, p: nat)
    requires Valid(o) && Enabled(o, s) && Settled(o, p)
    ensures Settled(Apply(o, s), p)
  {
    var b :| 0 <= b < |o.queue.batches| && SettledIn(o.queue.batches[b], p);
    assert Apply(o, s).queue.batches[b].doneCount == o.queue.batches[b].doneCount by {
      hide MemoryQueue.Valid;
    }
    assert Extends(o.queue, Apply(o, s).queue) by {
      StepKeepsQueue(o, s);
    }
    hide Valid, Enabled, Apply;
    assert SettledIn(Apply(o, s).queue.batches[b], p);
  }

  lemma BelowIndexIsSettled(o: Output, p: nat)
    requires Valid(o) && p < |o.queue.entries| && o.queue.entries[p].id < PersistedIndex(o.queue)
    ensures Settled(o, p)
  {
    hide MemoryQueue.Valid, PersistedIndex;
    var b := BelowIndexIsReleased(o.queue, p);
    assert SettledIn(o.queue.batches[b], p);
  }

  /** Once Wait can return, exactly what was fetched is settled ... */
  lemma StoppedIffFetched(o: Output, p: nat)
    requires Valid(o) && o.wg == 0
    ensures Settled(o, p) <==> p < Fetched(o.queue)
  {
    if p < Fetched(o.queue) {
      var b := BatchOf(o.queue, |o.queue.batches|, p);
      assert SettledIn(o.queue.batches[b], p) by {
        hide MemoryQueue.Valid, Fetched;
      }
    }
    if Settled(o, p) {
      var b :| 0 <= b < |o.queue.batches| && SettledIn(o.queue.batches[b], p);
      BatchIsFetched(o.queue, b);
    }
    hide MemoryQueue.Valid, Accounted, Fetched;
  }

  /** ... and the output does nothing more. */
  lemma StaysStopped(o: Output, s: Step)
    requires Valid(o) && o.wg == 0 && Enabled(o, s)
    ensures Apply(o, s).wg == 0 && Fetched(Apply(o, s).queue) == Fetched(o.queue)
  {
    hide MemoryQueue.Valid, Accounted;
  }

  lemma StoppedIsReleased(o: Output)
    requires Valid(o) && o.wg == 0
    ensures forall k :: 0 <= k < |o.queue.batches| ==> o.queue.batches[k].releases == 1
  {
    hide MemoryQueue.Valid;
  }

  // ---------------------------------------------------------------- when the output stops

  predicate StopsWhenClosed(o: Output) { o.loop.Stopped? ==> o.queue.closed }

  lemma StepStopsWhenClosed(o: Output, s: Step)
    requires Enabled(o, s) && StopsWhenClosed(o)
    ensures StopsWhenClosed(Apply(o, s))
  {
    hide AddDone, ReachedCount;
  }

  lemma {:induction false} RunStopsWhenClosed(o: Output, steps: seq<Step>)
    requires IsRun(o, steps) && StopsWhenClosed(o)
    ensures StopsWhenClosed(Run(o, steps))
    decreases |steps|
  {
    if steps != [] {
      StepStopsWhenClosed(o, steps[0]);
      hide Enabled, Apply, StopsWhenClosed;
      RunStopsWhenClosed(Apply(o, steps[0]), steps[1..]);
    }
  }

  /** In every run, an output that was started stops only after its queue was closed. */
  lemma StopsOnlyWhenClosed(kind: Kind, firstId: nat, capacity: nat, steps: seq<Step>)
    requires IsRun(NewOutput(kind, firstId, capacity, true), steps)
    ensures var o := Run(NewOutput(kind, firstId, capacity, true), steps);
            o.loop.Stopped? ==> o.queue.closed
  {
    RunStopsWhenClosed(NewOutput(kind, firstId, capacity, true), steps);
    hide IsRun, Run;
  }
}
