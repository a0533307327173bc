/**
 The Elasticsearch output (output/elasticsearch/output.go). The loop hands the events
 of a batch to the bulk indexer one by one; the indexer's callbacks settle them later,
 in any order and from other goroutines. Of the bulk indexer it is assumed that it calls
 exactly one callback for an item it accepted, and none for an item it refused.
 */
module ElasticOutput {
  import opened Basics
  import opened MemoryQueue

  const MAX_BATCH: nat := 100

  /**
   The progress on one batch; events are named by their index in it.
   sent        how far the loop has come
   skipped     events that could not be serialised
   pending     events with the bulk indexer
   settled     events for which Done(1) was called
   releasing   Done calls that saw the batch size reached and have not released yet
   calling     releases whose completion callback has not run yet
   callbacks   completion callbacks that have run
   */
  datatype Work = Work(sent: nat, skipped: set<nat>, pending: set<nat>, settled: set<nat>,
                       releasing: nat, calling: nat, callbacks: nat)

  datatype Loop = AtGet | Sending | ClosingIndexer | Stopped

  datatype Elastic = Elastic(queue: Queue, work: seq<Work>, loop: Loop, wg: int)

  /** A fresh queue whose output has started, or failed to start. */
  function NewElastic(firstId: nat, capacity: nat, started: bool): Elastic {
    Elastic(NewQueue(firstId, capacity), [], if started then AtGet else Stopped, if started then 1 else 0)
  }

  datatype Step =
    | Arrive(id: nat, event: Event, owner: nat)
    | CloseDown
    | Fetch(count: nat)
    | Skip                       // serializeEvent failed
    | Submit                     // bi.Add succeeded
    | Refuse                     // bi.Add returned an error
    | Settle(b: nat, i: nat)     // OnSuccess or OnFailure
    | ReleaseBatch(b: nat)
    | Callback(b: nat)
    | NextBatch
    | QueueClosed
    | IndexerClosed

  /** The steps that act on one batch: the first three on the batch the loop is sending. */
  predicate OnBatch(s: Step) { s.Skip? || s.Submit? || s.Refuse? || s.Settle? || s.ReleaseBatch? || s.Callback? }
  predicate Sends(s: Step) { s.Skip? || s.Submit? || s.Refuse? }

  predicate Allowed(batch: Batch, w: Work, s: Step)
    requires OnBatch(s)
  {
    match s
    case Settle(_, i) => i in w.pending
    case ReleaseBatch(_) => w.releasing > 0
    case Callback(_) => w.calling > 0
    case _ => w.sent < batch.count
  }

  /** batch.Done(1) for event i, up to the release. */
  function DoneOne(batch: Batch, w: Work, i: nat): (Batch, Work) {
    var batch' := AddDone(batch, 1);
    (batch', w.(settled := w.settled + {i}, releasing := w.releasing + if ReachedCount(batch') then 1 else 0))
  }

  function Effect(batch: Batch, w: Work, s: Step): (Batch, Work)
    requires OnBatch(s) && Allowed(batch, w, s)
  {
    match s
    case Skip => (batch, w.(sent := w.sent + 1, skipped := w.skipped + {w.sent}))
    case Submit => (batch, w.(sent := w.sent + 1, pending := w.pending + {w.sent}))
    case Refuse => DoneOne(batch, w.(sent := w.sent + 1), w.sent)
    case Settle(_, i) => DoneOne(batch, w.(pending := w.pending - {i}), i)
    case ReleaseBatch(_) => (Release(batch), w.(releasing := w.releasing - 1, calling := w.calling + 1))
    case Callback(_) => (batch, w.(calling := w.calling - 1, callbacks := w.callbacks + 1))
  }

  function Last(e: Elastic): int { |e.work| - 1 }

  function Target(e: Elastic, s: Step): int
    requires OnBatch(s)
  {
    if Sends(s) then Last(e) else s.b
  }

  predicate Enabled(e: Elastic, s: Step) {
    && |e.work| == |e.queue.batches|
    && if OnBatch(s) then
         && (Sends(s) ==> e.loop.Sending?)
         && 0 <= Target(e, s) < |e.work|
         && Allowed(e.queue.batches[Target(e, s)], e.work[Target(e, s)], s)
       else
         match s
         case Arrive(id, _, _) => !e.queue.closed && HasRoom(e.queue) && e.queue.nextId <= id
         case Fetch(count) => e.loop.AtGet? && 0 < count <= MAX_BATCH && Fetched(e.queue) + count <= |e.queue.entries|
         case NextBatch => e.loop.Sending? && e.work != [] && e.work[Last(e)].sent == e.queue.batches[Last(e)].count
         case QueueClosed => e.loop.AtGet? && e.queue.closed
         case IndexerClosed => e.loop.ClosingIndexer?
         case _ => true
  }

  function With(e: Elastic, b: nat, batch: Batch, w: Work, wg: int): Elastic
    requires b < |e.work| == |e.queue.batches|
  {
    e.(queue := SetBatch(e.queue, b, batch), work := e.work[b := w], wg := wg)
  }

  function Apply(e: Elastic, s: Step): Elastic
    requires Enabled(e, s)
  {
    if OnBatch(s) then
      var b := Target(e, s);
      var (batch, w) := Effect(e.queue.batches[b], e.work[b], s);
      With(e, b, batch, w, if s.Callback? then e.wg - 1 else e.wg)
    else
      match s
      case Arrive(id, event, owner) => e.(queue := Enqueue(e.queue, id, event, owner))
      case Fetch(count) =>
        e.(queue := TakeBatch(e.queue, count), work := e.work + [NEW_WORK], loop := Sending, wg := e.wg + 1)
      case NextBatch => e.(loop := AtGet)
      case QueueClosed => e.(loop := ClosingIndexer)
      case IndexerClosed => e.(loop := Stopped, wg := e.wg - 1)
      case _ => e.(queue := CloseQueue(e.queue))
  }

  const NEW_WORK: Work := Work(0, {}, {}, {}, 0, 0, 0)

  // ---------------------------------------------------------------- one batch

  ghost predicate WorkOk(batch: Batch, w: Work) {
    && w.sent <= batch.count <= MAX_BATCH
    && (forall i: nat :: i < w.sent <==> i in w.skipped || i in w.pending || i in w.settled)
    && w.skipped !! w.pending !! w.settled
    && |w.skipped| + |w.pending| + |w.settled| == w.sent
    && batch.doneCount == |w.settled|
    && w.releasing + batch.releases == (if |w.settled| == batch.count then 1 else 0)
    && w.calling + w.callbacks == batch.releases
  }

  /** Nothing is left to happen to a batch. */
  predicate Quiescent(batch: Batch, w: Work) {
    w.sent == batch.count && w.pending == {} && w.releasing == 0 && w.calling == 0
  }

  /** A batch is released, and its callback run, at most once; only after every event is
      settled; and, when nothing is left to happen, exactly if no event was skipped. */
  lemma Completion(batch: Batch, w: Work)
    requires WorkOk(batch, w) && 0 < batch.count
    ensures w.callbacks <= batch.releases <= 1
    ensures batch.releases == 1 ==>
              w.skipped == {} && w.pending == {} && forall i :: 0 <= i < batch.count ==> i in w.settled
    ensures Quiescent(batch, w) ==> (batch.releases == 1 <==> w.skipped == {}) && w.callbacks == batch.releases
    ensures w.skipped != {} ==> w.callbacks == 0 == batch.releases
  {
    if |w.settled| == batch.count {
      assert |w.skipped| == 0 && |w.pending| == 0;
    }
    if w.skipped == {} && w.pending == {} {
      assert |w.skipped| == 0 && |w.pending| == 0;
    }
    if w.skipped != {} {
      var i :| i in w.skipped;
      assert |w.skipped| >= 1 by {
        assert w.skipped == {i} + (w.skipped - {i});
      }
    }
  }

  /** Marking an event that is neither pending nor settled. */
  lemma DoneOneOk(batch: Batch, w: Work, i: nat)
    requires 0 <= batch.doneCount == |w.settled| < batch.count <= MAX_BATCH && i !in w.settled
    requires w.releasing + batch.releases == 0
    ensures var (batch', w') := DoneOne(batch, w, i);
            && batch'.doneCount == |w'.settled| == |w.settled| + 1
            && batch'.start == batch.start && batch'.count == batch.count && batch'.releases == batch.releases
            && (w'.releasing == 1 <==> |w'.settled| == batch.count) && w'.releasing <= 1
  {
  }

  lemma RefuseOk(batch: Batch, w: Work)
    requires WorkOk(batch, w) && w.sent < batch.count
    ensures WorkOk(Effect(batch, w, Refuse).0, Effect(batch, w, Refuse).1)
  {
    assert w.sent !in w.skipped && w.sent !in w.pending && w.sent !in w.settled;
    DoneOneOk(batch, w.(sent := w.sent + 1), w.sent);
  }

  lemma SettleOk(batch: Batch, w: Work, s: Step)
    requires WorkOk(batch, w) && s.Settle? && s.i in w.pending
    ensures WorkOk(Effect(batch, w, s).0, Effect(batch, w, s).1)
  {
    assert |w.pending| == |w.pending - {s.i}| + 1;
    assert s.i !in w.settled;
    DoneOneOk(batch, w.(pending := w.pending - {s.i}), s.i);
  }

  lemma EffectOk(batch: Batch, w: Work, s: Step)
    requires WorkOk(batch, w) && OnBatch(s) && Allowed(batch, w, s)
    ensures WorkOk(Effect(batch, w, s).0, Effect(batch, w, s).1)
  {
    if s.Refuse? {
      RefuseOk(batch, w);
    } else if s.Settle? {
      SettleOk(batch, w, s);
    } else if s.Skip? || s.Submit? {
      assert w.sent !in w.skipped && w.sent !in w.pending && w.sent !in w.settled;
    }
  }

  lemma EffectShape(batch: Batch, w: Work, s: Step)
    requires OnBatch(s) && Allowed(batch, w, s)
    ensures var (batch', w') := Effect(batch, w, s);
            && batch'.start == batch.start && batch'.count == batch.count && batch.releases <= batch'.releases
            && w'.callbacks == w.callbacks + (if s.Callback? then 1 else 0)
            && (Sends(s) || w'.sent == w.sent)
            && w.skipped <= w'.skipped && w.settled <= w'.settled
  {
  }

  // ---------------------------------------------------------------- all batches

  /** Batches whose completion callback has not run. */
  function Uncalled(work: seq<Work>): int {
    if work == [] then 0 else Uncalled(work[..|work| - 1]) + (1 - work[|work| - 1].callbacks)
  }

  lemma {:induction false} UncalledUpdate(work: seq<Work>, b: nat, w: Work)
    requires b < |work|
    ensures Uncalled(work[b := w]) == Uncalled(work) + work[b].callbacks - w.callbacks
  {
    var n := |work| - 1;
    if b == n {
      assert work[b := w][..n] == work[..n];
    } else {
      assert work[b := w][..n] == work[..n][b := w];
      UncalledUpdate(work[..n], b, w);
    }
  }

  lemma UncalledAppend(work: seq<Work>, w: Work)
    ensures Uncalled(work + [w]) == Uncalled(work) + 1 - w.callbacks
  {
    assert (work + [w])[..|work|] == work;
  }

  ghost predicate WorkDone(e: Elastic) {
    && |e.work| == |e.queue.batches|
    && (e.loop.Sending? ==> e.work != [])
    && (forall b :: 0 <= b < |e.work| ==> WorkOk(e.queue.batches[b], e.work[b]))
    && (forall b :: 0 <= b < |e.work| && !(e.loop.Sending? && b == Last(e)) ==>
          e.work[b].sent == e.queue.batches[b].count)
  }

  /** wg counts the loop and the batches whose callback is still to come. */
  predicate WaitGroupOk(e: Elastic) {
    e.wg == (if e.loop.Stopped? then 0 else 1) + Uncalled(e.work)
  }

  ghost predicate Valid(e: Elastic) { MemoryQueue.Valid(e.queue) && WorkDone(e) && WaitGroupOk(e) }

  lemma OnBatchKeepsWork(e: Elastic, s: Step)
    requires WorkDone(e) && Enabled(e, s) && OnBatch(s)
    ensures WorkDone(Apply(e, s))
  {
    hide WorkOk, Effect, Allowed;
    var b := Target(e, s);
    EffectOk(e.queue.batches[b], e.work[b], s);
    EffectShape(e.queue.batches[b], e.work[b], s);
  }

  lemma OnBatchKeepsQueue(e: Elastic, s: Step)
    requires MemoryQueue.Valid(e.queue) && WaitGroupOk(e) && Enabled(e, s) && OnBatch(s)
    ensures MemoryQueue.Valid(Apply(e, s).queue) && Extends(e.queue, Apply(e, s).queue)
    ensures WaitGroupOk(Apply(e, s))
  {
    hide MemoryQueue.Valid, Extends, Effect, Allowed, Uncalled;
    var b := Target(e, s);
    EffectShape(e.queue.batches[b], e.work[b], s);
    var (batch, w) := Effect(e.queue.batches[b], e.work[b], s);
    SetBatchKeeps(e.queue, b, batch);
    UncalledUpdate(e.work, b, w);
  }

  lemma NewWorkOk(start: nat, count: nat)
    requires 0 < count <= MAX_BATCH
    ensures WorkOk(Batch(start, count, 0, 0), NEW_WORK)
  {
  }

  lemma FetchKeepsWork(e: Elastic, count: nat)
    requires WorkDone(e) && Enabled(e, Fetch(count))
    ensures WorkDone(Apply(e, Fetch(count)))
  {
    hide WorkOk, Fetched;
    NewWorkOk(Fetched(e.queue), count);
  }

  lemma FetchKeepsValid(e: Elastic, count: nat)
    requires Valid(e) && Enabled(e, Fetch(count))
    ensures Valid(Apply(e, Fetch(count)))
    ensures Extends(e.queue, Apply(e, Fetch(count)).queue)
  {
    hide MemoryQueue.Valid, Extends, Uncalled, WorkDone, TakeBatch;
    FetchKeepsWork(e, count);
    TakeBatchKeeps(e.queue, count);
    UncalledAppend(e.work, NEW_WORK);
  }

  lemma StepKeepsValid(e: Elastic, s: Step)
    requires Valid(e) && Enabled(e, s)
    ensures Valid(Apply(e, s))
    ensures Extends(e.queue, Apply(e, s).queue)
  {
    if OnBatch(s) {
      OnBatchKeepsWork(e, s);
      OnBatchKeepsQueue(e, s);
      hide MemoryQueue.Valid, WorkDone, WaitGroupOk, Extends, Apply, Enabled;
    } else if s.Fetch? {
      FetchKeepsValid(e, s.count);
      hide Valid;
    } else {
      LoopStepKeepsValid(e, s);
      hide Valid, Extends, Apply, Enabled;
    }
  }

  lemma LoopStepKeepsWork(e: Elastic, s: Step)
    requires WorkDone(e) && Enabled(e, s) && !OnBatch(s) && !s.Fetch?
    ensures WorkDone(Apply(e, s)) && Apply(e, s).work == e.work
  {
    hide WorkOk, Effect, Allowed;
    assert Apply(e, s).queue.batches == e.queue.batches && Apply(e, s).work == e.work;
  }

  lemma LoopStepKeepsValid(e: Elastic, s: Step)
    requires Valid(e) && Enabled(e, s) && !OnBatch(s) && !s.Fetch?
    ensures Valid(Apply(e, s))
    ensures Extends(e.queue, Apply(e, s).queue)
  {
    hide MemoryQueue.Valid, WorkDone, Uncalled, Effect, Allowed;
    LoopStepKeepsWork(e, s);
    if s.Arrive? {
      EnqueueKeeps(e.queue, s.id, s.event, s.owner);
    } else {
      CloseKeeps(e.queue);
    }
  }

  // ---------------------------------------------------------------- runs

  ghost predicate IsRun(e: Elastic, steps: seq<Step>)
    decreases |steps|
  {
    steps == [] || (Enabled(e, steps[0]) && IsRun(Apply(e, steps[0]), steps[1..]))
  }

  ghost function Run(e: Elastic, steps: seq<Step>): Elastic
    requires IsRun(e, steps)
    decreases |steps|
  {
    if steps == [] then e else Run(Apply(e, steps[0]), steps[1..])
  }

  lemma {:induction false} RunKeepsValid(e: Elastic, steps: seq<Step>)
    requires Valid(e) && IsRun(e, steps)
    ensures Valid(Run(e, steps))
    decreases |steps|
  {
    if steps != [] {
      StepKeepsValid(e, steps[0]);
      hide Valid, Enabled, Apply;
      RunKeepsValid(Apply(e, steps[0]), steps[1..]);
    }
  }

  lemma Reached(firstId: nat, capacity: nat, started: bool, steps: seq<Step>)
    requires IsRun(NewElastic(firstId, capacity, started), steps)
    ensures Valid(Run(NewElastic(firstId, capacity, started), steps))
  {
    RunKeepsValid(NewElastic(firstId, capacity, started), steps);
  }

  /** In every run and for every order of successes, failures and refusals: a batch is
      released and its callback run at most once, only when all its events are settled, and -
      when nothing is left to happen to it - if and only if every event could be serialised. */
  lemma BatchCompletion(firstId: nat, capacity: nat, started: bool, steps: seq<Step>, b: nat)
    requires IsRun(NewElastic(firstId, capacity, started), steps)
    requires b < |Run(NewElastic(firstId, capacity, started), steps).work|
    ensures var e := Run(NewElastic(firstId, capacity, started), steps);
            && |e.queue.batches| == |e.work|
            && var batch, w := e.queue.batches[b], e.work[b];
            && w.callbacks <= batch.releases <= 1
            && (batch.releases == 1 ==> forall i :: 0 <= i < batch.count ==> i in w.settled)
            && (w.skipped != {} ==> batch.releases == 0)
            && (Quiescent(batch, w) ==> w.callbacks == batch.releases == if w.skipped == {} then 1 else 0)
  {
    hide WorkOk;
    Reached(firstId, capacity, started, steps);
    var e := Run(NewElastic(firstId, capacity, started), steps);
    Completion(e.queue.batches[b], e.work[b]);
  }

  /** The duty to release falls to the one settlement that completes the batch. */
  lemma LastSettlementReleases(batch: Batch, w: Work, s: Step)
    requires WorkOk(batch, w) && OnBatch(s) && Allowed(batch, w, s) && (s.Settle? || s.Refuse?)
    ensures var w' := Effect(batch, w, s).1;
            && |w'.settled| == |w.settled| + 1
            && (w'.releasing > w.releasing <==> |w'.settled| == batch.count)
            && w'.releasing <= 1
  {
    EffectOk(batch, w, s);
    if s.Refuse? {
      DoneOneOk(batch, w.(sent := w.sent + 1), w.sent);
    } else {
      assert |w.pending| == |w.pending - {s.i}| + 1;
      DoneOneOk(batch, w.(pending := w.pending - {s.i}), s.i);
    }
  }

  lemma {:induction false} UncalledBound(work: seq<Work>, b: nat)
    requires b < |work|
    requires forall k :: 0 <= k < |work| ==> work[k].callbacks <= 1
    ensures 0 <= Uncalled(work) && (work[b].callbacks == 0 ==> 1 <= Uncalled(work))
  {
    var n := |work| - 1;
    if n > 0 {
      UncalledBound(work[..n], if b < n then b else 0);
    }
  }

  /** Drain: the wait group counts the loop and the outstanding batches, and never drops below
      zero. If Wait returns, the loop is over, every batch has been released and every event in
      them settled; in particular none was skipped. An event that cannot be serialised keeps
      Wait, and with it ServerRunner.Close, from ever returning. */
  lemma WaitMeansDrained(firstId: nat, capacity: nat, started: bool, steps: seq<Step>, b: nat)
    requires IsRun(NewElastic(firstId, capacity, started), steps)
    requires b < |Run(NewElastic(firstId, capacity, started), steps).work|
    ensures var e := Run(NewElastic(firstId, capacity, started), steps);
            && e.wg == (if e.loop.Stopped? then 0 else 1) + Uncalled(e.work) >= 0
            && |e.queue.batches| == |e.work|
            && (e.work[b].skipped != {} ==> e.wg >= 1)
            && (e.wg == 0 ==> e.loop.Stopped? && e.queue.batches[b].releases == 1
                              && forall i :: 0 <= i < e.queue.batches[b].count ==> i in e.work[b].settled)
  {
    hide Valid, Uncalled;
    Reached(firstId, capacity, started, steps);
    StateDrained(Run(NewElastic(firstId, capacity, started), steps), b);
  }

  lemma StateDrained(e: Elastic, b: nat)
    requires Valid(e) && b < |e.work|
    ensures e.wg == (if e.loop.Stopped? then 0 else 1) + Uncalled(e.work) >= 0
    ensures |e.queue.batches| == |e.work|
    ensures e.work[b].skipped != {} ==> e.wg >= 1
    ensures e.wg == 0 ==> e.loop.Stopped? && e.queue.batches[b].releases == 1
                          && forall i :: 0 <= i < e.queue.batches[b].count ==> i in e.work[b].settled
  {
    hide WorkOk, Uncalled;
    forall k | 0 <= k < |e.work|
      ensures e.work[k].callbacks <= 1
    {
      Completion(e.queue.batches[k], e.work[k]);
    }
    UncalledBound(e.work, b);
    Completion(e.queue.batches[b], e.work[b]);
  }

  /** End-to-end: an event below the persisted index is settled, and so is every other event
      of its batch. A batch with an event that could not be serialised is never passed. */
  lemma PersistedMeansSettled(firstId: nat, capacity: nat, started: bool, steps: seq<Step>, p: nat)
    requires IsRun(NewElastic(firstId, capacity, started), steps)
    requires var e := Run(NewElastic(firstId, capacity, started), steps);
             p < |e.queue.entries| && e.queue.entries[p].id < PersistedIndex(e.queue)
    ensures var e := Run(NewElastic(firstId, capacity, started), steps);
            && |e.queue.batches| == |e.work|
            && exists b :: && 0 <= b < |e.work|
                           && e.queue.batches[b].start <= p < e.queue.batches[b].start + e.queue.batches[b].count
                           && p - e.queue.batches[b].start in e.work[b].settled
                           && e.work[b].skipped == {}
  {
    hide WorkOk, PersistedIndex, IsRun, Run;
    Reached(firstId, capacity, started, steps);
    var e := Run(NewElastic(firstId, capacity, started), steps);
    var b := BelowIndexIsReleased(e.queue, p);
    Completion(e.queue.batches[b], e.work[b]);
  }

  // ---------------------------------------------------------------- settled events

  /** Done(1) was called for the event at position p. */
  ghost predicate Settled(e: Elastic, p: nat) {
    exists b :: 0 <= b < |e.work| && SettledIn(e, b, p)
  }

  predicate SettledIn(e: Elastic, b: nat, p: nat) {
    && b < |e.work| == |e.queue.batches|
    && Holds(e.queue.batches[b], p)
    && p - e.queue.batches[b].start in e.work[b].settled
  }

  lemma BatchStepKeepsSettledIn(e: Elastic, s: Step, b: nat, p: nat)
    requires Enabled(e, s) && OnBatch(s) && SettledIn(e, b, p)
    ensures SettledIn(Apply(e, s), b, p)
  {
    hide Effect, Allowed;
    var t := Target(e, s);
    EffectShape(e.queue.batches[t], e.work[t], s);
  }

  lemma LoopStepKeepsSettledIn(e: Elastic, s: Step, b: nat, p: nat)
    requires Enabled(e, s) && !OnBatch(s) && SettledIn(e, b, p)
    ensures SettledIn(Apply(e, s), b, p)
  {
    hide Effect, Allowed, Fetched, HasRoom;
  }

  lemma StepKeepsSettled(e: Elastic, s: Step, p: nat)
    requires Enabled(e, s) && Settled(e, p)
    ensures Settled(Apply(e, s), p)
  {
    hide Enabled, Apply;
    var b :| 0 <= b < |e.work| && SettledIn(e, b, p);
    if OnBatch(s) {
      BatchStepKeepsSettledIn(e, s, b, p);
    } else {
      LoopStepKeepsSettledIn(e, s, b, p);
    }
    assert b < |Apply(e, s).work|;
  }

  lemma StepKeepsSkipped(e: Elastic, s: Step, b: nat)
    requires Enabled(e, s) && b < |e.work| && e.work[b].skipped != {}
    ensures b < |Apply(e, s).work| && Apply(e, s).work[b].skipped != {}
  {
    hide Effect, Allowed;
    if OnBatch(s) {
      var t := Target(e, s);
      EffectShape(e.queue.batches[t], e.work[t], s);
    }
  }

  lemma BelowIndexIsSettled(e: Elastic, p: nat)
    requires Valid(e) && p < |e.queue.entries| && e.queue.entries[p].id < PersistedIndex(e.queue)
    ensures Settled(e, p)
  {
    hide WorkOk, PersistedIndex;
    var b := BelowIndexIsReleased(e.queue, p);
    Completion(e.queue.batches[b], e.work[b]);
    assert SettledIn(e, b, p);
  }

  /** Once Wait can return, exactly what was fetched is settled ... */
  lemma StoppedIffFetched(e: Elastic, p: nat)
    requires Valid(e) && e.wg == 0
    ensures Settled(e, p) <==> p < Fetched(e.queue)
  {
    hide WorkOk, Uncalled;
    if p < Fetched(e.queue) {
      var b := BatchOf(e.queue, |e.queue.batches|, p);
      StateDrained(e, b);
      assert SettledIn(e, b, p);
    }
    if Settled(e, p) {
      var b :| 0 <= b < |e.work| && SettledIn(e, b, p);
      BatchIsFetched(e.queue, b);
    }
  }

  lemma ReleasedIsQuiet(batch: Batch, w: Work)
    requires WorkOk(batch, w) && 0 < batch.count && batch.releases == 1 && w.callbacks == 1
    ensures Quiescent(batch, w)
  {
    assert |w.settled| == batch.count;
    assert |w.pending| == 0;
  }

  lemma {:induction false} AllCalled(work: seq<Work>, b: nat)
    requires b < |work| && Uncalled(work) <= 0
    requires forall k :: 0 <= k < |work| ==> work[k].callbacks <= 1
    ensures work[b].callbacks == 1
  {
    UncalledBound(work, b);
  }

  lemma NothingAllowed(e: Elastic, s: Step)
    requires Valid(e) && e.wg == 0 && OnBatch(s) && 0 <= Target(e, s) < |e.work| && (Sends(s) ==> e.loop.Sending?)
    ensures !Allowed(e.queue.batches[Target(e, s)], e.work[Target(e, s)], s)
  {
    hide WorkOk, Uncalled;
    var b := Target(e, s);
    forall k | 0 <= k < |e.work|
      ensures e.work[k].callbacks <= 1
    {
      Completion(e.queue.batches[k], e.work[k]);
    }
    StateDrained(e, b);
    AllCalled(e.work, b);
    ReleasedIsQuiet(e.queue.batches[b], e.work[b]);
  }

  /** ... and nothing more will ever happen to a batch. */
  lemma StaysStopped(e: Elastic, s: Step)
    requires Valid(e) && e.wg == 0 && Enabled(e, s)
    ensures Apply(e, s).wg == 0 && Fetched(Apply(e, s).queue) == Fetched(e.queue)
  {
    hide Valid, Effect, Allowed;
    LoopStopped(e);
    if OnBatch(s) {
      NothingAllowed(e, s);
      assert false;
    }
  }

  lemma LoopStopped(e: Elastic)
    requires Valid(e) && e.wg == 0
    ensures e.loop.Stopped?
  {
    hide WorkDone, MemoryQueue.Valid;
    if e.work != [] {
      StateDrained(e, 0);
    }
  }

  // ---------------------------------------------------------------- what settles an event

  /** The loop comes to event i of batch b. */
  predicate ComesTo(e: Elastic, b: nat, i: nat) { b == Last(e) && b < |e.work| && e.work[b].sent == i }

  predicate SettledAt(e: Elastic, b: nat, i: nat) { b < |e.work| && i in e.work[b].settled }
  predicate PendingAt(e: Elastic, b: nat, i: nat) { b < |e.work| && i in e.work[b].pending }
  predicate SkippedAt(e: Elastic, b: nat, i: nat) { b < |e.work| && i in e.work[b].skipped }
  predicate PassedAt(e: Elastic, b: nat, i: nat) { b < |e.work| && i < e.work[b].sent }

  /** Every step but these leaves event i of batch b as it is. */
  lemma StepSettles(e: Elastic, s: Step, b: nat, i: nat)
    requires Enabled(e, s)
    ensures var e' := Apply(e, s);
            && (SettledAt(e', b, i) <==> SettledAt(e, b, i) || s == Settle(b, i) || (s.Refuse? && ComesTo(e, b, i)))
            && (PendingAt(e', b, i) <==>
                  s != Settle(b, i) && (PendingAt(e, b, i) || (s.Submit? && ComesTo(e, b, i))))
            && (SkippedAt(e', b, i) <==> SkippedAt(e, b, i) || (s.Skip? && ComesTo(e, b, i)))
            && (PassedAt(e, b, i) ==> PassedAt(e', b, i))
            && (Sends(s) && ComesTo(e, b, i) ==> PassedAt(e', b, i))
            && (s == Settle(b, i) ==> PendingAt(e, b, i))
  {
  }

  /** In the run, the indexer called back for event i of batch b. */
  ghost predicate CalledBack(steps: seq<Step>, b: nat, i: nat) {
    exists k :: 0 <= k < |steps| && steps[k] == Settle(b, i)
  }

  /** In the run, the loop sent event i of batch b with this outcome: handed to the indexer, refused by
      it, or skipped. */
  ghost predicate Sent(e: Elastic, steps: seq<Step>, outcome: Step, b: nat, i: nat)
    requires IsRun(e, steps)
    decreases |steps|
  {
    steps != [] &&
    ((steps[0] == outcome && ComesTo(e, b, i)) || Sent(Apply(e, steps[0]), steps[1..], outcome, b, i))
  }

  lemma {:induction false} SentOnce(e: Elastic, steps: seq<Step>, outcome: Step, b: nat, i: nat)
    requires IsRun(e, steps) && PassedAt(e, b, i)
    ensures !Sent(e, steps, outcome, b, i)
    decreases |steps|
  {
    if steps != [] {
      StepSettles(e, steps[0], b, i);
      hide Enabled, Apply;
      SentOnce(Apply(e, steps[0]), steps[1..], outcome, b, i);
    }
  }

  lemma CalledBackStep(steps: seq<Step>, b: nat, i: nat)
    requires steps != []
    ensures CalledBack(steps, b, i) <==> steps[0] == Settle(b, i) || CalledBack(steps[1..], b, i)
  {
    if CalledBack(steps, b, i) {
      var k :| 0 <= k < |steps| && steps[k] == Settle(b, i);
      assert k > 0 ==> steps[1..][k - 1] == Settle(b, i);
    }
    if CalledBack(steps[1..], b, i) {
      var k :| 0 <= k < |steps[1..]| && steps[1..][k] == Settle(b, i);
      assert steps[k + 1] == Settle(b, i);
    }
  }

  lemma {:induction false} SettledHistory(e: Elastic, steps: seq<Step>, b: nat, i: nat)
    requires IsRun(e, steps)
    ensures SettledAt(Run(e, steps), b, i) <==>
            SettledAt(e, b, i) || CalledBack(steps, b, i) || Sent(e, steps, Refuse, b, i)
    ensures SkippedAt(Run(e, steps), b, i) <==> SkippedAt(e, b, i) || Sent(e, steps, Skip, b, i)
    decreases |steps|
  {
    if steps != [] {
      StepSettles(e, steps[0], b, i);
      CalledBackStep(steps, b, i);
      hide Enabled, Apply, SettledAt, SkippedAt, PendingAt, PassedAt, ComesTo, CalledBack;
      SettledHistory(Apply(e, steps[0]), steps[1..], b, i);
    }
  }

  /** Pending events have been passed by the loop. */
  ghost predicate PendingPassed(e: Elastic, b: nat, i: nat) { PendingAt(e, b, i) ==> PassedAt(e, b, i) }

  lemma {:induction false} PendingHistory(e: Elastic, steps: seq<Step>, b: nat, i: nat)
    requires IsRun(e, steps) && PendingPassed(e, b, i)
    ensures PendingAt(Run(e, steps), b, i) <==>
            (PendingAt(e, b, i) || Sent(e, steps, Submit, b, i)) && !CalledBack(steps, b, i)
    decreases |steps|
  {
    if steps != [] {
      var e' := Apply(e, steps[0]);
      StepSettles(e, steps[0], b, i);
      CalledBackStep(steps, b, i);
      assert PendingPassed(e', b, i);
      if steps[0] == Settle(b, i) {
        SentOnce(e', steps[1..], Submit, b, i);
      }
      hide Enabled, Apply, SettledAt, SkippedAt, PendingAt, PassedAt, ComesTo, CalledBack;
      PendingHistory(e', steps[1..], b, i);
    }
  }

  /** In every run: an event is settled if and only if the indexer has called back for it or refused
      it, pending if and only if the indexer took it and has not called back, and skipped if and only if
      it could not be serialised. */
  lemma SettledIffCalledBack(firstId: nat, capacity: nat, started: bool, steps: seq<Step>, b: nat, i: nat)
    requires IsRun(NewElastic(firstId, capacity, started), steps)
    ensures var e0 := NewElastic(firstId, capacity, started);
            var e := Run(e0, steps);
            && (SettledAt(e, b, i) <==> CalledBack(steps, b, i) || Sent(e0, steps, Refuse, b, i))
            && (PendingAt(e, b, i) <==> Sent(e0, steps, Submit, b, i) && !CalledBack(steps, b, i))
            && (SkippedAt(e, b, i) <==> Sent(e0, steps, Skip, b, i))
  {
    hide IsRun, Run, Sent, CalledBack;
    SettledHistory(NewElastic(firstId, capacity, started), steps, b, i);
    PendingHistory(NewElastic(firstId, capacity, started), steps, b, i);
  }

  /** So the index passes an event only after the indexer has called back for it or refused it. */
  lemma PersistedMeansCalledBack(firstId: nat, capacity: nat, started: bool, steps: seq<Step>, p: nat)
    requires IsRun(NewElastic(firstId, capacity, started), steps)
    requires var e := Run(NewElastic(firstId, capacity, started), steps);
             p < |e.queue.entries| && e.queue.entries[p].id < PersistedIndex(e.queue)
    ensures var e0 := NewElastic(firstId, capacity, started);
            var e := Run(e0, steps);
            exists b, i :: && 0 <= b < |e.queue.batches| && 0 <= i < e.queue.batches[b].count
                           && e.queue.batches[b].start + i == p
                           && (CalledBack(steps, b, i) || Sent(e0, steps, Refuse, b, i))
  {
    hide IsRun, Run, Sent, CalledBack, PersistedIndex, Valid;
    var e := Run(NewElastic(firstId, capacity, started), steps);
    Reached(firstId, capacity, started, steps);
    BelowIndexIsSettled(e, p);
    var b: nat :| b < |e.work| && SettledIn(e, b, p);
    var i: nat := p - e.queue.batches[b].start;
    SettledIffCalledBack(firstId, capacity, started, steps, b, i);
    assert SettledAt(e, b, i);
  }

  // ---------------------------------------------------------------- a run that never ends

  ghost predicate Leads(e: Elastic, e': Elastic) {
    exists steps :: IsRun(e, steps) && Run(e, steps) == e'
  }

  lemma LeadsBy(e: Elastic, s: Step, e': Elastic)
    requires Enabled(e, s) && Leads(Apply(e, s), e')
    ensures Leads(e, e')
  {
    hide Enabled, Apply;
    var steps :| IsRun(Apply(e, s), steps) && Run(Apply(e, s), steps) == e';
    var all := [s] + steps;
    assert all[0] == s && all[1..] == steps;
    assert IsRun(e, all) && Run(e, all) == e';
  }

  /** The states of the run: one event arrives, is fetched and cannot be serialised; then the queue
      is closed and the loop ends. */
  function OneSkipped(k: nat, cap: nat, e: Event, i: nat): Elastic {
    if i == 0 then NewElastic(k, cap, true)
    else
      var batches := if i <= 1 then [] else [Batch(0, 1, 0, 0)];
      var work := if i <= 1 then [] else if i == 2 then [NEW_WORK] else [Work(1, {0}, {}, {}, 0, 0, 0)];
      var loop := if i <= 1 || i == 4 || i == 5 then AtGet else if i <= 3 then Sending
                  else if i == 6 then ClosingIndexer else Stopped;
      Elastic(Queue([Entry(k, e, 0)], k + 1, cap, batches, i >= 5), work, loop, if i <= 1 || i >= 7 then 1 else 2)
  }

  function OneSkippedStep(k: nat, e: Event, i: nat): Step {
    if i == 0 then Arrive(k, e, 0) else if i == 1 then Fetch(1) else if i == 2 then Skip
    else if i == 3 then NextBatch else if i == 4 then CloseDown else if i == 5 then QueueClosed else IndexerClosed
  }

  lemma OneSkippedEntered(k: nat, cap: nat, e: Event)
    requires cap > 0
    ensures Enabled(OneSkipped(k, cap, e, 0), OneSkippedStep(k, e, 0))
    ensures Apply(OneSkipped(k, cap, e, 0), OneSkippedStep(k, e, 0)) == OneSkipped(k, cap, e, 1)
    ensures Enabled(OneSkipped(k, cap, e, 1), OneSkippedStep(k, e, 1))
    ensures Apply(OneSkipped(k, cap, e, 1), OneSkippedStep(k, e, 1)) == OneSkipped(k, cap, e, 2)
  {
    assert [] + [Entry(k, e, 0)] == [Entry(k, e, 0)];
    assert [] + [NEW_WORK] == [NEW_WORK] && [] + [Batch(0, 1, 0, 0)] == [Batch(0, 1, 0, 0)];
  }

  lemma OneSkippedSkips(k: nat, cap: nat, e: Event)
    ensures Enabled(OneSkipped(k, cap, e, 2), OneSkippedStep(k, e, 2))
    ensures Apply(OneSkipped(k, cap, e, 2), OneSkippedStep(k, e, 2)) == OneSkipped(k, cap, e, 3)
  {
    assert {} + {0} == {0};
  }

  lemma OneSkippedEnds(k: nat, cap: nat, e: Event, i: nat)
    requires 3 <= i < 7
    ensures Enabled(OneSkipped(k, cap, e, i), OneSkippedStep(k, e, i))
    ensures Apply(OneSkipped(k, cap, e, i), OneSkippedStep(k, e, i)) == OneSkipped(k, cap, e, i + 1)
  {
  }

  lemma {:induction false} OneSkippedLeads(k: nat, cap: nat, e: Event, i: nat)
    requires cap > 0 && i <= 7
    ensures Leads(OneSkipped(k, cap, e, i), OneSkipped(k, cap, e, 7))
    decreases 7 - i
  {
    if i == 7 {
      assert IsRun(OneSkipped(k, cap, e, 7), []);
    } else {
      OneSkippedEntered(k, cap, e);
      OneSkippedSkips(k, cap, e);
      if i >= 3 {
        OneSkippedEnds(k, cap, e, i);
      }
      hide Leads, Enabled, Apply, OneSkipped, OneSkippedStep;
      OneSkippedLeads(k, cap, e, i + 1);
      LeadsBy(OneSkipped(k, cap, e, i), OneSkippedStep(k, e, i), OneSkipped(k, cap, e, 7));
    }
  }

  /** It happens: a run with one event that cannot be serialised, after which the loop has ended,
      nothing is left to happen to the batch, and the wait group still stands at 1. */
  lemma OneSkipHangs(k: nat, cap: nat, e: Event)
    requires cap > 0
    ensures exists steps ::
              && IsRun(NewElastic(k, cap, true), steps)
              && var d := Run(NewElastic(k, cap, true), steps);
              && d.loop.Stopped? && |d.work| == 1 == |d.queue.batches|
              && Quiescent(d.queue.batches[0], d.work[0]) && d.queue.batches[0].releases == 0 && d.wg == 1
  {
    hide IsRun, Run;
    OneSkippedLeads(k, cap, e, 0);
    var first, last := OneSkipped(k, cap, e, 0), OneSkipped(k, cap, e, 7);
    var steps :| IsRun(first, steps) && Run(first, steps) == last;
    assert IsRun(NewElastic(k, cap, true), steps);
  }

  // ---------------------------------------------------------------- when the output stops

  predicate StopsWhenClosed(e: Elastic) { e.loop.ClosingIndexer? || e.loop.Stopped? ==> e.queue.closed }

  lemma StepStopsWhenClosed(e: Elastic, s: Step)
    requires Enabled(e, s) && StopsWhenClosed(e)
    ensures StopsWhenClosed(Apply(e, s))
  {
    hide Effect, Allowed;
  }

  lemma {:induction false} RunStopsWhenClosed(e: Elastic, steps: seq<Step>)
    requires IsRun(e, steps) && StopsWhenClosed(e)
    ensures StopsWhenClosed(Run(e, steps))
    decreases |steps|
  {
    if steps != [] {
      StepStopsWhenClosed(e, steps[0]);
      hide Enabled, Apply, StopsWhenClosed;
      RunStopsWhenClosed(Apply(e, steps[0]), steps[1..]);
    }
  }

  /** In every run, an output that was started stops only after its queue was closed. */
  lemma StopsOnlyWhenClosed(firstId: nat, capacity: nat, steps: seq<Step>)
    requires IsRun(NewElastic(firstId, capacity, true), steps)
    ensures var e := Run(NewElastic(firstId, capacity, true), steps);
            e.loop.Stopped? ==> e.queue.closed
  {
    hide IsRun, Run;
    RunStopsWhenClosed(NewElastic(firstId, capacity, true), steps);
  }
}
