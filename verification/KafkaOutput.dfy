/**
 The Kafka output loop (output/kafka/output.go) at work on one queue: fetch a batch,
 publish it round after round until nothing has failed, report progress to the batch.
 A `Delivery` is the queue of one generation together with its output.
 */
module KafkaOutput {
  import opened Basics
  import opened MemoryQueue
  import KR = KafkaRound

  const MAX_BATCH: nat := 1000

  /** The program counter and the local variables of the output goroutine. */
  datatype Loop =
    | AtGet
    | AtHead(events: seq<nat>, remaining: int)                  // for len(events) > 0
    | InRound(round: KR.Round, remaining: int)                  // inside publishEvents
    | AtDone(events: seq<nat>, remaining: int, completed: int)  // about to call batch.Done(completed)
    | AtRelease(events: seq<nat>, remaining: int)               // the addition reached the batch size
    | AtTail(remaining: int)                                    // the retry loop has ended
    | AtTailRelease
    | Stopped

  datatype Delivery = Delivery(queue: Queue, loop: Loop, wg: int,
                               acked: multiset<nat>, dropped: seq<Tagged<KR.DropReason>>)

  /** A fresh queue whose output has started, or failed to start. */
  function NewDelivery(firstId: nat, capacity: nat, started: bool): Delivery {
    Delivery(NewQueue(firstId, capacity), if started then AtGet else Stopped, if started then 1 else 0, multiset{}, [])
  }

  /** The first two steps belong to the publishers and to the runner that closes the queue. */
  datatype Step =
    | Arrive(id: nat, event: Event, owner: nat)
    | CloseDown
    | Fetch(count: nat)
    | QueueClosed
    | BeginRound
    | Within(step: KR.Step)
    | EndRound
    | AddCompleted
    | ReleaseBatch
    | LeaveLoop
    | TailDone
    | TailRelease
    | NextBatch

  function LastBatch(d: Delivery): Batch
    requires d.queue.batches != []
  {
    d.queue.batches[|d.queue.batches| - 1]
  }

  function WithLast(d: Delivery, b: Batch): Delivery
    requires d.queue.batches != []
  {
    d.(queue := SetBatch(d.queue, |d.queue.batches| - 1, b))
  }

  predicate Enabled(d: Delivery, s: Step) {
    match s
    case Arrive(id, _, _) => !d.queue.closed && HasRoom(d.queue) && d.queue.nextId <= id
    case CloseDown => true
    case Fetch(count) => d.loop.AtGet? && 0 < count <= MAX_BATCH && Fetched(d.queue) + count <= |d.queue.entries|
    case QueueClosed => d.loop.AtGet? && d.queue.closed
    case BeginRound => d.loop.AtHead? && |d.loop.events| > 0
    case Within(t) => d.loop.InRound? && KR.Enabled(d.loop.round, t)
    case EndRound => d.loop.InRound? && KR.Returns(d.loop.round)
    case AddCompleted => d.loop.AtDone? && d.queue.batches != []
    case ReleaseBatch => d.loop.AtRelease? && d.queue.batches != []
    case LeaveLoop => d.loop.AtHead? && |d.loop.events| == 0
    case TailDone => d.loop.AtTail? && d.loop.remaining > 0 && d.queue.batches != []
    case TailRelease => d.loop.AtTailRelease? && d.queue.batches != []
    case NextBatch => d.loop.AtTail? && !(d.loop.remaining > 0)
  }

  function Apply(d: Delivery, s: Step): Delivery
    requires Enabled(d, s)
  {
    match s
    case Arrive(id, event, owner) =>
      d.(queue := Enqueue(d.queue, id, event, owner))
    case CloseDown =>
      d.(queue := CloseQueue(d.queue))
    case Fetch(count) =>
      var f := Fetched(d.queue);
      d.(queue := TakeBatch(d.queue, count), loop := AtHead(Range(f, f + count), count))
    case QueueClosed =>
      d.(loop := Stopped, wg := d.wg - 1)
    case BeginRound =>
      d.(loop := InRound(KR.NewRound(d.loop.events), d.loop.remaining))
    case Within(t) =>
      d.(loop := InRound(KR.Apply(d.loop.round, t), d.loop.remaining))
    case EndRound =>
      var r := d.loop.round;
      var failed := r.ref.failed;
      d.(loop := AtDone(failed, |failed|, Sub64(d.loop.remaining, |failed|)),
         acked := d.acked + r.acked, dropped := d.dropped + r.dropped)
    case AddCompleted =>
      var b := AddDone(LastBatch(d), d.loop.completed);
      WithLast(d, b).(loop := if ReachedCount(b) then AtRelease(d.loop.events, d.loop.remaining)
                              else AtHead(d.loop.events, d.loop.remaining))
    case ReleaseBatch =>
      WithLast(d, Release(LastBatch(d))).(loop := AtHead(d.loop.events, d.loop.remaining))
    case LeaveLoop =>
      d.(loop := AtTail(d.loop.remaining))
    case TailDone =>
      var b := AddDone(LastBatch(d), d.loop.remaining);
      WithLast(d, b).(loop := if ReachedCount(b) then AtTailRelease else AtGet)
    case TailRelease =>
      WithLast(d, Release(LastBatch(d))).(loop := AtGet)
    case NextBatch =>
      d.(loop := AtGet)
  }

  // ---------------------------------------------------------------- the invariant

  /** The fetched events that are not settled for good. */
  function Open(l: Loop): seq<nat> {
    match l
    case AtHead(events, _) => events
    case InRound(round, _) => round.data
    case AtDone(events, _, _) => events
    case AtRelease(events, _) => events
    case _ => []
  }

  predicate Complete(b: Batch) { b.releases == 1 && b.doneCount == b.count }

  /** The batch in hand: what has been reported for it and what remains always add up to
      its size, and it is released exactly when nothing remains. */
  ghost predicate InHand(b: Batch, l: Loop) {
    match l
    case AtHead(events, remaining) =>
      && remaining == |events| && b.doneCount + remaining == b.count
      && b.releases == (if events == [] then 1 else 0)
    case InRound(round, remaining) =>
      remaining == |round.data| > 0 && b.doneCount + remaining == b.count && b.releases == 0
    case AtDone(events, remaining, completed) =>
      remaining == |events| && 0 <= completed && 0 < completed + remaining == b.count - b.doneCount && b.releases == 0
    case AtRelease(events, remaining) =>
      remaining == 0 && events == [] && b.doneCount == b.count && b.releases == 0
    case AtTail(remaining) =>
      remaining == 0 && Complete(b)
    case AtTailRelease => false
    case _ => Complete(b)
  }

  ghost predicate Accounted(d: Delivery) {
    && (forall k :: 0 <= k < |d.queue.batches| - 1 ==> Complete(d.queue.batches[k]))
    && (forall k :: 0 <= k < |d.queue.batches| ==>
          0 <= d.queue.batches[k].doneCount && d.queue.batches[k].count <= MAX_BATCH)
    && (if d.queue.batches == [] then d.loop.AtGet? || d.loop.Stopped? else InHand(LastBatch(d), d.loop))
  }

  ghost predicate RoundOk(l: Loop) { l.InRound? ==> KR.Valid(l.round) }

  /** Only events of the batch in hand are open. */
  ghost predicate OpenIsLast(d: Delivery) {
    d.queue.batches != [] ==> forall p :: p in Open(d.loop) ==> LastBatch(d).start <= p
  }

  /** The places where event p can be: acknowledged, dropped, or open. */
  function Places(d: Delivery, p: nat): nat { d.acked[p] + Msgs(d.dropped)[p] + multiset(Open(d.loop))[p] }

  /** Every fetched event is in exactly one place. */
  ghost predicate Conserved(d: Delivery) {
    forall p: nat ::
      d.acked[p] + Msgs(d.dropped)[p] + multiset(Open(d.loop))[p] == if p < Fetched(d.queue) then 1 else 0
  }

  lemma ConservedPlaces(d: Delivery)
    ensures Conserved(d) <==> forall p: nat :: Places(d, p) == if p < Fetched(d.queue) then 1 else 0
  {
    hide Msgs, Open, Fetched;
    if Conserved(d) {
      assert forall p: nat :: Places(d, p) == d.acked[p] + Msgs(d.dropped)[p] + multiset(Open(d.loop))[p];
    } else {
      var p: nat :|
        d.acked[p] + Msgs(d.dropped)[p] + multiset(Open(d.loop))[p] != if p < Fetched(d.queue) then 1 else 0;
      assert Places(d, p) != if p < Fetched(d.queue) then 1 else 0;
    }
  }

  /** wg counts the output goroutine and nothing else. */
  predicate WaitGroupOk(d: Delivery) { d.wg == if d.loop.Stopped? then 0 else 1 }

  ghost predicate Valid(d: Delivery) {
    && MemoryQueue.Valid(d.queue) && WaitGroupOk(d)
    && RoundOk(d.loop) && Accounted(d) && OpenIsLast(d) && Conserved(d)
  }

  lemma NewDeliveryValid(firstId: nat, capacity: nat, started: bool)
    ensures Valid(NewDelivery(firstId, capacity, started))
  {
  }

  lemma StepKeepsQueue(d: Delivery, s: Step)
    requires MemoryQueue.Valid(d.queue) && WaitGroupOk(d) && Enabled(d, s)
    ensures MemoryQueue.Valid(Apply(d, s).queue) && WaitGroupOk(Apply(d, s))
    ensures Extends(d.queue, Apply(d, s).queue)
  {
    if s.Fetch? {
      TakeBatchKeeps(d.queue, s.count);
    } else if s.Arrive? {
      EnqueueKeeps(d.queue, s.id, s.event, s.owner);
    } else if s.CloseDown? {
      CloseKeeps(d.queue);
    } else if s.AddCompleted? || s.ReleaseBatch? || s.TailDone? || s.TailRelease? {
      SetBatchKeeps(d.queue, |d.queue.batches| - 1, LastBatch(Apply(d, s)));
    }
    hide MemoryQueue.Valid, KR.Apply, KR.Enabled, KR.Returns, AddDone, ReachedCount;
  }

  lemma StepKeepsRound(d: Delivery, s: Step)
    requires RoundOk(d.loop) && Enabled(d, s)
    ensures RoundOk(Apply(d, s).loop)
    ensures s.Within? ==> Apply(d, s).loop.round.data == d.loop.round.data
  {
    if s.Within? {
      KR.StepKeepsValid(d.loop.round, s.step);
    } else if s.BeginRound? {
      KR.NewRoundValid(d.loop.events);
    }
  }

  /** A round never returns more failures than it was given events, so `completed` does not underflow. */
  lemma NoUnderflow(r: KR.Round)
    requires KR.Valid(r) && KR.Returns(r)
    ensures |r.ref.failed| <= |r.data|
  {
    KR.ReturnedRoundIsDecided(r);
  }

  lemma FetchKeepsAccounted(d: Delivery, count: nat)
    requires Accounted(d) && Enabled(d, Fetch(count))
    ensures Accounted(Apply(d, Fetch(count)))
  {
  }

  lemma OutsideStepKeepsAccounted(d: Delivery, s: Step)
    requires Accounted(d) && Enabled(d, s) && (s.Arrive? || s.CloseDown?)
    ensures Accounted(Apply(d, s))
  {
  }

  /** The steps that do not touch a batch. */
  predicate Local(s: Step) {
    s.QueueClosed? || s.BeginRound? || s.Within? || s.EndRound? || s.LeaveLoop? || s.NextBatch?
  }

  lemma LocalStepKeepsInHand(d: Delivery, s: Step, b: Batch)
    requires InHand(b, d.loop) && RoundOk(d.loop) && 0 <= b.doneCount && b.count <= MAX_BATCH
    requires Enabled(d, s) && Local(s)
    ensures InHand(b, Apply(d, s).loop) && Apply(d, s).queue == d.queue
  {
    if s.Within? {
      StepKeepsRound(d, s);
    } else if s.EndRound? {
      NoUnderflow(d.loop.round);
    }
    hide RoundOk, KR.Apply, KR.Enabled, KR.Returns;
  }

  lemma LocalStepKeepsAccounted(d: Delivery, s: Step)
    requires Accounted(d) && RoundOk(d.loop)
    requires Enabled(d, s) && Local(s)
    ensures Accounted(Apply(d, s))
  {
    if d.queue.batches != [] {
      LocalStepKeepsInHand(d, s, LastBatch(d));
      hide RoundOk, Apply, Enabled, InHand;
    } else {
      hide RoundOk, KR.Apply, KR.Enabled, KR.Returns;
    }
  }

  /** Reporting progress and releasing change the last batch only. */
  lemma BatchStepKeepsAccounted(d: Delivery, s: Step)
    requires Accounted(d) && Enabled(d, s) && (s.AddCompleted? || s.ReleaseBatch?)
    ensures Accounted(Apply(d, s))
  {
  }

  lemma StepKeepsAccounted(d: Delivery, s: Step)
    requires Accounted(d) && RoundOk(d.loop) && Enabled(d, s)
    ensures Accounted(Apply(d, s)) && !s.TailDone? && !s.TailRelease?
  {
    hide Apply, RoundOk, KR.Enabled;
    if s.Fetch? {
      FetchKeepsAccounted(d, s.count);
    } else if s.Arrive? || s.CloseDown? {
      OutsideStepKeepsAccounted(d, s);
    } else if s.AddCompleted? || s.ReleaseBatch? {
      BatchStepKeepsAccounted(d, s);
    } else if !s.TailDone? && !s.TailRelease? {
      LocalStepKeepsAccounted(d, s);
    }
  }

  lemma RoundStepIsQuiet(d: Delivery, t: KR.Step)
    requires RoundOk(d.loop) && Enabled(d, Within(t))
    ensures Open(Apply(d, Within(t)).loop) == Open(d.loop)
  {
    hide RoundOk, KR.Apply, KR.Enabled;
    StepKeepsRound(d, Within(t));
  }

  /** The steps that neither fetch nor end a round leave every event where it is ... */
  lemma QuietStep(d: Delivery, s: Step)
    requires RoundOk(d.loop) && Enabled(d, s) && !s.Fetch? && !s.EndRound?
    ensures Open(Apply(d, s).loop) == Open(d.loop)
    ensures Apply(d, s).acked == d.acked && Apply(d, s).dropped == d.dropped
  {
    hide RoundOk, KR.Apply, KR.Enabled, KR.Returns, AddDone, ReachedCount, SetBatch, Fetched;
    if s.Within? {
      RoundStepIsQuiet(d, s.step);
      hide Open;
    }
  }

  /** ... and every batch in its place. */
  lemma QuietStepBatches(d: Delivery, s: Step)
    requires Enabled(d, s) && !s.Fetch?
    ensures var q, q' := d.queue, Apply(d, s).queue;
            && Fetched(q') == Fetched(q) && |q'.batches| == |q.batches|
            && (q.batches != [] ==> LastBatch(Apply(d, s)).start == LastBatch(d).start)
  {
    hide KR.Apply, KR.Enabled;
  }

  lemma StepKeepsOpen(d: Delivery, s: Step)
    requires OpenIsLast(d) && Accounted(d) && RoundOk(d.loop) && Enabled(d, s)
    ensures OpenIsLast(Apply(d, s))
  {
    if s.Fetch? {
      var r := Range(Fetched(d.queue), Fetched(d.queue) + s.count);
      assert forall p :: p in r ==> Fetched(d.queue) <= p;
    } else if s.EndRound? {
      FailedWereGiven(d.loop.round);
      assert Apply(d, s).queue == d.queue && Open(d.loop) == d.loop.round.data;
      assert Open(Apply(d, s).loop) == d.loop.round.ref.failed;
    } else {
      QuietStep(d, s);
      QuietStepBatches(d, s);
      hide Accounted, RoundOk, Apply, Enabled, Open, Fetched;
    }
  }

  lemma FailedWereGiven(r: KR.Round)
    requires KR.Valid(r) && KR.Returns(r)
    ensures forall p :: p in r.ref.failed ==> p in r.data
  {
    KR.ReturnedRoundIsDecided(r);
    assert forall p :: p in r.ref.failed ==> p in multiset(r.data);
  }

  lemma StepKeepsConserved(d: Delivery, s: Step)
    requires Conserved(d) && RoundOk(d.loop) && Enabled(d, s)
    ensures Conserved(Apply(d, s))
  {
    if s.Fetch? {
      FetchKeepsConserved(d, s.count);
    } else if s.EndRound? {
      EndRoundKeepsConserved(d);
    } else {
      QuietStep(d, s);
      QuietStepBatches(d, s);
      hide RoundOk, Apply, Enabled, Open;
    }
  }

  lemma FetchKeepsConserved(d: Delivery, count: nat)
    requires Conserved(d) && Enabled(d, Fetch(count))
    ensures Conserved(Apply(d, Fetch(count)))
  {
    hide Fetched;
    TakeBatchEnd(d.queue, count);
    var f := Fetched(d.queue);
    var m := multiset(Range(f, f + count));
    forall p: nat
      ensures m[p] == if f <= p < f + count then 1 else 0
    {
      RangeCounts(f, f + count, p);
    }
  }

  lemma TakeBatchEnd(q: Queue, count: nat)
    ensures Fetched(TakeBatch(q, count)) == Fetched(q) + count
  {
  }

  lemma DecidedCounts(r: KR.Round, p: nat)
    requires KR.Valid(r) && KR.Returns(r)
    ensures multiset(r.data)[p] == r.acked[p] + Msgs(r.dropped)[p] + multiset(r.ref.failed)[p]
  {
    hide KR.Valid;
    KR.ReturnedRoundIsDecided(r);
  }

  lemma EndRoundCounts(d: Delivery, p: nat)
    requires Enabled(d, EndRound) && KR.Valid(d.loop.round)
    ensures Places(Apply(d, EndRound), p) == Places(d, p)
  {
    hide KR.Valid, KR.Returns, Msgs;
    var r := d.loop.round;
    DecidedCounts(r, p);
    MsgsConcat(d.dropped, r.dropped);
    assert Apply(d, EndRound).acked == d.acked + r.acked;
  }

  lemma EndRoundKeepsConserved(d: Delivery)
    requires Conserved(d) && Enabled(d, EndRound) && KR.Valid(d.loop.round)
    ensures Conserved(Apply(d, EndRound))
  {
    var d' := Apply(d, EndRound);
    assert d'.queue == d.queue;
    ConservedPlaces(d);
    ConservedPlaces(d');
    hide KR.Valid, KR.Returns, Enabled, Places, Conserved, Fetched, Apply;
    forall p: nat
      ensures Places(d', p) == if p < Fetched(d'.queue) then 1 else 0
    {
      EndRoundCounts(d, p);
    }
  }

  lemma StepKeepsValid(d: Delivery, s: Step)
    requires Valid(d) && Enabled(d, s)
    ensures Valid(Apply(d, s))
    ensures Extends(d.queue, Apply(d, s).queue)
  {
    hide Accounted, RoundOk, OpenIsLast, Conserved, WaitGroupOk, MemoryQueue.Valid, Extends, Apply, Enabled;
    StepKeepsQueue(d, s);
    StepKeepsRound(d, s);
    StepKeepsAccounted(d, s);
    StepKeepsOpen(d, s);
    StepKeepsConserved(d, s);
  }

  ghost predicate IsRun(d: Delivery, steps: seq<Step>)
    decreases |steps|
  {
    steps == [] || (Enabled(d, steps[0]) && IsRun(Apply(d, steps[0]), steps[1..]))
  }

  ghost function Run(d: Delivery, steps: seq<Step>): Delivery
    requires IsRun(d, steps)
    decreases |steps|
  {
    if steps == [] then d else Run(Apply(d, steps[0]), steps[1..])
  }

  lemma {:induction false} RunKeepsValid(d: Delivery, steps: seq<Step>)
    requires Valid(d) && IsRun(d, steps)
    ensures Valid(Run(d, steps))
    ensures PersistedIndex(d.queue) <= PersistedIndex(Run(d, steps).queue)
    decreases |steps|
  {
    if steps != [] {
      StepKeepsValid(d, steps[0]);
      IndexNeverDecreases(d.queue, Apply(d, steps[0]).queue);
      RunKeepsValid(Apply(d, steps[0]), steps[1..]);
    }
  }

  // ---------------------------------------------------------------- end-to-end safety

  /** Acknowledged by the broker or dropped for a stated reason, once and not both. */
  ghost predicate Settled(d: Delivery, p: nat) {
    d.acked[p] + Msgs(d.dropped)[p] == 1
  }

  lemma BatchesAscend(q: Queue, j: nat, k: nat)
    requires MemoryQueue.Valid(q) && j < k < |q.batches|
    ensures q.batches[j].start + q.batches[j].count <= q.batches[k].start
  {
    EndGrows(q, j + 1, k);
  }

  lemma NothingOpenAfterRelease(d: Delivery)
    requires Accounted(d) && d.queue.batches != [] && LastBatch(d).releases > 0
    ensures Open(d.loop) == []
  {
  }

  lemma BelowIndexIsSettled(d: Delivery, p: nat)
    requires Valid(d) && p < |d.queue.entries| && d.queue.entries[p].id < PersistedIndex(d.queue)
    ensures Settled(d, p)
  {
    var k := BelowIndexIsReleased(d.queue, p);
    var last := |d.queue.batches| - 1;
    BatchIsFetched(d.queue, k);
    if k == last {
      NothingOpenAfterRelease(d);
    } else {
      BatchesAscend(d.queue, k, last);
    }
    assert p !in Open(d.loop);
  }

  /** In every run of the output, an event whose ID is below the persisted index was
      acknowledged or dropped, exactly once; none is merely failed or pending. */
  lemma PersistedMeansSettled(firstId: nat, capacity: nat, started: bool, steps: seq<Step>, p: nat)
    requires IsRun(NewDelivery(firstId, capacity, started), steps)
    ensures var d := Run(NewDelivery(firstId, capacity, started), steps);
            p < |d.queue.entries| && d.queue.entries[p].id < PersistedIndex(d.queue) ==> Settled(d, p)
  {
    NewDeliveryValid(firstId, capacity, started);
    RunKeepsValid(NewDelivery(firstId, capacity, started), steps);
    var d := Run(NewDelivery(firstId, capacity, started), steps);
    if p < |d.queue.entries| && d.queue.entries[p].id < PersistedIndex(d.queue) {
      BelowIndexIsSettled(d, p);
    }
  }

  lemma StoppedIsDrained(d: Delivery)
    requires Valid(d) && d.wg == 0
    ensures forall k :: 0 <= k < |d.queue.batches| ==> d.queue.batches[k].releases == 1
    ensures forall p :: 0 <= p < Fetched(d.queue) ==> Settled(d, p)
  {
    hide MemoryQueue.Valid, KR.Valid;
    assert Open(d.loop) == [];
  }

  /** Drain: once Wait can return, every batch that was fetched has been released, once,
      and every fetched event is settled. */
  lemma WaitMeansDrained(firstId: nat, capacity: nat, started: bool, steps: seq<Step>)
    requires IsRun(NewDelivery(firstId, capacity, started), steps)
    ensures var d := Run(NewDelivery(firstId, capacity, started), steps);
            && 0 <= d.wg <= 1
            && (d.wg == 0 ==>
                  && (forall k :: 0 <= k < |d.queue.batches| ==> d.queue.batches[k].releases == 1)
                  && (forall p :: 0 <= p < Fetched(d.queue) ==> Settled(d, p)))
  {
    hide MemoryQueue.Valid, Accounted, RoundOk, OpenIsLast, Conserved;
    NewDeliveryValid(firstId, capacity, started);
    RunKeepsValid(NewDelivery(firstId, capacity, started), steps);
    var d := Run(NewDelivery(firstId, capacity, started), steps);
    if d.wg == 0 {
      StoppedIsDrained(d);
    }
  }

  /** What is settled stays settled. */
  lemma StepKeepsSettled(d: Delivery, s: Step, p: nat)
    requires Valid(d) && Enabled(d, s) && Settled(d, p)
    ensures Settled(Apply(d, s), p)
  {
    hide MemoryQueue.Valid, Accounted, RoundOk, OpenIsLast, Apply, Enabled, Fetched, Open;
    StepKeepsValid(d, s);
    StepOnlyAdds(d, s, p);
    assert Conserved(Apply(d, s));
  }

  lemma StepOnlyAdds(d: Delivery, s: Step, p: nat)
    requires RoundOk(d.loop) && Enabled(d, s)
    ensures d.acked[p] + Msgs(d.dropped)[p] <= Apply(d, s).acked[p] + Msgs(Apply(d, s).dropped)[p]
  {
    hide RoundOk, KR.Apply, KR.Enabled, KR.Returns, Msgs, Open;
    if s.EndRound? {
      MsgsConcat(d.dropped, d.loop.round.dropped);
    } else if !s.Fetch? {
      QuietStep(d, s);
    }
  }

  /** A stopped output has settled exactly what it had fetched ... */
  lemma StoppedIffFetched(d: Delivery, p: nat)
    requires Valid(d) && d.wg == 0
    ensures Settled(d, p) <==> p < Fetched(d.queue)
  {
    hide MemoryQueue.Valid, Fetched;
    assert Open(d.loop) == [];
  }

  /** ... and will never fetch or settle anything more. */
  lemma StaysStopped(d: Delivery, s: Step)
    requires WaitGroupOk(d) && d.wg == 0 && Enabled(d, s)
    ensures Apply(d, s).wg == 0 && Fetched(Apply(d, s).queue) == Fetched(d.queue)
  {
  }

  // ---------------------------------------------------------------- what settles an event

  /** The step decides event p: the broker acknowledges it, or reports it with an error that is not
      worth a retry, or it is given up before it is sent. */
  predicate Decides(d: Delivery, s: Step, p: nat) {
    s.Within? && d.loop.InRound? && KR.Decides(d.loop.round, s.step, p)
  }

  function Decided(d: Delivery, p: nat): nat {
    d.acked[p] + Msgs(d.dropped)[p] + if d.loop.InRound? then KR.Decided(d.loop.round, p) else 0
  }

  lemma EndRoundDecides(d: Delivery, p: nat)
    requires RoundOk(d.loop) && Enabled(d, EndRound)
    ensures Decided(Apply(d, EndRound), p) == Decided(d, p)
  {
    var r := d.loop.round;
    KR.NothingReported(r);
    MsgsConcat(d.dropped, r.dropped);
    assert Apply(d, EndRound).acked == d.acked + r.acked;
    hide KR.Valid, KR.Returns;
  }

  lemma StepDecides(d: Delivery, s: Step, p: nat)
    requires RoundOk(d.loop) && Enabled(d, s)
    ensures Decided(Apply(d, s), p) == Decided(d, p) + if Decides(d, s, p) then 1 else 0
  {
    if s.EndRound? {
      hide RoundOk, Decided;
      EndRoundDecides(d, p);
    } else if s.Within? {
      KR.StepDecides(d.loop.round, s.step, p);
      hide RoundOk, KR.Apply, KR.Enabled, KR.Decides, KR.Decided;
    } else {
      hide RoundOk, KR.Apply, KR.Enabled, KR.Returns, AddDone, ReachedCount, SetBatch;
    }
  }

  /** How many steps of a run decide event p. */
  ghost function Decisions(d: Delivery, steps: seq<Step>, p: nat): nat
    requires IsRun(d, steps)
    decreases |steps|
  {
    if steps == [] then 0
    else (if Decides(d, steps[0], p) then 1 else 0) + Decisions(Apply(d, steps[0]), steps[1..], p)
  }

  lemma {:induction false} RunDecides(d: Delivery, steps: seq<Step>, p: nat)
    requires Valid(d) && IsRun(d, steps)
    ensures Decided(Run(d, steps), p) == Decided(d, p) + Decisions(d, steps, p)
    decreases |steps|
  {
    if steps != [] {
      StepKeepsValid(d, steps[0]);
      StepDecides(d, steps[0], p);
      hide Valid, Enabled, Apply, Decided, Decides;
      RunDecides(Apply(d, steps[0]), steps[1..], p);
    }
  }

  lemma NotInRound(d: Delivery, p: nat)
    requires Valid(d) && p !in Open(d.loop)
    ensures Decided(d, p) == d.acked[p] + Msgs(d.dropped)[p]
  {
    if d.loop.InRound? {
      var r := d.loop.round;
      assert multiset(r.data)[p] == KR.Places(r, p) == 0;
      PendingInErrors(r.errors, p);
    }
    hide MemoryQueue.Valid, Accounted, OpenIsLast, Conserved;
  }

  lemma {:induction false} PendingInErrors(errors: seq<Tagged<KR.ProducerError>>, p: nat)
    ensures Msgs(KR.GivenUp(errors))[p] <= Msgs(errors)[p]
  {
    if errors != [] {
      PendingInErrors(errors[1..], p);
      MsgsConcat(KR.GivenUpFor(errors[0]), KR.GivenUp(errors[1..]));
    }
  }

  /** End to end, told by what happened: in every run, an event whose ID is below the persisted index
      was decided by exactly one step. It was acknowledged by the broker, or reported with an error that
      is not worth a retry, or given up before it was sent. */
  lemma PersistedMeansDecided(firstId: nat, capacity: nat, started: bool, steps: seq<Step>, p: nat)
    requires IsRun(NewDelivery(firstId, capacity, started), steps)
    ensures var d := Run(NewDelivery(firstId, capacity, started), steps);
            p < |d.queue.entries| && d.queue.entries[p].id < PersistedIndex(d.queue) ==>
              Decisions(NewDelivery(firstId, capacity, started), steps, p) == 1
  {
    hide Valid, IsRun, Run, Decisions, Decided, PersistedIndex, Settled;
    var d0 := NewDelivery(firstId, capacity, started);
    var d := Run(d0, steps);
    NewDeliveryValid(firstId, capacity, started);
    NothingDecided(firstId, capacity, started, p);
    RunKeepsValid(d0, steps);
    RunDecides(d0, steps, p);
    if p < |d.queue.entries| && d.queue.entries[p].id < PersistedIndex(d.queue) {
      BelowIndexIsDecided(d, p);
    }
  }

  lemma NothingDecided(firstId: nat, capacity: nat, started: bool, p: nat)
    ensures Decided(NewDelivery(firstId, capacity, started), p) == 0
  {
  }

  lemma BelowIndexIsDecided(d: Delivery, p: nat)
    requires Valid(d) && p < |d.queue.entries| && d.queue.entries[p].id < PersistedIndex(d.queue)
    ensures Decided(d, p) == 1
  {
    hide PersistedIndex, Decided, MemoryQueue.Valid, Accounted, RoundOk, OpenIsLast, Fetched;
    BelowIndexIsSettled(d, p);
    assert Settled(d, p);
    assert multiset(Open(d.loop))[p] == 0;
    NotInRound(d, p);
  }

  // ---------------------------------------------------------------- retry accounting

  /** At every step of every run: what is reported and what remains add up to the batch;
      the subtraction that yields `completed` does not wrap; the batch is released by a
      round that leaves no failure, and by no other; it is never released twice; and the
      call behind the retry loop is never reached. */
  lemma RetryAccounting(firstId: nat, capacity: nat, steps: seq<Step>, s: Step)
    requires IsRun(NewDelivery(firstId, capacity, true), steps)
    requires Enabled(Run(NewDelivery(firstId, capacity, true), steps), s)
    ensures var d := Run(NewDelivery(firstId, capacity, true), steps);
            var d' := Apply(d, s);
            && (d.loop.AtHead? || d.loop.InRound? ==>
                  d.queue.batches != [] && LastBatch(d).doneCount + d.loop.remaining == LastBatch(d).count)
            && (s.EndRound? ==> d'.loop.completed == d.loop.remaining - |d'.loop.events|)
            && (s.AddCompleted? ==> (d'.loop.AtRelease? <==> d.loop.events == []))
            && (s.AddCompleted? && d.loop.completed == 0 ==> d'.loop.AtHead?)
            && (s.ReleaseBatch? ==> LastBatch(d).releases == 0)
            && (forall k :: 0 <= k < |d'.queue.batches| ==> d'.queue.batches[k].releases <= 1)
            && !s.TailDone? && !s.TailRelease?
  {
    hide Valid, Accounted, Apply, Enabled;
    NewDeliveryValid(firstId, capacity, true);
    RunKeepsValid(NewDelivery(firstId, capacity, true), steps);
    var d := Run(NewDelivery(firstId, capacity, true), steps);
    StepAccounting(d, s);
  }

  lemma StepAccounting(d: Delivery, s: Step)
    requires Accounted(d) && RoundOk(d.loop) && Enabled(d, s)
    ensures d.loop.AtHead? || d.loop.InRound? ==>
              d.queue.batches != [] && LastBatch(d).doneCount + d.loop.remaining == LastBatch(d).count
    ensures s.EndRound? ==> Apply(d, s).loop.completed == d.loop.remaining - |Apply(d, s).loop.events|
    ensures s.AddCompleted? ==> (Apply(d, s).loop.AtRelease? <==> d.loop.events == [])
    ensures s.AddCompleted? && d.loop.completed == 0 ==> Apply(d, s).loop.AtHead?
    ensures s.ReleaseBatch? ==> LastBatch(d).releases == 0
    ensures forall k :: 0 <= k < |Apply(d, s).queue.batches| ==> Apply(d, s).queue.batches[k].releases <= 1
    ensures !s.TailDone? && !s.TailRelease?
  {
    hide KR.Valid, KR.Apply, KR.Enabled, KR.Returns;
    StepKeepsAccounted(d, s);
    if s.EndRound? {
      NoUnderflow(d.loop.round);
    }
  }

  // ---------------------------------------------------------------- when the output stops

  predicate StopsWhenClosed(d: Delivery) { d.loop.Stopped? ==> d.queue.closed }

  lemma StepStopsWhenClosed(d: Delivery, s: Step)
    requires Enabled(d, s) && StopsWhenClosed(d)
    ensures StopsWhenClosed(Apply(d, s))
  {
    hide KR.Apply, KR.Enabled, KR.Returns, AddDone, ReachedCount;
  }

  lemma {:induction false} RunStopsWhenClosed(d: Delivery, steps: seq<Step>)
    requires IsRun(d, steps) && StopsWhenClosed(d)
    ensures StopsWhenClosed(Run(d, steps))
    decreases |steps|
  {
    if steps != [] {
      StepStopsWhenClosed(d, steps[0]);
      hide Enabled, Apply, StopsWhenClosed;
      RunStopsWhenClosed(Apply(d, steps[0]), steps[1..]);
    }
  }

  /** In every run, an output that was started stops only after its queue was closed. */
  lemma StopsOnlyWhenClosed(firstId: nat, capacity: nat, steps: seq<Step>)
    requires IsRun(NewDelivery(firstId, capacity, true), steps)
    ensures var d := Run(NewDelivery(firstId, capacity, true), steps);
            d.loop.Stopped? ==> d.queue.closed
  {
    RunStopsWhenClosed(NewDelivery(firstId, capacity, true), steps);
    hide IsRun, Run;
  }
}
