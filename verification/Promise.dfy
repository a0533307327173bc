/**
 What the shipper promises its clients: once the persisted index has passed the AcceptedIndex
 of a reply, the accepted events of the request are settled. The promise holds as long as no
 restart comes between the request and the look at the index; RestartHazard shows how it fails
 otherwise.
 */
module Promise {
  import opened Basics
  import Q = MemoryQueue
  import opened Publishing
  import opened Pipeline
  import O = Outputs

  /** Every event that call c put into any queue is settled. */
  ghost predicate AllSettled(s: System, c: nat) {
    forall g, p: nat :: 0 <= g < |s.gens| && OwnedAt(s.gens[g], p, c) ==> O.Settled(s.gens[g], p)
  }

  ghost predicate OwnedAt(d: O.Delivery, p: nat, c: nat) {
    p < |O.Entries(d)| && O.Entries(d)[p].owner == c
  }

  /** Call c was answered with an acceptance. */
  predicate Accepts(s: System, c: nat) {
    c < |s.calls| && s.calls[c].phase.Replied? && s.calls[c].phase.reply.Accepted?
  }

  function AcceptedIndex(s: System, c: nat): nat
    requires Accepts(s, c)
  {
    s.calls[c].phase.reply.index
  }

  /** The index that clients are told has passed the AcceptedIndex of call c. */
  ghost predicate Passed(s: System, c: nat) {
    && s.queue.Some? && s.queue.value < |s.gens|
    && Accepts(s, c) && AcceptedIndex(s, c) < O.Index(s.gens[s.queue.value])
  }

  // ---------------------------------------------------------------- which generations hold a call's events

  lemma {:induction false} OwnedSome(log: seq<Q.Entry>, c: nat, p: nat)
    requires p < |log| && log[p].owner == c
    ensures Owned(log, c) != []
  {
    if p < |log| - 1 {
      OwnedSome(log[..|log| - 1], c, p);
    }
  }

  ghost predicate NothingPut(gens: seq<O.Delivery>, c: nat) {
    forall h :: 0 <= h < |gens| ==> Put(gens[h], c) == []
  }

  ghost predicate OnlyIn(gens: seq<O.Delivery>, g: nat, c: nat) {
    forall h :: 0 <= h < |gens| && h != g ==> Put(gens[h], c) == []
  }

  lemma NothingSplits(gens: seq<O.Delivery>, c: nat)
    requires gens != []
    ensures NothingPut(gens, c) <==> NothingPut(gens[..|gens| - 1], c) && Put(gens[|gens| - 1], c) == []
  {
    hide Put;
    var front := gens[..|gens| - 1];
    assert forall h :: 0 <= h < |front| ==> gens[h] == front[h];
  }

  lemma OnlyInSplits(gens: seq<O.Delivery>, g: nat, c: nat)
    requires g < |gens|
    ensures var n := |gens| - 1;
            OnlyIn(gens, g, c) <==>
              if g == n then NothingPut(gens[..n], c) else OnlyIn(gens[..n], g, c) && Put(gens[n], c) == []
  {
    hide Put;
    var front := gens[..|gens| - 1];
    assert forall h :: 0 <= h < |front| ==> gens[h] == front[h];
  }

  lemma {:induction false} OwnedEmpty(gens: seq<O.Delivery>, c: nat)
    ensures Owned(Log(gens), c) == [] <==> NothingPut(gens, c)
  {
    if gens != [] {
      LogLast(gens, c);
      hide Put, Log, Owned, NothingPut;
      OwnedEmpty(gens[..|gens| - 1], c);
      NothingSplits(gens, c);
    }
  }

  /** All events of a call lie in generation g exactly when no other one holds any. */
  lemma {:induction false} OwnedTotal(gens: seq<O.Delivery>, g: nat, c: nat)
    requires g < |gens|
    ensures |Put(gens[g], c)| <= |Owned(Log(gens), c)|
    ensures |Put(gens[g], c)| == |Owned(Log(gens), c)| <==> OnlyIn(gens, g, c)
    decreases |gens|
  {
    hide Put, Log, Owned, OnlyIn, NothingPut;
    var n := |gens| - 1;
    LogLast(gens, c);
    OnlyInSplits(gens, g, c);
    if g < n {
      OwnedTotal(gens[..n], g, c);
    } else {
      OwnedEmpty(gens[..n], c);
    }
  }

  lemma CountOwned(s: System, c: nat)
    requires Valid(s) && c < |s.calls|
    ensures Accepts(s, c) ==> |Owned(Log(s.gens), c)| == s.calls[c].phase.reply.count >= 1
    ensures s.calls[c].phase.Trying? ==> |Owned(Log(s.gens), c)| == s.calls[c].phase.count >= 1
    ensures s.calls[c].phase.Publish? ==> Owned(Log(s.gens), c) == []
  {
    hide GensOk, OwnersOk, Log, Owned, Events;
    assert CallOk(Owned(Log(s.gens), c), s.calls[c]);
  }

  /** Entries go into the newest generation only. */
  lemma StepEntries(s: System, t: Step, g: nat)
    requires GensOk(s) && Enabled(s, t) && g < |s.gens|
    ensures g < |Apply(s, t).gens|
    ensures O.Entries(Apply(s, t).gens[g]) == O.Entries(s.gens[g]) + if g == |s.gens| - 1 then Added(s, t) else []
  {
    hide O.Valid, O.Apply, O.NewDelivery;
    if t.CloseBegin? && s.queue.Some? {
      O.StepOnQueue(s.gens[s.queue.value], O.CloseDown);
    }
    hide O.Enabled;
    if t.Output? {
      O.StepOnQueue(s.gens[t.gen], t.step);
    } else if t.PublishFirst? && s.queue.Some? && !O.QueueOf(s.gens[s.queue.value]).closed {
      O.StepOnQueue(s.gens[s.queue.value], Arrival(s, t.call, 0, t.id));
    } else if t.TryNext? && s.queue.Some? && t.fits {
      O.StepOnQueue(s.gens[s.queue.value], Arrival(s, t.call, s.calls[t.call].phase.count, t.id));
    }
  }

  lemma StepPut(s: System, t: Step, g: nat, c: nat)
    requires GensOk(s) && Enabled(s, t) && g < |s.gens|
    ensures g < |Apply(s, t).gens|
    ensures Put(Apply(s, t).gens[g], c) == Put(s.gens[g], c) + if g == |s.gens| - 1 then Owned(Added(s, t), c) else []
  {
    StepEntries(s, t, g);
    OwnedConcat(O.Entries(s.gens[g]), Added(s, t), c);
    hide GensOk, Apply, Enabled, Owned, Added, O.Entries;
  }

  /** Older generations get nothing more from a call, and what it put anywhere stays. */
  lemma {:induction false} RunPut(s: System, steps: seq<Step>, g: nat, c: nat)
    requires Valid(s) && IsRun(s, steps) && g < |s.gens|
    ensures |s.gens| <= |Run(s, steps).gens|
    ensures g < |s.gens| - 1 ==> Put(Run(s, steps).gens[g], c) == Put(s.gens[g], c)
    ensures Put(s.gens[g], c) != [] ==> Put(Run(s, steps).gens[g], c) != []
    decreases |steps|
  {
    if steps != [] {
      StepKeepsValid(s, steps[0]);
      StepPut(s, steps[0], g, c);
      StepHandles(s, steps[0]);
      hide Enabled, Apply, Put, Added, Owned, GensOk, CallsOk, OwnersOk;
      RunPut(Apply(s, steps[0]), steps[1..], g, c);
    }
  }

  // ---------------------------------------------------------------- within one generation

  /** If all accepted events of a request lie in one generation and the index of this generation
      has passed the AcceptedIndex, then every one of them is settled. */
  lemma PromiseInOneGeneration(s: System, c: nat, g: nat)
    requires Valid(s) && Accepts(s, c) && g < |s.gens|
    requires |Put(s.gens[g], c)| == s.calls[c].phase.reply.count
    requires AcceptedIndex(s, c) < O.Index(s.gens[g])
    ensures AllSettled(s, c)
  {
    hide GensOk, CallsOk, OwnersOk, Owned, O.Index, O.Settled, Log, O.Entries;
    CountOwned(s, c);
    OwnedTotal(s.gens, g, c);
    assert LastHome(s.gens, g, c) by {
      hide Owned, Log, Valid;
    }
    forall h, p: nat | 0 <= h < |s.gens| && OwnedAt(s.gens[h], p, c)
      ensures O.Settled(s.gens[h], p)
    {
      OwnedSome(O.Entries(s.gens[h]), c, p);
      assert h == g;
      ReplyIsSettled(s, c, g, p);
    }
  }

  // ---------------------------------------------------------------- without a restart

  ghost predicate InOneGeneration(s: System, c: nat) {
    exists g :: 0 <= g < |s.gens| && OnlyIn(s.gens, g, c)
  }

  /** The blocking publish of call c succeeds. */
  ghost predicate FirstAccepted(s: System, c: nat, id: nat) {
    Enabled(s, PublishFirst(c, id)) && Apply(s, PublishFirst(c, id)).calls[c].phase.Trying?
  }

  /** A later event of call c is taken. */
  ghost predicate NextAccepted(s: System, c: nat, id: nat) {
    Enabled(s, TryNext(c, id, true)) && s.queue.Some?
  }

  lemma FirstAdds(s: System, c: nat, id: nat)
    requires GensOk(s) && FirstAccepted(s, c, id)
    ensures s.gens != [] && |Apply(s, PublishFirst(c, id)).gens| == |s.gens|
    ensures Owned(Added(s, PublishFirst(c, id)), c) != []
    ensures s.calls[c].phase.Publish?
  {
    hide O.Valid, O.Enabled, O.Apply;
    assert Added(s, PublishFirst(c, id)) != [];
  }

  lemma NextAdds(s: System, c: nat, id: nat)
    requires GensOk(s) && NextAccepted(s, c, id)
    ensures s.gens != [] && |Apply(s, TryNext(c, id, true)).gens| == |s.gens|
    ensures Owned(Added(s, TryNext(c, id, true)), c) != []
  {
    hide O.Valid, O.Enabled, O.Apply;
    assert Added(s, TryNext(c, id, true)) != [];
  }

  /** The first event of a call goes to the generation that is the newest at that time. */
  lemma FirstHome(s: System, c: nat, id: nat)
    requires Valid(s) && FirstAccepted(s, c, id)
    ensures var s1 := Apply(s, PublishFirst(c, id));
            && s.gens != [] && |s1.gens| == |s.gens| && c < |s1.calls|
            && OnlyIn(s1.gens, |s.gens| - 1, c) && Put(s1.gens[|s.gens| - 1], c) != []
  {
    FirstAdds(s, c, id);
    CountOwned(s, c);
    OwnedEmpty(s.gens, c);
    hide CallsOk, OwnersOk, Owned, Added, Log, O.Entries, Put, FirstAccepted, GensOk;
    var s1 := Apply(s, PublishFirst(c, id));
    StepPut(s, PublishFirst(c, id), |s.gens| - 1, c);
    hide Apply, Enabled;
    forall h | 0 <= h < |s1.gens| && h != |s.gens| - 1
      ensures Put(s1.gens[h], c) == []
    {
      StepPut(s, PublishFirst(c, id), h, c);
    }
  }

  ghost predicate NothingBefore(gens: seq<O.Delivery>, g: nat, c: nat) {
    forall h :: 0 <= h < g && h < |gens| ==> Put(gens[h], c) == []
  }

  lemma SinceState(s: System, steps: seq<Step>, n: nat, c: nat)
    requires Valid(s) && IsRun(s, steps) && |s.gens| == n + 1
    requires OnlyIn(s.gens, n, c) && Put(s.gens[n], c) != []
    ensures var t := Run(s, steps);
            && Valid(t) && n < |t.gens| && Put(t.gens[n], c) != [] && NothingBefore(t.gens, n, c)
  {
    hide Valid, Put;
    hide IsRun, Run;
    RunKeepsValid(s, steps);
    RunPut(s, steps, n, c);
    var t := Run(s, steps);
    forall h | 0 <= h < n
      ensures h < |t.gens| && Put(t.gens[h], c) == []
    {
      RunPut(s, steps, h, c);
    }
  }

  /** From then on: nothing of the call is in an older generation, something is in that one. */
  lemma SinceFirst(s: System, c: nat, id: nat, steps: seq<Step>)
    requires Valid(s) && FirstAccepted(s, c, id) && IsRun(Apply(s, PublishFirst(c, id)), steps)
    ensures var t := Run(Apply(s, PublishFirst(c, id)), steps);
            && Valid(t) && 0 < |s.gens| <= |t.gens| && Put(t.gens[|s.gens| - 1], c) != []
            && NothingBefore(t.gens, |s.gens| - 1, c)
  {
    FirstHome(s, c, id);
    StepKeepsValid(s, PublishFirst(c, id));
    hide Valid, Enabled, Apply, Put, OnlyIn, NothingBefore, FirstAccepted, IsRun, Run;
    SinceState(Apply(s, PublishFirst(c, id)), steps, |s.gens| - 1, c);
  }

  /** Whenever an event of a call is taken: all its events taken so far lie in one generation if
      and only if no generation has begun since its first event was taken. */
  lemma OneGenerationIffNoRestart(s: System, c: nat, id: nat, steps: seq<Step>, id': nat)
    requires Valid(s) && FirstAccepted(s, c, id) && IsRun(Apply(s, PublishFirst(c, id)), steps)
    requires NextAccepted(Run(Apply(s, PublishFirst(c, id)), steps), c, id')
    ensures var t := Run(Apply(s, PublishFirst(c, id)), steps);
            InOneGeneration(Apply(t, TryNext(c, id', true)), c) <==> |t.gens| == |s.gens|
  {
    hide Valid, IsRun, Run, Apply, Enabled, Put, NothingBefore, InOneGeneration;
    SinceFirst(s, c, id, steps);
    var t := Run(Apply(s, PublishFirst(c, id)), steps);
    TakenNow(t, c, id', |s.gens| - 1);
  }

  lemma TakenNow(t: System, c: nat, id: nat, first: nat)
    requires Valid(t) && NextAccepted(t, c, id) && first < |t.gens| && Put(t.gens[first], c) != []
    requires NothingBefore(t.gens, first, c)
    ensures InOneGeneration(Apply(t, TryNext(c, id, true)), c) <==> first == |t.gens| - 1
  {
    var u, last := TryNext(c, id, true), |t.gens| - 1;
    NextAdds(t, c, id);
    StepPut(t, u, first, c);
    StepPut(t, u, last, c);
    hide CallsOk, OwnersOk, Owned, Added, Put, GensOk, NextAccepted;
    var t' := Apply(t, u);
    hide Apply, Enabled;
    if first == last {
      forall h | 0 <= h < |t'.gens| && h != last
        ensures Put(t'.gens[h], c) == []
      {
        StepPut(t, u, h, c);
      }
      assert OnlyIn(t'.gens, last, c);
    }
  }

  lemma PromiseOnlyIn(s: System, c: nat, g: nat)
    requires Valid(s) && Accepts(s, c) && g < |s.gens| && OnlyIn(s.gens, g, c)
    requires AcceptedIndex(s, c) < O.Index(s.gens[g])
    ensures AllSettled(s, c)
  {
    hide Valid, AllSettled, Put, OnlyIn, Owned, Log, O.Index;
    CountOwned(s, c);
    OwnedTotal(s.gens, g, c);
    PromiseInOneGeneration(s, c, g);
  }

  lemma PromiseInNewest(s: System, c: nat)
    requires Valid(s) && Accepts(s, c) && s.gens != [] && NothingBefore(s.gens, |s.gens| - 1, c)
    requires AcceptedIndex(s, c) < O.Index(s.gens[|s.gens| - 1])
    ensures AllSettled(s, c)
  {
    hide Valid, AllSettled, Put, O.Index;
    assert OnlyIn(s.gens, |s.gens| - 1, c);
    PromiseOnlyIn(s, c, |s.gens| - 1);
  }

  /** Without a restart between a request and a look at the index, the promise holds: if the index
      of the newest generation has passed the AcceptedIndex and no generation has begun since the
      first event was taken, then all accepted events of the request are settled. */
  lemma NoRestartNoLoss(s: System, c: nat, id: nat, steps: seq<Step>)
    requires Valid(s) && FirstAccepted(s, c, id) && IsRun(Apply(s, PublishFirst(c, id)), steps)
    requires var t := Run(Apply(s, PublishFirst(c, id)), steps);
             && |t.gens| == |s.gens| && Accepts(t, c)
             && (t.gens != [] ==> AcceptedIndex(t, c) < O.Index(t.gens[|t.gens| - 1]))
    ensures AllSettled(Run(Apply(s, PublishFirst(c, id)), steps), c)
  {
    hide Valid, IsRun, Run, Apply, Enabled, AllSettled, Put, NothingBefore, O.Index;
    SinceFirst(s, c, id, steps);
    hide FirstAccepted;
    PromiseInNewest(Run(Apply(s, PublishFirst(c, id)), steps), c);
  }

  // ---------------------------------------------------------------- after a restart

  /** No generation behind g holds events of the call; for the newest generation that is always so. */
  ghost predicate NothingAfter(gens: seq<O.Delivery>, g: nat, c: nat) {
    g < |gens| && forall h :: g < h < |gens| ==> Put(gens[h], c) == []
  }

  /** All events that generations in front of g took from call c have been fetched. */
  ghost predicate OlderFetched(s: System, c: nat, g: nat) {
    forall h, p: nat :: 0 <= h < g && h < |s.gens| && OwnedAt(s.gens[h], p, c) ==> p < Q.Fetched(O.QueueOf(s.gens[h]))
  }

  /** The promise across restarts, exactly. Look at the index of any generation behind which no
      other took an event of the request: of the newest one, as clients do, or of the one that took
      the last accepted event. If it has passed the AcceptedIndex and the older outputs that took
      events of the request have stopped, then all accepted events are settled if and only if those
      in older generations had been fetched. */
  lemma PromiseAcrossRestarts(s: System, c: nat, g: nat)
    requires Valid(s) && Accepts(s, c) && NothingAfter(s.gens, g, c) && AcceptedIndex(s, c) < O.Index(s.gens[g])
    requires forall h :: 0 <= h < g && Put(s.gens[h], c) != [] ==> O.WaitCount(s.gens[h]) == 0
    ensures AllSettled(s, c) <==> OlderFetched(s, c, g)
  {
    hide Owned, O.Index, O.Settled, Log, O.WaitCount, Q.Fetched, O.Valid, CallsOk, OwnersOk;
    forall h, p: nat | 0 <= h < |s.gens| && OwnedAt(s.gens[h], p, c)
      ensures h <= g
      ensures O.Settled(s.gens[h], p) <==> h == g || p < Q.Fetched(O.QueueOf(s.gens[h]))
    {
      OwnedSome(O.Entries(s.gens[h]), c, p);
      if h == g {
        ReplyIsSettled(s, c, g, p);
      } else {
        O.StoppedIffFetched(s.gens[h], p);
      }
    }
  }

  // ---------------------------------------------------------------- later on

  /** A call that was answered gets nothing more into any queue, and keeps its answer. */
  lemma AnsweredAddsNothing(s: System, t: Step, c: nat)
    requires Enabled(s, t) && c < |s.calls| && s.calls[c].phase.Replied?
    ensures |Added(s, t)| <= 1 && (Added(s, t) != [] ==> Added(s, t)[0].owner != c)
    ensures c < |Apply(s, t).calls| && Apply(s, t).calls[c] == s.calls[c]
  {
    StepCalls(s, t);
    OtherCallSame(s, t, c);
    hide Enabled, Apply, Added, NextCalls;
  }

  lemma NotAdded(log: seq<Q.Entry>, added: seq<Q.Entry>, c: nat, p: nat)
    requires |added| <= 1 && (added != [] ==> added[0].owner != c)
    requires p < |log + added| && (log + added)[p].owner == c
    ensures p < |log| && log[p].owner == c
  {
  }

  lemma OwnedBefore(s: System, t: Step, c: nat, g: nat, p: nat)
    requires GensOk(s) && Enabled(s, t) && c < |s.calls| && s.calls[c].phase.Replied?
    requires g < |s.gens| && g < |Apply(s, t).gens| && OwnedAt(Apply(s, t).gens[g], p, c)
    ensures OwnedAt(s.gens[g], p, c)
  {
    hide GensOk, Apply, Enabled, Added, O.Entries;
    AnsweredAddsNothing(s, t, c);
    StepEntries(s, t, g);
    NotAdded(O.Entries(s.gens[g]), if g == |s.gens| - 1 then Added(s, t) else [], c, p);
  }

  lemma StepKeepsSettled(s: System, t: Step, g: nat, p: nat)
    requires GensOk(s) && Enabled(s, t) && g < |s.gens| && O.Settled(s.gens[g], p)
    ensures g < |Apply(s, t).gens| && O.Settled(Apply(s, t).gens[g], p)
  {
    hide GensOk, Apply, Enabled, O.Settled, O.Index, O.WaitCount, O.QueueOf, Q.Fetched;
    StepProgresses(s, t, g);
  }

  lemma StepKeepsOwnSettled(s: System, t: Step, c: nat, g: nat, p: nat)
    requires Valid(s) && Enabled(s, t) && c < |s.calls| && s.calls[c].phase.Replied? && AllSettled(s, c)
    requires g < |s.gens| && g < |Apply(s, t).gens| && OwnedAt(Apply(s, t).gens[g], p, c)
    ensures O.Settled(Apply(s, t).gens[g], p)
  {
    hide GensOk, CallsOk, OwnersOk, Apply, Enabled, O.Settled, OwnedAt;
    OwnedBefore(s, t, c, g, p);
    StepKeepsSettled(s, t, g, p);
  }

  lemma StepKeepsAllSettled(s: System, t: Step, c: nat)
    requires Valid(s) && Enabled(s, t) && c < |s.calls| && s.calls[c].phase.Replied? && AllSettled(s, c)
    ensures AllSettled(Apply(s, t), c)
  {
    StepHandles(s, t);
    var s' := Apply(s, t);
    hide Valid, Apply, Enabled, O.Settled, O.Entries;
    forall g, p: nat | 0 <= g < |s'.gens| && OwnedAt(s'.gens[g], p, c)
      ensures O.Settled(s'.gens[g], p)
    {
      if g < |s.gens| {
        StepKeepsOwnSettled(s, t, c, g, p);
      } else {
        NewIsEmpty(t.kind, t.firstId, t.capacity, t.outcome.Started?);
      }
    }
  }

  lemma NewIsEmpty(kind: O.Kind, firstId: nat, capacity: nat, started: bool)
    ensures O.Entries(O.NewDelivery(kind, firstId, capacity, started)) == []
  {
  }

  lemma {:induction false} RunKeepsAllSettled(s: System, steps: seq<Step>, c: nat)
    requires Valid(s) && IsRun(s, steps) && c < |s.calls| && s.calls[c].phase.Replied? && AllSettled(s, c)
    ensures AllSettled(Run(s, steps), c)
    decreases |steps|
  {
    if steps != [] {
      StepKeepsValid(s, steps[0]);
      StepKeepsAllSettled(s, steps[0], c);
      AnsweredAddsNothing(s, steps[0], c);
      hide Valid, Enabled, Apply, AllSettled, Added;
      RunKeepsAllSettled(Apply(s, steps[0]), steps[1..], c);
    }
  }
}
