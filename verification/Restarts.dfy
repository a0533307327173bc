/**
 The promise of module Promise under the discipline that the controller keeps: Start comes only
 when no output is in hand, that is, after a Close that waited for the previous output. The promise
 then hangs on one thing, whether the accepted events have been fetched.
 */
module Restarts {
  import opened Basics
  import opened Publishing
  import opened Pipeline
  import opened Promise
  import Q = MemoryQueue
  import O = Outputs
  import SO = SyncOutputs
  import L = Lifecycle
  import Stopping

  predicate ClosesFirst(s: System, t: Step) { t.StartRunner? ==> s.out.None? }

  ghost predicate ClosingRun(s: System, steps: seq<Step>)
    requires IsRun(s, steps)
    decreases |steps|
  {
    steps == [] || (ClosesFirst(s, steps[0]) && ClosingRun(Apply(s, steps[0]), steps[1..]))
  }

  /** Every output but the one in hand has stopped, and that one belongs to the newest generation. */
  ghost predicate Disciplined(s: System) {
    && (s.out.Some? ==> s.out.value == |s.gens| - 1)
    && (s.out.Some? && !s.closing ==> s.queue == s.out)
    && (s.closing ==> s.queue.None?)
    && (s.closing && s.out.Some? && s.out.value < |s.gens| ==> O.QueueOf(s.gens[s.out.value]).closed)
    && (forall g :: 0 <= g < |s.gens| && s.out != Some(g) ==> O.WaitCount(s.gens[g]) == 0)
  }

  // ---------------------------------------------------------------- the discipline is kept

  lemma StartKeepsDisciplined(s: System, t: Step)
    requires Disciplined(s) && Enabled(s, t) && t.StartRunner? && s.out.None?
    ensures Disciplined(Apply(s, t))
  {
    hide O.NewDelivery, O.WaitCount, O.QueueOf;
    NotStarted(t.kind, t.firstId, t.capacity);
  }

  lemma NotStarted(kind: O.Kind, firstId: nat, capacity: nat)
    ensures O.WaitCount(O.NewDelivery(kind, firstId, capacity, false)) == 0
  {
  }

  lemma StoppedStays(s: System, t: Step, g: nat)
    requires GensOk(s) && Enabled(s, t) && g < |s.gens| && O.WaitCount(s.gens[g]) == 0
    ensures g < |Apply(s, t).gens| && O.WaitCount(Apply(s, t).gens[g]) == 0
  {
    hide GensOk, Enabled, Apply, O.Index, O.Settled, O.WaitCount, O.QueueOf, Q.Fetched;
    StepProgresses(s, t, g);
  }

  lemma ClosedStays(s: System, t: Step, g: nat)
    requires GensOk(s) && Enabled(s, t) && g < |s.gens| && O.QueueOf(s.gens[g]).closed
    ensures g < |Apply(s, t).gens| && O.QueueOf(Apply(s, t).gens[g]).closed
  {
    hide GensOk, Apply, Enabled, O.QueueOf;
    StepAdvances(s, t, g);
    var d, d' := s.gens[g], Apply(s, t).gens[g];
    if d' != d {
      hide GensOk, Apply, Enabled, O.Apply, O.Enabled, O.QueueOf;
      var u :| O.Enabled(d, u) && d' == O.Apply(d, u);
      O.StepOnQueue(d, u);
    }
  }

  /** What the other steps do to the handles. */
  lemma OtherHandles(s: System, t: Step)
    requires Enabled(s, t) && !t.StartRunner?
    ensures var s' := Apply(s, t);
            && |s'.gens| == |s.gens| && s'.out == (if t.CloseEnd? then None else s.out)
            && s'.closing == (if t.CloseBegin? then true else if t.CloseEnd? then false else s.closing)
            && s'.queue == (if t.CloseBegin? then None else s.queue)
    ensures t.CloseEnd? && s.out.Some? && s.out.value < |s.gens| ==>
              O.WaitCount(s.gens[s.out.value]) == 0 && Apply(s, t).gens == s.gens
  {
    hide O.Enabled, O.Apply, O.WaitCount, O.QueueOf;
  }

  lemma CloseCloses(s: System)
    requires Enabled(s, CloseBegin) && s.queue.Some? && s.queue.value < |s.gens|
    ensures O.QueueOf(Apply(s, CloseBegin).gens[s.queue.value]).closed
  {
    hide O.Apply, O.QueueOf;
    O.StepOnQueue(s.gens[s.queue.value], O.CloseDown);
  }

  lemma StepKeepsDisciplined(s: System, t: Step)
    requires GensOk(s) && Disciplined(s) && Enabled(s, t) && ClosesFirst(s, t)
    ensures Disciplined(Apply(s, t))
  {
    if t.StartRunner? {
      hide GensOk;
      StartKeepsDisciplined(s, t);
    } else {
      OtherHandles(s, t);
      if s.closing && s.out.Some? && s.out.value < |s.gens| {
        ClosedStays(s, t, s.out.value);
      }
      if t.CloseBegin? && s.queue.Some? {
        assert !s.closing && s.queue.value < |s.gens|;
        CloseCloses(s);
      }
      hide GensOk, Apply, Enabled, O.WaitCount, O.QueueOf;
      var s' := Apply(s, t);
      forall g | 0 <= g < |s'.gens| && s'.out != Some(g)
        ensures O.WaitCount(s'.gens[g]) == 0
      {
        if s.out != Some(g) {
          StoppedStays(s, t, g);
        }
      }
    }
  }

  lemma {:induction false} RunKeepsDisciplined(s: System, steps: seq<Step>)
    requires Valid(s) && Disciplined(s) && IsRun(s, steps) && ClosingRun(s, steps)
    ensures Disciplined(Run(s, steps))
    decreases |steps|
  {
    if steps != [] {
      StepKeepsValid(s, steps[0]);
      StepKeepsDisciplined(s, steps[0]);
      hide Valid, Disciplined, Enabled, Apply, ClosesFirst;
      RunKeepsDisciplined(Apply(s, steps[0]), steps[1..]);
    }
  }

  // ---------------------------------------------------------------- the promise

  /** Every event that call c put into any queue has been fetched by its output. */
  ghost predicate AllFetched(s: System, c: nat) {
    forall g, p: nat :: 0 <= g < |s.gens| && OwnedAt(s.gens[g], p, c) ==> p < Q.Fetched(O.QueueOf(s.gens[g]))
  }

  lemma PassedIsExact(s: System, c: nat)
    requires Valid(s) && Disciplined(s) && Passed(s, c)
    ensures s.gens != [] && (AllSettled(s, c) <==> OlderFetched(s, c, |s.gens| - 1))
  {
    assert s.queue.value == |s.gens| - 1;
    hide GensOk, CallsOk, OwnersOk, AllSettled, OlderFetched, O.WaitCount, O.Index, O.QueueOf, Put;
    PromiseAcrossRestarts(s, c, |s.gens| - 1);
  }

  /** In every run in which Start comes only with no output in hand: when the index that clients are
      told has passed the AcceptedIndex of a request, all its accepted events are settled if and only
      if those that older generations took had been fetched. */
  lemma PromiseWithClosing(uuid: string, strict: bool, steps: seq<Step>, c: nat)
    requires IsRun(Init(uuid, strict), steps) && ClosingRun(Init(uuid, strict), steps)
    requires Passed(Run(Init(uuid, strict), steps), c)
    ensures var s := Run(Init(uuid, strict), steps);
            && s.gens != [] && (AllSettled(s, c) <==> OlderFetched(s, c, |s.gens| - 1))
  {
    hide Valid, Disciplined, IsRun, Run, ClosingRun, AllSettled, OlderFetched, Passed;
    InitValid(uuid, strict);
    InitDisciplined(uuid, strict);
    RunKeepsValid(Init(uuid, strict), steps);
    RunKeepsDisciplined(Init(uuid, strict), steps);
    PassedIsExact(Run(Init(uuid, strict), steps), c);
  }

  lemma InitDisciplined(uuid: string, strict: bool)
    ensures Disciplined(Init(uuid, strict))
  {
  }

  // ---------------------------------------------------------------- continuations

  /** s' is what some run of this kind leads to from s. */
  ghost predicate ClosesTo(s: System, s': System) {
    exists steps :: IsRun(s, steps) && ClosingRun(s, steps) && Run(s, steps) == s'
  }

  /** All fetched events of a call stay fetched, and an answered call puts nothing more anywhere. */
  /** What call c put into one generation has been fetched. */
  ghost predicate OwnFetched(d: O.Delivery, c: nat) {
    forall p: nat :: OwnedAt(d, p, c) ==> p < Q.Fetched(O.QueueOf(d))
  }

  lemma AllFetchedByGeneration(s: System, c: nat)
    ensures AllFetched(s, c) <==> forall g :: 0 <= g < |s.gens| ==> OwnFetched(s.gens[g], c)
  {
    hide OwnedAt, O.QueueOf, Q.Fetched;
  }

  lemma OwnStaysFetched(s: System, t: Step, c: nat, g: nat)
    requires Valid(s) && Enabled(s, t) && c < |s.calls| && s.calls[c].phase.Replied?
    requires g < |s.gens| && OwnFetched(s.gens[g], c)
    ensures g < |Apply(s, t).gens| && OwnFetched(Apply(s, t).gens[g], c)
  {
    hide GensOk, CallsOk, OwnersOk, Apply, Enabled, OwnedAt, O.QueueOf, Q.Fetched;
    FetchedStays(s, t, g);
    var d' := Apply(s, t).gens[g];
    forall p: nat | OwnedAt(d', p, c)
      ensures p < Q.Fetched(O.QueueOf(d'))
    {
      OwnedBefore(s, t, c, g, p);
    }
  }

  lemma NewOwnsNothing(kind: O.Kind, firstId: nat, capacity: nat, started: bool, c: nat)
    ensures OwnFetched(O.NewDelivery(kind, firstId, capacity, started), c)
  {
    NewIsEmpty(kind, firstId, capacity, started);
  }

  lemma StepKeepsAllFetched(s: System, t: Step, c: nat)
    requires Valid(s) && Enabled(s, t) && c < |s.calls| && s.calls[c].phase.Replied? && AllFetched(s, c)
    ensures AllFetched(Apply(s, t), c)
  {
    hide GensOk, CallsOk, OwnersOk, Apply, Enabled, AllFetched, OwnFetched, O.NewDelivery;
    var s' := Apply(s, t);
    StepHandles(s, t);
    AllFetchedByGeneration(s, c);
    AllFetchedByGeneration(s', c);
    forall g | 0 <= g < |s'.gens|
      ensures OwnFetched(s'.gens[g], c)
    {
      if g < |s.gens| {
        OwnStaysFetched(s, t, c, g);
      } else {
        NewOwnsNothing(t.kind, t.firstId, t.capacity, t.outcome.Started?, c);
      }
    }
  }

  lemma FetchedStays(s: System, t: Step, g: nat)
    requires GensOk(s) && Enabled(s, t) && g < |s.gens|
    ensures g < |Apply(s, t).gens| && Q.Fetched(O.QueueOf(s.gens[g])) <= Q.Fetched(O.QueueOf(Apply(s, t).gens[g]))
  {
    hide GensOk, Enabled, Apply, O.Index, O.Settled, O.WaitCount, O.QueueOf, Q.Fetched;
    StepProgresses(s, t, g);
  }

  lemma {:induction false} RunKeepsAllFetched(s: System, steps: seq<Step>, c: nat)
    requires Valid(s) && IsRun(s, steps) && c < |s.calls| && s.calls[c].phase.Replied? && AllFetched(s, c)
    ensures AllFetched(Run(s, steps), c)
    decreases |steps|
  {
    if steps != [] {
      StepKeepsValid(s, steps[0]);
      StepKeepsAllFetched(s, steps[0], c);
      AnsweredAddsNothing(s, steps[0], c);
      hide Valid, Enabled, Apply, AllFetched, Added;
      RunKeepsAllFetched(Apply(s, steps[0]), steps[1..], c);
    }
  }

  lemma FetchedIsEnough(s: System, c: nat)
    requires Valid(s) && Disciplined(s) && Passed(s, c) && AllFetched(s, c)
    ensures AllSettled(s, c)
  {
    hide Valid, Disciplined, Passed, AllSettled, O.QueueOf, Q.Fetched, OwnedAt;
    PassedIsExact(s, c);
  }

  /** What has been fetched is safe: the promise holds in every continuation. */
  lemma FetchedKeepsPromise(s: System, c: nat, s': System)
    requires Valid(s) && Disciplined(s) && Accepts(s, c) && AllFetched(s, c)
    requires ClosesTo(s, s') && Passed(s', c)
    ensures AllSettled(s', c)
  {
    hide Valid, Disciplined, Passed, AllSettled, AllFetched, ClosingRun, IsRun, Run;
    var steps :| IsRun(s, steps) && ClosingRun(s, steps) && Run(s, steps) == s';
    RunKeepsValid(s, steps);
    RunKeepsDisciplined(s, steps);
    RunKeepsAllFetched(s, steps, c);
    FetchedIsEnough(s', c);
  }

  // ---------------------------------------------------------------- runs with ordinary numbering

  /** Every queue starts with the same ID and numbers its entries one by one. */
  predicate Numbered(s: System, t: Step, first: nat) {
    match t
    case StartRunner(_, firstId, _, _) => firstId == first
    case PublishFirst(_, id) => Next(s, id)
    case TryNext(_, id, _) => Next(s, id)
    case _ => true
  }

  predicate Next(s: System, id: nat) {
    s.queue.Some? && s.queue.value < |s.gens| ==> id == O.QueueOf(s.gens[s.queue.value]).nextId
  }

  ghost predicate ProperRun(s: System, steps: seq<Step>, first: nat)
    requires IsRun(s, steps)
    decreases |steps|
  {
    steps == [] ||
    (ClosesFirst(s, steps[0]) && Numbered(s, steps[0], first) && ProperRun(Apply(s, steps[0]), steps[1..], first))
  }

  ghost predicate LeadsTo(s: System, s': System, first: nat) {
    exists steps :: IsRun(s, steps) && ProperRun(s, steps, first) && Run(s, steps) == s'
  }

  lemma {:induction false} ProperIsClosing(s: System, steps: seq<Step>, first: nat)
    requires IsRun(s, steps) && ProperRun(s, steps, first)
    ensures ClosingRun(s, steps)
    decreases |steps|
  {
    hide Enabled, Apply, ClosesFirst, Numbered;
    if steps != [] {
      ProperIsClosing(Apply(s, steps[0]), steps[1..], first);
    }
  }

  lemma LeadsCloses(s: System, s': System, first: nat)
    requires LeadsTo(s, s', first)
    ensures ClosesTo(s, s')
  {
    hide IsRun, Run, ProperRun, ClosingRun;
    var steps :| IsRun(s, steps) && ProperRun(s, steps, first) && Run(s, steps) == s';
    ProperIsClosing(s, steps, first);
  }

  lemma Stay(s: System, first: nat)
    ensures LeadsTo(s, s, first)
  {
    assert IsRun(s, []) && ProperRun(s, [], first) && Run(s, []) == s;
  }

  lemma {:induction false} Extend(s: System, steps: seq<Step>, t: Step, first: nat)
    requires IsRun(s, steps) && ProperRun(s, steps, first)
    requires Enabled(Run(s, steps), t) && ClosesFirst(Run(s, steps), t) && Numbered(Run(s, steps), t, first)
    ensures var all := steps + [t];
            IsRun(s, all) && ProperRun(s, all, first) && Run(s, all) == Apply(Run(s, steps), t)
    decreases |steps|
  {
    hide Enabled, Apply, ClosesFirst, Numbered;
    if steps == [] {
      assert (steps + [t])[0] == t && (steps + [t])[1..] == [];
    } else {
      assert (steps + [t])[0] == steps[0] && (steps + [t])[1..] == steps[1..] + [t];
      Extend(Apply(s, steps[0]), steps[1..], t, first);
    }
  }

  lemma Go(s: System, s': System, t: Step, first: nat)
    requires LeadsTo(s, s', first) && Enabled(s', t) && ClosesFirst(s', t) && Numbered(s', t, first)
    ensures LeadsTo(s, Apply(s', t), first)
  {
    hide Enabled, Apply, IsRun, Run, ProperRun, ClosesFirst, Numbered;
    var steps :| IsRun(s, steps) && ProperRun(s, steps, first) && Run(s, steps) == s';
    Extend(s, steps, t, first);
  }

  lemma LeadsKeeps(s: System, s': System, first: nat)
    requires Valid(s) && Disciplined(s) && LeadsTo(s, s', first)
    ensures Valid(s') && Disciplined(s')
  {
    hide Valid, Disciplined, IsRun, Run, ProperRun, ClosingRun;
    var steps :| IsRun(s, steps) && ProperRun(s, steps, first) && Run(s, steps) == s';
    ProperIsClosing(s, steps, first);
    RunKeepsValid(s, steps);
    RunKeepsDisciplined(s, steps);
  }

  // ---------------------------------------------------------------- to a closed runner

  /** Nothing has arrived, been fetched or been answered in between. */
  ghost predicate SameSoFar(s: System, s': System) {
    && s'.calls == s.calls && s'.strict == s.strict && |s'.gens| == |s.gens|
    && forall g :: 0 <= g < |s.gens| ==>
         && O.Entries(s'.gens[g]) == O.Entries(s.gens[g])
         && Q.Fetched(O.QueueOf(s'.gens[g])) == Q.Fetched(O.QueueOf(s.gens[g]))
  }

  lemma FinishingStep(s: System, g: nat, u: O.Step)
    requires Valid(s) && g < |s.gens| && O.Enabled(s.gens[g], u) && Stopping.Finishes(u)
    ensures Enabled(s, Output(g, u))
    ensures var s' := Apply(s, Output(g, u));
            && Valid(s') && SameSoFar(s, s') && s' == s.(gens := s.gens[g := O.Apply(s.gens[g], u)])
            && O.QueueOf(s'.gens[g]).closed == O.QueueOf(s.gens[g]).closed
  {
    hide O.Enabled, O.Apply, O.QueueOf, Q.Fetched;
    hide Valid;
    StepKeepsValid(s, Output(g, u));
    Stopping.FinishingKeepsFetched(s.gens[g], u);
    O.StepOnQueue(s.gens[g], u);
  }

  lemma {:induction false} Drain(s: System, s1: System, g: nat, first: nat) returns (s': System)
    requires LeadsTo(s, s1, first) && Valid(s1) && g < |s1.gens|
    requires O.QueueOf(s1.gens[g]).closed && Stopping.NeverSkipped(s1.gens[g])
    ensures LeadsTo(s, s', first) && Valid(s') && SameSoFar(s1, s') && O.WaitCount(s'.gens[g]) == 0
    ensures s'.queue == s1.queue && s'.out == s1.out && s'.closing == s1.closing
    decreases Stopping.Rank(s1.gens[g])
  {
    hide LeadsTo, O.QueueOf, O.WaitCount, O.Entries, Q.Fetched, Stopping.NeverSkipped, Stopping.Rank, CallsOk, OwnersOk;
    if O.WaitCount(s1.gens[g]) == 0 {
      s' := s1;
    } else {
      assert O.Valid(s1.gens[g]);
      hide GensOk, O.Valid, O.Enabled, O.Apply, Apply, Enabled;
      var u := Stopping.Moves(s1.gens[g]);
      FinishingStep(s1, g, u);
      Go(s, s1, Output(g, u), first);
      s' := Drain(s, Apply(s1, Output(g, u)), g, first);
    }
  }

  /** The output in hand, if there is one, has skipped no event. */
  ghost predicate OutputCanStop(s: System) {
    s.out.Some? && s.out.value < |s.gens| ==> Stopping.NeverSkipped(s.gens[s.out.value])
  }

  lemma ClosingStep(s: System, g: nat)
    requires !s.closing && s.queue == Some(g) && s.out == Some(g) && g < |s.gens|
    ensures Enabled(s, CloseBegin)
    ensures var s' := Apply(s, CloseBegin);
            && SameSoFar(s, s') && s'.closing && s'.queue.None? && s'.out == s.out
            && s'.gens[g] == O.Apply(s.gens[g], O.CloseDown) && O.QueueOf(s'.gens[g]).closed
  {
    hide O.Apply, O.QueueOf, Q.Fetched;
    O.StepOnQueue(s.gens[g], O.CloseDown);
    ClosingKeeps(s.gens[g]);
  }

  lemma BeginClose(s: System, first: nat) returns (s': System)
    requires Valid(s) && Disciplined(s) && OutputCanStop(s) && s.out.Some?
    ensures LeadsTo(s, s', first) && Valid(s') && SameSoFar(s, s') && s'.closing && s'.queue.None? && s'.out == s.out
    ensures s.out.value < |s.gens| && Stopping.NeverSkipped(s'.gens[s.out.value])
    ensures O.QueueOf(s'.gens[s.out.value]).closed
  {
    hide LeadsTo, CallsOk, OwnersOk, Stopping.NeverSkipped, O.Valid, O.WaitCount, O.QueueOf, O.Apply, Q.Fetched;
    var g := s.out.value;
    Stay(s, first);
    if s.closing {
      s' := s;
    } else {
      ClosingStep(s, g);
      ClosingKeeps(s.gens[g]);
      hide Apply, Enabled;
      Go(s, s, CloseBegin, first);
      StepKeepsValid(s, CloseBegin);
      s' := Apply(s, CloseBegin);
    }
  }

  lemma ClosingKeeps(d: O.Delivery)
    ensures Q.Fetched(O.QueueOf(O.Apply(d, O.CloseDown))) == Q.Fetched(O.QueueOf(d))
    ensures Stopping.NeverSkipped(d) ==> Stopping.NeverSkipped(O.Apply(d, O.CloseDown))
  {
    if Stopping.NeverSkipped(d) {
      assert forall b: nat :: O.Skipped(O.Apply(d, O.CloseDown), b) == O.Skipped(d, b);
    }
  }

  /** Close can always come to its end without anything more being fetched, unless Elasticsearch has
      skipped an event. */
  lemma CanClose(s: System, first: nat) returns (s': System)
    requires Valid(s) && Disciplined(s) && OutputCanStop(s)
    ensures LeadsTo(s, s', first) && Valid(s') && SameSoFar(s, s') && s'.out.None? && !s'.closing
    ensures forall g :: 0 <= g < |s'.gens| ==> O.WaitCount(s'.gens[g]) == 0
  {
    hide LeadsTo, SameSoFar, Valid, OutputCanStop, O.WaitCount;
    s' := CloseNow(s, first);
    LeadsKeeps(s, s', first);
  }

  lemma CloseNow(s: System, first: nat) returns (s': System)
    requires Valid(s) && Disciplined(s) && OutputCanStop(s)
    ensures LeadsTo(s, s', first) && SameSoFar(s, s') && s'.out.None? && !s'.closing
  {
    hide LeadsTo, O.QueueOf, O.Entries, O.WaitCount, Q.Fetched, Stopping.NeverSkipped, Valid, Disciplined;
    var s1 := s;
    if s.out.Some? {
      var begun := BeginClose(s, first);
      s1 := Drain(s, begun, s.out.value, first);
      SameJoins(s, begun, s1);
    } else {
      Stay(s, first);
    }
    s' := s1;
    if s1.closing {
      EndClose(s, s1, first);
      s' := Apply(s1, CloseEnd);
      hide Apply, Enabled;
      SameJoins(s, s1, s');
    }
  }

  lemma EndClose(s: System, s1: System, first: nat)
    requires LeadsTo(s, s1, first) && s1.closing
    requires s1.out.Some? && s1.out.value < |s1.gens| ==> O.WaitCount(s1.gens[s1.out.value]) == 0
    ensures Enabled(s1, CloseEnd) && LeadsTo(s, Apply(s1, CloseEnd), first)
    ensures Apply(s1, CloseEnd) == s1.(closing := false, out := None) && SameSoFar(s1, Apply(s1, CloseEnd))
  {
    hide LeadsTo, O.WaitCount, O.Entries, O.QueueOf, Q.Fetched;
    assert Enabled(s1, CloseEnd);
    Go(s, s1, CloseEnd, first);
  }

  lemma SameJoins(s: System, s': System, s'': System)
    requires SameSoFar(s, s') && SameSoFar(s', s'')
    ensures SameSoFar(s, s'')
  {
    hide O.Entries, O.QueueOf, Q.Fetched;
  }

  // ---------------------------------------------------------------- the next generation

  /** A console output that has printed all its queue of capacity one has taken. */
  predicate Idle(o: SO.Output, id: nat) {
    && o.kind.Console? && o.loop.AtGet? && !o.queue.closed && o.queue.capacity == 1 && o.queue.nextId == id
    && Q.Fetched(o.queue) == |o.queue.entries|
    && forall k :: 0 <= k < |o.queue.batches| ==> o.queue.batches[k].releases > 0
  }

  lemma IdleIndex(o: SO.Output, id: nat)
    requires Idle(o, id)
    ensures Q.OldestPosition(o.queue) == |o.queue.entries| && Q.PersistedIndex(o.queue) == id && Q.HasRoom(o.queue)
  {
    assert Q.Lead(o.queue.batches, 0) == |o.queue.batches|;
  }

  lemma IndexOf(o: SO.Output)
    ensures O.Index(O.OfSync(o)) == Q.PersistedIndex(o.queue)
  {
  }

  /** One more event: it arrives, is fetched, printed, and its batch released. */
  function Passing(o: SO.Output, id: nat, e: Event, owner: nat, i: nat): SO.Output
    requires i <= 4
  {
    var q := Q.Enqueue(o.queue, id, e, owner);
    if i == 0 then o
    else if i == 1 then o.(queue := q)
    else
      var b := Q.Batch(Q.Fetched(o.queue), 1, if i == 2 then 0 else 1, if i == 4 then 1 else 0);
      o.(queue := q.(batches := q.batches + [b]),
         loop := if i == 2 then SO.Handling else if i == 3 then SO.AtRelease else SO.AtGet)
  }

  function PassingStep(i: nat): SO.Step {
    if i == 1 then SO.Fetch(1) else if i == 2 then SO.ReportDone else SO.ReleaseBatch
  }

  lemma PassingFetches(o: SO.Output, id: nat, e: Event, owner: nat)
    requires Idle(o, id)
    ensures var o1 := Passing(o, id, e, owner, 1);
            SO.Enabled(o1, SO.Fetch(1)) && SO.Apply(o1, SO.Fetch(1)) == Passing(o, id, e, owner, 2)
  {
  }

  lemma PassingReports(o: SO.Output, id: nat, e: Event, owner: nat)
    requires Idle(o, id)
    ensures var o2 := Passing(o, id, e, owner, 2);
            SO.Enabled(o2, SO.ReportDone) && SO.Apply(o2, SO.ReportDone) == Passing(o, id, e, owner, 3)
  {
    var bs, f := o.queue.batches, Q.Fetched(o.queue);
    assert (bs + [Q.Batch(f, 1, 0, 0)])[|bs| := Q.Batch(f, 1, 1, 0)] == bs + [Q.Batch(f, 1, 1, 0)];
  }

  lemma PassingReleases(o: SO.Output, id: nat, e: Event, owner: nat)
    requires Idle(o, id)
    ensures var o3 := Passing(o, id, e, owner, 3);
            SO.Enabled(o3, SO.ReleaseBatch) && SO.Apply(o3, SO.ReleaseBatch) == Passing(o, id, e, owner, 4)
  {
    var bs, f := o.queue.batches, Q.Fetched(o.queue);
    assert (bs + [Q.Batch(f, 1, 1, 0)])[|bs| := Q.Batch(f, 1, 1, 1)] == bs + [Q.Batch(f, 1, 1, 1)];
  }

  lemma PassingEnds(o: SO.Output, id: nat, e: Event, owner: nat)
    requires Idle(o, id)
    ensures Idle(Passing(o, id, e, owner, 4), id + 1)
  {
  }

  lemma PassingAdvances(o: SO.Output, id: nat, e: Event, owner: nat, i: nat)
    requires Idle(o, id) && 1 <= i < 4
    ensures var x, x' := O.OfSync(Passing(o, id, e, owner, i)), O.OfSync(Passing(o, id, e, owner, i + 1));
            var t := O.SyncStep(PassingStep(i));
            O.Enabled(x, t) && O.Apply(x, t) == x'
  {
    hide SO.Enabled, SO.Apply, Passing, Idle;
    if i == 1 {
      PassingFetches(o, id, e, owner);
    } else if i == 2 {
      PassingReports(o, id, e, owner);
    } else {
      PassingReleases(o, id, e, owner);
    }
  }

  lemma PassingArrives(o: SO.Output, id: nat, e: Event, owner: nat)
    requires Idle(o, id)
    ensures var d := O.OfSync(o);
            && O.Enabled(d, O.Arrive(id, e, owner)) && !O.QueueOf(d).closed
            && O.Apply(d, O.Arrive(id, e, owner)) == O.OfSync(Passing(o, id, e, owner, 1))
  {
    IdleIndex(o, id);
  }

  /** s with a console output in a new generation, in the given state, and with more calls. */
  function Later(s: System, o: SO.Output, more: seq<Call>): System {
    System(s.gens + [O.OfSync(o)], Some(|s.gens|), Some(|s.gens|), false, s.uuid, s.strict, s.calls + more)
  }

  lemma GoByPassing(s: System, s0: System, o: SO.Output, id: nat, e: Event, more: seq<Call>, i: nat, first: nat)
    requires Idle(o, id) && 1 <= i < 4
    requires var owner := |s0.calls + more| - 1;
             more != [] && LeadsTo(s, Later(s0, Passing(o, id, e, owner, i), more), first)
    ensures LeadsTo(s, Later(s0, Passing(o, id, e, |s0.calls + more| - 1, i + 1), more), first)
  {
    hide LeadsTo, Passing, Idle, O.Enabled, O.Apply;
    var owner := |s0.calls + more| - 1;
    var s1 := Later(s0, Passing(o, id, e, owner, i), more);
    PassingAdvances(o, id, e, owner, i);
    var t := Output(|s0.gens|, O.SyncStep(PassingStep(i)));
    Go(s, s1, t, first);
    var d := O.OfSync(Passing(o, id, e, owner, i + 1));
    assert s1.gens[|s0.gens| := d] == s0.gens + [d];
  }

  /** A well-formed event. */
  const EVENT: Event := Event(true, Some(DataStream("dataset", "namespace", "type")), Some(Source("input")), "")

  const REQUEST: Request := Request("", [EVENT])

  lemma GoByReceive(s: System, s0: System, o: SO.Output, more: seq<Call>, first: nat)
    requires LeadsTo(s, Later(s0, o, more), first)
    ensures LeadsTo(s, Later(s0, o, more + [Call(REQUEST, Publish)]), first)
  {
    hide LeadsTo;
    var s1, req := Later(s0, o, more), REQUEST;
    assert WellFormed(EVENT);
    Go(s, s1, Receive(req), first);
    assert s1.calls + [Call(REQUEST, Publish)] == s0.calls + (more + [Call(REQUEST, Publish)]);
    assert Apply(s1, Receive(req)) == Later(s0, o, more + [Call(REQUEST, Publish)]);
  }

  lemma GoByPublish(s: System, s0: System, o: SO.Output, id: nat, more: seq<Call>, first: nat)
    requires Idle(o, id) && LeadsTo(s, Later(s0, o, more + [Call(REQUEST, Publish)]), first)
    ensures var c := |s0.calls + more|;
            LeadsTo(s, Later(s0, Passing(o, id, EVENT, c, 1), more + [Call(REQUEST, Trying(1, id))]), first)
  {
    var n, c := |s0.gens|, |s0.calls + more|;
    var s2 := Later(s0, o, more + [Call(REQUEST, Publish)]);
    PassingArrives(o, id, EVENT, c);
    assert o.queue.nextId == id;
    hide LeadsTo, Passing, Idle, O.Enabled, O.Apply;
    assert s2.calls[c] == Call(REQUEST, Publish);
    Go(s, s2, PublishFirst(c, id), first);
    var d := O.OfSync(Passing(o, id, EVENT, c, 1));
    assert s2.gens[n := d] == s0.gens + [d];
    assert s2.calls[c := Call(REQUEST, Trying(1, id))] == s0.calls + (more + [Call(REQUEST, Trying(1, id))]);
  }

  lemma PassOne(s: System, s0: System, o: SO.Output, id: nat, more: seq<Call>, first: nat)
    returns (o': SO.Output, more': seq<Call>)
    requires Idle(o, id) && LeadsTo(s, Later(s0, o, more), first)
    ensures Idle(o', id + 1) && LeadsTo(s, Later(s0, o', more'), first)
  {
    hide LeadsTo, Idle, Passing;
    GoByReceive(s, s0, o, more, first);
    GoByPublish(s, s0, o, id, more, first);
    more' := more + [Call(REQUEST, Trying(1, id))];
    GoByPassing(s, s0, o, id, EVENT, more', 1, first);
    GoByPassing(s, s0, o, id, EVENT, more', 2, first);
    GoByPassing(s, s0, o, id, EVENT, more', 3, first);
    o' := Passing(o, id, EVENT, |s0.calls + more'| - 1, 4);
    PassingEnds(o, id, EVENT, |s0.calls + more'| - 1);
  }

  lemma {:induction false} PassUntil(s: System, s0: System, o: SO.Output, id: nat, more: seq<Call>, first: nat, k: nat)
    returns (o': SO.Output, id': nat, more': seq<Call>)
    requires Idle(o, id) && LeadsTo(s, Later(s0, o, more), first)
    ensures id' > k && Idle(o', id') && LeadsTo(s, Later(s0, o', more'), first)
    decreases if id > k then 0 else k + 1 - id
  {
    hide LeadsTo, Idle;
    if id > k {
      o', id', more' := o, id, more;
    } else {
      o', more' := PassOne(s, s0, o, id, more, first);
      o', id', more' := PassUntil(s, s0, o', id + 1, more', first, k);
    }
  }

  lemma StartNext(s: System, s0: System, first: nat) returns (o: SO.Output)
    requires LeadsTo(s, s0, first) && s0.out.None? && !s0.closing
    ensures Idle(o, first) && LeadsTo(s, Later(s0, o, []), first)
  {
    hide LeadsTo;
    var t := StartRunner(O.Console, first, 1, L.Started);
    Go(s, s0, t, first);
    o := SO.NewOutput(SO.Console, first, 1, true);
    assert s0.calls + [] == s0.calls;
    assert Apply(s0, t) == Later(s0, o, []);
  }

  /** After a Close, a new generation can be taken past any index, with the ordinary numbering. */
  lemma IndexCanPass(s: System, s0: System, first: nat, k: nat) returns (s': System)
    requires LeadsTo(s, s0, first) && s0.out.None? && !s0.closing
    ensures LeadsTo(s, s', first) && |s'.gens| == |s0.gens| + 1 && s'.gens[..|s0.gens|] == s0.gens
    ensures s'.queue == Some(|s0.gens|) && k < O.Index(s'.gens[|s0.gens|])
    ensures |s0.calls| <= |s'.calls| && s'.calls[..|s0.calls|] == s0.calls
  {
    hide LeadsTo, Idle;
    var o := StartNext(s, s0, first);
    var o', id', more := PassUntil(s, s0, o, first, [], first, k);
    s' := Later(s0, o', more);
    IdleIndex(o', id');
  }

  // ---------------------------------------------------------------- the exact condition

  /** An event that has not been fetched can be lost: Close, Start, and enough other events. */
  lemma UnfetchedBreaksPromise(s: System, c: nat, first: nat)
    requires Valid(s) && Disciplined(s) && OutputCanStop(s) && Accepts(s, c) && !AllFetched(s, c)
    ensures exists s' :: LeadsTo(s, s', first) && Passed(s', c) && !AllSettled(s', c)
  {
    hide LeadsTo, Disciplined, OutputCanStop, Valid, O.WaitCount, O.Index, O.Settled;
    var g: nat, p: nat :| g < |s.gens| && OwnedAt(s.gens[g], p, c) && !(p < Q.Fetched(O.QueueOf(s.gens[g])));
    var s0 := CanClose(s, first);
    StoppedUnsettled(s0, g, p);
    assert OwnedAt(s0.gens[g], p, c);
    var s' := IndexCanPass(s, s0, first, AcceptedIndex(s, c));
    assert s'.calls[c] == s.calls[c];
    assert s'.gens[g] == s0.gens[g];
    hide O.Entries, O.QueueOf, Q.Fetched, OwnedAt;
  }

  lemma StoppedUnsettled(s: System, g: nat, p: nat)
    requires Valid(s) && g < |s.gens| && O.WaitCount(s.gens[g]) == 0 && !(p < Q.Fetched(O.QueueOf(s.gens[g])))
    ensures !O.Settled(s.gens[g], p)
  {
    assert O.Valid(s.gens[g]);
    hide Valid, O.Valid, O.WaitCount, O.Settled, O.QueueOf, Q.Fetched;
    O.StoppedIffFetched(s.gens[g], p);
  }

  /** The promise exactly, when Start follows Close: in every continuation in which the index passes
      the AcceptedIndex all accepted events of the request are settled, if and only if all of them have
      been fetched already. It makes no difference that queues number their entries one by one from
      one and the same ID. (The output in hand must be able to stop; see PromiseAfterSkip.) */
  lemma PromiseForeverIffFetched(s: System, c: nat, first: nat)
    requires Valid(s) && Disciplined(s) && OutputCanStop(s) && Accepts(s, c)
    ensures AllFetched(s, c) <==> forall s' :: ClosesTo(s, s') && Passed(s', c) ==> AllSettled(s', c)
    ensures AllFetched(s, c) <==> forall s' :: LeadsTo(s, s', first) && Passed(s', c) ==> AllSettled(s', c)
  {
    hide Valid, Disciplined, OutputCanStop, Passed, AllSettled, AllFetched, ClosesTo, LeadsTo;
    forall s' | LeadsTo(s, s', first)
      ensures ClosesTo(s, s')
    {
      LeadsCloses(s, s', first);
    }
    if AllFetched(s, c) {
      forall s' | ClosesTo(s, s') && Passed(s', c)
        ensures AllSettled(s', c)
      {
        FetchedKeepsPromise(s, c, s');
      }
    } else {
      UnfetchedBreaksPromise(s, c, first);
    }
  }

  // ---------------------------------------------------------------- after a skipped event

  lemma SkippedStays(s: System, t: Step, b: nat)
    requires Valid(s) && Disciplined(s) && Enabled(s, t) && ClosesFirst(s, t)
    requires s.out.Some? && s.out.value < |s.gens| && O.Skipped(s.gens[s.out.value], b)
    ensures var s' := Apply(s, t);
            s'.out == s.out && |s'.gens| == |s.gens| && O.Skipped(s'.gens[s.out.value], b)
  {
    var g := s.out.value;
    assert O.Valid(s.gens[g]);
    O.SkippedNeverStops(s.gens[g], b);
    StepAdvances(s, t, g);
    OtherHandles(s, t);
    hide Valid, Disciplined, Apply, Enabled, O.Valid, O.Apply, O.Enabled, O.Skipped, O.WaitCount;
  }

  lemma {:induction false} NoRestartAfterSkip(s: System, steps: seq<Step>, b: nat)
    requires Valid(s) && Disciplined(s) && IsRun(s, steps) && ClosingRun(s, steps)
    requires s.out.Some? && s.out.value < |s.gens| && O.Skipped(s.gens[s.out.value], b)
    ensures |Run(s, steps).gens| == |s.gens| && Run(s, steps).out == s.out
    decreases |steps|
  {
    if steps != [] {
      SkippedStays(s, steps[0], b);
      StepKeepsValid(s, steps[0]);
      StepKeepsDisciplined(s, steps[0]);
      hide Valid, Disciplined, Enabled, Apply, ClosesFirst, O.Skipped;
      NoRestartAfterSkip(Apply(s, steps[0]), steps[1..], b);
    }
  }

  lemma {:induction false} OlderKeepEntries(s: System, steps: seq<Step>, g: nat)
    requires Valid(s) && IsRun(s, steps) && g < |s.gens| - 1
    ensures g < |Run(s, steps).gens| && O.Entries(Run(s, steps).gens[g]) == O.Entries(s.gens[g])
    decreases |steps|
  {
    if steps != [] {
      StepKeepsValid(s, steps[0]);
      StepEntries(s, steps[0], g);
      StepHandles(s, steps[0]);
      hide Valid, Enabled, Apply, O.Entries, Added;
      OlderKeepEntries(Apply(s, steps[0]), steps[1..], g);
    }
  }

  lemma OlderAreFixed(s: System, steps: seq<Step>, g: nat)
    requires Valid(s) && Disciplined(s) && IsRun(s, steps) && g < |s.gens| - 1
    ensures var s' := Run(s, steps);
            && g < |s'.gens| && O.Entries(s'.gens[g]) == O.Entries(s.gens[g])
            && Q.Fetched(O.QueueOf(s'.gens[g])) == Q.Fetched(O.QueueOf(s.gens[g]))
  {
    hide Valid, IsRun, Run, O.Index, O.Settled, O.WaitCount, O.Entries, O.QueueOf, Q.Fetched;
    OlderKeepEntries(s, steps, g);
    RunProgresses(s, steps, g);
  }

  lemma OlderFetchedIsFixed(s: System, steps: seq<Step>, c: nat)
    requires Valid(s) && Disciplined(s) && IsRun(s, steps) && s.gens != []
    ensures OlderFetched(Run(s, steps), c, |s.gens| - 1) <==> OlderFetched(s, c, |s.gens| - 1)
  {
    hide Valid, Disciplined, IsRun, Run, O.Entries, O.QueueOf, Q.Fetched, Put;
    var s' := Run(s, steps);
    RunPut(s, steps, |s.gens| - 1, c);
    forall g: nat | g < |s.gens| - 1
      ensures Q.Fetched(O.QueueOf(s'.gens[g])) == Q.Fetched(O.QueueOf(s.gens[g]))
    {
      OlderAreFixed(s, steps, g);
    }
    forall g: nat, p: nat | g < |s.gens| - 1
      ensures OwnedAt(s'.gens[g], p, c) <==> OwnedAt(s.gens[g], p, c)
    {
      OlderAreFixed(s, steps, g);
    }
    hide OwnedAt;
    OlderFetchedSame(s, s', c, |s.gens| - 1);
  }

  lemma OlderFetchedSame(s: System, s': System, c: nat, n: nat)
    requires n <= |s.gens| && n <= |s'.gens|
    requires forall g: nat, p: nat :: g < n ==> (OwnedAt(s'.gens[g], p, c) <==> OwnedAt(s.gens[g], p, c))
    requires forall g: nat :: g < n ==> Q.Fetched(O.QueueOf(s'.gens[g])) == Q.Fetched(O.QueueOf(s.gens[g]))
    ensures OlderFetched(s', c, n) <==> OlderFetched(s, c, n)
  {
    hide OwnedAt, O.QueueOf, Q.Fetched;
  }

  /** Once Elasticsearch has skipped an event Close cannot end, so no generation follows. From then on
      a look at the index that has passed the AcceptedIndex finds all accepted events settled if and
      only if those in older generations had been fetched. */
  lemma PromiseAfterSkip(s: System, c: nat, b: nat, s': System)
    requires Valid(s) && Disciplined(s) && Accepts(s, c)
    requires s.out.Some? && s.out.value < |s.gens| && O.Skipped(s.gens[s.out.value], b)
    requires ClosesTo(s, s') && Passed(s', c)
    ensures |s'.gens| == |s.gens| && (AllSettled(s', c) <==> OlderFetched(s, c, |s.gens| - 1))
  {
    hide Valid, Disciplined, Passed, AllSettled, OlderFetched, ClosingRun, IsRun, Run, O.Skipped;
    var steps :| IsRun(s, steps) && ClosingRun(s, steps) && Run(s, steps) == s';
    RunKeepsValid(s, steps);
    RunKeepsDisciplined(s, steps);
    NoRestartAfterSkip(s, steps, b);
    PassedIsExact(s', c);
    OlderFetchedIsFixed(s, steps, c);
  }
}
