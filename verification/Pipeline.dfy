/**
 The whole delivery path: concurrent PublishEvents calls, the runner that owns the
 current queue (publisherserver/server.go), and the outputs of all queue
 generations. Calls on the runner are atomic because its mutex guards them; Close
 keeps the mutex while it waits for the output.
 */
module Pipeline {
  import opened Basics
  import opened MemoryQueue
  import opened Publishing
  import O = Outputs
  import L = Lifecycle

  datatype Call = Call(req: Request, phase: Phase)

  /** The handles `queue` and `out` name generations; `closing` says that Close holds the mutex. */
  datatype System = System(gens: seq<O.Delivery>, queue: Option<nat>, out: Option<nat>, closing: bool,
                           uuid: string, strict: bool, calls: seq<Call>)

  function Init(uuid: string, strict: bool): System {
    System([], None, None, false, uuid, strict, [])
  }

  datatype Step =
    | StartRunner(kind: O.Kind, firstId: nat, capacity: nat, outcome: L.Outcome)
    | CloseBegin
    | CloseEnd
    | Output(gen: nat, step: O.Step)
    | Receive(request: Request)
    | PublishFirst(call: nat, id: nat)
    | TryNext(call: nat, id: nat, fits: bool)
    | Finish(call: nat)

  function Arrival(s: System, c: nat, i: nat, id: nat): O.Step
    requires c < |s.calls| && i < |s.calls[c].req.events|
  {
    O.Arrive(id, s.calls[c].req.events[i], c)
  }

  predicate Enabled(s: System, t: Step) {
    match t
    case StartRunner(_, _, _, _) => !s.closing
    case CloseBegin => !s.closing
    case CloseEnd => s.closing && (s.out.Some? && s.out.value < |s.gens| ==> O.WaitCount(s.gens[s.out.value]) == 0)
    case Output(g, u) => g < |s.gens| && !u.Arrive? && !u.CloseDown? && O.Enabled(s.gens[g], u)
    case Receive(_) => !s.closing
    case PublishFirst(c, id) =>
      && !s.closing && c < |s.calls| && s.calls[c].phase.Publish? && s.calls[c].req.events != []
      && (s.queue.Some? && s.queue.value < |s.gens| && !O.QueueOf(s.gens[s.queue.value]).closed ==>
            O.Enabled(s.gens[s.queue.value], Arrival(s, c, 0, id)))
    case TryNext(c, id, fits) =>
      && !s.closing && c < |s.calls| && s.calls[c].phase.Trying? && s.calls[c].phase.count < |s.calls[c].req.events|
      && (s.queue.Some? && s.queue.value < |s.gens| && fits ==>
            O.Enabled(s.gens[s.queue.value], Arrival(s, c, s.calls[c].phase.count, id)))
    case Finish(c) =>
      c < |s.calls| && s.calls[c].phase.Trying? && s.calls[c].phase.count == |s.calls[c].req.events|
  }

  function WithPhase(s: System, c: nat, p: Phase): System
    requires c < |s.calls|
  {
    s.(calls := s.calls[c := s.calls[c].(phase := p)])
  }

  /** Event i of call c enters the current queue under the given ID. */
  function Enter(s: System, c: nat, i: nat, id: nat): System
    requires s.queue.Some? && s.queue.value < |s.gens|
    requires c < |s.calls| && i < |s.calls[c].req.events|
    requires O.Enabled(s.gens[s.queue.value], Arrival(s, c, i, id))
  {
    s.(gens := s.gens[s.queue.value := O.Apply(s.gens[s.queue.value], Arrival(s, c, i, id))])
  }

  ghost function Apply(s: System, t: Step): System
    requires Enabled(s, t)
  {
    match t
    case StartRunner(kind, firstId, capacity, outcome) =>
      if outcome.QueueFails? then s.(queue := None)
      else
        s.(gens := s.gens + [O.NewDelivery(kind, firstId, capacity, outcome.Started?)],
           queue := Some(|s.gens|),
           out := if outcome.MonitorFails? then s.out else if outcome.NoOutput? then None else Some(|s.gens|))
    case CloseBegin =>
      s.(closing := true, queue := None,
         gens := if s.queue.Some? && s.queue.value < |s.gens|
                 then s.gens[s.queue.value := O.Apply(s.gens[s.queue.value], O.CloseDown)] else s.gens)
    case CloseEnd =>
      s.(closing := false, out := None)
    case Output(g, u) =>
      s.(gens := s.gens[g := O.Apply(s.gens[g], u)])
    case Receive(req) =>
      s.(calls := s.calls + [Call(req, Admit(s.uuid, s.strict, s.queue.Some?, req))])
    case PublishFirst(c, id) =>
      if s.queue.Some? && s.queue.value < |s.gens| && !O.QueueOf(s.gens[s.queue.value]).closed
      then WithPhase(Enter(s, c, 0, id), c, AfterPublish(Some(id)))
      else WithPhase(s, c, AfterPublish(None))
    case TryNext(c, id, fits) =>
      var p := s.calls[c].phase;
      if s.queue.Some? && s.queue.value < |s.gens| && fits
      then WithPhase(Enter(s, c, p.count, id), c, AfterTry(p, Some(id)))
      else WithPhase(s, c, AfterTry(p, None))
    case Finish(c) =>
      WithPhase(s, c, Replied(Accepted(s.calls[c].phase.count, s.calls[c].phase.index)))
  }

  // ---------------------------------------------------------------- who put what where

  /** Everything that ever entered a queue, oldest first. */
  function Log(gens: seq<O.Delivery>): seq<Entry> {
    if gens == [] then [] else Log(gens[..|gens| - 1]) + O.Entries(gens[|gens| - 1])
  }

  /** The entries that call c put there. */
  function Owned(log: seq<Entry>, c: nat): seq<Entry> {
    if log == [] then []
    else
      var e := log[|log| - 1];
      Owned(log[..|log| - 1], c) + if e.owner == c then [e] else []
  }

  function Events(log: seq<Entry>): (r: seq<Event>)
    ensures |r| == |log|
  {
    seq(|log|, i requires 0 <= i < |log| => log[i].event)
  }

  /** What call c has enqueued, as its phase tells it. */
  ghost predicate CallOk(own: seq<Entry>, call: Call) {
    match call.phase
    case Publish => own == []
    case Trying(count, index) => IsPrefix(own, call.req.events, count, index)
    case Replied(Rejected(_)) => own == []
    case Replied(Accepted(count, index)) => IsPrefix(own, call.req.events, count, index)
  }

  /** own are the first count >= 1 events, in order, and index is the last one's ID. */
  ghost predicate IsPrefix(own: seq<Entry>, events: seq<Event>, count: nat, index: nat) {
    && 1 <= count <= |events| && |own| == count
    && Events(own) == events[..count]
    && own[count - 1].id == index
  }

  ghost predicate CallsOk(s: System) {
    forall c :: 0 <= c < |s.calls| ==> CallOk(Owned(Log(s.gens), c), s.calls[c])
  }

  ghost predicate OwnersOk(s: System) {
    forall i :: 0 <= i < |Log(s.gens)| ==> Log(s.gens)[i].owner < |s.calls|
  }

  ghost predicate GensOk(s: System) {
    && (forall g :: 0 <= g < |s.gens| ==> O.Valid(s.gens[g]))
    && (s.queue.Some? ==> s.queue.value == |s.gens| - 1)
    && (s.out.Some? ==> s.out.value < |s.gens|)
  }

  ghost predicate Valid(s: System) { GensOk(s) && CallsOk(s) && OwnersOk(s) }

  lemma OwnedAppend(log: seq<Entry>, e: Entry, c: nat)
    ensures Owned(log + [e], c) == Owned(log, c) + if e.owner == c then [e] else []
  {
    assert (log + [e])[..|log|] == log;
  }

  lemma {:induction false} OwnedNone(log: seq<Entry>, c: nat)
    requires forall i :: 0 <= i < |log| ==> log[i].owner != c
    ensures Owned(log, c) == []
  {
    if log != [] {
      OwnedNone(log[..|log| - 1], c);
    }
  }

  lemma {:induction false} LogSame(gens: seq<O.Delivery>, gens': seq<O.Delivery>)
    requires |gens| == |gens'|
    requires forall g :: 0 <= g < |gens| ==> O.Entries(gens'[g]) == O.Entries(gens[g])
    ensures Log(gens') == Log(gens)
  {
    if gens != [] {
      LogSame(gens[..|gens| - 1], gens'[..|gens| - 1]);
    }
  }

  /** The current queue is always the newest, so a new entry goes to the end of the log. */
  lemma LogEnter(s: System, c: nat, i: nat, id: nat)
    requires GensOk(s) && s.queue.Some? && c < |s.calls| && i < |s.calls[c].req.events|
    requires O.Enabled(s.gens[s.queue.value], Arrival(s, c, i, id))
    ensures Log(Enter(s, c, i, id).gens) == Log(s.gens) + [Entry(id, s.calls[c].req.events[i], c)]
  {
    hide O.Valid, O.Enabled, O.Apply, Log;
    var g := |s.gens| - 1;
    var d := s.gens[g];
    O.StepOnQueue(d, Arrival(s, c, i, id));
    LogUpdateLast(s.gens, O.Apply(d, Arrival(s, c, i, id)), [Entry(id, s.calls[c].req.events[i], c)]);
  }

  lemma LogUpdateLast(gens: seq<O.Delivery>, d: O.Delivery, added: seq<Entry>)
    requires gens != [] && O.Entries(d) == O.Entries(gens[|gens| - 1]) + added
    ensures Log(gens[|gens| - 1 := d]) == Log(gens) + added
  {
    hide O.Entries;
    var g := |gens| - 1;
    assert gens[g := d][..g] == gens[..g];
  }

  lemma LogStart(gens: seq<O.Delivery>, d: O.Delivery)
    requires O.Entries(d) == []
    ensures Log(gens + [d]) == Log(gens)
  {
    assert (gens + [d])[..|gens|] == gens;
  }

  // ---------------------------------------------------------------- the invariant is kept

  /** What a step does to generation g: nothing, or one step of its delivery. */
  ghost predicate Advances(d: O.Delivery, d': O.Delivery) {
    d' == d || exists u :: O.Enabled(d, u) && d' == O.Apply(d, u)
  }

  lemma StepAdvances(s: System, t: Step, g: nat)
    requires GensOk(s) && Enabled(s, t) && g < |s.gens|
    ensures g < |Apply(s, t).gens| && Advances(s.gens[g], Apply(s, t).gens[g])
  {
    hide O.Valid, O.Apply, O.NewDelivery;
    if t.CloseBegin? {
      assert O.Enabled(s.gens[g], O.CloseDown);
    }
    hide O.Enabled;
    if t.PublishFirst? && s.queue.Some? && !O.QueueOf(s.gens[s.queue.value]).closed {
      assert O.Enabled(s.gens[s.queue.value], Arrival(s, t.call, 0, t.id));
    } else if t.TryNext? && s.queue.Some? && t.fits {
      assert O.Enabled(s.gens[s.queue.value], Arrival(s, t.call, s.calls[t.call].phase.count, t.id));
    } else if t.Output? {
      assert O.Enabled(s.gens[t.gen], t.step);
    }
  }

  lemma StepHandles(s: System, t: Step)
    requires GensOk(s) && Enabled(s, t)
    ensures var s' := Apply(s, t);
            && (s'.queue.Some? ==> s'.queue.value == |s'.gens| - 1) && (s'.out.Some? ==> s'.out.value < |s'.gens|)
            && |s.gens| <= |s'.gens| <= |s.gens| + 1
            && (|s'.gens| > |s.gens| ==>
                  && t.StartRunner?
                  && s'.gens[|s.gens|] == O.NewDelivery(t.kind, t.firstId, t.capacity, t.outcome.Started?))
  {
    hide O.Valid, O.Apply, O.Enabled, O.NewDelivery;
  }

  lemma StepKeepsGen(s: System, t: Step, g: nat)
    requires GensOk(s) && Enabled(s, t) && g < |s.gens|
    ensures g < |Apply(s, t).gens| && O.Valid(Apply(s, t).gens[g])
  {
    StepAdvances(s, t, g);
    var d, d' := s.gens[g], Apply(s, t).gens[g];
    assert O.Valid(d);
    hide GensOk, Apply, Enabled, O.Valid, O.Apply, O.Enabled;
    if d' != d {
      var u :| O.Enabled(d, u) && d' == O.Apply(d, u);
      O.StepKeepsValid(d, u);
    }
  }

  lemma StepKeepsGens(s: System, t: Step)
    requires GensOk(s) && Enabled(s, t)
    ensures GensOk(Apply(s, t))
  {
    hide Apply, Enabled, O.Valid, O.NewDelivery;
    StepHandles(s, t);
    var s' := Apply(s, t);
    forall g | 0 <= g < |s'.gens|
      ensures O.Valid(s'.gens[g])
    {
      if g < |s.gens| {
        StepKeepsGen(s, t, g);
      } else {
        O.NewDeliveryValid(t.kind, t.firstId, t.capacity, t.outcome.Started?);
      }
    }
  }

  /** The entry that a step adds to the log, if any. */
  ghost function Added(s: System, t: Step): seq<Entry>
    requires Enabled(s, t)
  {
    match t
    case PublishFirst(c, id) =>
      if s.queue.Some? && s.queue.value < |s.gens| && !O.QueueOf(s.gens[s.queue.value]).closed
      then [Entry(id, s.calls[c].req.events[0], c)] else []
    case TryNext(c, id, fits) =>
      if s.queue.Some? && s.queue.value < |s.gens| && fits
      then [Entry(id, s.calls[c].req.events[s.calls[c].phase.count], c)] else []
    case _ => []
  }

  /** A step of the runner or of an output. */
  lemma QuietLog(s: System, t: Step)
    requires GensOk(s) && Enabled(s, t) && (t.StartRunner? || t.CloseBegin? || t.Output?)
    ensures Log(Apply(s, t).gens) == Log(s.gens)
  {
    hide O.Valid, O.Apply;
    if t.StartRunner? {
      LogStart(s.gens, O.NewDelivery(t.kind, t.firstId, t.capacity, t.outcome.Started?));
      hide O.Enabled, Log;
    } else {
      if t.Output? {
        O.StepOnQueue(s.gens[t.gen], t.step);
      } else if s.queue.Some? {
        O.StepOnQueue(s.gens[s.queue.value], O.CloseDown);
      }
      hide O.Enabled, O.NewDelivery;
      LogSame(s.gens, Apply(s, t).gens);
    }
  }

  lemma StepLog(s: System, t: Step)
    requires GensOk(s) && Enabled(s, t)
    ensures Log(Apply(s, t).gens) == Log(s.gens) + Added(s, t)
  {
    hide O.Valid, O.Apply, O.Enabled, O.NewDelivery, Log;
    if t.StartRunner? || t.CloseBegin? || t.Output? {
      QuietLog(s, t);
    } else if t.PublishFirst? && s.queue.Some? && !O.QueueOf(s.gens[s.queue.value]).closed {
      LogEnter(s, t.call, 0, t.id);
    } else if t.TryNext? && s.queue.Some? && t.fits {
      LogEnter(s, t.call, s.calls[t.call].phase.count, t.id);
    }
  }

  lemma StepKeepsOwners(s: System, t: Step)
    requires GensOk(s) && OwnersOk(s) && Enabled(s, t)
    ensures OwnersOk(Apply(s, t))
  {
    hide GensOk, O.Apply, O.Enabled, Apply, Enabled, Log, Added, NextCalls;
    StepLog(s, t);
    StepCalls(s, t);
    AddedOwners(s, t);
  }

  lemma AddedOwners(s: System, t: Step)
    requires Enabled(s, t)
    ensures forall i :: 0 <= i < |Added(s, t)| ==> Added(s, t)[i].owner < |s.calls|
    ensures |s.calls| <= |NextCalls(s, t)|
  {
    hide O.Apply, O.Enabled;
  }

  lemma ExtendPrefix(own: seq<Entry>, events: seq<Event>, count: nat, index: nat, e: Entry)
    requires count < |events| && e.event == events[count]
    requires if count == 0 then own == [] else IsPrefix(own, events, count, index)
    ensures IsPrefix(own + [e], events, count + 1, e.id)
  {
    assert Events(own + [e]) == Events(own) + [e.event];
    assert events[..count + 1] == events[..count] + [events[count]];
  }

  /** The calls after a step, told without the queues. */
  ghost function NextCalls(s: System, t: Step): seq<Call>
    requires Enabled(s, t)
  {
    var id := if Added(s, t) == [] then None else Some(Added(s, t)[0].id);
    match t
    case Receive(req) => s.calls + [Call(req, Admit(s.uuid, s.strict, s.queue.Some?, req))]
    case PublishFirst(c, _) => s.calls[c := s.calls[c].(phase := AfterPublish(id))]
    case TryNext(c, _, _) => s.calls[c := s.calls[c].(phase := AfterTry(s.calls[c].phase, id))]
    case Finish(c) =>
      var p := s.calls[c].phase;
      s.calls[c := s.calls[c].(phase := Replied(Accepted(p.count, p.index)))]
    case _ => s.calls
  }

  lemma StepCalls(s: System, t: Step)
    requires Enabled(s, t)
    ensures Apply(s, t).calls == NextCalls(s, t)
  {
    hide O.Apply, O.Enabled, O.NewDelivery;
  }

  lemma OwnedAdded(log: seq<Entry>, added: seq<Entry>, c: nat)
    requires |added| <= 1
    ensures Owned(log + added, c) == Owned(log, c) + if added != [] && added[0].owner == c then added else []
  {
    if added == [] {
      assert log + added == log;
    } else {
      assert added == [added[0]];
      OwnedAppend(log, added[0], c);
    }
  }

  lemma FirstAnswer(own: seq<Entry>, call: Call, added: seq<Entry>)
    requires CallOk(own, call) && call.phase.Publish? && call.req.events != []
    requires |added| <= 1 && (added != [] ==> added[0].event == call.req.events[0])
    ensures CallOk(own + added, call.(phase := AfterPublish(if added == [] then None else Some(added[0].id))))
  {
    if added != [] {
      ExtendPrefix(own, call.req.events, 0, 0, added[0]);
      assert added == [added[0]];
    }
  }

  lemma LaterAnswer(own: seq<Entry>, call: Call, added: seq<Entry>)
    requires CallOk(own, call) && call.phase.Trying? && call.phase.count < |call.req.events|
    requires |added| <= 1 && (added != [] ==> added[0].event == call.req.events[call.phase.count])
    ensures CallOk(own + added, call.(phase := AfterTry(call.phase, if added == [] then None else Some(added[0].id))))
  {
    if added == [] {
      assert own + added == own;
    } else {
      ExtendPrefix(own, call.req.events, call.phase.count, call.phase.index, added[0]);
      assert added == [added[0]];
    }
  }

  /** The call that acts. */
  lemma ActingKeepsCall(s: System, t: Step)
    requires CallsOk(s) && Enabled(s, t) && (t.PublishFirst? || t.TryNext? || t.Finish?)
    ensures CallOk(Owned(Log(s.gens) + Added(s, t), t.call), NextCalls(s, t)[t.call])
  {
    var own, added := Owned(Log(s.gens), t.call), Added(s, t);
    assert CallOk(own, s.calls[t.call]);
    OwnedAdded(Log(s.gens), added, t.call);
    hide O.Apply, O.Enabled, Log, Owned, CallsOk, CallOk;
    if t.PublishFirst? {
      FirstAnswer(own, s.calls[t.call], added);
    } else if t.TryNext? {
      LaterAnswer(own, s.calls[t.call], added);
    } else {
      FinishedCall(own, s.calls[t.call]);
      assert own + [] == own;
    }
  }

  lemma FinishedCall(own: seq<Entry>, call: Call)
    requires CallOk(own, call) && call.phase.Trying?
    ensures CallOk(own, call.(phase := Replied(Accepted(call.phase.count, call.phase.index))))
  {
  }

  /** A call that has just been received. */
  lemma NewCall(s: System, t: Step)
    requires OwnersOk(s) && Enabled(s, t) && t.Receive?
    ensures CallOk(Owned(Log(s.gens) + Added(s, t), |s.calls|), NextCalls(s, t)[|s.calls|])
  {
    hide O.Apply, O.Enabled, Log, Owned;
    OwnedNone(Log(s.gens), |s.calls|);
    assert Log(s.gens) + [] == Log(s.gens);
  }

  lemma OtherCallSame(s: System, t: Step, c: nat)
    requires Enabled(s, t) && c < |s.calls|
    requires !((t.PublishFirst? || t.TryNext? || t.Finish?) && t.call == c)
    ensures c < |NextCalls(s, t)| && NextCalls(s, t)[c] == s.calls[c]
    ensures |Added(s, t)| <= 1 && (Added(s, t) != [] ==> Added(s, t)[0].owner != c)
  {
    hide O.Apply, O.Enabled;
  }

  /** Every other call. */
  lemma OtherCall(s: System, t: Step, c: nat)
    requires CallsOk(s) && Enabled(s, t) && c < |s.calls|
    requires !((t.PublishFirst? || t.TryNext? || t.Finish?) && t.call == c)
    ensures c < |NextCalls(s, t)| && CallOk(Owned(Log(s.gens) + Added(s, t), c), NextCalls(s, t)[c])
  {
    OtherCallSame(s, t, c);
    assert CallOk(Owned(Log(s.gens), c), s.calls[c]);
    hide Enabled, Log, Owned, CallOk, CallsOk, Added, NextCalls;
    OwnedAdded(Log(s.gens), Added(s, t), c);
    assert Owned(Log(s.gens), c) + [] == Owned(Log(s.gens), c);
  }

  lemma StepKeepsCalls(s: System, t: Step)
    requires Valid(s) && Enabled(s, t)
    ensures CallsOk(Apply(s, t))
  {
    StepLog(s, t);
    StepCalls(s, t);
    var log', calls' := Log(s.gens) + Added(s, t), NextCalls(s, t);
    forall c | 0 <= c < |calls'|
      ensures CallOk(Owned(log', c), calls'[c])
    {
      if (t.PublishFirst? || t.TryNext? || t.Finish?) && t.call == c {
        ActingKeepsCall(s, t);
      } else if c == |s.calls| {
        NewCall(s, t);
      } else {
        OtherCall(s, t, c);
      }
    }
    hide GensOk, OwnersOk, Apply, Enabled, Log, Owned, CallOk, Added;
  }

  lemma StepKeepsValid(s: System, t: Step)
    requires Valid(s) && Enabled(s, t)
    ensures Valid(Apply(s, t))
  {
    hide GensOk, OwnersOk, CallsOk, Apply, Enabled;
    StepKeepsGens(s, t);
    StepKeepsOwners(s, t);
    StepKeepsCalls(s, t);
  }

  // ---------------------------------------------------------------- runs

  ghost predicate IsRun(s: System, steps: seq<Step>)
    decreases |steps|
  {
    steps == [] || (Enabled(s, steps[0]) && IsRun(Apply(s, steps[0]), steps[1..]))
  }

  ghost function Run(s: System, steps: seq<Step>): System
    requires IsRun(s, steps)
    decreases |steps|
  {
    if steps == [] then s else Run(Apply(s, steps[0]), steps[1..])
  }

  lemma {:induction false} RunKeepsValid(s: System, steps: seq<Step>)
    requires Valid(s) && IsRun(s, steps)
    ensures Valid(Run(s, steps))
    decreases |steps|
  {
    if steps != [] {
      StepKeepsValid(s, steps[0]);
      hide Valid;
      RunKeepsValid(Apply(s, steps[0]), steps[1..]);
    }
  }

  lemma InitValid(uuid: string, strict: bool)
    ensures Valid(Init(uuid, strict))
  {
  }

  lemma AnswerMeaning(s: System, c: nat)
    requires Valid(s) && c < |s.calls| && s.calls[c].phase.Replied?
    ensures var own, call := Owned(Log(s.gens), c), s.calls[c];
            match call.phase.reply
            case Rejected(_) => own == []
            case Accepted(count, index) =>
              && 1 <= count <= |call.req.events|
              && Events(own) == call.req.events[..count]
              && own[count - 1].id == index
  {
    hide GensOk, OwnersOk, Log, Owned, Events;
    assert CallOk(Owned(Log(s.gens), c), s.calls[c]);
  }

  /** In every interleaving of calls, restarts and output steps: a call that was rejected has
      put nothing into any queue; a call that was accepted has put in exactly its first
      AcceptedCount >= 1 events, in order, and AcceptedIndex is the ID of the last of them. */
  lemma AcceptedPrefix(uuid: string, strict: bool, steps: seq<Step>, c: nat)
    requires IsRun(Init(uuid, strict), steps)
    requires c < |Run(Init(uuid, strict), steps).calls|
    ensures var s := Run(Init(uuid, strict), steps);
            var own, call := Owned(Log(s.gens), c), s.calls[c];
            call.phase.Replied? ==>
              match call.phase.reply
              case Rejected(_) => own == []
              case Accepted(count, index) =>
                && 1 <= count <= |call.req.events|
                && Events(own) == call.req.events[..count]
                && own[count - 1].id == index
  {
    hide Valid, IsRun, Run, Log, Owned, Events;
    InitValid(uuid, strict);
    RunKeepsValid(Init(uuid, strict), steps);
    var s := Run(Init(uuid, strict), steps);
    if s.calls[c].phase.Replied? {
      AnswerMeaning(s, c);
    }
  }

  // ---------------------------------------------------------------- admission

  /** Every call that was not rejected had passed the checks. */
  ghost predicate CallsAdmitted(s: System) {
    forall c :: 0 <= c < |s.calls| && !(s.calls[c].phase.Replied? && s.calls[c].phase.reply.Rejected?) ==>
      Admissible(s.uuid, s.strict, s.calls[c].req)
  }

  lemma StepKeepsAdmitted(s: System, t: Step)
    requires Enabled(s, t) && CallsAdmitted(s)
    ensures CallsAdmitted(Apply(s, t)) && Apply(s, t).uuid == s.uuid && Apply(s, t).strict == s.strict
  {
    hide O.Apply, O.Enabled, O.NewDelivery, Admissible, Admit;
    if t.Receive? {
      AdmitMeaning(s.uuid, s.strict, s.queue.Some?, t.request);
    }
  }

  lemma {:induction false} RunKeepsAdmitted(s: System, steps: seq<Step>)
    requires IsRun(s, steps) && CallsAdmitted(s)
    ensures CallsAdmitted(Run(s, steps)) && Run(s, steps).uuid == s.uuid && Run(s, steps).strict == s.strict
    decreases |steps|
  {
    if steps != [] {
      StepKeepsAdmitted(s, steps[0]);
      hide Enabled, Apply, CallsAdmitted;
      RunKeepsAdmitted(Apply(s, steps[0]), steps[1..]);
    }
  }

  /** In every run, a call that has put anything into a queue came with the server's UUID or none,
      and in strict mode with well-formed events only. */
  lemma EnqueuedWasAdmissible(uuid: string, strict: bool, steps: seq<Step>, c: nat)
    requires IsRun(Init(uuid, strict), steps) && c < |Run(Init(uuid, strict), steps).calls|
    ensures var s := Run(Init(uuid, strict), steps);
            Owned(Log(s.gens), c) != [] ==>
              && (s.calls[c].req.uuid == "" || s.calls[c].req.uuid == uuid)
              && (strict ==> forall e :: e in s.calls[c].req.events ==> WellFormed(e))
  {
    hide Valid, IsRun, Run, Log, Owned, WellFormed;
    var s := Run(Init(uuid, strict), steps);
    InitValid(uuid, strict);
    RunKeepsValid(Init(uuid, strict), steps);
    RunKeepsAdmitted(Init(uuid, strict), steps);
    if s.calls[c].phase.Replied? {
      AnswerMeaning(s, c);
    }
  }

  /** A call is rejected when it comes, for failing the checks or for want of a queue; or at its blocking
      publish, when the queue has gone. It is answered short of its events only when the queue has gone
      or takes no more. */
  lemma StepAnswers(s: System, t: Step, c: nat)
    requires Enabled(s, t) && c < |Apply(s, t).calls|
    ensures var s' := Apply(s, t);
            var phase' := s'.calls[c].phase;
            && (c == |s.calls| ==>
                  && t.Receive? && s'.calls[c].req == t.request
                  && (phase' == Publish <==> s.queue.Some? && Admissible(s.uuid, s.strict, t.request))
                  && (phase' != Publish ==> phase'.Replied? && phase'.reply.Rejected?))
            && (c < |s.calls| && phase' != s.calls[c].phase ==>
                  match s.calls[c].phase
                  case Publish =>
                    if s.queue.None? || s.queue.value >= |s.gens| || O.QueueOf(s.gens[s.queue.value]).closed
                    then phase' == Replied(Rejected(Unavailable))
                    else t.PublishFirst? && phase' == Trying(1, t.id)
                  case Trying(count, index) =>
                    if count == |s.calls[c].req.events| then phase' == Replied(Accepted(count, index))
                    else if t.TryNext? && t.fits && s.queue.Some? && s.queue.value < |s.gens|
                    then phase' == Trying(count + 1, t.id)
                    else phase' == Replied(Accepted(count, index)) && t.TryNext?
                  case Replied(_) => false)
  {
    hide O.Apply, O.Enabled, O.NewDelivery, Admissible, Admit;
    if t.Receive? {
      AdmitMeaning(s.uuid, s.strict, s.queue.Some?, t.request);
    }
  }

  // ---------------------------------------------------------------- delivery

  lemma {:induction false} LastOwnedIsLargest(q: Queue, n: nat, c: nat, p: nat)
    requires MemoryQueue.Valid(q) && p < n <= |q.entries| && q.entries[p].owner == c
    ensures var own := Owned(q.entries[..n], c);
            own != [] && q.entries[p].id <= own[|own| - 1].id
  {
    assert q.entries[..n][..n - 1] == q.entries[..n - 1];
    if q.entries[n - 1].owner != c {
      LastOwnedIsLargest(q, n - 1, c, p);
    }
  }

  lemma {:induction false} OwnedConcat(a: seq<Entry>, b: seq<Entry>, c: nat)
    ensures Owned(a + b, c) == Owned(a, c) + Owned(b, c)
    decreases |b|
  {
    if b == [] {
      assert a + b == a;
    } else {
      var front, e := b[..|b| - 1], b[|b| - 1];
      assert a + b == (a + front) + [e] && b == front + [e];
      OwnedAppend(a + front, e, c);
      OwnedAppend(front, e, c);
      OwnedConcat(a, front, c);
    }
  }

  /** What call c put into one generation. */
  ghost function Put(d: O.Delivery, c: nat): seq<Entry> { Owned(O.Entries(d), c) }

  lemma LogLast(gens: seq<O.Delivery>, c: nat)
    requires gens != []
    ensures Owned(Log(gens), c) == Owned(Log(gens[..|gens| - 1]), c) + Put(gens[|gens| - 1], c)
  {
    hide Owned;
    OwnedConcat(Log(gens[..|gens| - 1]), O.Entries(gens[|gens| - 1]), c);
  }

  /** Generation g holds entries of call c, and no later generation does. */
  ghost predicate LastHome(gens: seq<O.Delivery>, g: nat, c: nat) {
    && g < |gens|
    && Put(gens[g], c) != []
    && forall h :: g < h < |gens| ==> Put(gens[h], c) == []
  }

  lemma LastHomeShrinks(gens: seq<O.Delivery>, g: nat, c: nat)
    requires LastHome(gens, g, c) && g < |gens| - 1
    ensures LastHome(gens[..|gens| - 1], g, c) && Put(gens[|gens| - 1], c) == []
  {
    hide Put;
  }

  lemma {:induction false} LastOwnedIsAtHome(gens: seq<O.Delivery>, g: nat, c: nat)
    requires LastHome(gens, g, c)
    ensures var all, home := Owned(Log(gens), c), Put(gens[g], c);
            all != [] && all[|all| - 1] == home[|home| - 1]
  {
    hide Log, Owned, Put;
    LogLast(gens, c);
    if g < |gens| - 1 {
      LastHomeShrinks(gens, g, c);
      LastOwnedIsAtHome(gens[..|gens| - 1], g, c);
    }
  }

  /** Let g be the generation that took the last accepted event of a request. Among the request's
      events in this generation that one has the largest ID, the AcceptedIndex; and once the
      generation's persisted index has passed the AcceptedIndex, every one of them has been
      settled. What becomes of events that an earlier generation took is the
      subject of module Promise. */
  lemma PersistedReplyIsSettled(uuid: string, strict: bool, steps: seq<Step>, c: nat, g: nat, p: nat)
    requires IsRun(Init(uuid, strict), steps)
    requires var s := Run(Init(uuid, strict), steps);
             && c < |s.calls| && s.calls[c].phase.Replied? && s.calls[c].phase.reply.Accepted?
             && LastHome(s.gens, g, c)
             && p < |O.Entries(s.gens[g])| && O.Entries(s.gens[g])[p].owner == c
    ensures var s := Run(Init(uuid, strict), steps);
            var index := s.calls[c].phase.reply.index;
            && O.Entries(s.gens[g])[p].id <= index
            && (index < O.Index(s.gens[g]) ==> O.Settled(s.gens[g], p))
  {
    hide Valid, Log, Owned, PersistedIndex, O.Settled, IsRun, Run;
    var s := Run(Init(uuid, strict), steps);
    InitValid(uuid, strict);
    RunKeepsValid(Init(uuid, strict), steps);
    ReplyIsSettled(s, c, g, p);
  }

  lemma ReplyIsSettled(s: System, c: nat, g: nat, p: nat)
    requires Valid(s) && c < |s.calls| && s.calls[c].phase.Replied? && s.calls[c].phase.reply.Accepted?
    requires LastHome(s.gens, g, c)
    requires p < |O.Entries(s.gens[g])| && O.Entries(s.gens[g])[p].owner == c
    ensures O.Entries(s.gens[g])[p].id <= s.calls[c].phase.reply.index
    ensures s.calls[c].phase.reply.index < O.Index(s.gens[g]) ==> O.Settled(s.gens[g], p)
  {
    assert O.Valid(s.gens[g]);
    LastOfPrefix(Owned(Log(s.gens), c), s.calls[c]);
    LastOwnedIsAtHome(s.gens, g, c);
    hide GensOk, CallsOk, OwnersOk, Log, Owned, PersistedIndex, O.Valid, O.Settled, CallOk, Events;
    OwnSettled(s.gens[g], c, p, s.calls[c].phase.reply.index);
  }

  lemma LastOfPrefix(own: seq<Entry>, call: Call)
    requires CallOk(own, call) && call.phase.Replied? && call.phase.reply.Accepted?
    ensures own != [] && own[|own| - 1].id == call.phase.reply.index
  {
    hide Events;
  }

  lemma OwnSettled(d: O.Delivery, c: nat, p: nat, index: nat)
    requires O.Valid(d) && p < |O.Entries(d)| && O.Entries(d)[p].owner == c
    requires var own := Owned(O.Entries(d), c); own != [] && own[|own| - 1].id == index
    ensures O.Entries(d)[p].id <= index
    ensures index < O.Index(d) ==> O.Settled(d, p)
  {
    assert O.Entries(d)[..|O.Entries(d)|] == O.Entries(d);
    LastOwnedIsLargest(O.QueueOf(d), |O.Entries(d)|, c, p);
    if index < O.Index(d) {
      O.BelowIndexIsSettled(d, p);
    }
    hide O.Valid, Owned, PersistedIndex;
  }

  /** When Close comes back, the output it waited for has released every batch it fetched and
      has settled every event in them. */
  lemma CloseDrains(uuid: string, strict: bool, steps: seq<Step>)
    requires IsRun(Init(uuid, strict), steps)
    requires Enabled(Run(Init(uuid, strict), steps), CloseEnd) && Run(Init(uuid, strict), steps).out.Some?
    ensures var s := Run(Init(uuid, strict), steps);
            && s.out.value < |s.gens|
            && var d := s.gens[s.out.value];
            && (forall k :: 0 <= k < |O.QueueOf(d).batches| ==> O.QueueOf(d).batches[k].releases == 1)
            && (forall p :: 0 <= p < Fetched(O.QueueOf(d)) ==> O.Settled(d, p))
  {
    hide O.Valid, CallsOk, OwnersOk;
    InitValid(uuid, strict);
    RunKeepsValid(Init(uuid, strict), steps);
    var s := Run(Init(uuid, strict), steps);
    assert O.Valid(s.gens[s.out.value]);
    O.StoppedIsDrained(s.gens[s.out.value]);
  }

  /** Within one generation the persisted index never goes back, what is fetched stays fetched, what
      is settled stays settled, a queue within its capacity stays so, a closed one takes nothing, and an
      output that has stopped fetches nothing more. */
  ghost predicate Progress(d: O.Delivery, d': O.Delivery) {
    && O.Index(d) <= O.Index(d')
    && Fetched(O.QueueOf(d)) <= Fetched(O.QueueOf(d'))
    && (forall p: nat :: O.Settled(d, p) ==> O.Settled(d', p))
    && (WithinCapacity(O.QueueOf(d)) ==> WithinCapacity(O.QueueOf(d')))
    && (O.QueueOf(d).closed ==> O.QueueOf(d').closed && O.Entries(d') == O.Entries(d))
    && (O.WaitCount(d) == 0 ==> O.WaitCount(d') == 0 && Fetched(O.QueueOf(d')) == Fetched(O.QueueOf(d)))
  }

  lemma IndexGrows(d: O.Delivery, u: O.Step)
    requires O.Valid(d) && O.Enabled(d, u)
    ensures O.Index(d) <= O.Index(O.Apply(d, u))
    ensures Fetched(O.QueueOf(d)) <= Fetched(O.QueueOf(O.Apply(d, u)))
  {
    hide O.Valid, O.Apply, O.Enabled, O.QueueOf, PersistedIndex, Fetched;
    O.StepKeepsValid(d, u);
    O.ValidQueue(d);
    O.ValidQueue(O.Apply(d, u));
    IndexNeverDecreases(O.QueueOf(d), O.QueueOf(O.Apply(d, u)));
    FetchedGrows(O.QueueOf(d), O.QueueOf(O.Apply(d, u)));
  }

  lemma OutputProgresses(d: O.Delivery, u: O.Step)
    requires O.Valid(d) && O.Enabled(d, u)
    ensures Progress(d, O.Apply(d, u))
  {
    hide O.Valid, O.Apply, O.Enabled, O.QueueOf, O.WaitCount, O.Settled, O.Index, Fetched, WithinCapacity;
    IndexGrows(d, u);
    O.StepOnQueue(d, u);
    if WithinCapacity(O.QueueOf(d)) {
      O.StepKeepsCapacity(d, u);
    }
    if O.WaitCount(d) == 0 {
      O.StaysStopped(d, u);
    }
    forall p: nat | O.Settled(d, p)
      ensures O.Settled(O.Apply(d, u), p)
    {
      O.StepKeepsSettled(d, u, p);
    }
  }

  lemma StepProgresses(s: System, t: Step, g: nat)
    requires GensOk(s) && Enabled(s, t) && g < |s.gens|
    ensures g < |Apply(s, t).gens| && Progress(s.gens[g], Apply(s, t).gens[g])
  {
    StepAdvances(s, t, g);
    var d, d' := s.gens[g], Apply(s, t).gens[g];
    assert O.Valid(d);
    if d' != d {
      hide GensOk, Apply, Enabled, O.Valid, O.Apply, O.Enabled, Progress;
      var u :| O.Enabled(d, u) && d' == O.Apply(d, u);
      OutputProgresses(d, u);
    } else {
      hide GensOk, Apply, Enabled, O.Valid, O.Index, O.Settled, O.WaitCount, O.QueueOf;
    }
  }

  lemma {:induction false} RunProgresses(s: System, steps: seq<Step>, g: nat)
    requires Valid(s) && IsRun(s, steps) && g < |s.gens|
    ensures g < |Run(s, steps).gens| && Progress(s.gens[g], Run(s, steps).gens[g])
    decreases |steps|
  {
    if steps != [] {
      StepKeepsValid(s, steps[0]);
      StepProgresses(s, steps[0], g);
      hide Valid, Enabled, O.Index, O.Settled, O.WaitCount, O.QueueOf, Fetched;
      RunProgresses(Apply(s, steps[0]), steps[1..], g);
    }
  }

  lemma IndexGrowsAlongRuns(s: System, steps: seq<Step>, g: nat)
    requires Valid(s) && IsRun(s, steps) && g < |s.gens|
    ensures g < |Run(s, steps).gens| && O.Index(s.gens[g]) <= O.Index(Run(s, steps).gens[g])
  {
    hide Valid, IsRun, Run, O.Index, O.Settled, O.WaitCount, O.QueueOf, Fetched;
    RunProgresses(s, steps, g);
  }

  lemma StartsWithinCapacity(kind: O.Kind, firstId: nat, capacity: nat, started: bool)
    ensures WithinCapacity(O.QueueOf(O.NewDelivery(kind, firstId, capacity, started)))
  {
  }

  /** In every run no queue ever holds more than its capacity. */
  lemma {:induction false} QueuesStayWithinCapacity(s: System, steps: seq<Step>, g: nat)
    requires Valid(s) && IsRun(s, steps) && g < |Run(s, steps).gens|
    requires forall h :: 0 <= h < |s.gens| ==> WithinCapacity(O.QueueOf(s.gens[h]))
    ensures WithinCapacity(O.QueueOf(Run(s, steps).gens[g]))
    decreases |steps|
  {
    if steps != [] {
      var s' := Apply(s, steps[0]);
      StepKeepsValid(s, steps[0]);
      StepHandles(s, steps[0]);
      hide Valid, Enabled, Apply, WithinCapacity, O.QueueOf, O.Index, O.Settled, O.WaitCount, O.Entries, Fetched;
      forall h | 0 <= h < |s'.gens|
        ensures WithinCapacity(O.QueueOf(s'.gens[h]))
      {
        if h < |s.gens| {
          StepStaysWithin(s, steps[0], h);
        } else {
          var t := steps[0];
          StartsWithinCapacity(t.kind, t.firstId, t.capacity, t.outcome.Started?);
        }
      }
      QueuesStayWithinCapacity(s', steps[1..], g);
    }
  }

  lemma StepStaysWithin(s: System, t: Step, g: nat)
    requires Valid(s) && Enabled(s, t) && g < |s.gens| && WithinCapacity(O.QueueOf(s.gens[g]))
    ensures g < |Apply(s, t).gens| && WithinCapacity(O.QueueOf(Apply(s, t).gens[g]))
  {
    hide GensOk, CallsOk, OwnersOk, Enabled, Apply, WithinCapacity;
    hide O.QueueOf, O.Index, O.Settled, O.WaitCount, O.Entries, Fetched;
    StepProgresses(s, t, g);
  }

  /** Nothing enters a queue that has been closed. */
  lemma ClosedTakesNothing(s: System, steps: seq<Step>, g: nat)
    requires Valid(s) && IsRun(s, steps) && g < |s.gens| && O.QueueOf(s.gens[g]).closed
    ensures g < |Run(s, steps).gens| && O.Entries(Run(s, steps).gens[g]) == O.Entries(s.gens[g])
  {
    hide Valid, IsRun, Run, WithinCapacity, O.Index, O.Settled, O.WaitCount, O.QueueOf, O.Entries, Fetched;
    RunProgresses(s, steps, g);
  }

  /** Once an output has stopped, an event of its generation is settled if and only if it had been
      fetched, now and after any continuation: what is not settled then never will be. */
  lemma StoppedIsFinal(s: System, steps: seq<Step>, g: nat, p: nat)
    requires Valid(s) && IsRun(s, steps) && g < |s.gens| && O.WaitCount(s.gens[g]) == 0
    ensures g < |Run(s, steps).gens|
    ensures O.Settled(Run(s, steps).gens[g], p) <==> O.Settled(s.gens[g], p)
    ensures O.Settled(s.gens[g], p) <==> p < Fetched(O.QueueOf(s.gens[g]))
  {
    RunProgresses(s, steps, g);
    RunKeepsValid(s, steps);
    assert O.Valid(s.gens[g]) && O.Valid(Run(s, steps).gens[g]);
    O.StoppedIffFetched(s.gens[g], p);
    O.StoppedIffFetched(Run(s, steps).gens[g], p);
    hide Valid, IsRun, Run, O.Valid, O.Index, O.Settled, O.WaitCount, O.QueueOf, Fetched;
  }

  lemma SkippedStep(s: System, t: Step, g: nat, b: nat)
    requires Valid(s) && Enabled(s, t) && s.closing && s.out == Some(g) && g < |s.gens| && O.Skipped(s.gens[g], b)
    ensures var s' := Apply(s, t); s'.closing && s'.out == Some(g) && g < |s'.gens| && O.Skipped(s'.gens[g], b)
  {
    var d := s.gens[g];
    assert O.Valid(d);
    O.SkippedNeverStops(d, b);
    StepAdvances(s, t, g);
    hide Valid, O.Valid, O.Apply, O.Enabled, O.Skipped, O.WaitCount, O.NewDelivery;
  }

  /** An event that the Elasticsearch output could not serialise keeps Close from ever returning. */
  lemma {:induction false} CloseHangsAfterSkip(s: System, steps: seq<Step>, g: nat, b: nat)
    requires Valid(s) && IsRun(s, steps) && s.closing && s.out == Some(g) && g < |s.gens| && O.Skipped(s.gens[g], b)
    ensures Run(s, steps).closing && !Enabled(Run(s, steps), CloseEnd)
    decreases |steps|
  {
    hide O.Valid, O.Skipped, O.WaitCount;
    if steps == [] {
      assert O.Valid(s.gens[g]);
      O.SkippedNeverStops(s.gens[g], b);
      hide Valid;
    } else {
      StepKeepsValid(s, steps[0]);
      SkippedStep(s, steps[0], g, b);
      hide Valid, Enabled;
      CloseHangsAfterSkip(Apply(s, steps[0]), steps[1..], g, b);
    }
  }

  // ---------------------------------------------------------------- the runner's handles

  /** The runner as Lifecycle sees it; monitoring is not part of the delivery path. */
  ghost function Handles(s: System, monitoring: bool): L.Runner {
    L.Runner(s.queue, monitoring, s.out.Some?, OpenQueues(s.gens), |s.gens|)
  }

  ghost function OpenQueues(gens: seq<O.Delivery>): set<nat> {
    set g: nat | g < |gens| && !O.QueueOf(gens[g]).closed
  }

  lemma UpdateOpen(gens: seq<O.Delivery>, g: nat, d: O.Delivery)
    requires g < |gens| && O.QueueOf(d).closed == O.QueueOf(gens[g]).closed
    ensures OpenQueues(gens[g := d]) == OpenQueues(gens)
  {
  }

  lemma CloseOpen(gens: seq<O.Delivery>, g: nat, d: O.Delivery)
    requires g < |gens| && O.QueueOf(d).closed
    ensures OpenQueues(gens[g := d]) == OpenQueues(gens) - {g}
  {
  }

  lemma StartOpen(gens: seq<O.Delivery>, d: O.Delivery)
    requires !O.QueueOf(d).closed
    ensures OpenQueues(gens + [d]) == OpenQueues(gens) + {|gens|}
  {
  }

  /** The steps of the delivery path move the runner's handles as ServerRunner.Start and Close
      do, Close in two steps with the wait for the output between them; no other step moves them. */
  lemma StepsMoveHandles(s: System, t: Step, monitoring: bool)
    requires GensOk(s) && Enabled(s, t)
    ensures var h, h' := Handles(s, monitoring), Handles(Apply(s, t), monitoring);
            match t
            case StartRunner(_, _, _, outcome) =>
              h' == L.Start(h, L.Attempt(outcome.MonitorFails?, outcome)).(monitoring := monitoring)
            case CloseBegin => h' == L.CloseWaiting(h).(monitoring := monitoring)
            case CloseEnd => h' == h.(out := false)
            case _ => h' == h
  {
    hide O.Valid, O.Apply, OpenQueues;
    if t.StartRunner? {
      if !t.outcome.QueueFails? {
        StartOpen(s.gens, O.NewDelivery(t.kind, t.firstId, t.capacity, t.outcome.Started?));
      }
    } else if t.CloseBegin? {
      if s.queue.Some? {
        O.StepOnQueue(s.gens[s.queue.value], O.CloseDown);
        CloseOpen(s.gens, s.queue.value, O.Apply(s.gens[s.queue.value], O.CloseDown));
      }
    } else {
      OtherStepsKeepOpen(s, t);
    }
    hide O.Enabled;
  }

  lemma OtherStepsKeepOpen(s: System, t: Step)
    requires GensOk(s) && Enabled(s, t) && !t.StartRunner? && !t.CloseBegin?
    ensures OpenQueues(Apply(s, t).gens) == OpenQueues(s.gens) && |Apply(s, t).gens| == |s.gens|
  {
    hide O.Valid, O.Apply, O.Enabled, OpenQueues;
    if t.Output? {
      O.StepOnQueue(s.gens[t.gen], t.step);
      UpdateOpen(s.gens, t.gen, O.Apply(s.gens[t.gen], t.step));
    } else if t.PublishFirst? && s.queue.Some? && !O.QueueOf(s.gens[s.queue.value]).closed {
      O.StepOnQueue(s.gens[s.queue.value], Arrival(s, t.call, 0, t.id));
      UpdateOpen(s.gens, s.queue.value, O.Apply(s.gens[s.queue.value], Arrival(s, t.call, 0, t.id)));
    } else if t.TryNext? && s.queue.Some? && t.fits {
      var i := s.calls[t.call].phase.count;
      O.StepOnQueue(s.gens[s.queue.value], Arrival(s, t.call, i, t.id));
      UpdateOpen(s.gens, s.queue.value, O.Apply(s.gens[s.queue.value], Arrival(s, t.call, i, t.id)));
    }
  }
}
