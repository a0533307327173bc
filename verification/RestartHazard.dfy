/**
 How the promise of module Promise fails across a restart of the output: the restart gives the
 client a new queue whose IDs begin again, while the server's UUID stays the same.
 */
module RestartHazard {
  import opened Basics
  import opened MemoryQueue
  import opened Publishing
  import opened Promise
  import P = Pipeline
  import KR = KafkaRound
  import KO = KafkaOutput
  import O = Outputs
  import L = Lifecycle

  type System = P.System

  /** s' is what some run leads to from s. */
  ghost predicate Continues(s: System, s': System) {
    exists steps :: P.IsRun(s, steps) && P.Run(s, steps) == s'
  }

  /** A call for these events. */
  function Asked(events: seq<Event>, phase: Phase): P.Call { P.Call(Request("", events), phase) }

  lemma Stay(s: System)
    ensures Continues(s, s)
  {
    assert P.IsRun(s, []) && P.Run(s, []) == s;
  }

  lemma {:induction false} Extend(s: System, steps: seq<P.Step>, t: P.Step)
    requires P.IsRun(s, steps) && P.Enabled(P.Run(s, steps), t)
    ensures P.IsRun(s, steps + [t]) && P.Run(s, steps + [t]) == P.Apply(P.Run(s, steps), t)
    decreases |steps|
  {
    hide P.Enabled, P.Apply;
    if steps == [] {
      assert (steps + [t])[1..] == [];
    } else {
      assert (steps + [t])[0] == steps[0] && (steps + [t])[1..] == steps[1..] + [t];
      Extend(P.Apply(s, steps[0]), steps[1..], t);
    }
  }

  lemma Go(s: System, s': System, t: P.Step)
    requires Continues(s, s') && P.Enabled(s', t)
    ensures Continues(s, P.Apply(s', t))
  {
    hide P.Enabled, P.Apply;
    var steps :| P.IsRun(s, steps) && P.Run(s, steps) == s';
    Extend(s, steps, t);
  }

  predicate OfOutput(steps: seq<KO.Step>) {
    forall i :: 0 <= i < |steps| ==> !steps[i].Arrive? && !steps[i].CloseDown?
  }

  lemma GoByStep(s: System, s': System, g: nat, k: KO.Delivery, u: KO.Step)
    requires Continues(s, s') && g < |s'.gens| && s'.gens[g] == O.OfKafka(k)
    requires !u.Arrive? && !u.CloseDown? && KO.Enabled(k, u)
    ensures Continues(s, s'.(gens := s'.gens[g := O.OfKafka(KO.Apply(k, u))]))
  {
    hide KO.Enabled, KO.Apply, Continues;
    Go(s, s', P.Output(g, O.KafkaStep(u)));
  }

  /** What an output does on its own, it does in the pipeline. */
  lemma {:induction false} GoByOutput(s: System, s': System, g: nat, k: KO.Delivery, steps: seq<KO.Step>)
    requires Continues(s, s') && g < |s'.gens| && s'.gens[g] == O.OfKafka(k) && OfOutput(steps) && KO.IsRun(k, steps)
    ensures Continues(s, s'.(gens := s'.gens[g := O.OfKafka(KO.Run(k, steps))]))
    decreases |steps|
  {
    hide KO.Enabled, KO.Apply, Continues;
    if steps == [] {
      assert s'.gens[g := s'.gens[g]] == s'.gens;
    } else {
      GoByStep(s, s', g, k, steps[0]);
      var k' := KO.Apply(k, steps[0]);
      var s'' := s'.(gens := s'.gens[g := O.OfKafka(k')]);
      GoByOutput(s, s'', g, k', steps[1..]);
      assert s''.gens[g := O.OfKafka(KO.Run(k, steps))] == s'.gens[g := O.OfKafka(KO.Run(k, steps))];
    }
  }

  lemma GoByLead(s: System, s': System, g: nat, k: KO.Delivery, k': KO.Delivery)
    requires Continues(s, s') && g < |s'.gens| && s'.gens[g] == O.OfKafka(k) && Leads(k, k')
    ensures Continues(s, s'.(gens := s'.gens[g := O.OfKafka(k')]))
  {
    hide Continues, KO.IsRun, KO.Run;
    var steps :| OfOutput(steps) && KO.IsRun(k, steps) && KO.Run(k, steps) == k';
    GoByOutput(s, s', g, k, steps);
  }

  // ---------------------------------------------------------------- delivering one event

  ghost predicate Leads(d: KO.Delivery, d': KO.Delivery) {
    exists steps :: OfOutput(steps) && KO.IsRun(d, steps) && KO.Run(d, steps) == d'
  }

  lemma {:induction false} ExtendOutput(d: KO.Delivery, steps: seq<KO.Step>, s: KO.Step)
    requires KO.IsRun(d, steps) && KO.Enabled(KO.Run(d, steps), s)
    ensures KO.IsRun(d, steps + [s]) && KO.Run(d, steps + [s]) == KO.Apply(KO.Run(d, steps), s)
    decreases |steps|
  {
    hide KO.Enabled, KO.Apply;
    if steps == [] {
      assert (steps + [s])[1..] == [];
    } else {
      assert (steps + [s])[0] == steps[0] && (steps + [s])[1..] == steps[1..] + [s];
      ExtendOutput(KO.Apply(d, steps[0]), steps[1..], s);
    }
  }

  lemma Lead1(d: KO.Delivery, d': KO.Delivery, s: KO.Step)
    requires Leads(d, d') && KO.Enabled(d', s) && !s.Arrive? && !s.CloseDown?
    ensures Leads(d, KO.Apply(d', s))
  {
    hide KO.Enabled, KO.Apply;
    var steps :| OfOutput(steps) && KO.IsRun(d, steps) && KO.Run(d, steps) == d';
    ExtendOutput(d, steps, s);
    assert OfOutput(steps + [s]);
  }

  /** A queue with a single entry, and the same queue after the entry's batch was released. */
  function Waiting(k: nat, cap: nat, e: Event, owner: nat): KO.Delivery {
    KO.Delivery(Queue([Entry(k, e, owner)], k + 1, cap, [], false), KO.AtGet, 1, multiset{}, [])
  }

  function Delivered(k: nat, cap: nat, e: Event, owner: nat): KO.Delivery {
    KO.Delivery(Queue([Entry(k, e, owner)], k + 1, cap, [Batch(0, 1, 1, 1)], false),
                KO.AtHead([], 0), 1, multiset{0}, [])
  }

  /** The round in which the only message is sent, acknowledged and counted. */
  function RoundAt(i: nat): KR.Round {
    var sent := if i >= 1 then 1 else 0;
    KR.Round([0], sent, if i == 1 then multiset{0} else multiset{}, if i == 2 then multiset{0} else multiset{}, [],
             if i == 3 then Some(0) else None, None, KR.MsgRef(if i >= 4 then 0 else 1, [], None),
             if i >= 2 then multiset{0} else multiset{}, [])
  }

  function RoundStep(i: nat): KR.Step {
    if i == 0 then KR.Send else if i == 1 then KR.Acknowledge(0)
    else if i == 2 then KR.TakeSuccess(0) else KR.CountSuccess
  }

  lemma RoundSends()
    ensures KR.Enabled(RoundAt(0), RoundStep(0)) && KR.Apply(RoundAt(0), RoundStep(0)) == RoundAt(1)
  {
    assert multiset{} + multiset{0} == multiset{0};
  }

  lemma RoundAcknowledges()
    ensures KR.Enabled(RoundAt(1), RoundStep(1)) && KR.Apply(RoundAt(1), RoundStep(1)) == RoundAt(2)
  {
    assert multiset{0} - multiset{0} == multiset{} && multiset{} + multiset{0} == multiset{0};
  }

  lemma RoundTakes()
    ensures KR.Enabled(RoundAt(2), RoundStep(2)) && KR.Apply(RoundAt(2), RoundStep(2)) == RoundAt(3)
  {
    assert multiset{0} - multiset{0} == multiset{};
  }

  lemma RoundCounts()
    ensures KR.Enabled(RoundAt(3), RoundStep(3)) && KR.Apply(RoundAt(3), RoundStep(3)) == RoundAt(4)
  {
  }

  lemma RoundAdvances(i: nat)
    requires i < 4
    ensures KR.Enabled(RoundAt(i), RoundStep(i)) && KR.Apply(RoundAt(i), RoundStep(i)) == RoundAt(i + 1)
  {
    hide KR.Enabled, KR.Apply, RoundAt, RoundStep;
    if i == 0 {
      RoundSends();
    } else if i == 1 {
      RoundAcknowledges();
    } else if i == 2 {
      RoundTakes();
    } else {
      RoundCounts();
    }
  }

  function Fetched1(k: nat, cap: nat, e: Event, owner: nat, l: KO.Loop): KO.Delivery {
    KO.Delivery(Queue([Entry(k, e, owner)], k + 1, cap, [Batch(0, 1, 0, 0)], false), l, 1, multiset{}, [])
  }

  lemma LeadToRound(k: nat, cap: nat, e: Event, owner: nat)
    ensures Leads(Waiting(k, cap, e, owner), Fetched1(k, cap, e, owner, KO.InRound(RoundAt(0), 1)))
  {
    var w := Waiting(k, cap, e, owner);
    assert OfOutput([]) && KO.IsRun(w, []) && KO.Run(w, []) == w;
    Lead1(w, w, KO.Fetch(1));
    assert Range(0, 1) == [0];
    var w1 := Fetched1(k, cap, e, owner, KO.AtHead([0], 1));
    assert KO.Apply(w, KO.Fetch(1)) == w1;
    hide Leads;
    Lead1(w, w1, KO.BeginRound);
  }

  lemma {:induction false} LeadThroughRound(k: nat, cap: nat, e: Event, owner: nat, i: nat)
    requires i <= 4
    ensures Leads(Waiting(k, cap, e, owner), Fetched1(k, cap, e, owner, KO.InRound(RoundAt(i), 1)))
  {
    if i == 0 {
      LeadToRound(k, cap, e, owner);
    } else {
      LeadThroughRound(k, cap, e, owner, i - 1);
      RoundAdvances(i - 1);
      hide Leads, KR.Apply, KR.Enabled, RoundAt, RoundStep;
      var d := Fetched1(k, cap, e, owner, KO.InRound(RoundAt(i - 1), 1));
      Lead1(Waiting(k, cap, e, owner), d, KO.Within(RoundStep(i - 1)));
    }
  }

  lemma LeadToDone(k: nat, cap: nat, e: Event, owner: nat)
    ensures Leads(Waiting(k, cap, e, owner), Fetched1(k, cap, e, owner, KO.AtDone([], 0, 1)).(acked := multiset{0}))
  {
    var w := Waiting(k, cap, e, owner);
    LeadThroughRound(k, cap, e, owner, 4);
    hide Leads;
    Lead1(w, Fetched1(k, cap, e, owner, KO.InRound(RoundAt(4), 1)), KO.EndRound);
  }

  lemma LeadToDelivered(k: nat, cap: nat, e: Event, owner: nat)
    ensures Leads(Waiting(k, cap, e, owner), Delivered(k, cap, e, owner))
  {
    hide Leads;
    var w := Waiting(k, cap, e, owner);
    LeadToDone(k, cap, e, owner);
    var w7 := Fetched1(k, cap, e, owner, KO.AtDone([], 0, 1)).(acked := multiset{0});
    Lead1(w, w7, KO.AddCompleted);
    var w8 := w7.(queue := SetBatch(w7.queue, 0, Batch(0, 1, 1, 0)), loop := KO.AtRelease([], 0));
    Lead1(w, w8, KO.ReleaseBatch);
    assert KO.Apply(w8, KO.ReleaseBatch) == Delivered(k, cap, e, owner);
  }

  lemma DeliveredIndex(k: nat, cap: nat, e: Event, owner: nat)
    ensures PersistedIndex(Delivered(k, cap, e, owner).queue) == k + 1
  {
    var q := Delivered(k, cap, e, owner).queue;
    assert Lead(q.batches, 1) == 1 == Lead(q.batches, 0);
  }

  // ---------------------------------------------------------------- a new generation overtakes

  lemma FirstArrival(first: nat, k: nat, cap: nat, e: Event, owner: nat)
    requires cap > 0 && first <= k
    ensures KO.Enabled(KO.NewDelivery(first, cap, true), KO.Arrive(k, e, owner))
    ensures KO.Apply(KO.NewDelivery(first, cap, true), KO.Arrive(k, e, owner)) == Waiting(k, cap, e, owner)
  {
    assert [] + [Entry(k, e, owner)] == [Entry(k, e, owner)];
  }

  lemma ArrivalInNew(first: nat, k: nat, cap: nat, e: Event, owner: nat)
    requires cap > 0 && first <= k
    ensures var d := O.NewDelivery(O.Kafka, first, cap, true);
            && O.Enabled(d, O.Arrive(k, e, owner))
            && O.Apply(d, O.Arrive(k, e, owner)) == O.OfKafka(Waiting(k, cap, e, owner))
            && !O.QueueOf(d).closed
  {
    FirstArrival(first, k, cap, e, owner);
  }

  /** s after a restart whose queue has delivered one event under the ID k. */
  function Overtaken(s: System, k: nat, cap: nat, e: Event): System {
    P.System(s.gens + [O.OfKafka(Delivered(k, cap, e, |s.calls|))], Some(|s.gens|), Some(|s.gens|), false,
             s.uuid, s.strict, s.calls + [Asked([e], Trying(1, k))])
  }

  /** From every state in which Close is not under way: restart, send one event, deliver it. */
  lemma Overtake(s: System, first: nat, k: nat, cap: nat, e: Event)
    requires !s.closing && cap > 0 && first <= k && (s.strict ==> WellFormed(e))
    ensures Continues(s, Overtaken(s, k, cap, e))
  {
    var n, c := |s.gens|, |s.calls|;
    var started := O.NewDelivery(O.Kafka, first, cap, true);
    Stay(s);
    hide Continues, O.NewDelivery;
    Go(s, s, P.StartRunner(O.Kafka, first, cap, L.Started));
    var s1 := s.(gens := s.gens + [started], queue := Some(n), out := Some(n));
    assert P.Apply(s, P.StartRunner(O.Kafka, first, cap, L.Started)) == s1;
    Go(s, s1, P.Receive(Request("", [e])));
    var s2 := s1.(calls := s.calls + [Asked([e], Publish)]);
    assert P.Apply(s1, P.Receive(Request("", [e]))) == s2;
    ArrivalInNew(first, k, cap, e, c);
    hide O.Enabled, O.Apply;
    Go(s, s2, P.PublishFirst(c, k));
    var s3 := s2.(gens := s.gens + [O.OfKafka(Waiting(k, cap, e, c))], calls := s.calls + [Asked([e], Trying(1, k))]);
    assert P.Apply(s2, P.PublishFirst(c, k)) == s3;
    hide P.Apply, P.Enabled, Leads, Waiting, Delivered;
    LeadToDelivered(k, cap, e, c);
    GoByLead(s, s3, n, Waiting(k, cap, e, c), Delivered(k, cap, e, c));
    var d := O.OfKafka(Delivered(k, cap, e, c));
    assert s3.gens[n := d] == s.gens + [d];
  }

  /** Some continuation leaves the old generations alone and makes the index pass. */
  lemma IndexCanPass(s: System, c: nat) returns (s': System)
    requires !s.closing && Accepts(s, c)
    ensures Continues(s, s') && Passed(s', c)
    ensures |s.gens| <= |s'.gens| && s'.gens[..|s.gens|] == s.gens
  {
    hide Continues, Delivered, PersistedIndex;
    var e := Event(true, Some(DataStream("dataset", "namespace", "type")), Some(Source("input")), "");
    var k := AcceptedIndex(s, c);
    assert WellFormed(e);
    Overtake(s, k, k, 1, e);
    DeliveredIndex(k, 1, e, |s.calls|);
    s' := Overtaken(s, k, 1, e);
  }

  lemma UnsettledCanBeMisled(s: System, c: nat)
    requires !s.closing && Accepts(s, c) && !AllSettled(s, c)
    ensures exists s' :: Continues(s, s') && Passed(s', c) && !AllSettled(s', c)
  {
    hide Continues, Passed, OwnedAt, O.Settled;
    var s' := IndexCanPass(s, c);
    var g: nat, p: nat :| g < |s.gens| && OwnedAt(s.gens[g], p, c) && !O.Settled(s.gens[g], p);
    assert s'.gens[g] == s.gens[g];
  }

  /** When Start may also come over a running output, as it does when a second output unit is added,
      nothing short of fulfilment keeps the promise: in every continuation in which the index passes
      the AcceptedIndex all accepted events are settled, if and only if they are settled already. For
      Start after Close see Restarts.PromiseForeverIffFetched. */
  lemma PromiseForeverIffFulfilled(s: System, c: nat)
    requires P.Valid(s) && !s.closing && Accepts(s, c)
    ensures AllSettled(s, c) <==> forall s' :: Continues(s, s') && Passed(s', c) ==> AllSettled(s', c)
  {
    if AllSettled(s, c) {
      hide P.Valid, AllSettled, Passed;
      forall s' | Continues(s, s')
        ensures AllSettled(s', c)
      {
        var steps :| P.IsRun(s, steps) && P.Run(s, steps) == s';
        RunKeepsAllSettled(s, steps, c);
      }
    } else {
      UnsettledCanBeMisled(s, c);
    }
  }

  // ---------------------------------------------------------------- two runs

  /** The queue of the first generation after its output has stopped: its entry was never fetched. */
  function Abandoned(k: nat, cap: nat, e: Event): KO.Delivery {
    KO.Delivery(Queue([Entry(k, e, 0)], k + 1, cap, [], true), KO.Stopped, 0, multiset{}, [])
  }

  /** The first event of the first request is in the queue. */
  function Begun(uuid: string, k: nat, cap: nat, events: seq<Event>, phase: Phase): System
    requires events != []
  {
    P.System([O.OfKafka(Waiting(k, cap, events[0], 0))], Some(0), Some(0), false, uuid, false, [Asked(events, phase)])
  }

  lemma ReachBegun(uuid: string, k: nat, cap: nat, events: seq<Event>)
    requires cap > 0 && events != []
    ensures Continues(P.Init(uuid, false), Begun(uuid, k, cap, events, Trying(1, k)))
  {
    hide Continues, O.NewDelivery;
    hide O.Enabled, O.Apply;
    var s0 := P.Init(uuid, false);
    var started := O.NewDelivery(O.Kafka, k, cap, true);
    Stay(s0);
    Go(s0, s0, P.StartRunner(O.Kafka, k, cap, L.Started));
    var s1 := P.System([started], Some(0), Some(0), false, uuid, false, []);
    assert P.Apply(s0, P.StartRunner(O.Kafka, k, cap, L.Started)) == s1;
    Go(s0, s1, P.Receive(Request("", events)));
    var s2 := s1.(calls := [Asked(events, Publish)]);
    assert P.Apply(s1, P.Receive(Request("", events))) == s2;
    ArrivalInNew(k, k, cap, events[0], 0);
    Go(s0, s2, P.PublishFirst(0, k));
    assert P.Apply(s2, P.PublishFirst(0, k)) == Begun(uuid, k, cap, events, Trying(1, k));
  }

  /** Close, with the output stopping before it has fetched anything. */
  lemma ReachClosed(uuid: string, k: nat, cap: nat, events: seq<Event>, phase: Phase)
    requires events != [] && Continues(P.Init(uuid, false), Begun(uuid, k, cap, events, phase))
    ensures Continues(P.Init(uuid, false),
                      P.System([O.OfKafka(Abandoned(k, cap, events[0]))], None, None, false, uuid, false,
                               [Asked(events, phase)]))
  {
    hide Continues;
    var s0, s4 := P.Init(uuid, false), Begun(uuid, k, cap, events, phase);
    Go(s0, s4, P.CloseBegin);
    var w := Waiting(k, cap, events[0], 0);
    var closed := w.(queue := CloseQueue(w.queue));
    var s5 := P.System([O.OfKafka(closed)], None, Some(0), true, uuid, false, [Asked(events, phase)]);
    assert P.Apply(s4, P.CloseBegin) == s5;
    GoByStep(s0, s5, 0, closed, KO.QueueClosed);
    var s6 := s5.(gens := [O.OfKafka(Abandoned(k, cap, events[0]))]);
    assert s5.(gens := s5.gens[0 := O.OfKafka(KO.Apply(closed, KO.QueueClosed))]) == s6;
    Go(s0, s6, P.CloseEnd);
  }

  lemma AbandonedIsUnsettled(k: nat, cap: nat, e: Event)
    ensures !O.Settled(O.OfKafka(Abandoned(k, cap, e)), 0) && OwnedAt(O.OfKafka(Abandoned(k, cap, e)), 0, 0)
    ensures O.WaitCount(O.OfKafka(Abandoned(k, cap, e))) == 0
    ensures Fetched(O.QueueOf(O.OfKafka(Abandoned(k, cap, e)))) == 0
  {
  }

  /** The event at position p of generation g stays unsettled in every continuation. */
  ghost predicate NeverSettled(s: System, g: nat, p: nat) {
    forall s' :: Continues(s, s') ==> g < |s'.gens| && !O.Settled(s'.gens[g], p)
  }

  lemma StoppedNeverSettles(s: System, g: nat, p: nat)
    requires P.Valid(s) && g < |s.gens| && O.WaitCount(s.gens[g]) == 0 && !O.Settled(s.gens[g], p)
    ensures NeverSettled(s, g, p)
  {
    hide P.Valid, O.WaitCount, O.Settled;
    forall s' | Continues(s, s')
      ensures g < |s'.gens| && !O.Settled(s'.gens[g], p)
    {
      var steps :| P.IsRun(s, steps) && P.Run(s, steps) == s';
      P.StoppedIsFinal(s, steps, g, p);
    }
  }

  lemma ReachedIsValid(uuid: string, s: System)
    requires Continues(P.Init(uuid, false), s)
    ensures P.Valid(s)
  {
    hide P.Valid;
    var steps :| P.IsRun(P.Init(uuid, false), steps) && P.Run(P.Init(uuid, false), steps) == s;
    P.InitValid(uuid, false);
    P.RunKeepsValid(P.Init(uuid, false), steps);
  }

  lemma {:induction false} Join(s: System, steps: seq<P.Step>, steps': seq<P.Step>)
    requires P.IsRun(s, steps) && P.IsRun(P.Run(s, steps), steps')
    ensures P.IsRun(s, steps + steps') && P.Run(s, steps + steps') == P.Run(P.Run(s, steps), steps')
    decreases |steps|
  {
    hide P.Enabled, P.Apply;
    if steps == [] {
      assert steps + steps' == steps';
    } else {
      assert (steps + steps')[0] == steps[0] && (steps + steps')[1..] == steps[1..] + steps';
      Join(P.Apply(s, steps[0]), steps[1..], steps');
    }
  }

  lemma Transitive(s: System, s': System, s'': System)
    requires Continues(s, s') && Continues(s', s'')
    ensures Continues(s, s'')
  {
    hide P.IsRun, P.Run;
    var steps :| P.IsRun(s, steps) && P.Run(s, steps) == s';
    var steps' :| P.IsRun(s', steps') && P.Run(s', steps') == s'';
    Join(s, steps, steps');
  }

  function Lost(uuid: string, k: nat, cap: nat, e: Event): System {
    P.System([O.OfKafka(Abandoned(k, cap, e))], None, None, false, uuid, false,
             [Asked([e], Replied(Accepted(1, k)))])
  }

  lemma ReachLost(uuid: string, k: nat, cap: nat, e: Event)
    requires cap > 0
    ensures Continues(P.Init(uuid, false), Lost(uuid, k, cap, e))
  {
    hide Continues;
    var s0, s3 := P.Init(uuid, false), Begun(uuid, k, cap, [e], Trying(1, k));
    ReachBegun(uuid, k, cap, [e]);
    Go(s0, s3, P.Finish(0));
    var reply := Replied(Accepted(1, k));
    assert P.Apply(s3, P.Finish(0)) == Begun(uuid, k, cap, [e], reply);
    ReachClosed(uuid, k, cap, [e], reply);
  }

  /** There is a run, with an orderly Close and Start, after which the index that clients are told
      has passed the AcceptedIndex of an accepted request whose only event is not settled and never
      will be. */
  lemma IndexMisleadsAfterRestart(uuid: string, k: nat, cap: nat, e: Event)
    requires cap > 0
    ensures exists s ::
              && Continues(P.Init(uuid, false), s) && Passed(s, 0)
              && s.calls[0] == Asked([e], Replied(Accepted(1, k)))
              && |s.gens| == 2 && OwnedAt(s.gens[0], 0, 0) && NeverSettled(s, 0, 0)
              && O.WaitCount(s.gens[0]) == 0 && !OlderFetched(s, 0, 1)
  {
    hide Continues, NeverSettled;
    hide P.Valid, Abandoned, OwnedAt, O.WaitCount, O.Settled, PersistedIndex;
    var s0, s7 := P.Init(uuid, false), Lost(uuid, k, cap, e);
    var s := Overtaken(s7, k, cap, e);
    ReachLost(uuid, k, cap, e);
    Overtake(s7, k, k, cap, e);
    Transitive(s0, s7, s);
    ReachedIsValid(uuid, s);
    AbandonedIsUnsettled(k, cap, e);
    DeliveredIndex(k, cap, e, 1);
    StoppedNeverSettles(s, 0, 0);
  }

  lemma ReachStraddling(uuid: string, k: nat, cap: nat, e: Event, e': Event)
    requires cap > 0
    ensures Continues(P.Init(uuid, false), Straddling(uuid, k, cap, e, e'))
  {
    var s0, events := P.Init(uuid, false), [e, e'];
    ReachBegun(uuid, k, cap, events);
    hide Continues;
    ReachClosed(uuid, k, cap, events, Trying(1, k));
    var gone, started := O.OfKafka(Abandoned(k, cap, e)), O.NewDelivery(O.Kafka, k, cap, true);
    hide O.NewDelivery, Abandoned;
    var s7 := P.System([gone], None, None, false, uuid, false, [Asked(events, Trying(1, k))]);
    Go(s0, s7, P.StartRunner(O.Kafka, k, cap, L.Started));
    var s8 := s7.(gens := [gone, started], queue := Some(1), out := Some(1));
    assert P.Apply(s7, P.StartRunner(O.Kafka, k, cap, L.Started)) == s8;
    ArrivalInNew(k, k, cap, e', 0);
    hide O.Enabled, O.Apply;
    Go(s0, s8, P.TryNext(0, k, true));
    var s9 := s8.(gens := [gone, O.OfKafka(Waiting(k, cap, e', 0))], calls := [Asked(events, Trying(2, k))]);
    assert P.Apply(s8, P.TryNext(0, k, true)) == s9;
    Go(s0, s9, P.Finish(0));
    var s10 := s9.(calls := [Asked(events, Replied(Accepted(2, k)))]);
    assert P.Apply(s9, P.Finish(0)) == s10;
    hide P.Apply, P.Enabled, Leads, Waiting, Delivered;
    LeadToDelivered(k, cap, e', 0);
    GoByLead(s0, s10, 1, Waiting(k, cap, e', 0), Delivered(k, cap, e', 0));
    assert s10.gens[1 := O.OfKafka(Delivered(k, cap, e', 0))] == [gone, O.OfKafka(Delivered(k, cap, e', 0))];
  }

  /** A request whose two events went to two generations, the second of which has delivered. */
  function Straddling(uuid: string, k: nat, cap: nat, e: Event, e': Event): System {
    P.System([O.OfKafka(Abandoned(k, cap, e)), O.OfKafka(Delivered(k, cap, e', 0))], Some(1), Some(1), false, uuid,
             false, [Asked([e, e'], Replied(Accepted(2, k)))])
  }

  /** A restart in the middle of a request: the index has passed the AcceptedIndex even in the
      generation that took the last accepted event, and the first event is lost all the same. */
  lemma StraddlingRequestLosesEvent(uuid: string, k: nat, cap: nat, e: Event, e': Event)
    requires cap > 0
    ensures var s := Straddling(uuid, k, cap, e, e');
            && Continues(P.Init(uuid, false), s) && Passed(s, 0) && P.LastHome(s.gens, 1, 0) && !InOneGeneration(s, 0)
            && OwnedAt(s.gens[0], 0, 0) && NeverSettled(s, 0, 0)
            && O.WaitCount(s.gens[0]) == 0 && !OlderFetched(s, 0, 1)
  {
    hide Continues, P.Valid, O.WaitCount, O.Settled, PersistedIndex, NeverSettled, P.Put, P.Owned;
    var s := Straddling(uuid, k, cap, e, e');
    ReachStraddling(uuid, k, cap, e, e');
    ReachedIsValid(uuid, s);
    AbandonedIsUnsettled(k, cap, e);
    DeliveredIndex(k, cap, e', 0);
    StraddlingPut(k, cap, e, e');
    StoppedNeverSettles(s, 0, 0);
  }

  lemma StraddlingPut(k: nat, cap: nat, e: Event, e': Event)
    ensures P.Put(O.OfKafka(Abandoned(k, cap, e)), 0) != []
    ensures P.Put(O.OfKafka(Delivered(k, cap, e', 0)), 0) != []
  {
    OwnedSome([Entry(k, e, 0)], 0, 0);
    OwnedSome([Entry(k, e', 0)], 0, 0);
  }
}
