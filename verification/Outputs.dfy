/**
 One queue generation with whichever output was configured for it (publisherserver/server.go,
 outputFromConfig): what the four outputs have in common.
 */
module Outputs {
  import opened Basics
  import opened MemoryQueue
  import KO = KafkaOutput
  import EO = ElasticOutput
  import SO = SyncOutputs

  datatype Kind = Kafka | Elasticsearch | Logstash | Console

  datatype Delivery = OfKafka(kafka: KO.Delivery) | OfElastic(elastic: EO.Elastic) | OfSync(sync: SO.Output)

  function NewDelivery(kind: Kind, firstId: nat, capacity: nat, started: bool): Delivery {
    match kind
    case Kafka => OfKafka(KO.NewDelivery(firstId, capacity, started))
    case Elasticsearch => OfElastic(EO.NewElastic(firstId, capacity, started))
    case Logstash => OfSync(SO.NewOutput(SO.Logstash, firstId, capacity, started))
    case Console => OfSync(SO.NewOutput(SO.Console, firstId, capacity, started))
  }

  function QueueOf(d: Delivery): Queue {
    match d
    case OfKafka(k) => k.queue
    case OfElastic(e) => e.queue
    case OfSync(o) => o.queue
  }

  function Entries(d: Delivery): seq<Entry> { QueueOf(d).entries }
  function Index(d: Delivery): nat { PersistedIndex(QueueOf(d)) }

  /** Each kind of output is modelled by its own machine, and works when it was started. */
  lemma Kinds(kind: Kind, firstId: nat, capacity: nat, started: bool)
    ensures var d := NewDelivery(kind, firstId, capacity, started);
            && (kind == Kafka <==> d.OfKafka?)
            && (kind == Elasticsearch <==> d.OfElastic?)
            && (kind == Logstash <==> d.OfSync? && d.sync.kind == SO.Logstash)
            && (kind == Console <==> d.OfSync? && d.sync.kind == SO.Console)
            && WaitCount(d) == (if started then 1 else 0)
            && QueueOf(d) == NewQueue(firstId, capacity)
  {
  }

  /** The wait group that the output's Wait waits for. */
  function WaitCount(d: Delivery): int {
    match d
    case OfKafka(k) => k.wg
    case OfElastic(e) => e.wg
    case OfSync(o) => o.wg
  }

  /** The first two steps come from outside; the others are the output's own. */
  datatype Step =
    | Arrive(id: nat, event: Event, owner: nat)
    | CloseDown
    | KafkaStep(kafka: KO.Step)
    | ElasticStep(elastic: EO.Step)
    | SyncStep(sync: SO.Step)

  predicate Enabled(d: Delivery, s: Step) {
    match s
    case Arrive(id, _, _) => !QueueOf(d).closed && HasRoom(QueueOf(d)) && QueueOf(d).nextId <= id
    case CloseDown => true
    case KafkaStep(t) => d.OfKafka? && !t.Arrive? && !t.CloseDown? && KO.Enabled(d.kafka, t)
    case ElasticStep(t) => d.OfElastic? && !t.Arrive? && !t.CloseDown? && EO.Enabled(d.elastic, t)
    case SyncStep(t) => d.OfSync? && !t.Arrive? && !t.CloseDown? && SO.Enabled(d.sync, t)
  }

  function WithQueue(d: Delivery, q: Queue): Delivery {
    match d
    case OfKafka(k) => OfKafka(k.(queue := q))
    case OfElastic(e) => OfElastic(e.(queue := q))
    case OfSync(o) => OfSync(o.(queue := q))
  }

  function Apply(d: Delivery, s: Step): Delivery
    requires Enabled(d, s)
  {
    match s
    case Arrive(id, event, owner) => WithQueue(d, Enqueue(QueueOf(d), id, event, owner))
    case CloseDown => WithQueue(d, CloseQueue(QueueOf(d)))
    case KafkaStep(t) => OfKafka(KO.Apply(d.kafka, t))
    case ElasticStep(t) => OfElastic(EO.Apply(d.elastic, t))
    case SyncStep(t) => OfSync(SO.Apply(d.sync, t))
  }

  ghost predicate Valid(d: Delivery) {
    match d
    case OfKafka(k) => KO.Valid(k)
    case OfElastic(e) => EO.Valid(e)
    case OfSync(o) => SO.Valid(o)
  }

  /** Kafka: acknowledged, or dropped for a stated reason, once and not both. Elasticsearch:
      indexed, failed or refused. Logstash and console: its batch was reported done. */
  ghost predicate Settled(d: Delivery, p: nat) {
    match d
    case OfKafka(k) => KO.Settled(k, p)
    case OfElastic(e) => EO.Settled(e, p)
    case OfSync(o) => SO.Settled(o, p)
  }

  // ---------------------------------------------------------------- the same step, seen by the output

  function ForKafka(s: Step): KO.Step
    requires !s.ElasticStep? && !s.SyncStep?
  {
    match s
    case Arrive(id, event, owner) => KO.Arrive(id, event, owner)
    case CloseDown => KO.CloseDown
    case KafkaStep(t) => t
  }

  function ForElastic(s: Step): EO.Step
    requires !s.KafkaStep? && !s.SyncStep?
  {
    match s
    case Arrive(id, event, owner) => EO.Arrive(id, event, owner)
    case CloseDown => EO.CloseDown
    case ElasticStep(t) => t
  }

  function ForSync(s: Step): SO.Step
    requires !s.KafkaStep? && !s.ElasticStep?
  {
    match s
    case Arrive(id, event, owner) => SO.Arrive(id, event, owner)
    case CloseDown => SO.CloseDown
    case SyncStep(t) => t
  }

  lemma AsKafka(d: Delivery, s: Step)
    requires d.OfKafka? && Enabled(d, s)
    ensures !s.ElasticStep? && !s.SyncStep? && KO.Enabled(d.kafka, ForKafka(s))
    ensures Apply(d, s) == OfKafka(KO.Apply(d.kafka, ForKafka(s)))
  {
    if s.KafkaStep? {
      hide KO.Apply, KO.Enabled;
    }
  }

  lemma AsElastic(d: Delivery, s: Step)
    requires d.OfElastic? && EO.Valid(d.elastic) && Enabled(d, s)
    ensures !s.KafkaStep? && !s.SyncStep? && EO.Enabled(d.elastic, ForElastic(s))
    ensures Apply(d, s) == OfElastic(EO.Apply(d.elastic, ForElastic(s)))
  {
    hide EO.WorkOk, EO.Effect, EO.Allowed;
    if s.ElasticStep? {
      hide EO.Apply, EO.Enabled, EO.Valid;
    }
  }

  lemma AsSync(d: Delivery, s: Step)
    requires d.OfSync? && Enabled(d, s)
    ensures !s.KafkaStep? && !s.ElasticStep? && SO.Enabled(d.sync, ForSync(s))
    ensures Apply(d, s) == OfSync(SO.Apply(d.sync, ForSync(s)))
  {
    if s.SyncStep? {
      hide SO.Apply, SO.Enabled;
    }
  }

  // ---------------------------------------------------------------- what they have in common

  lemma NewDeliveryValid(kind: Kind, firstId: nat, capacity: nat, started: bool)
    ensures Valid(NewDelivery(kind, firstId, capacity, started))
    ensures QueueOf(NewDelivery(kind, firstId, capacity, started)) == NewQueue(firstId, capacity)
  {
    KO.NewDeliveryValid(firstId, capacity, started);
  }

  lemma StepKeepsValid(d: Delivery, s: Step)
    requires Valid(d) && Enabled(d, s)
    ensures Valid(Apply(d, s)) && Extends(QueueOf(d), QueueOf(Apply(d, s)))
  {
    hide KO.Valid, KO.Apply, KO.Enabled, EO.Valid, EO.Apply, EO.Enabled, SO.Valid, SO.Apply, SO.Enabled, Extends;
    match d
    case OfKafka(k) =>
      AsKafka(d, s);
      KO.StepKeepsValid(k, ForKafka(s));
    case OfElastic(e) =>
      AsElastic(d, s);
      EO.StepKeepsValid(e, ForElastic(s));
    case OfSync(o) =>
      AsSync(d, s);
      SO.StepKeepsValid(o, ForSync(s));
  }

  lemma ValidQueue(d: Delivery)
    requires Valid(d)
    ensures MemoryQueue.Valid(QueueOf(d))
  {
    hide MemoryQueue.Valid;
  }

  lemma StepKeepsSettled(d: Delivery, s: Step, p: nat)
    requires Valid(d) && Enabled(d, s) && Settled(d, p)
    ensures Settled(Apply(d, s), p)
  {
    hide KO.Valid, KO.Apply, KO.Enabled, EO.Valid, EO.Apply, EO.Enabled, SO.Valid, SO.Apply, SO.Enabled;
    hide KO.Settled, EO.Settled, SO.Settled;
    match d
    case OfKafka(k) =>
      AsKafka(d, s);
      KO.StepKeepsSettled(k, ForKafka(s), p);
    case OfElastic(e) =>
      AsElastic(d, s);
      EO.StepKeepsSettled(e, ForElastic(s), p);
    case OfSync(o) =>
      AsSync(d, s);
      SO.StepKeepsSettled(o, ForSync(s), p);
  }

  /** Nothing below the persisted index is unsettled, whatever the output. */
  lemma BelowIndexIsSettled(d: Delivery, p: nat)
    requires Valid(d) && p < |QueueOf(d).entries| && QueueOf(d).entries[p].id < PersistedIndex(QueueOf(d))
    ensures Settled(d, p)
  {
    hide KO.Valid, EO.Valid, SO.Valid, KO.Settled, EO.Settled, SO.Settled, PersistedIndex;
    match d
    case OfKafka(k) => KO.BelowIndexIsSettled(k, p);
    case OfElastic(e) => EO.BelowIndexIsSettled(e, p);
    case OfSync(o) => SO.BelowIndexIsSettled(o, p);
  }

  /** Once Wait can return: every fetched batch was released, once, and the settled events are
      exactly those that were fetched. */
  lemma StoppedIsDrained(d: Delivery)
    requires Valid(d) && WaitCount(d) == 0
    ensures forall k :: 0 <= k < |QueueOf(d).batches| ==> QueueOf(d).batches[k].releases == 1
    ensures forall p: nat :: Settled(d, p) <==> p < Fetched(QueueOf(d))
  {
    hide KO.Valid, EO.Valid, SO.Valid, KO.Settled, EO.Settled, SO.Settled, Fetched;
    forall p: nat
      ensures Settled(d, p) <==> p < Fetched(QueueOf(d))
    {
      StoppedIffFetched(d, p);
    }
    match d
    case OfKafka(k) => KO.StoppedIsDrained(k);
    case OfElastic(e) =>
      forall b | 0 <= b < |e.queue.batches|
        ensures e.queue.batches[b].releases == 1
      {
        ElasticReleased(e, b);
      }
    case OfSync(o) => SO.StoppedIsReleased(o);
  }

  lemma ElasticReleased(e: EO.Elastic, b: nat)
    requires EO.Valid(e) && e.wg == 0 && b < |e.queue.batches|
    ensures e.queue.batches[b].releases == 1
  {
    hide EO.WorkOk, EO.Uncalled;
    EO.StateDrained(e, b);
  }

  lemma StoppedIffFetched(d: Delivery, p: nat)
    requires Valid(d) && WaitCount(d) == 0
    ensures Settled(d, p) <==> p < Fetched(QueueOf(d))
  {
    hide KO.Valid, EO.Valid, SO.Valid, KO.Settled, EO.Settled, SO.Settled, Fetched;
    match d
    case OfKafka(k) => KO.StoppedIffFetched(k, p);
    case OfElastic(e) => EO.StoppedIffFetched(e, p);
    case OfSync(o) => SO.StoppedIffFetched(o, p);
  }

  /** An output that has stopped fetches nothing more. */
  lemma StaysStopped(d: Delivery, s: Step)
    requires Valid(d) && WaitCount(d) == 0 && Enabled(d, s)
    ensures WaitCount(Apply(d, s)) == 0 && Fetched(QueueOf(Apply(d, s))) == Fetched(QueueOf(d))
  {
    hide KO.Apply, KO.Enabled, EO.Valid, EO.Apply, EO.Enabled, SO.Valid, SO.Apply, SO.Enabled, Fetched;
    match d
    case OfKafka(k) =>
      AsKafka(d, s);
      KO.StaysStopped(k, ForKafka(s));
    case OfElastic(e) =>
      AsElastic(d, s);
      EO.StaysStopped(e, ForElastic(s));
    case OfSync(o) =>
      AsSync(d, s);
      SO.StaysStopped(o, ForSync(s));
  }

  /** An Elasticsearch output that could not serialise an event of batch b. */
  predicate Skipped(d: Delivery, b: nat) {
    d.OfElastic? && b < |d.elastic.work| && d.elastic.work[b].skipped != {}
  }

  /** It keeps Wait from returning, for good. */
  lemma SkippedNeverStops(d: Delivery, b: nat)
    requires Valid(d) && Skipped(d, b)
    ensures WaitCount(d) >= 1
    ensures forall s :: Enabled(d, s) ==> Skipped(Apply(d, s), b)
  {
    hide EO.Valid;
    EO.StateDrained(d.elastic, b);
    forall s | Enabled(d, s)
      ensures Skipped(Apply(d, s), b)
    {
      StepKeepsSkipped(d, s, b);
    }
  }

  lemma StepKeepsSkipped(d: Delivery, s: Step, b: nat)
    requires Valid(d) && Skipped(d, b) && Enabled(d, s)
    ensures Skipped(Apply(d, s), b)
  {
    hide EO.Valid, EO.Apply, EO.Enabled, Apply, Enabled;
    AsElastic(d, s);
    EO.StepKeepsSkipped(d.elastic, ForElastic(s), b);
  }

  /** What a step does to the queue's entries, and who closes it. */
  lemma StepOnQueue(d: Delivery, s: Step)
    requires Enabled(d, s)
    ensures QueueOf(Apply(d, s)).entries ==
            QueueOf(d).entries + if s.Arrive? then [Entry(s.id, s.event, s.owner)] else []
    ensures QueueOf(Apply(d, s)).closed == (QueueOf(d).closed || s.CloseDown?)
    ensures QueueOf(Apply(d, s)).capacity == QueueOf(d).capacity
    ensures s.Arrive? ==> !QueueOf(d).closed
  {
    hide KO.Apply, KO.Enabled, EO.Apply, EO.Enabled, SO.Apply, SO.Enabled;
    match s
    case KafkaStep(t) => KafkaStepOnQueue(d.kafka, t);
    case ElasticStep(t) => ElasticStepOnQueue(d.elastic, t);
    case SyncStep(t) => SyncStepOnQueue(d.sync, t);
    case _ =>
  }

  /** The queue never holds more than its capacity. */
  lemma StepKeepsCapacity(d: Delivery, s: Step)
    requires Valid(d) && Enabled(d, s) && WithinCapacity(QueueOf(d))
    ensures WithinCapacity(QueueOf(Apply(d, s)))
  {
    assert s.Arrive? ==> HasRoom(QueueOf(d));
    hide Valid, Apply, Enabled, QueueOf, OldestPosition;
    StepKeepsValid(d, s);
    ValidQueue(d);
    ValidQueue(Apply(d, s));
    StepOnQueue(d, s);
    OldestGrows(QueueOf(d), QueueOf(Apply(d, s)));
  }

  lemma KafkaStepOnQueue(k: KO.Delivery, t: KO.Step)
    requires KO.Enabled(k, t) && !t.Arrive? && !t.CloseDown?
    ensures KO.Apply(k, t).queue.entries == k.queue.entries && KO.Apply(k, t).queue.closed == k.queue.closed
    ensures KO.Apply(k, t).queue.capacity == k.queue.capacity
  {
  }

  lemma ElasticStepOnQueue(e: EO.Elastic, t: EO.Step)
    requires EO.Enabled(e, t) && !t.Arrive? && !t.CloseDown?
    ensures EO.Apply(e, t).queue.entries == e.queue.entries && EO.Apply(e, t).queue.closed == e.queue.closed
    ensures EO.Apply(e, t).queue.capacity == e.queue.capacity
  {
    hide EO.Effect, EO.Allowed;
  }

  lemma SyncStepOnQueue(o: SO.Output, t: SO.Step)
    requires SO.Enabled(o, t) && !t.Arrive? && !t.CloseDown?
    ensures SO.Apply(o, t).queue.entries == o.queue.entries && SO.Apply(o, t).queue.closed == o.queue.closed
    ensures SO.Apply(o, t).queue.capacity == o.queue.capacity
  {
  }
}
