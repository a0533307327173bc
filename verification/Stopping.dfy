/**
 An output whose queue has been closed can always stop, from whatever it is doing, unless it is
 Elasticsearch and has met an event that it cannot serialise. A rank says how far it is from
 there, and some step of the output always lowers it.
 */
module Stopping {
  import opened Basics
  import opened MemoryQueue
  import KR = KafkaRound
  import KO = KafkaOutput
  import EO = ElasticOutput
  import SO = SyncOutputs
  import O = Outputs

  // ---------------------------------------------------------------- Kafka

  /** Steps until every message of the round is counted down, if the broker takes all that is unsent. */
  function RoundRank(r: KR.Round): nat {
    (if r.sent <= |r.data| then 4 * (|r.data| - r.sent) else 0)
    + 3 * |r.input| + 2 * |r.successes| + 2 * |r.errors| + KR.Held(r.successHand) + KR.Held(r.errorHand)
  }

  function Failures(r: KR.Round): nat { |r.ref.failed| + |r.errors| }

  function KafkaRank(l: KO.Loop): nat {
    match l
    case Stopped => 0
    case AtGet => 1
    case AtTail(_) => 2
    case AtTailRelease => 2
    case AtHead(events, _) => if events == [] then 3 else 4 * |events| + 7
    case AtRelease(_, _) => 4
    case AtDone(events, _, _) => if events == [] then 5 else 4 * |events| + 8
    case InRound(r, _) => RoundRank(r) + if Failures(r) == 0 then 6 else 4 * Failures(r) + 9
  }

  lemma SomethingUnresolved(r: KR.Round)
    requires KR.Valid(r) && !KR.Returns(r)
    ensures r.sent < |r.data| || r.input != multiset{} || r.successHand.Some? || r.successes != multiset{}
            || r.errorHand.Some? || r.errors != []
  {
    KR.ReturnedRoundIsDecided(r);
    assert KR.Unresolved(r) != 0 && r.sent <= |r.data|;
    hide KR.Valid, KR.Returns;
  }

  lemma BrokerLowers(r: KR.Round, m: nat)
    ensures m in r.input ==> RoundRank(KR.Apply(r, KR.Acknowledge(m))) < RoundRank(r)
    ensures m in r.successes && r.successHand.None? ==> RoundRank(KR.Apply(r, KR.TakeSuccess(m))) < RoundRank(r)
  {
    assert m in r.input ==> |r.input - multiset{m}| == |r.input| - 1;
    assert m in r.successes ==> |r.successes - multiset{m}| == |r.successes| - 1;
  }

  lemma RoundMoves(r: KR.Round) returns (t: KR.Step)
    requires KR.Valid(r) && !KR.Returns(r)
    ensures KR.Enabled(r, t)
    ensures RoundRank(KR.Apply(r, t)) < RoundRank(r) && Failures(KR.Apply(r, t)) <= Failures(r)
  {
    hide KR.Valid, KR.Returns;
    SomethingUnresolved(r);
    if r.sent < |r.data| {
      t := KR.Send;
    } else if r.input != multiset{} {
      var m :| m in r.input;
      t := KR.Acknowledge(m);
      BrokerLowers(r, m);
      hide RoundRank;
    } else if r.successHand.Some? {
      t := KR.CountSuccess;
    } else if r.successes != multiset{} {
      var m :| m in r.successes;
      t := KR.TakeSuccess(m);
      BrokerLowers(r, m);
      hide RoundRank;
    } else {
      t := if r.errorHand.Some? then KR.CountError else KR.TakeError;
    }
  }

  lemma KafkaReportMoves(k: KO.Delivery) returns (t: KO.Step)
    requires KO.Accounted(k) && KO.RoundOk(k.loop) && (k.loop.AtDone? || k.loop.AtRelease?)
    ensures KO.Enabled(k, t) && (t.AddCompleted? || t.ReleaseBatch?)
    ensures KafkaRank(KO.Apply(k, t).loop) < KafkaRank(k.loop)
  {
    if k.loop.AtDone? {
      t := KO.AddCompleted;
      KO.StepAccounting(k, t);
      hide KO.Accounted, KO.RoundOk, ReachedCount, AddDone;
    } else {
      t := KO.ReleaseBatch;
      hide KO.RoundOk;
    }
  }

  lemma KafkaLoopMoves(k: KO.Delivery) returns (t: KO.Step)
    requires KO.Accounted(k) && k.queue.closed && (k.loop.AtGet? || k.loop.AtHead? || k.loop.AtTail?)
    ensures KO.Enabled(k, t) && (t.QueueClosed? || t.LeaveLoop? || t.BeginRound? || t.NextBatch?)
    ensures KafkaRank(KO.Apply(k, t).loop) < KafkaRank(k.loop)
  {
    if k.loop.AtGet? {
      t := KO.QueueClosed;
    } else if k.loop.AtTail? {
      t := KO.NextBatch;
    } else {
      t := if k.loop.events == [] then KO.LeaveLoop else KO.BeginRound;
    }
  }

  lemma KafkaMoves(k: KO.Delivery) returns (t: KO.Step)
    requires KO.Valid(k) && k.queue.closed && k.wg != 0
    ensures KO.Enabled(k, t) && !t.Arrive? && !t.CloseDown? && !t.Fetch?
    ensures KafkaRank(KO.Apply(k, t).loop) < KafkaRank(k.loop)
  {
    assert !k.loop.Stopped? && !k.loop.AtTailRelease?;
    hide KO.Accounted, KO.RoundOk, KO.Conserved, KO.OpenIsLast, MemoryQueue.Valid, KO.Apply, KO.Enabled, KafkaRank;
    if k.loop.InRound? {
      t := KafkaRoundMoves(k);
    } else if k.loop.AtDone? || k.loop.AtRelease? {
      t := KafkaReportMoves(k);
    } else {
      t := KafkaLoopMoves(k);
    }
  }

  lemma KafkaRoundMoves(k: KO.Delivery) returns (t: KO.Step)
    requires KO.Valid(k) && k.loop.InRound?
    ensures KO.Enabled(k, t) && (t.Within? || t.EndRound?)
    ensures KafkaRank(KO.Apply(k, t).loop) < KafkaRank(k.loop)
  {
    var r := k.loop.round;
    if KR.Returns(r) {
      t := KO.EndRound;
    } else {
      var u := RoundMoves(r);
      t := KO.Within(u);
      hide RoundRank, KR.Apply, KR.Enabled, KO.Valid;
    }
  }

  // ---------------------------------------------------------------- Logstash and console

  function SyncRank(l: SO.Loop): nat {
    match l
    case Stopped => 0
    case AtGet => 1
    case AtCallback => 2
    case AtRelease => 3
    case Handling => 4
  }

  lemma SyncMoves(o: SO.Output) returns (t: SO.Step)
    requires SO.Valid(o) && o.queue.closed && o.wg != 0
    ensures SO.Enabled(o, t) && !t.Arrive? && !t.CloseDown? && !t.Fetch?
    ensures SyncRank(SO.Apply(o, t).loop) < SyncRank(o.loop)
  {
    match o.loop
    case AtGet => t := SO.QueueClosed;
    case AtCallback => t := SO.Callback;
    case AtRelease => t := SO.ReleaseBatch;
    case Handling => t := SO.ReportDone;
  }

  // ---------------------------------------------------------------- Elasticsearch

  function WorkRank(batch: Batch, w: EO.Work): nat {
    (if w.sent <= batch.count then 5 * (batch.count - w.sent) else 0) + 4 * |w.pending| + 2 * w.releasing + w.calling
  }

  function WorksRank(batches: seq<Batch>, work: seq<EO.Work>): nat
    requires |batches| == |work|
  {
    if work == [] then 0
    else
      var n := |work| - 1;
      WorksRank(batches[..n], work[..n]) + WorkRank(batches[n], work[n])
  }

  function ElasticRank(e: EO.Elastic): nat
    requires |e.work| == |e.queue.batches|
  {
    WorksRank(e.queue.batches, e.work)
    + match e.loop
      case Stopped => 0
      case ClosingIndexer => 1
      case AtGet => 2
      case Sending => 3
  }

  lemma {:induction false} WorksRankUpdate(batches: seq<Batch>, work: seq<EO.Work>, b: nat, batch: Batch, w: EO.Work)
    requires |batches| == |work| && b < |work|
    ensures WorksRank(batches[b := batch], work[b := w])
         == WorksRank(batches, work) - WorkRank(batches[b], work[b]) + WorkRank(batch, w)
    decreases |work|
  {
    hide WorkRank;
    var n := |work| - 1;
    if b < n {
      assert batches[b := batch][..n] == batches[..n][b := batch];
      assert work[b := w][..n] == work[..n][b := w];
      WorksRankUpdate(batches[..n], work[..n], b, batch, w);
    } else {
      assert batches[b := batch][..n] == batches[..n] && work[b := w][..n] == work[..n];
    }
  }

  ghost predicate NoneSkipped(e: EO.Elastic) {
    forall b :: 0 <= b < |e.work| ==> e.work[b].skipped == {}
  }

  lemma SettleLowers(batch: Batch, w: EO.Work, s: EO.Step)
    requires EO.WorkOk(batch, w) && s.Settle? && s.i in w.pending
    ensures var (batch', w') := EO.Effect(batch, w, s);
            WorkRank(batch', w') < WorkRank(batch, w) && w'.skipped == w.skipped
  {
    assert |w.pending - {s.i}| == |w.pending| - 1;
  }

  lemma SubmitLowers(batch: Batch, w: EO.Work)
    requires EO.WorkOk(batch, w) && w.sent < batch.count
    ensures var (batch', w') := EO.Effect(batch, w, EO.Submit);
            WorkRank(batch', w') < WorkRank(batch, w) && w'.skipped == w.skipped
  {
    assert w.sent !in w.pending;
    assert |w.pending + {w.sent}| == |w.pending| + 1;
  }

  lemma ReleaseLowers(batch: Batch, w: EO.Work, s: EO.Step)
    requires EO.OnBatch(s) && EO.Allowed(batch, w, s) && (s.ReleaseBatch? || s.Callback?)
    ensures var (batch', w') := EO.Effect(batch, w, s);
            WorkRank(batch', w') < WorkRank(batch, w) && w'.skipped == w.skipped
  {
  }

  /** A step on one batch that lowers its rank lowers the rank of the whole. */
  lemma BatchStepLowers(e: EO.Elastic, s: EO.Step)
    requires EO.Enabled(e, s) && EO.OnBatch(s) && NoneSkipped(e)
    requires var b := EO.Target(e, s);
             var (batch', w') := EO.Effect(e.queue.batches[b], e.work[b], s);
             WorkRank(batch', w') < WorkRank(e.queue.batches[b], e.work[b]) && w'.skipped == e.work[b].skipped
    ensures var e' := EO.Apply(e, s);
            |e'.work| == |e'.queue.batches| && ElasticRank(e') < ElasticRank(e) && NoneSkipped(e')
  {
    hide EO.Effect, EO.Allowed, WorkRank;
    hide WorksRank;
    var b := EO.Target(e, s);
    var (batch', w') := EO.Effect(e.queue.batches[b], e.work[b], s);
    WorksRankUpdate(e.queue.batches, e.work, b, batch', w');
  }

  lemma {:induction false} SomeUncalled(work: seq<EO.Work>) returns (b: nat)
    requires EO.Uncalled(work) > 0
    ensures b < |work| && work[b].callbacks == 0
  {
    var n := |work| - 1;
    if work[n].callbacks == 0 {
      b := n;
    } else {
      b := SomeUncalled(work[..n]);
    }
  }

  /** A batch without skipped events whose callback has not run has something left to happen. */
  lemma SomethingLeft(batch: Batch, w: EO.Work)
    requires EO.WorkOk(batch, w) && 0 < batch.count && w.skipped == {} && w.sent == batch.count && w.callbacks == 0
    ensures w.pending != {} || w.releasing > 0 || w.calling > 0
  {
    hide EO.WorkOk;
    if w.pending == {} && w.releasing == 0 && w.calling == 0 {
      assert EO.Quiescent(batch, w);
      EO.Completion(batch, w);
    }
  }

  /** The step that is left to a batch, and what it does to it. */
  lemma LeftLowers(batch: Batch, w: EO.Work, b: nat) returns (t: EO.Step)
    requires EO.WorkOk(batch, w) && (w.pending != {} || w.releasing > 0 || w.calling > 0)
    ensures EO.OnBatch(t) && !EO.Sends(t) && t.b == b && EO.Allowed(batch, w, t)
    ensures var (batch', w') := EO.Effect(batch, w, t);
            WorkRank(batch', w') < WorkRank(batch, w) && w'.skipped == w.skipped
  {
    hide EO.Effect, WorkRank, EO.WorkOk;
    if w.pending != {} {
      var i: nat :| i in w.pending;
      t := EO.Settle(b, i);
      SettleLowers(batch, w, t);
    } else {
      t := if w.releasing > 0 then EO.ReleaseBatch(b) else EO.Callback(b);
      ReleaseLowers(batch, w, t);
    }
  }

  lemma PendingMoves(e: EO.Elastic, b: nat) returns (t: EO.Step)
    requires EO.Valid(e) && b < |e.work| && NoneSkipped(e)
    requires e.work[b].pending != {} || e.work[b].releasing > 0 || e.work[b].calling > 0
    ensures EO.Enabled(e, t) && EO.OnBatch(t)
    ensures var e' := EO.Apply(e, t);
            |e'.work| == |e'.queue.batches| && ElasticRank(e') < ElasticRank(e) && NoneSkipped(e')
  {
    hide EO.WorkOk, EO.Effect, EO.Allowed, ElasticRank, WorkRank, NoneSkipped;
    t := LeftLowers(e.queue.batches[b], e.work[b], b);
    BatchStepLowers(e, t);
  }

  lemma SendingMoves(e: EO.Elastic) returns (t: EO.Step)
    requires EO.Valid(e) && e.loop.Sending? && NoneSkipped(e)
    ensures EO.Enabled(e, t) && !t.Arrive? && !t.CloseDown? && !t.Fetch?
    ensures var e' := EO.Apply(e, t);
            |e'.work| == |e'.queue.batches| && ElasticRank(e') < ElasticRank(e) && NoneSkipped(e')
  {
    var b := EO.Last(e);
    var batch, w := e.queue.batches[b], e.work[b];
    assert EO.WorkOk(batch, w);
    if w.sent < batch.count {
      t := EO.Submit;
      SubmitLowers(batch, w);
      hide EO.Valid, EO.WorkOk, EO.Effect, ElasticRank, WorkRank;
      BatchStepLowers(e, t);
    } else {
      t := EO.NextBatch;
      hide EO.Valid, EO.Effect, WorksRank;
    }
  }

  lemma ElasticMoves(e: EO.Elastic) returns (t: EO.Step)
    requires EO.Valid(e) && e.queue.closed && e.wg != 0 && NoneSkipped(e)
    ensures EO.Enabled(e, t) && !t.Arrive? && !t.CloseDown? && !t.Fetch?
    ensures var e' := EO.Apply(e, t);
            |e'.work| == |e'.queue.batches| && ElasticRank(e') < ElasticRank(e) && NoneSkipped(e')
  {
    hide EO.WorkOk, EO.Effect, EO.Allowed, WorksRank;
    match e.loop
    case Sending =>
      t := SendingMoves(e);
    case AtGet => t := EO.QueueClosed;
    case ClosingIndexer => t := EO.IndexerClosed;
    case Stopped =>
      assert e.work != [] by {
        assert EO.Uncalled([]) == 0;
      }
      EO.StateDrained(e, 0);
      var b := SomeUncalled(e.work);
      SomethingLeft(e.queue.batches[b], e.work[b]);
      t := PendingMoves(e, b);
  }

  // ---------------------------------------------------------------- any output

  /** The output has met no event that it cannot serialise. */
  ghost predicate NeverSkipped(d: O.Delivery) { forall b: nat :: !O.Skipped(d, b) }

  function Rank(d: O.Delivery): nat {
    match d
    case OfKafka(k) => KafkaRank(k.loop)
    case OfElastic(e) => if |e.work| == |e.queue.batches| then ElasticRank(e) else 0
    case OfSync(o) => SyncRank(o.loop)
  }

  /** A step of the output that fetches nothing. */
  predicate Finishes(s: O.Step) {
    match s
    case KafkaStep(t) => !t.Fetch?
    case ElasticStep(t) => !t.Fetch?
    case SyncStep(t) => !t.Fetch?
    case _ => false
  }

  lemma KafkaKeepsFetched(k: KO.Delivery, t: KO.Step)
    requires KO.Enabled(k, t) && !t.Fetch?
    ensures Fetched(KO.Apply(k, t).queue) == Fetched(k.queue)
  {
    hide KO.Enabled, KO.Apply;
    KO.QuietStepBatches(k, t);
  }

  lemma ElasticKeepsFetched(e: EO.Elastic, t: EO.Step)
    requires EO.Enabled(e, t) && !t.Fetch?
    ensures Fetched(EO.Apply(e, t).queue) == Fetched(e.queue)
  {
    hide EO.Effect, EO.Allowed;
    if EO.OnBatch(t) {
      var b := EO.Target(e, t);
      EO.EffectShape(e.queue.batches[b], e.work[b], t);
    }
  }

  lemma SyncKeepsFetched(o: SO.Output, t: SO.Step)
    requires SO.Enabled(o, t) && !t.Fetch?
    ensures Fetched(SO.Apply(o, t).queue) == Fetched(o.queue)
  {
  }

  lemma FinishingKeepsFetched(d: O.Delivery, s: O.Step)
    requires O.Enabled(d, s) && Finishes(s)
    ensures Fetched(O.QueueOf(O.Apply(d, s))) == Fetched(O.QueueOf(d))
  {
    hide KO.Apply, KO.Enabled, EO.Apply, EO.Enabled, SO.Apply, SO.Enabled, Fetched;
    match s
    case KafkaStep(t) => KafkaKeepsFetched(d.kafka, t);
    case ElasticStep(t) => ElasticKeepsFetched(d.elastic, t);
    case SyncStep(t) => SyncKeepsFetched(d.sync, t);
  }

  /** Once its queue is closed, an output that has skipped no event and has not stopped can take a
      step that brings it nearer to that, without fetching anything. */
  lemma Moves(d: O.Delivery) returns (s: O.Step)
    requires O.Valid(d) && O.QueueOf(d).closed && O.WaitCount(d) != 0 && NeverSkipped(d)
    ensures O.Enabled(d, s) && Finishes(s)
    ensures Rank(O.Apply(d, s)) < Rank(d) && NeverSkipped(O.Apply(d, s))
  {
    hide KO.Valid, KO.Apply, KO.Enabled, EO.Valid, EO.Apply, EO.Enabled, SO.Valid, SO.Apply, SO.Enabled;
    match d
    case OfKafka(k) =>
      var t := KafkaMoves(k);
      s := O.KafkaStep(t);
    case OfElastic(e) =>
      s := ElasticMovesToo(d, e);
    case OfSync(o) =>
      var t := SyncMoves(o);
      s := O.SyncStep(t);
  }

  lemma ElasticMovesToo(d: O.Delivery, e: EO.Elastic) returns (s: O.Step)
    requires d == O.OfElastic(e) && EO.Valid(e) && e.queue.closed && e.wg != 0 && NeverSkipped(d)
    ensures O.Enabled(d, s) && Finishes(s)
    ensures Rank(O.Apply(d, s)) < Rank(d) && NeverSkipped(O.Apply(d, s))
  {
    hide EO.WorkOk, EO.Apply, EO.Enabled, ElasticRank;
    forall b | 0 <= b < |e.work|
      ensures e.work[b].skipped == {}
    {
      assert !O.Skipped(d, b);
    }
    var t := ElasticMoves(e);
    s := O.ElasticStep(t);
    var e' := EO.Apply(e, t);
    forall b: nat
      ensures !O.Skipped(O.OfElastic(e'), b)
    {
      assert b < |e'.work| ==> e'.work[b].skipped == {};
    }
  }
}
