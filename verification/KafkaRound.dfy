/**
 One call of Client.publishEvents (output/kafka/client.go): the sender walks over
 the events, Sarama accepts messages and reports each of them exactly once, and the
 success worker and the error worker settle them against a shared MsgRef. The steps
 of these actors interleave freely. Messages are named by queue positions.
 */
module KafkaRound {
  import opened Basics

  datatype ProducerError = InvalidMessage | MessageSizeTooLarge | InvalidMessageSize | BreakerOpen | Other(code: nat)

  /** Why an event is given up: three ways for getEventMessage to fail, two verdicts in MsgRef.fail. */
  datatype DropReason = TopicSelection | NoTopic | Encoding | BadMessage | TooLarge

  datatype MsgRef = MsgRef(wait: int, failed: seq<nat>, err: Option<ProducerError>)

  function Dec(r: MsgRef): MsgRef { r.(wait := r.wait - 1) }

  /** MsgRef.fail without its final decrement: the reason for a drop, or none when the event is kept for a retry. */
  function Verdict(e: ProducerError): Option<DropReason> {
    match e
    case InvalidMessage => Some(BadMessage)
    case MessageSizeTooLarge => Some(TooLarge)
    case InvalidMessageSize => Some(TooLarge)
    case BreakerOpen => None
    case Other(_) => None
  }

  function Record(r: MsgRef, msg: nat, e: ProducerError): MsgRef {
    if Verdict(e).Some? then r
    else r.(failed := r.failed + [msg], err := if e.BreakerOpen? || r.err.Some? then r.err else Some(e))
  }

  // ---------------------------------------------------------------- MsgRef.fail

  /** Errors after which an event is worth another attempt. */
  predicate Retryable(e: ProducerError) { e.BreakerOpen? || e.Other? }

  /** The messages of the retryable reports, in order, and the first error other than an open breaker. */
  function ToRetry(ts: seq<Tagged<ProducerError>>): seq<nat> {
    if ts == [] then [] else RetryFor(ts[0]) + ToRetry(ts[1..])
  }

  function RetryFor(t: Tagged<ProducerError>): seq<nat> { if Retryable(t.tag) then [t.msg] else [] }

  function FirstCause(ts: seq<Tagged<ProducerError>>): Option<ProducerError> {
    if ts == [] then None else if ts[0].tag.Other? then Some(ts[0].tag) else FirstCause(ts[1..])
  }

  function RecordAll(r: MsgRef, ts: seq<Tagged<ProducerError>>): MsgRef
    decreases |ts|
  {
    if ts == [] then r else RecordAll(Record(r, ts[0].msg, ts[0].tag), ts[1..])
  }

  /** Whatever the error worker is told: the failed list holds exactly the events worth a retry,
      in the order of the reports, everything else is dropped, and err keeps the first cause. */
  lemma {:induction false} RecordMeaning(r: MsgRef, ts: seq<Tagged<ProducerError>>)
    ensures RecordAll(r, ts).failed == r.failed + ToRetry(ts)
    ensures RecordAll(r, ts).err == if r.err.Some? then r.err else FirstCause(ts)
    ensures RecordAll(r, ts).wait == r.wait
    ensures forall i :: 0 <= i < |ts| ==> (Verdict(ts[i].tag).Some? <==> !Retryable(ts[i].tag))
    decreases |ts|
  {
    if ts != [] {
      RecordMeaning(Record(r, ts[0].msg, ts[0].tag), ts[1..]);
      assert forall i :: 0 < i < |ts| ==> ts[i] == ts[1..][i - 1];
    }
  }

  // ---------------------------------------------------------------- the actors

  /**
   data, sent        the events of the call and the sender's loop index
   input             accepted by Sarama, not reported yet
   successes, errors the two report channels
   successHand       taken off the success channel, not counted down yet
   errorHand         recorded by the error worker, not counted down yet
   acked, dropped    history: acknowledged by the broker, given up with a reason
   */
  datatype Round = Round(
    data: seq<nat>, sent: nat, input: multiset<nat>,
    successes: multiset<nat>, errors: seq<Tagged<ProducerError>>,
    successHand: Option<nat>, errorHand: Option<nat>,
    ref: MsgRef,
    acked: multiset<nat>, dropped: seq<Tagged<DropReason>>)

  function NewRound(data: seq<nat>): Round {
    Round(data, 0, multiset{}, multiset{}, [], None, None, MsgRef(|data|, [], None), multiset{}, [])
  }

  datatype Step =
    | DropUnsent(reason: DropReason)
    | Send
    | Acknowledge(msg: nat)
    | Reject(msg: nat, error: ProducerError)
    | TakeSuccess(msg: nat)
    | CountSuccess
    | TakeError
    | CountError

  predicate Enabled(r: Round, s: Step) {
    match s
    case DropUnsent(reason) => r.sent < |r.data| && (reason.TopicSelection? || reason.NoTopic? || reason.Encoding?)
    case Send => r.sent < |r.data|
    case Acknowledge(m) => m in r.input
    case Reject(m, _) => m in r.input
    case TakeSuccess(m) => m in r.successes && r.successHand.None?
    case CountSuccess => r.successHand.Some?
    case TakeError => r.errors != [] && r.errorHand.None?
    case CountError => r.errorHand.Some?
  }

  function Apply(r: Round, s: Step): Round
    requires Enabled(r, s)
  {
    match s
    case DropUnsent(reason) =>
      r.(sent := r.sent + 1, dropped := r.dropped + [Tagged(r.data[r.sent], reason)], ref := Dec(r.ref))
    case Send =>
      r.(sent := r.sent + 1, input := r.input + multiset{r.data[r.sent]})
    case Acknowledge(m) =>
      r.(input := r.input - multiset{m}, successes := r.successes + multiset{m}, acked := r.acked + multiset{m})
    case Reject(m, e) =>
      r.(input := r.input - multiset{m}, errors := r.errors + [Tagged(m, e)])
    case TakeSuccess(m) =>
      r.(successes := r.successes - multiset{m}, successHand := Some(m))
    case CountSuccess =>
      r.(successHand := None, ref := Dec(r.ref))
    case TakeError =>
      var t := r.errors[0];
      r.(errors := r.errors[1..], errorHand := Some(t.msg), ref := Record(r.ref, t.msg, t.tag),
         dropped := if Verdict(t.tag).Some? then r.dropped + [Tagged(t.msg, Verdict(t.tag).value)] else r.dropped)
    case CountError =>
      r.(errorHand := None, ref := Dec(r.ref))
  }

  /** asyncSend has returned and batchWaiter.Wait does not block. */
  predicate Returns(r: Round) { r.sent == |r.data| && r.ref.wait == 0 }

  // ---------------------------------------------------------------- conservation

  function Held(o: Option<nat>): nat { if o.Some? then 1 else 0 }

  /** The events that have not been counted down yet. */
  function Unresolved(r: Round): int {
    |r.data| - r.sent + |r.input| + |r.successes| + |r.errors| + Held(r.successHand) + Held(r.errorHand)
  }

  /** The places where message p can be: with the sender, with Sarama, on the error channel,
      or decided. */
  function Places(r: Round, p: nat): nat
    requires r.sent <= |r.data|
  {
    multiset(r.data[r.sent..])[p] + r.input[p] + Msgs(r.errors)[p]
    + r.acked[p] + Msgs(r.dropped)[p] + multiset(r.ref.failed)[p]
  }

  /** Every message is in as many places as it is given, and the counter is right. */
  ghost predicate Valid(r: Round) {
    && r.sent <= |r.data|
    && r.ref.wait == Unresolved(r)
    && forall p: nat :: multiset(r.data)[p] == Places(r, p)
  }

  lemma NewRoundValid(data: seq<nat>)
    ensures Valid(NewRound(data))
  {
    assert data[0..] == data;
  }

  lemma SenderMoves(r: Round, s: Step, p: nat)
    requires r.sent <= |r.data| && Enabled(r, s) && (s.DropUnsent? || s.Send?)
    ensures Places(Apply(r, s), p) == Places(r, p)
  {
    assert r.data[r.sent..] == [r.data[r.sent]] + r.data[r.sent + 1..];
    if s.DropUnsent? {
      MsgsConcat(r.dropped, [Tagged(r.data[r.sent], s.reason)]);
    }
  }

  lemma BrokerMoves(r: Round, s: Step, p: nat)
    requires r.sent <= |r.data| && Enabled(r, s) && (s.Acknowledge? || s.Reject?)
    ensures Places(Apply(r, s), p) == Places(r, p)
  {
    if s.Reject? {
      MsgsConcat(r.errors, [Tagged(s.msg, s.error)]);
    }
  }

  lemma ErrorWorkerMoves(r: Round, p: nat)
    requires r.sent <= |r.data| && Enabled(r, TakeError)
    ensures Places(Apply(r, TakeError), p) == Places(r, p)
  {
    var t := r.errors[0];
    if Verdict(t.tag).Some? {
      MsgsConcat(r.dropped, [Tagged(t.msg, Verdict(t.tag).value)]);
    }
  }

  /** No step loses or copies a message. */
  lemma StepMoves(r: Round, s: Step, p: nat)
    requires r.sent <= |r.data| && Enabled(r, s)
    ensures Apply(r, s).sent <= |Apply(r, s).data| && Places(Apply(r, s), p) == Places(r, p)
  {
    if s.DropUnsent? || s.Send? {
      SenderMoves(r, s, p);
    } else if s.Acknowledge? || s.Reject? {
      BrokerMoves(r, s, p);
    } else if s.TakeError? {
      ErrorWorkerMoves(r, p);
    }
  }

  lemma StepCounts(r: Round, s: Step)
    requires r.ref.wait == Unresolved(r) && Enabled(r, s)
    ensures Apply(r, s).ref.wait == Unresolved(Apply(r, s)) && Apply(r, s).data == r.data
  {
    if s.Acknowledge? || s.Reject? {
      assert |r.input - multiset{s.msg}| == |r.input| - 1;
    } else if s.TakeSuccess? {
      assert |r.successes - multiset{s.msg}| == |r.successes| - 1;
    }
  }

  lemma StepKeepsValid(r: Round, s: Step)
    requires Valid(r) && Enabled(r, s)
    ensures Valid(Apply(r, s)) && Apply(r, s).data == r.data
  {
    hide Places, Apply, Unresolved;
    var r' := Apply(r, s);
    StepCounts(r, s);
    StepMoves(r, s, 0);
    forall p: nat
      ensures multiset(r'.data)[p] == Places(r', p)
    {
      StepMoves(r, s, p);
    }
  }

  ghost predicate IsRun(r: Round, steps: seq<Step>)
    decreases |steps|
  {
    steps == [] || (Enabled(r, steps[0]) && IsRun(Apply(r, steps[0]), steps[1..]))
  }

  ghost function Run(r: Round, steps: seq<Step>): Round
    requires IsRun(r, steps)
    decreases |steps|
  {
    if steps == [] then r else Run(Apply(r, steps[0]), steps[1..])
  }

  lemma {:induction false} RunKeepsValid(r: Round, steps: seq<Step>)
    requires Valid(r) && IsRun(r, steps)
    ensures Valid(Run(r, steps)) && Run(r, steps).data == r.data
    decreases |steps|
  {
    if steps != [] {
      StepKeepsValid(r, steps[0]);
      RunKeepsValid(Apply(r, steps[0]), steps[1..]);
    }
  }

  /** In every interleaving the wait counter is the number of unresolved events; the call
      can return exactly when none is left; and then each event was acknowledged, dropped
      or put on the failed list, and on no second one of these. */
  lemma RoundConservation(data: seq<nat>, steps: seq<Step>)
    requires IsRun(NewRound(data), steps)
    ensures var r := Run(NewRound(data), steps);
            && r.ref.wait == Unresolved(r) >= 0
            && (Returns(r) <==> Unresolved(r) == 0)
            && (Returns(r) ==> multiset(data) == r.acked + Msgs(r.dropped) + multiset(r.ref.failed))
  {
    NewRoundValid(data);
    RunKeepsValid(NewRound(data), steps);
    ReturnedRoundIsDecided(Run(NewRound(data), steps));
  }

  lemma ReturnedRoundIsDecided(r: Round)
    requires Valid(r)
    ensures Unresolved(r) >= 0 && (Returns(r) <==> Unresolved(r) == 0)
    ensures Returns(r) ==> multiset(r.data) == r.acked + Msgs(r.dropped) + multiset(r.ref.failed)
    ensures Returns(r) ==> |r.ref.failed| <= |r.data|
  {
    if Returns(r) {
      assert r.data[r.sent..] == [];
      assert r.input == multiset{} && r.errors == [];
      forall p: nat
        ensures multiset(r.data)[p] == (r.acked + Msgs(r.dropped) + multiset(r.ref.failed))[p]
      {
        assert multiset(r.data)[p] == Places(r, p);
      }
      assert multiset(r.data) == r.acked + Msgs(r.dropped) + multiset(r.ref.failed);
      assert |multiset(r.data)| == |r.acked| + |r.dropped| + |r.ref.failed|;
    }
  }

  // ---------------------------------------------------------------- what becomes of a report

  /** The messages that the broker acknowledged, and its errors in the order it reported them. */
  function Acknowledged(steps: seq<Step>): multiset<nat> {
    if steps == [] then multiset{}
    else (if steps[0].Acknowledge? then multiset{steps[0].msg} else multiset{}) + Acknowledged(steps[1..])
  }

  function Reports(steps: seq<Step>): seq<Tagged<ProducerError>> {
    if steps == [] then [] else ReportOf(steps[0]) + Reports(steps[1..])
  }

  function ReportOf(s: Step): seq<Tagged<ProducerError>> {
    if s.Reject? then [Tagged(s.msg, s.error)] else []
  }

  /** The messages that the sender gave up, having come to the given index. */
  function GivenUpUnsent(data: seq<nat>, sent: nat, steps: seq<Step>): seq<Tagged<DropReason>>
    decreases |steps|
  {
    if steps == [] then []
    else UnsentOf(data, sent, steps[0]) + GivenUpUnsent(data, sent + Moved(steps[0]), steps[1..])
  }

  function UnsentOf(data: seq<nat>, sent: nat, s: Step): seq<Tagged<DropReason>> {
    if s.DropUnsent? && sent < |data| then [Tagged(data[sent], s.reason)] else []
  }

  function Moved(s: Step): nat { if s.DropUnsent? || s.Send? then 1 else 0 }

  /** The messages given up because of the broker's report, each with the reason. */
  function GivenUp(ts: seq<Tagged<ProducerError>>): seq<Tagged<DropReason>> {
    if ts == [] then [] else GivenUpFor(ts[0]) + GivenUp(ts[1..])
  }

  function GivenUpFor(t: Tagged<ProducerError>): seq<Tagged<DropReason>> {
    if Retryable(t.tag) then [] else [Tagged(t.msg, if t.tag.InvalidMessage? then BadMessage else TooLarge)]
  }

  /** The error worker has dealt with the first k of all reports, and with nothing else. */
  ghost predicate Told(r: Round, reports: seq<Tagged<ProducerError>>, k: nat, unsent: multiset<Tagged<DropReason>>) {
    && k <= |reports| && r.errors == reports[k..]
    && r.ref.failed == ToRetry(reports[..k])
    && r.ref.err == FirstCause(reports[..k])
    && multiset(r.dropped) == unsent + multiset(GivenUp(reports[..k]))
  }

  lemma {:induction false} ToRetryOneMore(ts: seq<Tagged<ProducerError>>, t: Tagged<ProducerError>)
    ensures ToRetry(ts + [t]) == ToRetry(ts) + RetryFor(t)
  {
    hide RetryFor;
    if ts == [] {
      assert [] + [t] == [t] && [t][1..] == [];
    } else {
      Shift(ts, t);
      ToRetryOneMore(ts[1..], t);
    }
  }

  lemma Shift<T>(s: seq<T>, x: T)
    requires s != []
    ensures (s + [x])[0] == s[0] && (s + [x])[1..] == s[1..] + [x]
  {
  }

  lemma {:induction false} FirstCauseOneMore(ts: seq<Tagged<ProducerError>>, t: Tagged<ProducerError>)
    ensures FirstCause(ts + [t]) == if FirstCause(ts).Some? || !t.tag.Other? then FirstCause(ts) else Some(t.tag)
  {
    if ts == [] {
      assert [] + [t] == [t] && [t][1..] == [];
    } else {
      Shift(ts, t);
      FirstCauseOneMore(ts[1..], t);
    }
  }

  lemma {:induction false} GivenUpOneMore(ts: seq<Tagged<ProducerError>>, t: Tagged<ProducerError>)
    ensures GivenUp(ts + [t]) == GivenUp(ts) + GivenUpFor(t)
  {
    hide GivenUpFor;
    if ts == [] {
      assert [] + [t] == [t] && [t][1..] == [];
    } else {
      Shift(ts, t);
      GivenUpOneMore(ts[1..], t);
    }
  }

  lemma Slices<T>(s: seq<T>, k: nat)
    requires k < |s|
    ensures s[..k + 1] == s[..k] + [s[k]] && s[k..][0] == s[k] && s[k..][1..] == s[k + 1..]
  {
  }

  /** What the error worker does with one report. */
  lemma TakeEffect(r: Round)
    requires Enabled(r, TakeError)
    ensures var t, r' := r.errors[0], Apply(r, TakeError);
            && r'.errors == r.errors[1..]
            && r'.ref.failed == r.ref.failed + RetryFor(t)
            && r'.ref.err == (if r.ref.err.Some? || !t.tag.Other? then r.ref.err else Some(t.tag))
            && r'.dropped == r.dropped + GivenUpFor(t)
  {
  }

  lemma TakeKeepsTold(r: Round, reports: seq<Tagged<ProducerError>>, k: nat, unsent: multiset<Tagged<DropReason>>)
    requires Enabled(r, TakeError) && Told(r, reports, k, unsent)
    ensures Told(Apply(r, TakeError), reports, k + 1, unsent)
  {
    hide ToRetry, FirstCause, GivenUp, Apply, GivenUpFor, RetryFor;
    TakeEffect(r);
    var t := r.errors[0];
    assert k < |reports|;
    Slices(reports, k);
    ToRetryOneMore(reports[..k], t);
    FirstCauseOneMore(reports[..k], t);
    GivenUpOneMore(reports[..k], t);
    hide Enabled;
  }

  lemma RejectKeepsTold(r: Round, s: Step, reports: seq<Tagged<ProducerError>>, k: nat,
                        unsent: multiset<Tagged<DropReason>>)
    requires Enabled(r, s) && s.Reject? && Told(r, reports, k, unsent)
    ensures Told(Apply(r, s), reports + ReportOf(s), k, unsent)
  {
    hide ToRetry, FirstCause, GivenUp;
    var all := reports + ReportOf(s);
    assert all[..k] == reports[..k] && all[k..] == reports[k..] + ReportOf(s);
  }

  lemma OtherKeepsTold(r: Round, s: Step, reports: seq<Tagged<ProducerError>>, k: nat,
                       unsent: multiset<Tagged<DropReason>>)
    requires Enabled(r, s) && !s.Reject? && !s.TakeError? && Told(r, reports, k, unsent)
    ensures Told(Apply(r, s), reports, k, unsent + multiset(UnsentOf(r.data, r.sent, s)))
  {
    hide ToRetry, FirstCause, GivenUp;
  }

  lemma SenderIndex(r: Round, s: Step)
    requires Enabled(r, s)
    ensures Apply(r, s).data == r.data && Apply(r, s).sent == r.sent + Moved(s)
    ensures !s.DropUnsent? ==> UnsentOf(r.data, r.sent, s) == []
  {
  }

  lemma StepKeepsTold(r: Round, s: Step, reports: seq<Tagged<ProducerError>>, k: nat,
                      unsent: multiset<Tagged<DropReason>>)
    returns (k': nat)
    requires Enabled(r, s) && Told(r, reports, k, unsent)
    ensures Told(Apply(r, s), reports + ReportOf(s), k', unsent + multiset(UnsentOf(r.data, r.sent, s)))
    ensures Apply(r, s).data == r.data && Apply(r, s).sent == r.sent + Moved(s)
  {
    hide Told, Apply, Enabled, UnsentOf;
    SenderIndex(r, s);
    assert unsent + multiset([]) == unsent;
    k' := k;
    if s.TakeError? {
      TakeKeepsTold(r, reports, k, unsent);
      k' := k + 1;
      assert reports + [] == reports;
    } else if s.Reject? {
      RejectKeepsTold(r, s, reports, k, unsent);
    } else {
      OtherKeepsTold(r, s, reports, k, unsent);
      assert reports + [] == reports;
    }
  }

  lemma Regroup<T>(all: multiset<T>, a: seq<T>, b: seq<T>)
    ensures all + multiset(a) + multiset(b) == all + multiset(a + b)
  {
  }

  lemma {:induction false} RunKeepsTold(r: Round, steps: seq<Step>, reports: seq<Tagged<ProducerError>>, k: nat,
                                        unsent: multiset<Tagged<DropReason>>)
    returns (k': nat)
    requires IsRun(r, steps) && Told(r, reports, k, unsent)
    ensures Told(Run(r, steps), reports + Reports(steps), k', unsent + multiset(GivenUpUnsent(r.data, r.sent, steps)))
    decreases |steps|
  {
    hide Told, Enabled, Apply, UnsentOf, ReportOf, Moved;
    if steps == [] {
      k' := k;
      assert reports + [] == reports;
      assert unsent + multiset([]) == unsent;
    } else {
      var s, r' := steps[0], Apply(r, steps[0]);
      k' := StepKeepsTold(r, s, reports, k, unsent);
      k' := RunKeepsTold(r', steps[1..], reports + ReportOf(s), k', unsent + multiset(UnsentOf(r.data, r.sent, s)));
      assert reports + ReportOf(s) + Reports(steps[1..]) == reports + Reports(steps);
      Regroup(unsent, UnsentOf(r.data, r.sent, s), GivenUpUnsent(r'.data, r'.sent, steps[1..]));
    }
  }

  lemma {:induction false} AckedHistory(r: Round, steps: seq<Step>)
    requires IsRun(r, steps)
    ensures Run(r, steps).acked == r.acked + Acknowledged(steps)
    decreases |steps|
  {
    if steps != [] {
      AckedHistory(Apply(r, steps[0]), steps[1..]);
    }
  }

  /** What the call returns, told by what happened. When it can return: acknowledged are exactly the
      messages the broker acknowledged; failed, and so to be sent again, are exactly those it reported
      with an error worth a retry, in the order of the reports; the cause is the first such error other
      than an open breaker; and dropped are those the sender gave up and those reported with another
      error, invalid ones as such and the others as too large. */
  lemma RoundMeaning(data: seq<nat>, steps: seq<Step>)
    requires IsRun(NewRound(data), steps) && Returns(Run(NewRound(data), steps))
    ensures var r := Run(NewRound(data), steps);
            && r.acked == Acknowledged(steps)
            && r.ref.failed == ToRetry(Reports(steps))
            && r.ref.err == FirstCause(Reports(steps))
            && multiset(r.dropped) == multiset(GivenUpUnsent(data, 0, steps)) + multiset(GivenUp(Reports(steps)))
  {
    hide IsRun, Run, Valid, Returns, Told, ToRetry, FirstCause, GivenUp, GivenUpUnsent, Reports, Acknowledged;
    var r0 := NewRound(data);
    NewRoundValid(data);
    NothingToldYet(data);
    RunKeepsValid(r0, steps);
    NothingReported(Run(r0, steps));
    AckedHistory(r0, steps);
    assert r0.acked + Acknowledged(steps) == Acknowledged(steps);
    var k := RunKeepsTold(r0, steps, [], 0, multiset{});
    AllTold(Run(r0, steps), [] + Reports(steps), k, multiset{} + multiset(GivenUpUnsent(data, 0, steps)));
    assert [] + Reports(steps) == Reports(steps);
  }

  lemma NothingToldYet(data: seq<nat>)
    ensures Told(NewRound(data), [], 0, multiset{})
  {
  }

  lemma AllTold(r: Round, reports: seq<Tagged<ProducerError>>, k: nat, unsent: multiset<Tagged<DropReason>>)
    requires Told(r, reports, k, unsent) && r.errors == []
    ensures r.ref.failed == ToRetry(reports) && r.ref.err == FirstCause(reports)
    ensures multiset(r.dropped) == unsent + multiset(GivenUp(reports))
  {
    hide ToRetry, FirstCause, GivenUp;
    assert k == |reports| && reports[..k] == reports;
  }

  lemma NothingReported(r: Round)
    requires Valid(r) && Returns(r)
    ensures r.errors == []
  {
    ReturnedRoundIsDecided(r);
  }

  /** The states of a round whose only message is sent and reported with a retryable error. */
  function RejectedAt(p: nat, code: nat, i: nat): Round {
    var e := Other(code);
    var ref := MsgRef(if i >= 4 then 0 else 1, if i >= 3 then [p] else [], if i >= 3 then Some(e) else None);
    Round([p], if i >= 1 then 1 else 0, if i == 1 then multiset{p} else multiset{}, multiset{},
          if i == 2 then [Tagged(p, e)] else [], None, if i == 3 then Some(p) else None, ref, multiset{}, [])
  }

  lemma RejectedSent(p: nat, code: nat)
    ensures Enabled(RejectedAt(p, code, 0), Send) && Apply(RejectedAt(p, code, 0), Send) == RejectedAt(p, code, 1)
  {
    assert multiset{} + multiset{p} == multiset{p};
  }

  lemma RejectedReported(p: nat, code: nat)
    ensures var s := Reject(p, Other(code));
            Enabled(RejectedAt(p, code, 1), s) && Apply(RejectedAt(p, code, 1), s) == RejectedAt(p, code, 2)
  {
    assert multiset{p} - multiset{p} == multiset{};
  }

  lemma RejectedTaken(p: nat, code: nat)
    ensures var r2, r3, r4 := RejectedAt(p, code, 2), RejectedAt(p, code, 3), RejectedAt(p, code, 4);
            && Enabled(r2, TakeError) && Apply(r2, TakeError) == r3
            && Enabled(r3, CountError) && Apply(r3, CountError) == r4
  {
  }

  /** It happens: a message that is sent, and reported with an error worth a retry, comes back. */
  lemma RejectedComesBack(p: nat, code: nat)
    ensures var steps := [Send, Reject(p, Other(code)), TakeError, CountError];
            && IsRun(NewRound([p]), steps)
            && var r := Run(NewRound([p]), steps);
               Returns(r) && r.ref.failed == [p] && r.dropped == [] && r.acked == multiset{}
  {
    hide Enabled, Apply;
    RejectedSent(p, code);
    RejectedReported(p, code);
    RejectedTaken(p, code);
    var steps := [Send, Reject(p, Other(code)), TakeError, CountError];
    var r1, r2 := RejectedAt(p, code, 1), RejectedAt(p, code, 2);
    var r3, r4 := RejectedAt(p, code, 3), RejectedAt(p, code, 4);
    assert RejectedAt(p, code, 0) == NewRound([p]);
    assert steps[3..] == [CountError] && steps[3..][1..] == [];
    assert IsRun(r4, []) && Run(r4, []) == r4;
    assert IsRun(r3, steps[3..]) && Run(r3, steps[3..]) == r4;
    assert steps[2..][1..] == steps[3..] && steps[1..][1..] == steps[2..];
    assert IsRun(r2, steps[2..]) && Run(r2, steps[2..]) == r4;
    assert IsRun(r1, steps[1..]) && Run(r1, steps[1..]) == r4;
  }

  /** The step decides message p for good: an acknowledgement, a drop, or a report that is not worth
      a retry. */
  predicate Decides(r: Round, s: Step, p: nat) {
    match s
    case Acknowledge(m) => m == p
    case DropUnsent(_) => r.sent < |r.data| && r.data[r.sent] == p
    case Reject(m, e) => m == p && !Retryable(e)
    case _ => false
  }

  function Decided(r: Round, p: nat): nat { r.acked[p] + Msgs(r.dropped)[p] + Msgs(GivenUp(r.errors))[p] }

  lemma DropDecides(r: Round, s: Step, p: nat)
    requires Enabled(r, s) && s.DropUnsent?
    ensures Decided(Apply(r, s), p) == Decided(r, p) + if Decides(r, s, p) then 1 else 0
  {
    hide GivenUp;
    hide Msgs;
    MsgsConcat(r.dropped, [Tagged(r.data[r.sent], s.reason)]);
    OneMsg(Tagged(r.data[r.sent], s.reason), p);
  }

  lemma OneMsg<T>(t: Tagged<T>, p: nat)
    ensures Msgs([t])[p] == if t.msg == p then 1 else 0
  {
  }

  lemma RejectDecides(r: Round, s: Step, p: nat)
    requires Enabled(r, s) && s.Reject?
    ensures Decided(Apply(r, s), p) == Decided(r, p) + if Decides(r, s, p) then 1 else 0
  {
    hide GivenUp;
    hide Msgs, GivenUpFor;
    var t := Tagged(s.msg, s.error);
    GivenUpOneMore(r.errors, t);
    MsgsConcat(GivenUp(r.errors), GivenUpFor(t));
    GivenUpCounts(t, p);
  }

  lemma GivenUpCounts(t: Tagged<ProducerError>, p: nat)
    ensures Msgs(GivenUpFor(t))[p] == if t.msg == p && !Retryable(t.tag) then 1 else 0
  {
    if !Retryable(t.tag) {
      OneMsg(GivenUpFor(t)[0], p);
    }
  }

  lemma TakeDecides(r: Round, p: nat)
    requires Enabled(r, TakeError)
    ensures Decided(Apply(r, TakeError), p) == Decided(r, p)
  {
    TakeEffect(r);
    MsgsConcat(r.dropped, GivenUpFor(r.errors[0]));
    MsgsConcat(GivenUpFor(r.errors[0]), GivenUp(r.errors[1..]));
    assert Apply(r, TakeError).acked == r.acked;
    hide Apply, GivenUpFor;
  }

  /** Each message is decided by the steps that decide it and by no others. */
  lemma StepDecides(r: Round, s: Step, p: nat)
    requires Enabled(r, s)
    ensures Decided(Apply(r, s), p) == Decided(r, p) + if Decides(r, s, p) then 1 else 0
  {
    if s.DropUnsent? {
      hide Enabled, Apply, Decided;
      DropDecides(r, s, p);
    } else if s.Reject? {
      hide Enabled, Apply, Decided;
      RejectDecides(r, s, p);
    } else if s.TakeError? {
      hide Apply, Decided;
      TakeDecides(r, p);
    }
  }

  /** The verdicts in full. */
  lemma Verdicts(e: ProducerError)
    ensures Verdict(e) == Some(BadMessage) <==> e == InvalidMessage
    ensures Verdict(e) == Some(TooLarge) <==> e == MessageSizeTooLarge || e == InvalidMessageSize
    ensures Verdict(e) == None <==> Retryable(e)
    ensures Retryable(e) <==> e == BreakerOpen || exists code :: e == Other(code)
  {
  }

  // ---------------------------------------------------------------- the Go object

  /** client.MsgRef, as one goroutine at a time sees it. */
  class MsgRefObject {
    var wait: int
    var failed: seq<nat>
    var err: Option<ProducerError>

    ghost function View(): MsgRef
      reads this
    {
      MsgRef(wait, failed, err)
    }

    constructor (events: nat)
      ensures View() == MsgRef(events, [], None)
    {
      wait, failed, err := events, [], None;
    }

    method Done()
      modifies this
      ensures View() == Dec(old(View()))
    {
      wait := wait - 1;
    }

    method Fail(msg: nat, e: ProducerError)
      modifies this
      ensures View() == Dec(Record(old(View()), msg, e))
    {
      match e {
        case InvalidMessage =>
        case MessageSizeTooLarge =>
        case InvalidMessageSize =>
        case BreakerOpen =>
          failed := failed + [msg];
        case Other(_) =>
          failed := failed + [msg];
          if err.None? {
            err := Some(e);
          }
      }
      Done();
    }
  }
}
