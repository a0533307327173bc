/**
 The Elasticsearch health watcher (output/elasticsearch/watcher.go): on every tick it
 compares cumulative counters with those of the last good tick and reports a degraded or
 recovered output. Fail() calls arrive concurrently, also between the two loads of the
 callback counter within one tick.
 */
module Watcher {
  import opened Basics

  datatype Metrics = Metrics(responses: map<int, int>, failures: int)
  datatype Report = Degraded | Recovered

  /** The local variables of Watch, the callback counter, and the reports made. */
  datatype Watch = Watch(transport: int, failed: int, succeeded: int, degraded: bool, lastCallback: int,
                         callbacks: int, reports: seq<Report>)

  const START: Watch := Watch(0, 0, 0, false, 0, 0, [])

  // ---------------------------------------------------------------- the sum over the response codes

  /** The responses with a code from lo to hi, counting only the codes in `seen`. */
  function Counted(m: map<int, int>, seen: set<int>, lo: int, hi: int): int
    decreases hi - lo
  {
    if hi < lo then 0
    else Counted(m, seen, lo, hi - 1) + if hi in m && hi in seen then m[hi] else 0
  }

  function RangeSum(m: map<int, int>, lo: int, hi: int): int { Counted(m, m.Keys, lo, hi) }

  lemma {:induction false} CountOneMore(m: map<int, int>, seen: set<int>, lo: int, hi: int, c: int)
    requires c in m && c !in seen
    ensures Counted(m, seen + {c}, lo, hi) == Counted(m, seen, lo, hi) + if lo <= c <= hi then m[c] else 0
    decreases hi - lo
  {
    if lo <= hi {
      CountOneMore(m, seen, lo, hi - 1, c);
    }
  }

  lemma {:induction false} CountNone(m: map<int, int>, lo: int, hi: int)
    ensures Counted(m, {}, lo, hi) == 0
    decreases hi - lo
  {
    if lo <= hi {
      CountNone(m, lo, hi - 1);
    }
  }

  lemma {:induction false} CountSame(m: map<int, int>, seen: set<int>, seen': set<int>, lo: int, hi: int)
    requires forall c :: c in m ==> (c in seen <==> c in seen')
    ensures Counted(m, seen, lo, hi) == Counted(m, seen', lo, hi)
    decreases hi - lo
  {
    if lo <= hi {
      CountSame(m, seen, seen', lo, hi - 1);
    }
  }

  /** An order in which Go may visit the map: every key, and each of them once. */
  predicate VisitsEachKeyOnce(order: seq<int>, counts: map<int, int>) {
    && (forall i :: 0 <= i < |order| ==> order[i] in counts)
    && (forall c :: c in counts ==> c in order)
    && (forall i, j :: 0 <= i < j < |order| ==> order[i] != order[j])
  }

  /** returnRangeDelta: the sum does not depend on the order in which the keys are visited. */
  method ReturnRangeDelta(lo: int, hi: int, counts: map<int, int>, order: seq<int>) returns (acc: int)
    requires VisitsEachKeyOnce(order, counts)
    ensures acc == RangeSum(counts, lo, hi)
  {
    acc := 0;
    ghost var seen: set<int> := {};
    CountNone(counts, lo, hi);
    for i := 0 to |order|
      invariant forall c :: c in seen <==> c in order[..i]
      invariant acc == Counted(counts, seen, lo, hi)
    {
      var code := order[i];
      CountOneMore(counts, seen, lo, hi, code);
      if code >= lo && code <= hi {
        acc := acc + counts[code];
      }
      seen := seen + {code};
    }
    assert order[..|order|] == order;
    CountSame(counts, seen, counts.Keys, lo, hi);
  }

  // ---------------------------------------------------------------- one tick

  /** What a tick does between its two loads of the callback counter; first is the value of the first load. */
  function Judge(w: Watch, m: Metrics, first: int): Watch {
    var success := RangeSum(m.responses, 200, 299);
    var fails := RangeSum(m.responses, 400, 599);
    var failDelta, successDelta, transportDelta := fails - w.failed, success - w.succeeded, m.failures - w.transport;
    var callbackDelta := ToInt32(first - w.lastCallback);
    var w1 := if successDelta == 0 && (callbackDelta > 0 || transportDelta > 0 || failDelta > 0)
              then w.(reports := w.reports + [Degraded], degraded := true) else w;
    var w2 := if w1.degraded && successDelta > 0
              then w1.(reports := w1.reports + [Recovered], degraded := false) else w1;
    w2.(transport := m.failures, failed := fails, succeeded := success)
  }

  /**
   A run of the watcher as the other goroutines see it: a call of Fail, a tick whose metrics
   could not be read, the first half of a good tick (up to and including its reports), and
   its second load of the counter. The first half of a tick is followed by the second before
   the next tick; `during` remembers which half comes next. The rest is history: all calls of
   Fail, the total at the last load, the calls that fell between the loads of a tick, and the
   sums of the deltas that the ticks computed.
   */
  datatype Step = Fail | BadTick | Look(metrics: Metrics) | Note

  datatype State = State(watch: Watch, during: bool, atLook: int, total: nat, between: int, seen: int,
                         successSum: int, failSum: int, transportSum: int)

  const INITIAL: State := State(START, false, 0, 0, 0, 0, 0, 0, 0)

  predicate Enabled(s: State, t: Step) {
    match t
    case Fail => true
    case BadTick => !s.during
    case Look(_) => !s.during
    case Note => s.during
  }

  function Apply(s: State, t: Step): State
    requires Enabled(s, t)
  {
    match t
    case Fail =>
      s.(watch := s.watch.(callbacks := ToInt32(s.watch.callbacks + 1)), total := s.total + 1,
         between := if s.during then s.between + 1 else s.between)
    case BadTick => s
    case Look(m) =>
      s.(watch := Judge(s.watch, m, s.watch.callbacks), during := true, atLook := s.total,
         seen := s.seen + ToInt32(s.watch.callbacks - s.watch.lastCallback),
         successSum := s.successSum + (RangeSum(m.responses, 200, 299) - s.watch.succeeded),
         failSum := s.failSum + (RangeSum(m.responses, 400, 599) - s.watch.failed),
         transportSum := s.transportSum + (m.failures - s.watch.transport))
    case Note =>
      s.(watch := s.watch.(lastCallback := s.watch.callbacks), during := false, atLook := s.total)
  }

  ghost predicate IsRun(s: State, steps: seq<Step>)
    decreases |steps|
  {
    steps == [] || (Enabled(s, steps[0]) && IsRun(Apply(s, steps[0]), steps[1..]))
  }

  ghost function Run(s: State, steps: seq<Step>): State
    requires IsRun(s, steps)
    decreases |steps|
  {
    if steps == [] then s else Run(Apply(s, steps[0]), steps[1..])
  }

  // ---------------------------------------------------------------- the language of the reports

  /** D^k, and a trace of blocks of k >= 1 reports D and one R each, followed by a tail of Ds. */
  function Ds(k: nat): seq<Report> { seq(k, _ => Degraded) }

  function Trace(blocks: seq<nat>, tail: nat): seq<Report> {
    if blocks == [] then Ds(tail) else Ds(blocks[0]) + [Recovered] + Trace(blocks[1..], tail)
  }

  /** (Degraded+ Recovered)* Degraded*, with a last Degraded exactly if `open`. */
  ghost predicate InLanguage(reports: seq<Report>, open: bool) {
    exists blocks: seq<nat>, tail: nat ::
      && (forall i :: 0 <= i < |blocks| ==> blocks[i] >= 1)
      && reports == Trace(blocks, tail) && (open <==> tail >= 1)
  }

  lemma {:induction false} TraceDegraded(blocks: seq<nat>, tail: nat)
    ensures Trace(blocks, tail) + [Degraded] == Trace(blocks, tail + 1)
  {
    if blocks == [] {
      assert Ds(tail) + [Degraded] == Ds(tail + 1);
    } else {
      TraceDegraded(blocks[1..], tail);
      assert Trace(blocks, tail) + [Degraded] == Ds(blocks[0]) + [Recovered] + (Trace(blocks[1..], tail) + [Degraded]);
    }
  }

  lemma {:induction false} TraceRecovered(blocks: seq<nat>, tail: nat)
    ensures Trace(blocks, tail) + [Recovered] == Trace(blocks + [tail], 0)
  {
    if blocks == [] {
      assert (blocks + [tail])[1..] == [] && Ds(0) == [];
      assert Trace([], 0) == [];
    } else {
      assert (blocks + [tail])[1..] == blocks[1..] + [tail];
      TraceRecovered(blocks[1..], tail);
      assert Trace(blocks, tail) + [Recovered]
          == Ds(blocks[0]) + [Recovered] + (Trace(blocks[1..], tail) + [Recovered]);
    }
  }

  lemma LanguageGrows(reports: seq<Report>, open: bool, r: Report)
    requires InLanguage(reports, open) && (r.Recovered? ==> open)
    ensures InLanguage(reports + [r], r.Degraded?)
  {
    var blocks: seq<nat>, tail: nat :|
      && (forall i :: 0 <= i < |blocks| ==> blocks[i] >= 1)
      && reports == Trace(blocks, tail) && (open <==> tail >= 1);
    if r.Degraded? {
      TraceDegraded(blocks, tail);
      assert reports + [r] == Trace(blocks, tail + 1);
    } else {
      TraceRecovered(blocks, tail);
      assert reports + [r] == Trace(blocks + [tail], 0);
    }
  }

  /** A tick makes at most one report. */
  lemma JudgeReports(w: Watch, m: Metrics, first: int)
    ensures var w' := Judge(w, m, first);
            || (w'.reports == w.reports && w'.degraded == w.degraded)
            || (w'.reports == w.reports + [Degraded] && w'.degraded)
            || (w'.reports == w.reports + [Recovered] && w.degraded && !w'.degraded)
  {
    hide ToInt32, RangeSum;
  }

  /** With counters that do not decrease: a tick reports Degraded if and only if nothing has
      succeeded since the last good tick and something has failed, and Recovered if and only if
      something has succeeded and the output was degraded. It remembers what it read. */
  lemma TickVerdict(w: Watch, m: Metrics, first: int)
    requires w.succeeded <= RangeSum(m.responses, 200, 299) && w.failed <= RangeSum(m.responses, 400, 599)
    requires w.transport <= m.failures && 0 <= ToInt32(first - w.lastCallback)
    ensures var w' := Judge(w, m, first);
            var quiet := RangeSum(m.responses, 200, 299) == w.succeeded;
            var failed := RangeSum(m.responses, 400, 599) != w.failed || m.failures != w.transport
                          || ToInt32(first - w.lastCallback) != 0;
            && (w'.reports == w.reports + [Degraded] <==> quiet && failed)
            && (w'.reports == w.reports + [Recovered] <==> !quiet && w.degraded)
            && (w'.reports == w.reports <==> if quiet then !failed else !w.degraded)
            && w'.succeeded == RangeSum(m.responses, 200, 299) && w'.failed == RangeSum(m.responses, 400, 599)
            && w'.transport == m.failures && w'.lastCallback == w.lastCallback && w'.callbacks == w.callbacks
  {
    hide ToInt32, RangeSum;
    assert w.reports + [Degraded] != w.reports + [Recovered] by {
      assert (w.reports + [Degraded])[|w.reports|] != (w.reports + [Recovered])[|w.reports|];
    }
  }

  /** The verdict whatever the counters do, in terms of the changes since the last good tick. */
  lemma TickExactly(w: Watch, m: Metrics, first: int)
    ensures var w' := Judge(w, m, first);
            var succeeded := RangeSum(m.responses, 200, 299) - w.succeeded;
            var failed := RangeSum(m.responses, 400, 599) - w.failed > 0 || m.failures - w.transport > 0
                          || ToInt32(first - w.lastCallback) > 0;
            && (w'.reports == w.reports + [Degraded] <==> succeeded == 0 && failed)
            && (w'.reports == w.reports + [Recovered] <==> succeeded > 0 && w.degraded)
            && (w'.degraded <==> (w.degraded && succeeded <= 0) || (succeeded == 0 && failed))
  {
    hide ToInt32, RangeSum;
    assert w.reports + [Degraded] != w.reports + [Recovered] by {
      assert (w.reports + [Degraded])[|w.reports|] != (w.reports + [Recovered])[|w.reports|];
    }
  }

  lemma StepKeepsLanguage(s: State, t: Step)
    requires Enabled(s, t) && InLanguage(s.watch.reports, s.watch.degraded)
    ensures InLanguage(Apply(s, t).watch.reports, Apply(s, t).watch.degraded)
  {
    hide InLanguage, Judge, ToInt32;
    if t.Look? {
      var w, w' := s.watch, Apply(s, t).watch;
      JudgeReports(w, t.metrics, w.callbacks);
      if w'.reports != w.reports {
        LanguageGrows(w.reports, w.degraded, w'.reports[|w'.reports| - 1]);
      }
    }
  }

  lemma {:induction false} RunKeepsLanguage(s: State, steps: seq<Step>)
    requires IsRun(s, steps) && InLanguage(s.watch.reports, s.watch.degraded)
    ensures InLanguage(Run(s, steps).watch.reports, Run(s, steps).watch.degraded)
    decreases |steps|
  {
    if steps != [] {
      StepKeepsLanguage(s, steps[0]);
      hide InLanguage, Apply;
      RunKeepsLanguage(Apply(s, steps[0]), steps[1..]);
    }
  }

  /** Over every run, whatever the counters do, the reports form (Degraded+ Recovered)* Degraded*,
      and the watcher considers the output degraded exactly when they end in Degraded. */
  lemma ReportLanguage(steps: seq<Step>)
    requires IsRun(INITIAL, steps)
    ensures InLanguage(Run(INITIAL, steps).watch.reports, Run(INITIAL, steps).watch.degraded)
  {
    assert Trace([], 0) == [] && InLanguage([], false);
    RunKeepsLanguage(INITIAL, steps);
  }

  // ---------------------------------------------------------------- bad ticks

  function WithoutBad(steps: seq<Step>): seq<Step> {
    if steps == [] then []
    else if steps[0].BadTick? then WithoutBad(steps[1..])
    else [steps[0]] + WithoutBad(steps[1..])
  }

  /** A tick without metrics is a stutter: leaving out all of them changes nothing, so what
      they missed is seen by the next good tick. */
  lemma {:induction false} BadTicksAreStutters(s: State, steps: seq<Step>)
    requires IsRun(s, steps)
    ensures IsRun(s, WithoutBad(steps)) && Run(s, WithoutBad(steps)) == Run(s, steps)
    decreases |steps|
  {
    if steps != [] {
      BadTicksAreStutters(Apply(s, steps[0]), steps[1..]);
      if !steps[0].BadTick? {
        assert WithoutBad(steps)[0] == steps[0] && WithoutBad(steps)[1..] == WithoutBad(steps[1..]);
      }
      hide Judge, ToInt32;
    }
  }

  // ---------------------------------------------------------------- conservation

  /** Fewer than 2^31 calls of Fail between two loads, so that their int32 difference is right. */
  ghost predicate Moderate(s: State) { s.total - s.atLook < TWO_31 }

  /** The counter as seen modulo 2^32, and every call accounted for. */
  ghost predicate Balanced(s: State) {
    && s.watch.callbacks == ToInt32(s.total)
    && s.atLook <= s.total
    && (!s.during ==> s.watch.lastCallback == ToInt32(s.atLook))
    && s.seen + s.between + (if s.during then 0 else s.total - s.atLook) == s.total
  }

  lemma ToInt32Step(n: int)
    ensures ToInt32(ToInt32(n) + 1) == ToInt32(n + 1)
  {
  }

  lemma ToInt32Wraps(n: int)
    ensures ToInt32(n) == n - TWO_32 * ((n + TWO_31) / TWO_32)
    ensures -TWO_31 <= ToInt32(n) < TWO_31
  {
  }

  lemma MultipleOf(k: int)
    ensures (TWO_32 * k) % TWO_32 == 0
    ensures -TWO_32 < TWO_32 * k < TWO_32 ==> k == 0
  {
  }

  /** A tick sees the calls since the last load exactly if they are fewer than 2^31, and always
      modulo 2^32. */
  lemma ToInt32Difference(a: int, b: int)
    requires 0 <= a - b
    ensures ToInt32(ToInt32(a) - ToInt32(b)) == a - b <==> a - b < TWO_31
    ensures (ToInt32(ToInt32(a) - ToInt32(b)) - (a - b)) % TWO_32 == 0
  {
    hide ToInt32;
    var d := ToInt32(a) - ToInt32(b);
    ToInt32Wraps(a);
    ToInt32Wraps(b);
    ToInt32Wraps(d);
    var k := (b + TWO_31) / TWO_32 - (a + TWO_31) / TWO_32 - (d + TWO_31) / TWO_32;
    assert ToInt32(d) - (a - b) == TWO_32 * k;
    MultipleOf(k);
  }

  lemma StepKeepsBalance(s: State, t: Step)
    requires Enabled(s, t) && Balanced(s) && Moderate(s)
    ensures Balanced(Apply(s, t))
  {
    hide ToInt32, RangeSum;
    ToInt32Step(s.total);
    if t.Look? {
      ToInt32Difference(s.total, s.atLook);
    }
  }

  ghost predicate AlwaysModerate(s: State, steps: seq<Step>)
    requires IsRun(s, steps)
    decreases |steps|
  {
    Moderate(s) && (steps == [] || AlwaysModerate(Apply(s, steps[0]), steps[1..]))
  }

  lemma {:induction false} RunKeepsBalance(s: State, steps: seq<Step>)
    requires IsRun(s, steps) && Balanced(s) && AlwaysModerate(s, steps)
    ensures Balanced(Run(s, steps))
    decreases |steps|
  {
    if steps != [] {
      StepKeepsBalance(s, steps[0]);
      hide Balanced, Apply, Moderate;
      RunKeepsBalance(Apply(s, steps[0]), steps[1..]);
    }
  }

  function Unseen(s: State): int { s.between + if s.during then 0 else s.total - s.atLook }

  /** The same without any bound, modulo 2^32. */
  ghost predicate Congruent(s: State) {
    && s.watch.callbacks == ToInt32(s.total)
    && s.atLook <= s.total
    && (!s.during ==> s.watch.lastCallback == ToInt32(s.atLook))
    && (s.seen + Unseen(s) - s.total) % TWO_32 == 0
  }

  lemma ModSum(a: int, b: int)
    requires a % TWO_32 == 0 && b % TWO_32 == 0
    ensures (a + b) % TWO_32 == 0
  {
  }

  lemma StepKeepsCongruence(s: State, t: Step)
    requires Enabled(s, t) && Congruent(s)
    ensures Congruent(Apply(s, t))
  {
    hide ToInt32, RangeSum;
    ToInt32Step(s.total);
    if t.Look? {
      ToInt32Difference(s.total, s.atLook);
      var delta := ToInt32(s.watch.callbacks - s.watch.lastCallback);
      hide ToInt32, RangeSum;
      ModSum(s.seen + Unseen(s) - s.total, delta - (s.total - s.atLook));
      assert Apply(s, t).seen + Unseen(Apply(s, t)) - s.total
          == s.seen + Unseen(s) - s.total + (delta - (s.total - s.atLook));
    }
  }

  lemma {:induction false} RunKeepsCongruence(s: State, steps: seq<Step>)
    requires IsRun(s, steps) && Congruent(s)
    ensures Congruent(Run(s, steps))
    decreases |steps|
  {
    if steps != [] {
      StepKeepsCongruence(s, steps[0]);
      hide Congruent, Apply;
      RunKeepsCongruence(Apply(s, steps[0]), steps[1..]);
    }
  }

  /** Conservation over every run: the deltas the ticks saw, plus the calls that fell between the
      two loads of a tick, plus the calls since the last good tick, are all the calls of Fail there
      were: modulo 2^32 always, and exactly as long as no tick had 2^31 calls to see. The calls of
      the second kind are never seen by any tick. */
  lemma FailCallsConserved(steps: seq<Step>)
    requires IsRun(INITIAL, steps)
    ensures var s := Run(INITIAL, steps);
            && (s.seen + Unseen(s) - s.total) % TWO_32 == 0
            && (AlwaysModerate(INITIAL, steps) ==> s.seen + Unseen(s) == s.total)
  {
    assert Balanced(INITIAL) && Congruent(INITIAL);
    RunKeepsCongruence(INITIAL, steps);
    if AlwaysModerate(INITIAL, steps) {
      RunKeepsBalance(INITIAL, steps);
    }
  }

  ghost predicate Telescoped(s: State) {
    s.successSum == s.watch.succeeded && s.failSum == s.watch.failed && s.transportSum == s.watch.transport
  }

  lemma {:induction false} RunKeepsTelescoped(s: State, steps: seq<Step>)
    requires IsRun(s, steps) && Telescoped(s)
    ensures Telescoped(Run(s, steps))
    decreases |steps|
  {
    if steps != [] {
      hide RangeSum, ToInt32;
      assert Telescoped(Apply(s, steps[0]));
      RunKeepsTelescoped(Apply(s, steps[0]), steps[1..]);
    }
  }

  /** The deltas of all good ticks add up to the cumulative counters that the last of them read. */
  lemma DeltasTelescope(steps: seq<Step>, m: Metrics)
    requires IsRun(INITIAL, steps) && !Run(INITIAL, steps).during
    ensures var s := Apply(Run(INITIAL, steps), Look(m));
            && s.successSum == RangeSum(m.responses, 200, 299)
            && s.failSum == RangeSum(m.responses, 400, 599)
            && s.transportSum == m.failures
  {
    hide RangeSum, ToInt32;
    RunKeepsTelescoped(INITIAL, steps);
  }

  // ---------------------------------------------------------------- the Go object

  /** n calls of Fail. */
  function Fails(w: Watch, n: nat): Watch {
    if n == 0 then w else var v := Fails(w, n - 1); v.(callbacks := ToInt32(v.callbacks + 1))
  }

  /** A whole tick during which `between` calls of Fail fall between its two loads. */
  function WholeTick(w: Watch, m: Option<Metrics>, between: nat): Watch {
    if m.None? then w
    else
      var v := Fails(Judge(w, m.value, w.callbacks), between);
      v.(lastCallback := v.callbacks)
  }

  /** ESHealthWatcher with the local variables of its Watch loop. */
  class HealthWatcher {
    var callbackFailCount: int
    var lastTransportFail: int
    var lastResponseFailRange: int
    var lastResponseSuccessfulRange: int
    var lastCBFail: int
    var didFail: bool
    var reports: seq<Report>

    ghost function View(): Watch
      reads this
    {
      Watch(lastTransportFail, lastResponseFailRange, lastResponseSuccessfulRange,
            didFail, lastCBFail, callbackFailCount, reports)
    }

    constructor ()
      ensures View() == START
    {
      callbackFailCount, lastTransportFail, lastResponseFailRange := 0, 0, 0;
      lastResponseSuccessfulRange, lastCBFail, didFail, reports := 0, 0, false, [];
    }

    method Fail()
      modifies this
      ensures View() == Fails(old(View()), 1)
    {
      assert Fails(View(), 0) == View();
      callbackFailCount := ToInt32(callbackFailCount + 1);
    }

    /** order1 and order2 are the orders in which the two sums visit the response codes. */
    method Tick(metrics: Option<Metrics>, order1: seq<int>, order2: seq<int>, between: nat)
      requires metrics.Some? ==> VisitsEachKeyOnce(order1, metrics.value.responses)
      requires metrics.Some? ==> VisitsEachKeyOnce(order2, metrics.value.responses)
      modifies this
      ensures View() == WholeTick(old(View()), metrics, between)
    {
      hide ToInt32, RangeSum;
      if metrics.None? {
        return;
      }
      var success := ReturnRangeDelta(200, 299, metrics.value.responses, order1);
      var fails := ReturnRangeDelta(400, 599, metrics.value.responses, order2);
      var respFailDelta := fails - lastResponseFailRange;
      var respSuccessDelta := success - lastResponseSuccessfulRange;
      var transportFailDelta := metrics.value.failures - lastTransportFail;
      var cbFails := ToInt32(callbackFailCount - lastCBFail);
      if respSuccessDelta == 0 {
        if cbFails > 0 || transportFailDelta > 0 || respFailDelta > 0 {
          reports := reports + [Degraded];
          didFail := true;
        }
      }
      if didFail && respSuccessDelta > 0 {
        reports := reports + [Recovered];
        didFail := false;
      }
      lastTransportFail := metrics.value.failures;
      lastResponseFailRange := fails;
      lastResponseSuccessfulRange := success;
      ghost var judged := View();
      assert judged == Judge(old(View()), metrics.value, old(callbackFailCount));
      // the other goroutines
      for i := 0 to between
        invariant View() == Fails(judged, i)
      {
        callbackFailCount := ToInt32(callbackFailCount + 1);
      }
      lastCBFail := callbackFailCount;
    }
  }

  lemma {:induction false} FailSteps(s: State, k: nat)
    ensures var f := seq(k, _ => Fail);
            && IsRun(s, f) && Run(s, f).watch == Fails(s.watch, k) && Run(s, f).during == s.during
    decreases k
  {
    if k > 0 {
      var s', f, f' := Apply(s, Fail), seq(k, _ => Fail), seq(k - 1, _ => Fail);
      assert f[1..] == f';
      FailSteps(s', k - 1);
      FailsShift(s.watch, k - 1);
      hide ToInt32;
    }
  }

  lemma {:induction false} FailsShift(w: Watch, k: nat)
    ensures Fails(w, k + 1) == Fails(w.(callbacks := ToInt32(w.callbacks + 1)), k)
  {
    hide ToInt32;
    if k > 0 {
      FailsShift(w, k - 1);
    }
  }

  /** A tick of the object without metrics is the step BadTick. */
  lemma BadTickIsStep(s: State, between: nat)
    requires !s.during
    ensures WholeTick(s.watch, None, between) == Apply(s, BadTick).watch == s.watch
  {
  }

  /** The object's tick is the steps Look, Fail, ..., Fail, Note of the interleaved run. */
  lemma TickIsSteps(s: State, m: Metrics, between: nat)
    requires !s.during
    ensures var looked := Apply(s, Look(m));
            var f := seq(between, _ => Fail);
            && IsRun(looked, f) && Run(looked, f).during
            && Apply(Run(looked, f), Note).watch == WholeTick(s.watch, Some(m), between)
  {
    hide ToInt32, RangeSum;
    FailSteps(Apply(s, Look(m)), between);
  }
}
