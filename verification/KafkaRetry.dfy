/**
 The retry loop of KafkaOutput.Start (output/kafka/output.go) as the goroutine executes
 it, on the WrappedBatch object. What the calls of publishEvents return is given by
 `failures`; the loop stops early when these run out, because retrying need not end.
 */
module KafkaRetry {
  import opened Basics
  import opened MemoryQueue

  /** No call returns more events than it was given. */
  predicate Plausible(given: nat, failures: seq<seq<nat>>) {
    failures == [] || (|failures[0]| <= given && Plausible(|failures[0]|, failures[1..]))
  }

  method DeliverBatch(batch: WrappedBatch, positions: seq<nat>, failures: seq<seq<nat>>)
    returns (events: seq<nat>, rounds: nat)
    requires 0 < |batch.contents| == |positions| < TWO_63
    requires batch.doneCount == 0 && batch.releases == 0 && batch.completion == null
    requires Plausible(|positions|, failures)
    modifies batch
    ensures rounds <= |failures| && events == if rounds == 0 then positions else failures[rounds - 1]
    ensures forall r :: 0 <= r < rounds - 1 ==> failures[r] != []
    ensures rounds < |failures| ==> events == []
    ensures batch.doneCount + |events| == |batch.contents|
    ensures batch.releases == if events == [] then 1 else 0
    ensures batch.completion == null
  {
    events, rounds := positions, 0;
    var remaining := |events|;
    while |events| > 0 && rounds < |failures|
      invariant rounds <= |failures| && events == if rounds == 0 then positions else failures[rounds - 1]
      invariant forall r :: 0 <= r < rounds - 1 ==> failures[r] != []
      invariant remaining == |events| && Plausible(remaining, failures[rounds..])
      invariant 0 <= batch.doneCount && batch.doneCount + remaining == |batch.contents|
      invariant batch.releases == if events == [] then 1 else 0
      invariant batch.completion == null
      decreases |failures| - rounds
    {
      events := failures[rounds];
      var completed := Sub64(remaining, |events|);
      assert completed == remaining - |events|;
      ghost var before := batch.View();
      remaining := |events|;
      batch.Done(completed);
      assert batch.View() == MarkDone(before, completed) && batch.doneCount == before.doneCount + completed;
      assert failures[rounds..][1..] == failures[rounds + 1..];
      rounds := rounds + 1;
    }
    if |events| == 0 && remaining > 0 {
      assert false;   // the call behind the loop is never reached
    }
  }
}
