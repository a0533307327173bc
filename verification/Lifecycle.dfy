/**
 ServerRunner.Start and Close (publisherserver/server.go): which of its parts exist, and
 which queues have been opened and not closed.
 */
module Lifecycle {
  import opened Basics

  /** How far Start gets, and whether monitoring is configured. */
  datatype Outcome = QueueFails | MonitorFails | NoOutput | OutputFails | Started
  datatype Attempt = Attempt(monitored: bool, outcome: Outcome)

  /** Handles, and the queues in existence; queues are numbered as they are created. */
  datatype Runner = Runner(queue: Option<nat>, monitoring: bool, out: bool, open: set<nat>, created: nat)

  const NEW_RUNNER: Runner := Runner(None, false, false, {}, 0)

  function Start(r: Runner, a: Attempt): Runner {
    if a.outcome.QueueFails? then r.(queue := None)
    else
      var r1 := r.(queue := Some(r.created), open := r.open + {r.created}, created := r.created + 1);
      if a.monitored && a.outcome.MonitorFails? then r1.(monitoring := false)
      else
        var r2 := if a.monitored then r1.(monitoring := true) else r1;
        if a.outcome.NoOutput? then r2.(out := false) else r2.(out := true)
  }

  predicate Succeeds(a: Attempt) {
    a.outcome.Started? || (a.outcome.MonitorFails? && !a.monitored)
  }

  function Close(r: Runner): Runner {
    var open := if r.queue.Some? then r.open - {r.queue.value} else r.open;
    Runner(None, false, false, open, r.created)
  }

  /** Close as far as the wait for the output, where it stays if that does not return. */
  function CloseWaiting(r: Runner): Runner { Close(r).(out := r.out) }

  /** Exactly the queue in hand is open. */
  predicate NoLeak(r: Runner) {
    && r.open == (if r.queue.Some? then {r.queue.value} else {})
    && (r.queue.Some? ==> r.queue.value < r.created)
  }

  /** Start leaks a queue exactly when it is called while one is in hand, however far it gets. */
  lemma StartLeaksIffQueueInHand(r: Runner, a: Attempt)
    requires NoLeak(r)
    ensures NoLeak(Start(r, a)) <==> r.queue.None?
  {
    if r.queue.Some? {
      assert r.queue.value in Start(r, a).open;
      assert Start(r, a).queue != r.queue;
    } else {
      assert r.open == {};
    }
  }

  /** Start succeeds only with everything in hand. When it fails, a queue that could be made stays in
      hand, and so does an output that could be made but not started. */
  lemma StartLeaves(r: Runner, a: Attempt)
    ensures var r' := Start(r, a);
            && (Succeeds(a) ==> r'.queue.Some? && r'.out && (a.monitored ==> r'.monitoring))
            && (r'.queue.Some? <==> a.outcome != QueueFails)
            && (r'.queue.Some? ==> r'.queue == Some(r.created) && r.created in r'.open && r'.created == r.created + 1)
            && (a.outcome == QueueFails ==> r' == r.(queue := None))
            && (a.monitored && a.outcome == MonitorFails ==> !r'.monitoring && r'.out == r.out)
            && (a.outcome == NoOutput ==> !r'.out)
            && (a.outcome == OutputFails ==> r'.out && !Succeeds(a))
            && (a.outcome == Started ==> Succeeds(a))
            && (!a.monitored ==> r'.monitoring == r.monitoring)
  {
  }

  /** Close gives everything up, from any state, and a second Close changes nothing. */
  lemma CloseIsFinal(r: Runner)
    ensures Close(r).queue.None? && !Close(r).monitoring && !Close(r).out
    ensures Close(Close(r)) == Close(r)
    ensures NoLeak(r) ==> Close(r).open == {} && NoLeak(Close(r)) && NoLeak(CloseWaiting(r))
  {
  }

  /** The runner object. Start's failures are returned as ok == false. */
  class ServerRunner {
    var queue: Option<nat>
    var monitoring: bool
    var out: bool
    var open: set<nat>
    var created: nat

    ghost function View(): Runner
      reads this
    {
      Runner(queue, monitoring, out, open, created)
    }

    constructor ()
      ensures View() == NEW_RUNNER
    {
      queue, monitoring, out, open, created := None, false, false, {}, 0;
    }

    method StartServer(a: Attempt) returns (ok: bool)
      modifies this
      ensures View() == Start(old(View()), a) && ok == Succeeds(a)
    {
      if a.outcome.QueueFails? {
        queue := None;
        return false;
      }
      queue, open, created := Some(created), open + {created}, created + 1;
      if a.monitored {
        monitoring := !a.outcome.MonitorFails?;
        if a.outcome.MonitorFails? {
          return false;
        }
      }
      if a.outcome.NoOutput? {
        out := false;
        return false;
      }
      out := true;
      return !a.outcome.OutputFails?;
    }

    /** The output's Wait returns or not. */
    method CloseServer(waitReturns: bool) returns (hangs: bool)
      modifies this
      ensures hangs == (old(out) && !waitReturns)
      ensures View() == if hangs then CloseWaiting(old(View())) else Close(old(View()))
    {
      if monitoring {
        monitoring := false;
      }
      if queue.Some? {
        open := open - {queue.value};
        queue := None;
      }
      if out {
        if !waitReturns {
          return true;
        }
        out := false;
      }
      return false;
    }
  }
}
