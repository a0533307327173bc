/**
 The PersistedIndex stream (grpcserver/server.go): send the index once, then poll it and
 send it again whenever it has changed.
 */
module IndexStream {
  import opened Basics
  import opened MemoryQueue
  import P = Pipeline
  import Promise
  import Restarts
  import O = Outputs

  datatype Poll = Reads(index: nat) | Fails

  /** What the stream's select statement meets; sendOk is the outcome of producer.Send, if it is called. */
  datatype Wakeup = Tick(poll: Poll, sendOk: bool) | ClientGone | ServerStopped

  datatype Outcome = Unavailable | SendFailed | OneShot | ClientLeft | Stopped | StillOpen

  /** The indices read by the successful polls. */
  function Successes(ws: seq<Wakeup>): seq<nat> {
    if ws == [] then []
    else
      var w := ws[|ws| - 1];
      Successes(ws[..|ws| - 1]) + if w.Tick? && w.poll.Reads? then [w.poll.index] else []
  }

  /** A sequence without its consecutive duplicates. */
  function Dedup(s: seq<nat>): seq<nat> {
    if |s| <= 1 then s
    else Dedup(s[..|s| - 1]) + if s[|s| - 1] == s[|s| - 2] then [] else [s[|s| - 1]]
  }

  lemma {:induction false} DedupEnds(s: seq<nat>)
    requires s != []
    ensures Dedup(s) != [] && Dedup(s)[0] == s[0] && Dedup(s)[|Dedup(s)| - 1] == s[|s| - 1]
  {
    if |s| > 1 {
      DedupEnds(s[..|s| - 1]);
    }
  }

  /** Nothing is sent twice in a row, nothing is invented and nothing is lost. */
  lemma {:induction false} DedupMeaning(s: seq<nat>)
    ensures forall i :: 0 < i < |Dedup(s)| ==> Dedup(s)[i - 1] != Dedup(s)[i]
    ensures forall v :: v in Dedup(s) <==> v in s
  {
    if |s| > 1 {
      var front := s[..|s| - 1];
      DedupMeaning(front);
      DedupEnds(front);
      assert s == front + [s[|s| - 1]];
    }
  }

  /** Values that follow each other in Dedup(s) follow each other in s. */
  lemma {:induction false} DedupPairs(s: seq<nat>, i: nat) returns (j: nat)
    requires i + 1 < |Dedup(s)|
    ensures j + 1 < |s| && s[j] == Dedup(s)[i] && s[j + 1] == Dedup(s)[i + 1]
  {
    var front := s[..|s| - 1];
    DedupEnds(front);
    if i + 1 < |Dedup(front)| {
      j := DedupPairs(front, i);
    } else {
      j := |s| - 2;
    }
  }

  /** From a sequence that never decreases, Dedup leaves a strictly increasing one. */
  lemma {:induction false} DedupIncreases(s: seq<nat>)
    requires forall i, j :: 0 <= i < j < |s| ==> s[i] <= s[j]
    ensures forall i, j :: 0 <= i < j < |Dedup(s)| ==> Dedup(s)[i] < Dedup(s)[j]
  {
    if |s| > 1 {
      var front := s[..|s| - 1];
      DedupIncreases(front);
      DedupEnds(front);
    }
  }

  /** The value sent last before wakeup k: that of the last successful poll before it. */
  function LastSent(first: nat, ws: seq<Wakeup>): nat {
    if Successes(ws) == [] then first else Successes(ws)[|Successes(ws)| - 1]
  }

  /** Wakeup k is a new reading that cannot be sent. */
  predicate FailsToSend(first: nat, ws: seq<Wakeup>, k: nat)
    requires k < |ws|
  {
    ws[k].Tick? && !ws[k].sendOk && ws[k].poll.Reads? && ws[k].poll.index != LastSent(first, ws[..k])
  }

  /** Wakeup k ends the stream: the client has gone, the server stops, or a send fails. */
  predicate Ends(first: nat, ws: seq<Wakeup>, k: nat)
    requires k < |ws|
  {
    ws[k].ClientGone? || ws[k].ServerStopped? || FailsToSend(first, ws, k)
  }

  /** How the stream ends at a wakeup that ends it. */
  function EndOf(w: Wakeup): Outcome {
    match w
    case ClientGone => ClientLeft
    case ServerStopped => Stopped
    case Tick(_, _) => SendFailed
  }

  /** The stream goes on until the first wakeup that ends it, and ends there accordingly. */
  ghost predicate GoesOn(first: nat, ws: seq<Wakeup>, seen: nat, outcome: Outcome) {
    && seen <= |ws|
    && (forall k :: 0 <= k < seen - 1 ==> !Ends(first, ws, k))
    && if outcome.StillOpen? then seen == |ws| && forall k :: 0 <= k < |ws| ==> !Ends(first, ws, k)
       else seen > 0 && Ends(first, ws, seen - 1) && outcome == EndOf(ws[seen - 1])
  }

  /** What that means for each outcome. */
  lemma OutcomeMeaning(first: nat, ws: seq<Wakeup>, seen: nat, outcome: Outcome)
    requires GoesOn(first, ws, seen, outcome)
    ensures outcome == StillOpen <==> forall k :: 0 <= k < |ws| ==> !Ends(first, ws, k)
    ensures outcome == ClientLeft <==> seen > 0 && ws[seen - 1].ClientGone?
    ensures outcome == Stopped <==> seen > 0 && ws[seen - 1].ServerStopped?
    ensures outcome == SendFailed <==> seen > 0 && FailsToSend(first, ws, seen - 1)
    ensures outcome != Unavailable && outcome != OneShot
  {
    hide LastSent;
    if outcome.StillOpen? && seen > 0 {
      assert !Ends(first, ws, seen - 1);
    }
  }

  /** The first reading and those of the first k wakeups, as they are sent. */
  function SentBy(first: nat, ws: seq<Wakeup>, k: nat): seq<nat>
    requires k <= |ws|
  {
    Dedup([first] + Successes(ws[..k]))
  }

  /** What wakeup k adds. */
  lemma WakeupAdds(first: nat, ws: seq<Wakeup>, k: nat)
    requires k < |ws|
    ensures var read, last := ws[k].Tick? && ws[k].poll.Reads?, LastSent(first, ws[..k]);
            && SentBy(first, ws, k + 1) ==
                 SentBy(first, ws, k) + (if read && ws[k].poll.index != last then [ws[k].poll.index] else [])
            && LastSent(first, ws[..k + 1]) == if read then ws[k].poll.index else last
  {
    assert ws[..k + 1][..k] == ws[..k];
    var before, after := Successes(ws[..k]), Successes(ws[..k + 1]);
    assert after == before + if ws[k].Tick? && ws[k].poll.Reads? then [ws[k].poll.index] else [];
    hide Successes;
    if ws[k].Tick? && ws[k].poll.Reads? {
      var all, v := [first] + before, ws[k].poll.index;
      assert [first] + after == all + [v];
      assert (all + [v])[..|all|] == all && all[|all| - 1] == LastSent(first, ws[..k]);
    } else {
      assert after == before;
    }
  }

  /** The handler after its initialisation check. `sent` are the values given to producer.Send, `seen`
      the wakeups it has dealt with. */
  method Stream(first: Poll, firstSendOk: bool, interval: nat, ws: seq<Wakeup>)
    returns (sent: seq<nat>, seen: nat, outcome: Outcome)
    ensures first.Fails? ==> sent == [] && outcome == Unavailable
    ensures first.Reads? && (!firstSendOk || interval == 0) ==> sent == [first.index]
    ensures first.Reads? && !firstSendOk ==> outcome == SendFailed
    ensures first.Reads? && firstSendOk && interval == 0 ==> outcome == OneShot
    ensures seen <= |ws|
    ensures first.Reads? ==> sent == Dedup([first.index] + Successes(ws[..seen]))
    ensures first.Reads? && firstSendOk && interval > 0 ==> GoesOn(first.index, ws, seen, outcome)
  {
    hide Dedup, Successes, LastSent;
    sent, seen := [], 0;
    if first.Fails? {
      return [], 0, Unavailable;
    }
    var index := first.index;
    sent := [index];
    NothingYet(index, ws);
    if !firstSendOk {
      return sent, 0, SendFailed;
    }
    if interval == 0 {
      return sent, 0, OneShot;
    }
    while seen < |ws|
      invariant seen <= |ws|
      invariant sent == SentBy(first.index, ws, seen)
      invariant index == LastSent(first.index, ws[..seen])
      invariant forall k :: 0 <= k < seen ==> !Ends(first.index, ws, k)
    {
      var w := ws[seen];
      WakeupAdds(first.index, ws, seen);
      seen := seen + 1;
      match w {
        case ClientGone =>
          return sent, seen, ClientLeft;
        case ServerStopped =>
          return sent, seen, Stopped;
        case Tick(poll, sendOk) =>
          if poll.Reads? && poll.index != index {
            index := poll.index;
            sent := sent + [index];
            if !sendOk {
              return sent, seen, SendFailed;
            }
          }
      }
    }
    return sent, seen, StillOpen;
  }

  lemma NothingYet(first: nat, ws: seq<Wakeup>)
    ensures SentBy(first, ws, 0) == [first] && LastSent(first, ws[..0]) == first
  {
    assert [first] + Successes(ws[..0]) == [first];
  }

  /** Successes(ws) are the readings of the successful polls, each of them, in their order. */
  lemma {:induction false} SuccessesMeaning(ws: seq<Wakeup>) returns (at: seq<nat>)
    ensures |at| == |Successes(ws)|
    ensures forall i :: 0 <= i < |at| ==> at[i] < |ws|
    ensures forall i, j :: 0 <= i < j < |at| ==> at[i] < at[j]
    ensures forall i :: 0 <= i < |at| ==> ws[at[i]].Tick? && ws[at[i]].poll == Poll.Reads(Successes(ws)[i])
    ensures forall k :: 0 <= k < |ws| && ws[k].Tick? && ws[k].poll.Reads? ==> k in at
  {
    at := [];
    if ws != [] {
      var n := |ws| - 1;
      var front := ws[..n];
      at := SuccessesMeaning(front);
      assert forall k :: 0 <= k < n ==> ws[k] == front[k];
      var last := if ws[n].Tick? && ws[n].poll.Reads? then [ws[n].poll.index] else [];
      assert Successes(ws) == Successes(front) + last;
      hide Successes;
      if last != [] {
        assert forall k :: 0 <= k < n && ws[k].Tick? && ws[k].poll.Reads? ==> k in at;
        at := at + [n];
        assert n in at;
      }
    }
  }

  // ---------------------------------------------------------------- on the pipeline

  lemma {:induction false} RunSplits(s: P.System, steps: seq<P.Step>, i: nat)
    requires P.IsRun(s, steps) && i <= |steps|
    ensures P.IsRun(s, steps[..i]) && P.IsRun(P.Run(s, steps[..i]), steps[i..])
    ensures P.Run(s, steps) == P.Run(P.Run(s, steps[..i]), steps[i..])
    decreases i
  {
    if i == 0 {
      assert steps[..0] == [] && steps[0..] == steps;
    } else {
      assert steps[..i][0] == steps[0] && steps[..i][1..] == steps[1..][..i - 1] && steps[i..] == steps[1..][i - 1..];
      RunSplits(P.Apply(s, steps[0]), steps[1..], i - 1);
      hide P.Apply, P.Enabled;
    }
  }

  /** What the index of generation g reads after the first t steps. */
  ghost function IndexAt(s: P.System, steps: seq<P.Step>, g: nat, t: nat): nat
    requires P.Valid(s) && P.IsRun(s, steps) && g < |s.gens| && t <= |steps|
  {
    RunSplits(s, steps, t);
    P.IndexGrowsAlongRuns(s, steps[..t], g);
    O.Index(P.Run(s, steps[..t]).gens[g])
  }

  lemma IndexAtGrows(s: P.System, steps: seq<P.Step>, g: nat, t: nat, u: nat)
    requires P.Valid(s) && P.IsRun(s, steps) && g < |s.gens| && t <= u <= |steps|
    ensures IndexAt(s, steps, g, t) <= IndexAt(s, steps, g, u)
  {
    hide P.Valid, P.IsRun, P.Run, O.Index;
    RunSplits(s, steps, u);
    RunSplits(s, steps[..u], t);
    assert steps[..u][..t] == steps[..t];
    P.RunKeepsValid(s, steps[..t]);
    P.IndexGrowsAlongRuns(s, steps[..t], g);
    P.IndexGrowsAlongRuns(P.Run(s, steps[..t]), steps[..u][t..], g);
  }

  /** Whatever the pipeline does between the polls, as long as they read one queue generation
      the values sent to the client strictly increase. */
  lemma StreamIncreasesWithinGeneration(s: P.System, steps: seq<P.Step>, g: nat, times: seq<nat>, polls: seq<nat>)
    requires P.Valid(s) && P.IsRun(s, steps) && g < |s.gens| && |times| == |polls|
    requires forall i :: 0 <= i < |times| ==> times[i] <= |steps|
    requires forall i, j :: 0 <= i < j < |times| ==> times[i] <= times[j]
    requires forall i :: 0 <= i < |times| ==> polls[i] == IndexAt(s, steps, g, times[i])
    ensures forall i, j :: 0 <= i < j < |Dedup(polls)| ==> Dedup(polls)[i] < Dedup(polls)[j]
  {
    forall i, j | 0 <= i < j < |polls|
      ensures polls[i] <= polls[j]
    {
      IndexAtGrows(s, steps, g, times[i], times[j]);
    }
    DedupIncreases(polls);
  }

  // ---------------------------------------------------------------- across restarts

  /** After t steps the queue in hand is that of generation g, and its index reads v. */
  ghost predicate Reads(s: P.System, steps: seq<P.Step>, t: nat, g: nat, v: nat)
    requires P.IsRun(s, steps) && t <= |steps|
  {
    && P.IsRun(s, steps[..t])
    && var u := P.Run(s, steps[..t]);
       u.queue == Some(g) && g < |u.gens| && v == O.Index(u.gens[g])
  }

  lemma ReadsInOrder(s: P.System, steps: seq<P.Step>, t: nat, g: nat, v: nat, t': nat, g': nat, v': nat)
    requires P.Valid(s) && P.IsRun(s, steps) && t <= t' <= |steps|
    requires Reads(s, steps, t, g, v) && Reads(s, steps, t', g', v')
    ensures g <= g' && (g == g' ==> v <= v')
  {
    RunSplits(s, steps, t');
    RunSplits(s, steps[..t'], t);
    assert steps[..t'][..t] == steps[..t];
    P.RunKeepsValid(s, steps[..t]);
    P.RunKeepsValid(s, steps[..t']);
    var u, rest := P.Run(s, steps[..t]), steps[..t'][t..];
    assert u.queue.value == |u.gens| - 1 && P.Run(u, rest).queue.value == |P.Run(u, rest).gens| - 1;
    hide P.Valid, P.IsRun, P.Run, O.Index;
    P.IndexGrowsAlongRuns(u, rest, g);
    Promise.RunPut(u, rest, g, 0);
  }

  /** Whatever the pipeline does, two values that are sent one after the other were read by two polls
      one after the other. The second one is smaller if and only if a restart came between these polls
      and the new queue's index has not come as far as the old one's. */
  lemma StreamGoesBackIff(s: P.System, steps: seq<P.Step>, times: seq<nat>, gens: seq<nat>, polls: seq<nat>, i: nat)
    returns (j: nat)
    requires P.Valid(s) && P.IsRun(s, steps) && |times| == |gens| == |polls|
    requires forall k :: 0 <= k < |times| ==> times[k] <= |steps| && Reads(s, steps, times[k], gens[k], polls[k])
    requires forall k, l :: 0 <= k < l < |times| ==> times[k] <= times[l]
    requires i + 1 < |Dedup(polls)|
    ensures j + 1 < |polls| && polls[j] == Dedup(polls)[i] && polls[j + 1] == Dedup(polls)[i + 1]
    ensures gens[j] <= gens[j + 1]
    ensures gens[j] == gens[j + 1] ==> Dedup(polls)[i] < Dedup(polls)[i + 1]
    ensures Dedup(polls)[i + 1] < Dedup(polls)[i] <==> gens[j] < gens[j + 1] && polls[j + 1] < polls[j]
  {
    hide P.Valid, P.IsRun, Reads;
    j := DedupPairs(polls, i);
    DedupMeaning(polls);
    ReadsInOrder(s, steps, times[j], gens[j], polls[j], times[j + 1], gens[j + 1], polls[j + 1]);
  }

  /** It happens: whenever the index has come beyond the ID with which queues begin, a Close and a
      Start take the index that clients read back to that ID. */
  lemma RestartTakesIndexBack(s: P.System, g: nat, first: nat)
    requires P.Valid(s) && Restarts.Disciplined(s) && Restarts.OutputCanStop(s)
    requires s.queue == Some(g) && g < |s.gens| && first < O.Index(s.gens[g])
    ensures exists s', g' ::
              && Restarts.LeadsTo(s, s', first) && s'.queue == Some(g') && g < g' < |s'.gens|
              && O.Index(s'.gens[g']) == first < O.Index(s.gens[g])
  {
    hide P.Valid, Restarts.Disciplined, Restarts.OutputCanStop, Restarts.LeadsTo, Restarts.Idle, O.Entries, O.QueueOf;
    assert g < |s.gens|;
    var s0 := Restarts.CanClose(s, first);
    var o := Restarts.StartNext(s, s0, first);
    Restarts.IdleIndex(o, first);
    var s' := Restarts.Later(s0, o, []);
    assert s'.gens[|s0.gens|] == O.OfSync(o) && O.Index(O.OfSync(o)) == first by {
      Restarts.IndexOf(o);
    }
  }
}
