/**
 The round-robin strategy over many calls (output/kafka/partition.go): a closed form for
 its answers, their balance over any window, its independence from repeated calls on one
 message, and what becomes of an event that is retried as a new message; and the groups of
 the random strategy.
 */
module RoundRobin {
  import opened Basics
  import opened Partitioning
  import opened Division

  const ANY_MESSAGE: Message := Message(None, None, 0, -1)
  const ANY_DRAW: Draw := Draw(0, 0)

  /** The strategy after t calls with n partitions, and its answer to call t (counted from 0). */
  function AfterCalls(group: nat, seed: int, n: int, t: nat): Strategy
    requires n > 0
  {
    if t == 0 then Strategy.RoundRobin(group, group, seed)
    else Choose(AfterCalls(group, seed, n, t - 1), ANY_MESSAGE, n, ANY_DRAW).strategy
  }

  function Pick(group: nat, seed: int, n: int, t: nat): Option<int>
    requires n > 0
  {
    Choose(AfterCalls(group, seed, n, t), ANY_MESSAGE, n, ANY_DRAW).partition
  }

  function First(seed: int, n: int): int { if seed + 1 < n then seed + 1 else 0 }

  // ---------------------------------------------------------------- closed form

  lemma RingStep(x: nat, n: int)
    requires 0 < n <= MAX_INT32
    ensures NextInRing(x % n, n) == (x + 1) % n
  {
    DivModParts(x, n);
    NextDiv(x, n);
    assert ToInt32(x % n + 1) == x % n + 1;
  }

  /** The state after call u, written with u's quotient and remainder. */
  function StateAt(group: nat, n: int, p0: nat, u: nat): Strategy
    requires group > 0 && n > 0
  {
    Strategy.RoundRobin(group, u % group + 1, (p0 + u / group) % n)
  }

  lemma StateStep(group: nat, n: int, p0: nat, u: nat)
    requires 1 <= group && 0 < n <= MAX_INT32
    ensures Choose(StateAt(group, n, p0, u), ANY_MESSAGE, n, ANY_DRAW).strategy == StateAt(group, n, p0, u + 1)
  {
    hide NextInRing;
    NextDiv(u, group);
    RingStep(p0 + u / group, n);
  }

  lemma FirstState(group: nat, seed: int, n: int)
    requires 1 <= group && 0 < n <= MAX_INT32 && 0 <= seed < MAX_INT32
    ensures Choose(Strategy.RoundRobin(group, group, seed), ANY_MESSAGE, n, ANY_DRAW).strategy
         == StateAt(group, n, First(seed, n), 0)
  {
    DivModUnique(0, group, 0, 0);
    DivModUnique(First(seed, n), n, 0, First(seed, n));
  }

  lemma {:induction false} StateAfterCalls(group: nat, seed: int, n: int, t: nat)
    requires 1 <= group && 0 < n <= MAX_INT32 && 0 <= seed < MAX_INT32 && t > 0
    ensures AfterCalls(group, seed, n, t) == StateAt(group, n, First(seed, n), t - 1)
    decreases t
  {
    hide Choose, StateAt;
    if t == 1 {
      FirstState(group, seed, n);
      assert AfterCalls(group, seed, n, 0) == Strategy.RoundRobin(group, group, seed);
    } else {
      StateAfterCalls(group, seed, n, t - 1);
      StateStep(group, n, First(seed, n), t - 2);
    }
  }

  /** For a constant number of partitions and a seed below the largest int32, call t answers
      with (p0 + t / group) mod n. */
  lemma ClosedForm(group: nat, seed: int, n: int, t: nat)
    requires 1 <= group && 0 < n <= MAX_INT32 && 0 <= seed < MAX_INT32
    ensures Pick(group, seed, n, t) == Some((First(seed, n) + t / group) % n)
  {
    hide First;
    StateAfterCalls(group, seed, n, t + 1);
  }

  // ---------------------------------------------------------------- balance

  function Hit(group: nat, seed: int, n: int, p: int, t: nat): nat
    requires n > 0
  {
    if Pick(group, seed, n, t) == Some(p) then 1 else 0
  }

  /** How many of the calls a, ..., b - 1 picked partition p. */
  function Picks(group: nat, seed: int, n: int, p: int, a: nat, b: nat): nat
    requires n > 0
    decreases b
  {
    if b <= a then 0 else Picks(group, seed, n, p, a, b - 1) + Hit(group, seed, n, p, b - 1)
  }

  lemma {:induction false} PicksSplit(group: nat, seed: int, n: int, p: int, a: nat, m: nat, b: nat)
    requires n > 0 && a <= m <= b
    ensures Picks(group, seed, n, p, a, b) == Picks(group, seed, n, p, a, m) + Picks(group, seed, n, p, m, b)
    decreases b
  {
    if m < b {
      PicksSplit(group, seed, n, p, a, m, b - 1);
    }
  }

  lemma FirstInRing(seed: int, n: int)
    requires 0 < n && 0 <= seed
    ensures 0 <= First(seed, n)
  {
  }

  lemma SameResidue(p0: nat, t: nat, group: nat, n: nat)
    requires group > 0 && n > 0
    ensures (p0 + (t + n * group) / group) % n == (p0 + t / group) % n
  {
    AddMultiple(t, group, n);
    var q, q' := t / group, (t + n * group) / group;
    assert q' == q + n;
    DivModParts(t, group);
    NextTurn(p0, q, n);
  }

  lemma NextTurn(p0: nat, q: nat, n: nat)
    requires n > 0
    ensures (p0 + (q + n)) % n == (p0 + q) % n
  {
    AddMultiple(p0 + q, n, 1);
  }

  /** One call later by a full cycle, the same answer. */
  lemma Periodic(group: nat, seed: int, n: int, t: nat)
    requires 1 <= group && 0 < n <= MAX_INT32 && 0 <= seed < MAX_INT32
    ensures Pick(group, seed, n, t + n * group) == Pick(group, seed, n, t)
  {
    hide Pick, First;
    ClosedForm(group, seed, n, t);
    ClosedForm(group, seed, n, t + n * group);
    FirstInRing(seed, n);
    var p0 := First(seed, n);
    SameResidue(p0, t, group, n);
  }

  lemma PicksOne(group: nat, seed: int, n: int, p: int, a: nat)
    requires 1 <= group && 0 < n <= MAX_INT32 && 0 <= seed < MAX_INT32
    ensures Picks(group, seed, n, p, a, a + 1) == Hit(group, seed, n, p, a)
  {
    assert Picks(group, seed, n, p, a, a) == 0;
  }

  lemma ShiftByOne(group: nat, seed: int, n: int, p: int, a: nat, l: nat)
    requires 1 <= group && 0 < n <= MAX_INT32 && 0 <= seed < MAX_INT32
    requires Pick(group, seed, n, a + l) == Pick(group, seed, n, a)
    ensures Picks(group, seed, n, p, a + 1, a + 1 + l) == Picks(group, seed, n, p, a, a + l)
  {
    hide Picks, Pick;
    PicksSplit(group, seed, n, p, a, a + 1, a + 1 + l);
    PicksSplit(group, seed, n, p, a, a + l, a + 1 + l);
    PicksOne(group, seed, n, p, a);
    PicksOne(group, seed, n, p, a + l);
  }

  /** Shifting a window of one cycle does not change what it contains. */
  lemma {:induction false} ShiftWindow(group: nat, seed: int, n: int, p: int, a: nat)
    requires 1 <= group && 0 < n <= MAX_INT32 && 0 <= seed < MAX_INT32
    ensures Picks(group, seed, n, p, a, a + n * group) == Picks(group, seed, n, p, 0, n * group)
  {
    if a > 0 {
      hide Picks, Pick;
      ShiftWindow(group, seed, n, p, a - 1);
      Periodic(group, seed, n, a - 1);
      ShiftByOne(group, seed, n, p, a - 1, n * group);
    }
  }

  /** Within group g all calls pick the same partition. */
  lemma {:induction false} PicksInGroup(group: nat, seed: int, n: int, p: int, g: nat, k: nat)
    requires 1 <= group && 0 < n <= MAX_INT32 && 0 <= seed < MAX_INT32 && k <= group
    ensures Picks(group, seed, n, p, g * group, g * group + k) == if (First(seed, n) + g) % n == p then k else 0
  {
    if k > 0 {
      PicksInGroup(group, seed, n, p, g, k - 1);
      var t := g * group + (k - 1);
      DivModUnique(t, group, g, k - 1);
      ClosedForm(group, seed, n, t);
      hide Pick, First;
    }
  }

  /** The group of a cycle that picks p. */
  function GroupOf(p0: int, n: int, p: int): int { if p >= p0 then p - p0 else p - p0 + n }

  lemma GroupPicks(p0: int, n: int, p: int, g: int)
    requires 0 <= p0 < n && 0 <= p < n && 0 <= g < n
    ensures (p0 + g) % n == p <==> g == GroupOf(p0, n, p)
  {
    if p0 + g < n {
      DivModUnique(p0 + g, n, 0, p0 + g);
    } else {
      DivModUnique(p0 + g, n, 1, p0 + g - n);
    }
  }

  lemma {:induction false} PicksInGroups(group: nat, seed: int, n: int, p: int, m: nat, e: nat)
    requires 1 <= group && 0 < n <= MAX_INT32 && 0 <= seed < MAX_INT32 && 0 <= p < n && m <= n && e == m * group
    ensures Picks(group, seed, n, p, 0, e) == if GroupOf(First(seed, n), n, p) < m then group else 0
  {
    if m == 0 {
      assert e == 0;
    } else {
      Distribute(m - 1, 1, group);
      PicksInGroups(group, seed, n, p, m - 1, e - group);
      LastGroup(group, seed, n, p, m - 1, e - group);
      PicksSplit(group, seed, n, p, 0, e - group, e);
      hide Picks, First, GroupOf;
    }
  }

  lemma LastGroup(group: nat, seed: int, n: int, p: int, g: nat, b: nat)
    requires 1 <= group && 0 < n <= MAX_INT32 && 0 <= seed < MAX_INT32 && 0 <= p < n && g < n && b == g * group
    ensures Picks(group, seed, n, p, b, b + group) == if GroupOf(First(seed, n), n, p) == g then group else 0
  {
    PicksInGroup(group, seed, n, p, g, group);
    GroupPicks(First(seed, n), n, p, g);
    hide Picks, First, GroupOf;
  }

  lemma OneCycle(group: nat, seed: int, n: int, p: int, a: nat)
    requires 1 <= group && 0 < n <= MAX_INT32 && 0 <= seed < MAX_INT32 && 0 <= p < n
    ensures Picks(group, seed, n, p, a, a + n * group) == group
  {
    hide Picks;
    ShiftWindow(group, seed, n, p, a);
    PicksInGroups(group, seed, n, p, n, n * group);
    assert GroupOf(First(seed, n), n, p) < n;
  }

  /** Balance: any window of k full cycles, aligned or not, picks every partition exactly
      k * group times. */
  lemma {:induction false} Balanced(group: nat, seed: int, n: int, p: int, a: nat, k: nat)
    requires 1 <= group && 0 < n <= MAX_INT32 && 0 <= seed < MAX_INT32 && 0 <= p < n
    ensures Picks(group, seed, n, p, a, a + k * (n * group)) == k * group
    decreases k
  {
    if k > 0 {
      var b := a + (k - 1) * (n * group);
      Balanced(group, seed, n, p, a, k - 1);
      OneCycle(group, seed, n, p, b);
      PicksSplit(group, seed, n, p, a, b, b + n * group);
      Distribute(k - 1, 1, n * group);
      Distribute(k - 1, 1, group);
      hide Picks;
    }
  }

  // ---------------------------------------------------------------- retries

  /** Messages that have a partition. */
  function CountAssigned(ms: seq<Message>): nat {
    if ms == [] then 0 else CountAssigned(ms[..|ms| - 1]) + if ms[|ms| - 1].partition == -1 then 0 else 1
  }

  lemma {:induction false} AssignedUpdate(ms: seq<Message>, i: nat, m: Message)
    requires i < |ms| && ms[i].partition == -1 && m.partition != -1
    ensures CountAssigned(ms[i := m]) == CountAssigned(ms) + 1
  {
    var k := |ms| - 1;
    if i == k {
      assert ms[i := m][..k] == ms[..k];
    } else {
      assert ms[i := m][..k] == ms[..k][i := m];
      AssignedUpdate(ms[..k], i, m);
    }
  }

  /** The strategy has been called once per message that has a partition, however often these
      messages have been partitioned since. */
  ghost predicate OncePerMessage(w: World, group: nat, seed: int, n: int)
    requires n > 0
  {
    && w.partitioner.strategy == AfterCalls(group, seed, n, CountAssigned(w.messages))
    && InRange(w.partitioner.strategy, n)
    && (forall i :: 0 <= i < |w.messages| ==> -1 <= w.messages[i].partition < n)
    && ((exists i :: 0 <= i < |w.messages| && w.messages[i].partition != -1) ==> w.partitioner.partitions == n)
  }

  lemma CallOncePerMessage(w: World, c: Call, group: nat, seed: int, n: int)
    requires 0 < n <= MAX_INT32 && CanCall(w, c, n) && OncePerMessage(w, group, seed, n)
    requires w.partitioner.strategy.RoundRobin?
    ensures OncePerMessage(After(w, c, n), group, seed, n) && After(w, c, n).partitioner.strategy.RoundRobin?
    ensures w.messages[c.index].partition == -1 ==>
              Some(CallAnswer(w, c, n).result) == Pick(group, seed, n, CountAssigned(w.messages))
  {
    var m := w.messages[c.index];
    if m.partition == -1 {
      ChooseInRange(w.partitioner.strategy, m, n, c.draw);
      AssignedUpdate(w.messages, c.index, CallAnswer(w, c, n).message);
      hide CountAssigned;
    } else {
      assert w.messages[c.index := m] == w.messages;
    }
  }

  /** Repeated calls on the same messages do not disturb the balance: in every run the k-th message
      to be partitioned for the first time gets the k-th pick. */
  lemma {:induction false} RetriesDoNotAdvance(w: World, calls: seq<Call>, group: nat, seed: int, n: int)
    requires 0 < n <= MAX_INT32 && IsRun(w, calls, n) && OncePerMessage(w, group, seed, n)
    requires w.partitioner.strategy.RoundRobin?
    ensures OncePerMessage(Run(w, calls, n), group, seed, n)
    decreases |calls|
  {
    if calls != [] {
      CallOncePerMessage(w, calls[0], group, seed, n);
      hide OncePerMessage, After;
      RetriesDoNotAdvance(After(w, calls[0], n), calls[1..], group, seed, n);
    }
  }

  lemma {:induction false} FreshUnassigned(ms: seq<Message>)
    requires forall i :: 0 <= i < |ms| ==> IsFresh(ms[i])
    ensures CountAssigned(ms) == 0
  {
    if ms != [] {
      FreshUnassigned(ms[..|ms| - 1]);
    }
  }

  /** From the start: the next message without a partition gets pick number k, where k is the
      number of messages partitioned so far. */
  lemma FirstAssignments(w: World, calls: seq<Call>, c: Call, group: nat, seed: int, n: int)
    requires 0 < n <= MAX_INT32 && 1 <= group && 0 <= seed < MAX_INT32
    requires Starts(w) && w.partitioner.strategy == Strategy.RoundRobin(group, group, seed) && IsRun(w, calls, n)
    requires CanCall(Run(w, calls, n), c, n) && Run(w, calls, n).messages[c.index].partition == -1
    ensures var v := Run(w, calls, n);
            CallAnswer(v, c, n).result == (First(seed, n) + CountAssigned(v.messages) / group) % n
  {
    hide Pick, CallAnswer, First, CountAssigned;
    StartOncePerMessage(w, group, seed, n);
    RetriesDoNotAdvance(w, calls, group, seed, n);
    NextAssignment(Run(w, calls, n), c, group, seed, n);
  }

  lemma StartOncePerMessage(w: World, group: nat, seed: int, n: int)
    requires 0 < n <= MAX_INT32 && 1 <= group && 0 <= seed < MAX_INT32
    requires Starts(w) && w.partitioner.strategy == Strategy.RoundRobin(group, group, seed)
    ensures OncePerMessage(w, group, seed, n)
  {
    FreshUnassigned(w.messages);
  }

  lemma NextAssignment(v: World, c: Call, group: nat, seed: int, n: int)
    requires 0 < n <= MAX_INT32 && 1 <= group && 0 <= seed < MAX_INT32
    requires OncePerMessage(v, group, seed, n) && CanCall(v, c, n) && v.messages[c.index].partition == -1
    ensures v.partitioner.strategy.RoundRobin?
    ensures CallAnswer(v, c, n).result == (First(seed, n) + CountAssigned(v.messages) / group) % n
  {
    hide Pick, CallAnswer, First, CountAssigned, After;
    StillRoundRobin(group, seed, n, CountAssigned(v.messages));
    CallOncePerMessage(v, c, group, seed, n);
    ClosedForm(group, seed, n, CountAssigned(v.messages));
  }

  lemma ShiftedOnce(p: nat, r: nat, n: nat)
    requires p < n && r < n
    ensures (p + r) % n == if p + r < n then p + r else p + r - n
  {
    if p + r < n {
      DivModUnique(p + r, n, 0, p + r);
    } else {
      DivModUnique(p + r, n, 1, p + r - n);
    }
  }

  lemma ShiftedResidue(p: nat, a: nat, n: nat)
    requires p < n
    ensures a % n < n && (p + a) % n == (p + a % n) % n
  {
    DivModParts(a, n);
    AddMultiple(p + a % n, n, a / n);
  }

  lemma SameShift(p: nat, a: nat, b: nat, n: nat)
    requires p < n
    ensures (p + a) % n == (p + b) % n <==> a % n == b % n
  {
    ShiftedResidue(p, a, n);
    ShiftedResidue(p, b, n);
    var ra, rb := a % n, b % n;
    ShiftedOnce(p, ra, n);
    ShiftedOnce(p, rb, n);
  }

  /** A retry of the Kafka output makes a new message for the event, which takes a pick of its own.
      When k messages had been assigned before the event's old message and k' before its new one, it
      keeps its partition if and only if k / group and k' / group are the same modulo n. */
  lemma RetryKeepsPartitionIff(w: World, calls: seq<Call>, c: Call, calls': seq<Call>, c': Call,
                               group: nat, seed: int, n: int)
    requires 0 < n <= MAX_INT32 && 1 <= group && 0 <= seed < MAX_INT32
    requires Starts(w) && w.partitioner.strategy == Strategy.RoundRobin(group, group, seed) && IsRun(w, calls, n)
    requires CanCall(Run(w, calls, n), c, n) && Run(w, calls, n).messages[c.index].partition == -1
    requires IsRun(After(Run(w, calls, n), c, n), calls', n)
    requires var v' := Run(After(Run(w, calls, n), c, n), calls', n);
             CanCall(v', c', n) && v'.messages[c'.index].partition == -1
    ensures var v := Run(w, calls, n);
            var v' := Run(After(v, c, n), calls', n);
            var k, k' := CountAssigned(v.messages), CountAssigned(v'.messages);
            CallAnswer(v, c, n).result == CallAnswer(v', c', n).result <==> (k / group) % n == (k' / group) % n
  {
    hide Pick, CallAnswer, CountAssigned, OncePerMessage, IsRun, Run;
    hide After;
    var v := Run(w, calls, n);
    StartOncePerMessage(w, group, seed, n);
    RetriesDoNotAdvance(w, calls, group, seed, n);
    NextAssignment(v, c, group, seed, n);
    CallOncePerMessage(v, c, group, seed, n);
    var v' := Run(After(v, c, n), calls', n);
    RetriesDoNotAdvance(After(v, c, n), calls', group, seed, n);
    NextAssignment(v', c', group, seed, n);
    var k, k' := CountAssigned(v.messages), CountAssigned(v'.messages);
    DivModParts(k, group);
    DivModParts(k', group);
    SameShift(First(seed, n), k / group, k' / group, n);
  }

  lemma {:induction false} StillRoundRobin(group: nat, seed: int, n: int, t: nat)
    requires n > 0
    ensures AfterCalls(group, seed, n, t).RoundRobin?
  {
    if t > 0 {
      StillRoundRobin(group, seed, n, t - 1);
    }
  }

  // ---------------------------------------------------------------- the random strategy

  function RandomAfter(group: nat, draws: nat -> Draw, n: int, t: nat): Strategy
    requires n > 0
  {
    if t == 0 then Strategy.Random(group, group, 0)
    else Choose(RandomAfter(group, draws, n, t - 1), ANY_MESSAGE, n, draws(t - 1)).strategy
  }

  /** Two calls of the random strategy answer alike if and only if the draws of their groups do. */
  lemma RandomKeepsPartitionIff(group: nat, draws: nat -> Draw, n: int, t: nat, t': nat)
    requires 1 <= group && n > 0
    ensures Choose(RandomAfter(group, draws, n, t), ANY_MESSAGE, n, draws(t)).partition
              == Choose(RandomAfter(group, draws, n, t'), ANY_MESSAGE, n, draws(t')).partition
            <==> draws((t / group) * group).below == draws((t' / group) * group).below
  {
    hide Choose;
    RandomGroups(group, draws, n, t);
    RandomGroups(group, draws, n, t');
  }

  /** All calls of a group answer with the draw made by its first call. */
  lemma {:induction false} RandomGroups(group: nat, draws: nat -> Draw, n: int, t: nat)
    requires 1 <= group && n > 0
    ensures var drawn := draws((t / group) * group).below;
            && RandomAfter(group, draws, n, t + 1) == Strategy.Random(group, t % group + 1, drawn)
            && Choose(RandomAfter(group, draws, n, t), ANY_MESSAGE, n, draws(t)).partition == Some(drawn)
    decreases t
  {
    DivModParts(t, group);
    if t == 0 {
      DivModUnique(0, group, 0, 0);
      assert RandomAfter(group, draws, n, 0) == Strategy.Random(group, group, 0);
    } else {
      RandomGroups(group, draws, n, t - 1);
      NextDiv(t - 1, group);
    }
  }
}
