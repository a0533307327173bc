/**
 The shipper's queue (queue/queue.go).

 The libbeat memory queue itself is not part of the repository. What the shipper
 relies on is written down as the value `Queue`: entries leave in the order they
 came, with strictly ascending IDs; `Get` hands out the next non-empty contiguous
 range of entries; and the oldest ID moves only over batches that were released.
 */
module MemoryQueue {
  import opened Basics

  /** `owner` is the number of the publish request that put the entry there. */
  datatype Entry = Entry(id: nat, event: Event, owner: nat)

  /** A WrappedBatch: the entries start .. start + count, the ack counter, and
      how often the libbeat batch underneath has been told that it is done. */
  datatype Batch = Batch(start: nat, count: nat, doneCount: int, releases: nat)

  datatype Queue = Queue(entries: seq<Entry>, nextId: nat, capacity: nat, batches: seq<Batch>, closed: bool)

  function NewQueue(firstId: nat, capacity: nat): Queue {
    Queue([], firstId, capacity, [], false)
  }

  /** The position just behind the first k batches. */
  function End(bs: seq<Batch>, k: nat): nat
    requires k <= |bs|
  {
    if k == 0 then 0 else bs[k - 1].start + bs[k - 1].count
  }

  /** Position p lies in the batch. */
  predicate Holds(b: Batch, p: nat) { b.start <= p < b.start + b.count }

  function Fetched(q: Queue): nat { End(q.batches, |q.batches|) }

  /** The number of batches, counted from batch k, up to the first one that is not released. */
  function Lead(bs: seq<Batch>, k: nat): (r: nat)
    requires k <= |bs|
    ensures k <= r <= |bs|
    ensures forall j :: k <= j < r ==> bs[j].releases > 0
    ensures r < |bs| ==> bs[r].releases == 0
    decreases |bs| - k
  {
    if k < |bs| && bs[k].releases > 0 then Lead(bs, k + 1) else k
  }

  /** The position of the oldest entry that still occupies the queue. */
  function OldestPosition(q: Queue): nat { End(q.batches, Lead(q.batches, 0)) }

  ghost predicate Valid(q: Queue) {
    && (forall i, j :: 0 <= i < j < |q.entries| ==> q.entries[i].id < q.entries[j].id)
    && (forall i :: 0 <= i < |q.entries| ==> q.entries[i].id < q.nextId)
    && Chained(q.batches)
    && Fetched(q) <= |q.entries|
  }

  /** The batches cut the entries into consecutive non-empty pieces. */
  ghost predicate Chained(bs: seq<Batch>) {
    && (|bs| > 0 ==> bs[0].start == 0)
    && (forall k :: 0 <= k < |bs| ==> bs[k].count > 0)
    && (forall j, k :: 0 <= j < |bs| && k == j + 1 && k < |bs| ==> bs[k].start == bs[j].start + bs[j].count)
  }

  /** Queue.PersistedIndex for a memory queue: the ID of the oldest remaining
      entry, or the next ID when nothing remains. */
  function PersistedIndex(q: Queue): nat {
    if OldestPosition(q) < |q.entries| then q.entries[OldestPosition(q)].id else q.nextId
  }

  // ---------------------------------------------------------------- operations

  predicate HasRoom(q: Queue) {
    |q.entries| - OldestPosition(q) < q.capacity
  }

  function Enqueue(q: Queue, id: nat, event: Event, owner: nat): Queue {
    q.(entries := q.entries + [Entry(id, event, owner)], nextId := id + 1)
  }

  function TakeBatch(q: Queue, count: nat): Queue {
    q.(batches := q.batches + [Batch(Fetched(q), count, 0, 0)])
  }

  function SetBatch(q: Queue, k: nat, b: Batch): Queue
    requires k < |q.batches|
  {
    q.(batches := q.batches[k := b])
  }

  function CloseQueue(q: Queue): Queue { q.(closed := true) }

  /** The two halves of WrappedBatch.Done: the atomic addition, and the release
      performed by a caller whose addition reached the batch size. */
  function AddDone(b: Batch, n: int): Batch { b.(doneCount := Add64(b.doneCount, n)) }
  predicate ReachedCount(b: Batch) { b.doneCount >= b.count }
  function Release(b: Batch): Batch { b.(releases := b.releases + 1) }

  function MarkDone(b: Batch, n: int): Batch {
    var b' := AddDone(b, n);
    if ReachedCount(b') then Release(b') else b'
  }

  // ---------------------------------------------------------------- the oldest ID

  lemma {:induction false} EndGrows(q: Queue, j: nat, k: nat)
    requires Valid(q) && j <= k <= |q.batches|
    ensures End(q.batches, j) <= End(q.batches, k)
    decreases k
  {
    if j < k {
      EndGrows(q, j, k - 1);
    }
  }

  /** Every position in front of the end of batch k lies in one of the first k batches. */
  lemma {:induction false} BatchOf(q: Queue, k: nat, p: nat) returns (j: nat)
    requires Valid(q) && k <= |q.batches| && p < End(q.batches, k)
    ensures j < k && q.batches[j].start <= p < q.batches[j].start + q.batches[j].count
  {
    if q.batches[k - 1].start <= p {
      j := k - 1;
    } else {
      j := BatchOf(q, k - 1, p);
    }
  }

  lemma BatchIsFetched(q: Queue, k: nat)
    requires Valid(q) && k < |q.batches|
    ensures q.batches[k].start + q.batches[k].count <= Fetched(q)
  {
    EndGrows(q, k + 1, |q.batches|);
  }

  /** An ID is below the persisted index exactly when its entry is in front of the oldest one. */
  lemma IndexMarksOldest(q: Queue, p: nat)
    requires Valid(q) && p < |q.entries|
    ensures q.entries[p].id < PersistedIndex(q) <==> p < OldestPosition(q)
  {
    var o := OldestPosition(q);
    EndGrows(q, Lead(q.batches, 0), |q.batches|);
    if o < |q.entries| {
      assert p < o ==> q.entries[p].id < q.entries[o].id;
      assert o < p ==> q.entries[o].id < q.entries[p].id;
    }
  }

  /** What is below the persisted index was handed out in a batch that has been released,
      together with every batch before it. */
  lemma BelowIndexIsReleased(q: Queue, p: nat) returns (k: nat)
    requires Valid(q) && p < |q.entries| && q.entries[p].id < PersistedIndex(q)
    ensures k < |q.batches| && q.batches[k].start <= p < q.batches[k].start + q.batches[k].count
    ensures forall j :: 0 <= j <= k ==> q.batches[j].releases > 0
  {
    IndexMarksOldest(q, p);
    k := BatchOf(q, Lead(q.batches, 0), p);
  }

  /** q' has everything q has, and perhaps more entries, batches and releases. */
  ghost predicate Extends(q: Queue, q': Queue) {
    && q.nextId <= q'.nextId
    && |q.entries| <= |q'.entries| && q.entries == q'.entries[..|q.entries|]
    && |q.batches| <= |q'.batches|
    && (forall i :: |q.entries| <= i < |q'.entries| ==> q.nextId <= q'.entries[i].id)
    && (forall k :: 0 <= k < |q.batches| ==>
          && q'.batches[k].start == q.batches[k].start
          && q'.batches[k].count == q.batches[k].count
          && q.batches[k].releases <= q'.batches[k].releases)
  }

  /** Progress on a batch disturbs neither the queue nor the other batches. */
  lemma SetBatchKeeps(q: Queue, k: nat, b: Batch)
    requires Valid(q) && k < |q.batches|
    requires b.start == q.batches[k].start && b.count == q.batches[k].count && q.batches[k].releases <= b.releases
    ensures Valid(SetBatch(q, k, b)) && Extends(q, SetBatch(q, k, b)) && Fetched(SetBatch(q, k, b)) == Fetched(q)
  {
  }

  lemma TakeBatchKeeps(q: Queue, count: nat)
    requires Valid(q) && 0 < count && Fetched(q) + count <= |q.entries|
    ensures Valid(TakeBatch(q, count)) && Extends(q, TakeBatch(q, count))
    ensures Fetched(TakeBatch(q, count)) == Fetched(q) + count
  {
  }

  lemma EnqueueKeeps(q: Queue, id: nat, event: Event, owner: nat)
    requires Valid(q) && q.nextId <= id
    ensures Valid(Enqueue(q, id, event, owner)) && Extends(q, Enqueue(q, id, event, owner))
  {
  }

  lemma CloseKeeps(q: Queue)
    requires Valid(q)
    ensures Valid(CloseQueue(q)) && Extends(q, CloseQueue(q))
  {
  }

  /** The persisted index of a queue never goes back. */
  lemma IndexNeverDecreases(q: Queue, q': Queue)
    requires Valid(q) && Valid(q') && Extends(q, q')
    ensures PersistedIndex(q) <= PersistedIndex(q')
  {
    var l, l' := Lead(q.batches, 0), Lead(q'.batches, 0);
    assert l <= l';
    EndGrows(q', l, l');
    EndGrows(q, l, |q.batches|);
    EndGrows(q', l', |q'.batches|);
    assert End(q'.batches, l) == End(q.batches, l);
    var o, o' := OldestPosition(q), OldestPosition(q');
    if o < |q.entries| && o' < |q'.entries| && o < o' {
      assert q'.entries[o].id < q'.entries[o'].id;
    } else if o < |q.entries| {
      assert q'.entries[o] == q.entries[o];
    }
  }

  lemma OldestGrows(q: Queue, q': Queue)
    requires Valid(q) && Valid(q') && Extends(q, q')
    ensures OldestPosition(q) <= OldestPosition(q')
  {
    var l, l' := Lead(q.batches, 0), Lead(q'.batches, 0);
    assert l <= l';
    EndGrows(q', l, l');
    assert End(q'.batches, l) == End(q.batches, l);
  }

  /** Never more entries than the capacity allows. */
  predicate WithinCapacity(q: Queue) { |q.entries| - OldestPosition(q) <= q.capacity }

  lemma FetchedGrows(q: Queue, q': Queue)
    requires Valid(q) && Valid(q') && Extends(q, q')
    ensures Fetched(q) <= Fetched(q')
  {
    EndGrows(q', |q.batches|, |q'.batches|);
  }

  // ---------------------------------------------------------------- WrappedBatch.Done

  function Sum(counts: seq<nat>): nat {
    if counts == [] then 0 else Sum(counts[..|counts| - 1]) + counts[|counts| - 1]
  }

  /** A batch after a sequence of Done calls. */
  function DoneAll(b: Batch, counts: seq<nat>): Batch {
    if counts == [] then b else MarkDone(DoneAll(b, counts[..|counts| - 1]), counts[|counts| - 1])
  }

  lemma {:induction false} DoneCounts(b: Batch, counts: seq<nat>)
    requires b.doneCount == 0 && b.releases == 0 && b.count < TWO_64 && Sum(counts) < TWO_64
    ensures DoneAll(b, counts).doneCount == Sum(counts)
    ensures DoneAll(b, counts).count == b.count
    ensures Sum(counts) < b.count ==> DoneAll(b, counts).releases == 0
    ensures counts != [] && Sum(counts) >= b.count ==>
              DoneAll(b, counts).releases == DoneAll(b, counts[..|counts| - 1]).releases + 1
  {
    if counts != [] {
      DoneCounts(b, counts[..|counts| - 1]);
    }
  }

  lemma {:induction false} DoneReleasesAtLeast(b: Batch, counts: seq<nat>)
    requires b.doneCount == 0 && b.releases == 0 && 0 < b.count < TWO_64
    requires b.count <= Sum(counts) < TWO_64
    ensures DoneAll(b, counts).releases >= 1
  {
    DoneCounts(b, counts);
  }

  /** When the counts reported for a batch add up to its size, it is released exactly
      once if and only if the last call reported progress: a trailing Done(0) would
      release the batch, and run its callback, a second time. */
  lemma ReleasedOnceIffLastCounts(b: Batch, counts: seq<nat>)
    requires b.doneCount == 0 && b.releases == 0 && 0 < b.count < TWO_64
    requires Sum(counts) == b.count
    ensures counts != [] && (DoneAll(b, counts).releases == 1 <==> counts[|counts| - 1] > 0)
  {
    var front := counts[..|counts| - 1];
    DoneCounts(b, counts);
    DoneCounts(b, front);
    if counts[|counts| - 1] == 0 {
      DoneReleasesAtLeast(b, front);
    }
  }

  // ---------------------------------------------------------------- the Go objects

  /** sync.WaitGroup. */
  class WaitGroup {
    var n: int

    constructor ()
      ensures n == 0
    {
      n := 0;
    }

    method Add(k: int)
      modifies this
      ensures n == old(n) + k
    {
      n := n + k;
    }

    method Done()
      modifies this
      ensures n == old(n) - 1
    {
      n := n - 1;
    }
  }

  /** queue.WrappedBatch. An entry that is not an event is read as nil. */
  class WrappedBatch {
    const start: nat
    const contents: seq<Option<Event>>
    var doneCount: int
    var releases: nat
    var completion: WaitGroup?   // CompletionCallback = wg.Done

    ghost function View(): Batch
      reads this
    {
      Batch(start, |contents|, doneCount, releases)
    }

    constructor (start: nat, contents: seq<Option<Event>>)
      ensures this.start == start && this.contents == contents && completion == null
      ensures View() == Batch(start, |contents|, 0, 0)
    {
      this.start, this.contents := start, contents;
      doneCount, releases, completion := 0, 0, null;
    }

    method Events() returns (events: seq<Option<Event>>)
      ensures events == contents
    {
      events := [];
      for i := 0 to |contents|
        invariant events == contents[..i]
      {
        events := events + [contents[i]];
      }
    }

    method Done(count: int)
      modifies this, completion
      ensures View() == MarkDone(old(View()), count)
      ensures completion == old(completion)
      ensures completion != null ==>
                completion.n == old(completion.n) - (View().releases - old(View()).releases)
    {
      doneCount := Add64(doneCount, count);
      if doneCount >= |contents| {
        releases := releases + 1;
        if completion != null {
          completion.Done();
        }
      }
    }
  }
}
