/**
 Kafka partitioning (output/kafka/partition.go): the strategies and the wrapper that
 makes an assignment stick to its message. Random draws are inputs.
 */
module Partitioning {
  import opened Basics
  import opened Hashing

  const MAX_INT32: int := 0x7FFF_FFFF

  /** `key` is nil or the record key; `fieldBytes` is what the fields strategy feeds to the
      hasher, or none when a field cannot be hashed. */
  datatype Message = Message(key: Option<Bytes>, fieldBytes: Option<Bytes>, hash: bv32, partition: int)

  /** getEventMessage starts every message without hash and partition. */
  predicate IsFresh(m: Message) { m.hash == 0 && m.partition == -1 }

  datatype Strategy =
    | RoundRobin(group: nat, count: nat, last: int)
    | Random(group: nat, count: nat, last: int)
    | KeyHash
    | FieldsHash(dropFail: bool)

  /** What the random generator yields: Intn(n), or Uint32. */
  datatype Draw = Draw(below: int, bits: bv32)

  datatype Choice = Choice(strategy: Strategy, message: Message, partition: Option<int>)

  function NextInRing(last: int, n: int): int {
    var next := ToInt32(last + 1);
    if next >= n then 0 else next
  }

  function HashedWith(s: Strategy, m: Message, hash: bv32, n: int): Choice
    requires n > 0
  {
    Choice(s, m.(hash := hash), Some(HashToPartition(hash, n)))
  }

  /** One call of a strategy. */
  function Choose(s: Strategy, m: Message, n: int, d: Draw): Choice
    requires n > 0
  {
    match s
    case RoundRobin(group, count, last) =>
      var last' := if group == count then NextInRing(last, n) else last;
      Choice(RoundRobin(group, (if group == count then 0 else count) + 1, last'), m, Some(last'))
    case Random(group, count, last) =>
      var last' := if group == count then d.below else last;
      Choice(Random(group, (if group == count then 0 else count) + 1, last'), m, Some(last'))
    case KeyHash =>
      if m.key.None? then Choice(s, m, Some(d.below))
      else HashedWith(s, m, if m.hash == 0 then Fnv(m.key.value) else m.hash, n)
    case FieldsHash(dropFail) =>
      if m.hash == 0 && m.fieldBytes.None? && dropFail then Choice(s, m, None)
      else HashedWith(s, m,
                      if m.hash != 0 then m.hash
                      else if m.fieldBytes.None? then d.bits else Fnv(m.fieldBytes.value), n)
  }

  datatype Partitioner = Partitioner(strategy: Strategy, partitions: int)
  datatype Answer = Answer(partitioner: Partitioner, message: Message, result: int)

  /** MessagePartitioner.Partition. */
  function PartitionMessage(p: Partitioner, m: Message, n: int, d: Draw): Answer
    requires n > 0
  {
    if n == p.partitions && 0 <= m.partition < n then Answer(p, m, m.partition)
    else
      var c := Choose(p.strategy, m, n, d);
      if c.partition.None? then Answer(p.(strategy := c.strategy), c.message, 0)
      else Answer(Partitioner(c.strategy, n), c.message.(partition := c.partition.value), c.partition.value)
  }

  // ---------------------------------------------------------------- ranges

  /** A strategy whose next call with n partitions will answer within range. */
  predicate InRange(s: Strategy, n: int) {
    match s
    case RoundRobin(group, count, last) => 1 <= count <= group && 0 <= last < MAX_INT32 && (count == group || last < n)
    case Random(group, count, last) => 1 <= count <= group && (count == group || 0 <= last < n)
    case _ => true
  }

  lemma ChooseInRange(s: Strategy, m: Message, n: int, d: Draw)
    requires 0 < n <= MAX_INT32 && 0 <= d.below < n && InRange(s, n)
    ensures InRange(Choose(s, m, n, d).strategy, n)
    ensures Choose(s, m, n, d).partition.Some? ==> 0 <= Choose(s, m, n, d).partition.value < n
  {
    hide Fnv, HashToPartition;
  }

  /** Every answer names an existing partition. */
  lemma PartitionInRange(p: Partitioner, m: Message, n: int, d: Draw)
    requires 0 < n <= MAX_INT32 && 0 <= d.below < n && InRange(p.strategy, n)
    ensures 0 <= PartitionMessage(p, m, n, d).result < n
    ensures InRange(PartitionMessage(p, m, n, d).partitioner.strategy, n)
  {
    hide Choose;
    ChooseInRange(p.strategy, m, n, d);
  }

  /** For the hash strategies that needs no history: it holds in every state and for every n. */
  lemma HashAlwaysInRange(p: Partitioner, m: Message, n: int, d: Draw)
    requires (p.strategy.KeyHash? || p.strategy.FieldsHash?) && 0 < n && 0 <= d.below < n
    ensures 0 <= PartitionMessage(p, m, n, d).result < n
  {
    hide Fnv, HashToPartition;
  }

  /** A round-robin strategy answers in range at once if and only if its seed is not the
      largest int32: from there the increment wraps to the smallest. */
  lemma SeedMustNotBeMax(group: nat, seed: int, m: Message, n: int, d: Draw)
    requires group >= 1 && 0 <= seed <= MAX_INT32 && 0 < n <= MAX_INT32
    ensures var r := Choose(RoundRobin(group, group, seed), m, n, d).partition;
            && r.Some?
            && (0 <= r.value < n <==> seed != MAX_INT32)
            && (seed == MAX_INT32 ==> r.value == -TWO_31)
  {
  }

  /** When the number of partitions shrinks in the middle of a group, the group's partition
      may no longer exist: a call answers in range if and only if it opens a new group or the
      group's partition still exists. */
  lemma GroupMaySurviveItsPartition(s: Strategy, m: Message, n: int, d: Draw)
    requires (s.RoundRobin? || s.Random?) && 0 < n <= MAX_INT32 && 0 <= d.below < n
    requires 0 <= s.last < MAX_INT32
    ensures 0 <= Choose(s, m, n, d).partition.value < n <==> s.count == s.group || s.last < n
  {
  }

  /** It happens: groups of two or more, three partitions at the first call and one at the second. */
  lemma ShrinkingInsideGroup(group: nat, m: Message, m': Message, d: Draw, d': Draw)
    requires group >= 2 && IsFresh(m) && IsFresh(m')
    ensures var a := PartitionMessage(Partitioner(RoundRobin(group, group, 0), 0), m, 3, d);
            var b := PartitionMessage(a.partitioner, m', 1, d');
            a.result == 1 && b.result == 1
  {
  }

  // ---------------------------------------------------------------- runs with a constant n

  datatype World = World(partitioner: Partitioner, messages: seq<Message>)
  datatype Call = Call(index: nat, draw: Draw)

  ghost predicate Starts(w: World) {
    && w.partitioner.partitions == 0
    && forall i :: 0 <= i < |w.messages| ==> IsFresh(w.messages[i])
  }

  predicate CanCall(w: World, c: Call, n: int) { c.index < |w.messages| && 0 <= c.draw.below < n }

  function CallAnswer(w: World, c: Call, n: int): Answer
    requires 0 < n && CanCall(w, c, n)
  {
    PartitionMessage(w.partitioner, w.messages[c.index], n, c.draw)
  }

  function After(w: World, c: Call, n: int): World
    requires 0 < n && CanCall(w, c, n)
  {
    var a := CallAnswer(w, c, n);
    World(a.partitioner, w.messages[c.index := a.message])
  }

  ghost predicate IsRun(w: World, calls: seq<Call>, n: int)
    requires 0 < n
    decreases |calls|
  {
    calls == [] || (CanCall(w, calls[0], n) && IsRun(After(w, calls[0], n), calls[1..], n))
  }

  ghost function Run(w: World, calls: seq<Call>, n: int): World
    requires 0 < n && IsRun(w, calls, n)
    decreases |calls|
  {
    if calls == [] then w else Run(After(w, calls[0], n), calls[1..], n)
  }

  /** Over a whole run, every answer names an existing partition. */
  lemma {:induction false} RunInRange(w: World, calls: seq<Call>, c: Call, n: int)
    requires 0 < n <= MAX_INT32 && InRange(w.partitioner.strategy, n) && IsRun(w, calls, n)
    requires CanCall(Run(w, calls, n), c, n)
    ensures 0 <= CallAnswer(Run(w, calls, n), c, n).result < n
    decreases |calls|
  {
    if calls == [] {
      PartitionInRange(w.partitioner, w.messages[c.index], n, c.draw);
    } else {
      PartitionInRange(w.partitioner, w.messages[calls[0].index], n, calls[0].draw);
      hide PartitionMessage, InRange;
      RunInRange(After(w, calls[0], n), calls[1..], c, n);
    }
  }

  predicate Assigned(w: World, i: nat, n: int) {
    i < |w.messages| && 0 <= w.messages[i].partition < n && w.partitioner.partitions == n
  }

  lemma CallKeepsAssignment(w: World, c: Call, i: nat, n: int)
    requires 0 < n && CanCall(w, c, n) && Assigned(w, i, n)
    ensures Assigned(After(w, c, n), i, n)
    ensures After(w, c, n).messages[i] == w.messages[i]
    ensures c.index == i ==> CallAnswer(w, c, n).result == w.messages[i].partition && After(w, c, n) == w
  {
    hide Choose;
    if c.index == i {
      assert w.messages[i := w.messages[i]] == w.messages;
    }
  }

  /** Once a message has been assigned a partition, whatever happens to the other messages
      every later call on it returns that partition and does not advance the strategy. */
  lemma {:induction false} AssignmentSticks(w: World, calls: seq<Call>, i: nat, c: Call, n: int)
    requires 0 < n && IsRun(w, calls, n) && Assigned(w, i, n)
    requires CanCall(Run(w, calls, n), c, n) && c.index == i
    ensures CallAnswer(Run(w, calls, n), c, n).result == w.messages[i].partition
    ensures After(Run(w, calls, n), c, n) == Run(w, calls, n)
    decreases |calls|
  {
    if calls == [] {
      CallKeepsAssignment(w, c, i, n);
    } else {
      CallKeepsAssignment(w, calls[0], i, n);
      hide After, CallAnswer, CanCall, Assigned;
      AssignmentSticks(After(w, calls[0], n), calls[1..], i, c, n);
    }
  }

  // ---------------------------------------------------------------- the key hash

  /** What the hash strategy is for: the partition is a function of the key. */
  function PartitionOfKey(key: Bytes, n: int): int
    requires n > 0
  {
    PartitionOfHash(Fnv(key), n)
  }

  /** The partition of a hash. */
  function PartitionOfHash(hash: bv32, n: int): int
    requires n > 0
  {
    (hash as int % TWO_31) % n
  }

  lemma HashPartition(hash: bv32, n: int)
    requires n > 0
    ensures HashToPartition(hash, n) == PartitionOfHash(hash, n)
  {
    MaskIsReduction(hash);
  }

  /** The cache of a message: empty or right. */
  ghost predicate CacheOk(m: Message) {
    m.key.Some? ==> m.hash == 0 || m.hash == Fnv(m.key.value)
  }

  ghost predicate KeyedOk(m: Message, n: int)
    requires n > 0
  {
    CacheOk(m) && (m.key.Some? ==> m.partition == -1 || m.partition == PartitionOfKey(m.key.value, n))
  }

  lemma KeyHashAnswer(p: Partitioner, m: Message, n: int, d: Draw)
    requires p.strategy.KeyHash? && n > 0 && CacheOk(m)
    ensures PartitionMessage(p, m, n, d).partitioner.strategy.KeyHash?
    ensures PartitionMessage(p, m, n, d).message.key == m.key && CacheOk(PartitionMessage(p, m, n, d).message)
    ensures KeyedOk(m, n) ==> KeyedOk(PartitionMessage(p, m, n, d).message, n)
    ensures KeyedOk(m, n) && m.key.Some? ==> PartitionMessage(p, m, n, d).result == PartitionOfKey(m.key.value, n)
  {
    hide Fnv, HashToPartition, PartitionOfHash;
    if m.key.Some? {
      HashPartition(Fnv(m.key.value), n);
    }
  }

  /** The fields strategy on a fresh message: the partition of the field bytes; without them a
      random hash, or, if such events are to fail, partition 0 with nothing remembered. */
  lemma FieldsHashAnswer(p: Partitioner, m: Message, n: int, d: Draw)
    requires p.strategy.FieldsHash? && n > 0 && IsFresh(m)
    ensures var a := PartitionMessage(p, m, n, d);
            match m.fieldBytes
            case Some(bytes) =>
              a.result == PartitionOfKey(bytes, n) && a.message == m.(hash := Fnv(bytes), partition := a.result)
            case None =>
              if p.strategy.dropFail then a == Answer(p, m, 0)
              else a.result == PartitionOfHash(d.bits, n) && a.message == m.(hash := d.bits, partition := a.result)
  {
    hide Fnv, HashToPartition, PartitionOfHash;
    if m.fieldBytes.Some? {
      HashPartition(Fnv(m.fieldBytes.value), n);
    } else {
      HashPartition(d.bits, n);
    }
  }

  /** A new message for the same event, whatever happened in between: under a hash strategy it goes
      to the same partition if the event has a key, or fields that can be hashed. Without a key it
      goes where the draws send it; without hashable fields too, or, if such events are to fail, to
      partition 0. */
  lemma NewMessageKeepsPartition(p: Partitioner, m: Message, d: Draw, p': Partitioner, m': Message, d': Draw, n: int)
    requires n > 0 && IsFresh(m) && IsFresh(m') && m'.key == m.key && m'.fieldBytes == m.fieldBytes
    requires p'.strategy == p.strategy && (p.strategy.KeyHash? || p.strategy.FieldsHash?)
    ensures var r, r' := PartitionMessage(p, m, n, d).result, PartitionMessage(p', m', n, d').result;
            match p.strategy
            case KeyHash => r == r' <==> m.key.Some? || d.below == d'.below
            case FieldsHash(dropFail) =>
              r == r' <==>
                m.fieldBytes.Some? || dropFail || PartitionOfHash(d.bits, n) == PartitionOfHash(d'.bits, n)
            case _ => true
  {
    hide Fnv, HashToPartition, PartitionOfHash;
    if p.strategy.FieldsHash? {
      FieldsHashAnswer(p, m, n, d);
      FieldsHashAnswer(p', m', n, d');
    }
  }

  /** The hash of a key is computed once: it is in the message after the first call. */
  lemma KeyHashCaches(p: Partitioner, m: Message, n: int, d: Draw)
    requires p.strategy.KeyHash? && n > 0 && m.key.Some? && CacheOk(m)
    requires n != p.partitions || !(0 <= m.partition < n)
    ensures PartitionMessage(p, m, n, d).message.hash == Fnv(m.key.value)
  {
    hide Fnv, HashToPartition;
  }

  /** A cached hash is used as it is. */
  lemma FieldsHashCached(p: Partitioner, m: Message, n: int, d: Draw)
    requires p.strategy.FieldsHash? && n > 0 && m.hash != 0 && (n != p.partitions || !(0 <= m.partition < n))
    ensures var a := PartitionMessage(p, m, n, d);
            a.result == PartitionOfHash(m.hash, n) && a.message == m.(partition := a.result)
  {
    HashPartition(m.hash, n);
    hide Fnv, HashToPartition, PartitionOfHash;
  }

  /** When the number of partitions changes: the answer for a keyed message is the partition of its key
      if and only if the count is new to the partitioner, or the message has no partition within it, or
      the one it has is right. */
  lemma KeyAnswerIff(p: Partitioner, m: Message, n: int, d: Draw)
    requires p.strategy.KeyHash? && n > 0 && m.key.Some? && CacheOk(m)
    ensures PartitionMessage(p, m, n, d).result == PartitionOfKey(m.key.value, n) <==>
            n != p.partitions || !(0 <= m.partition < n) || m.partition == PartitionOfKey(m.key.value, n)
  {
    HashPartition(Fnv(m.key.value), n);
    hide Fnv, HashToPartition, PartitionOfHash;
  }

  /** So a partition from an old count stays once another message has been partitioned with the new one,
      if the new count still has it. */
  lemma OldCountSticks(p: Partitioner, m: Message, other: Message, n: int, n': int, d: Draw, d': Draw, d'': Draw)
    requires p.strategy.KeyHash? && 0 < n && 0 < n' && n' != n && 0 <= d'.below < n'
    requires m.key.Some? && IsFresh(m) && IsFresh(other)
    ensures var a := PartitionMessage(p, m, n, d);
            var b := PartitionMessage(a.partitioner, other, n', d');
            a.result < n' ==>
              PartitionMessage(b.partitioner, a.message, n', d'').result == PartitionOfKey(m.key.value, n)
  {
    KeyHashAnswer(p, m, n, d);
    hide Fnv, HashToPartition, PartitionOfHash;
  }

  ghost predicate KeysOk(w: World, n: int)
    requires n > 0
  {
    w.partitioner.strategy.KeyHash? && forall i :: 0 <= i < |w.messages| ==> KeyedOk(w.messages[i], n)
  }

  lemma {:induction false} RunKeepsKeys(w: World, calls: seq<Call>, n: int)
    requires 0 < n && IsRun(w, calls, n) && KeysOk(w, n)
    ensures KeysOk(Run(w, calls, n), n)
    decreases |calls|
  {
    if calls != [] {
      KeyHashAnswer(w.partitioner, w.messages[calls[0].index], n, calls[0].draw);
      hide PartitionMessage, KeyedOk;
      RunKeepsKeys(After(w, calls[0], n), calls[1..], n);
    }
  }

  /** In every run of the key-hash strategy every call on a keyed message answers with the
      partition of its key; so a new message for the same event goes to the same place. */
  lemma KeyDecidesPartition(w: World, calls: seq<Call>, c: Call, n: int)
    requires 0 < n && Starts(w) && w.partitioner.strategy.KeyHash? && IsRun(w, calls, n)
    requires CanCall(Run(w, calls, n), c, n) && Run(w, calls, n).messages[c.index].key.Some?
    ensures var m := Run(w, calls, n).messages[c.index];
            && CallAnswer(Run(w, calls, n), c, n).result == PartitionOfKey(m.key.value, n)
            && (m.hash == 0 || m.hash == Fnv(m.key.value))
  {
    hide PartitionMessage, Fnv, PartitionOfKey;
    assert KeysOk(w, n);
    RunKeepsKeys(w, calls, n);
    var v := Run(w, calls, n);
    assert KeyedOk(v.messages[c.index], n);
    KeyHashAnswer(v.partitioner, v.messages[c.index], n, c.draw);
  }

  // ---------------------------------------------------------------- the Go objects

  class MessageObject {
    const key: Option<Bytes>
    const fieldBytes: Option<Bytes>
    var hash: bv32
    var partition: int

    ghost function View(): Message
      reads this
    {
      Message(key, fieldBytes, hash, partition)
    }

    constructor (key: Option<Bytes>, fieldBytes: Option<Bytes>)
      ensures View() == Message(key, fieldBytes, 0, -1)
    {
      this.key, this.fieldBytes := key, fieldBytes;
      hash, partition := 0, -1;
    }
  }

  /** MessagePartitioner together with the variables that its round-robin or random strategy
      closes over. */
  class PartitionerObject {
    var strategy: Strategy
    var partitions: int

    ghost function View(): Partitioner
      reads this
    {
      Partitioner(strategy, partitions)
    }

    constructor (strategy: Strategy)
      ensures View() == Partitioner(strategy, 0)
    {
      this.strategy, partitions := strategy, 0;
    }

    method Partition(msg: MessageObject, n: int, d: Draw) returns (r: int)
      requires n > 0
      modifies this, msg
      ensures Answer(View(), msg.View(), r) == PartitionMessage(old(View()), old(msg.View()), n, d)
    {
      hide Fnv, HashToPartition;
      if n == partitions && 0 <= msg.partition < n {
        return msg.partition;
      }
      var chosen: Option<int>;
      match strategy {
        case RoundRobin(group, count, last) =>
          var count', last' := count, last;
          if group == count' {
            count' := 0;
            last' := ToInt32(last' + 1);
            if last' >= n {
              last' := 0;
            }
          }
          count' := count' + 1;
          strategy := RoundRobin(group, count', last');
          chosen := Some(last');
        case Random(group, count, last) =>
          var count', last' := count, last;
          if group == count' {
            count' := 0;
            last' := d.below;
          }
          count' := count' + 1;
          strategy := Random(group, count', last');
          chosen := Some(last');
        case KeyHash =>
          if msg.key.None? {
            chosen := Some(d.below);
          } else {
            if msg.hash == 0 {
              msg.hash := Fnv(msg.key.value);
            }
            chosen := Some(HashToPartition(msg.hash, n));
          }
        case FieldsHash(dropFail) =>
          if msg.hash == 0 {
            if msg.fieldBytes.None? && dropFail {
              chosen := None;
            } else {
              msg.hash := if msg.fieldBytes.None? then d.bits else Fnv(msg.fieldBytes.value);
              chosen := Some(HashToPartition(msg.hash, n));
            }
          } else {
            chosen := Some(HashToPartition(msg.hash, n));
          }
      }
      if chosen.None? {
        return 0;
      }
      msg.partition := chosen.value;
      partitions := n;
      return msg.partition;
    }
  }
}
