/**
 Shared vocabulary: options, Go's fixed-width arithmetic, index ranges and the
 events that travel through the shipper.
 */
module Basics {

  datatype Option<+T> = None | Some(value: T)

  const TWO_31: int := 0x8000_0000
  const TWO_32: int := 0x1_0000_0000
  const TWO_63: int := 0x8000_0000_0000_0000
  const TWO_64: int := 0x1_0000_0000_0000_0000

  /** uint64 addition and subtraction, which wrap around in Go. */
  function Add64(a: int, b: int): int { (a + b) % TWO_64 }
  function Sub64(a: int, b: int): int { (a - b) % TWO_64 }

  /** The int32 and int64 values that n is truncated to. */
  function ToInt32(n: int): int { (n + TWO_31) % TWO_32 - TWO_31 }
  function ToInt64(n: int): int { (n + TWO_63) % TWO_64 - TWO_63 }

  /** The fields of an event that the shipper's own code looks at. */
  datatype DataStream = DataStream(dataset: string, namespaceName: string, kind: string)
  datatype Source = Source(inputId: string)
  datatype Event = Event(timestampValid: bool, dataStream: Option<DataStream>, source: Option<Source>, body: string)

  /** The positions lo, lo + 1, ..., hi - 1. */
  function Range(lo: nat, hi: nat): (r: seq<nat>)
    requires lo <= hi
    ensures |r| == hi - lo
  {
    seq(hi - lo, i requires 0 <= i < hi - lo => lo + i)
  }

  lemma {:induction false} RangeCounts(lo: nat, hi: nat, p: nat)
    requires lo <= hi
    ensures multiset(Range(lo, hi))[p] == if lo <= p < hi then 1 else 0
    decreases hi
  {
    if lo == hi {
      assert Range(lo, hi) == [];
    } else {
      assert Range(lo, hi) == Range(lo, hi - 1) + [hi - 1];
      RangeCounts(lo, hi - 1, p);
    }
  }

  /** A message, named by the position of its event, together with what was reported about it. */
  datatype Tagged<+T> = Tagged(msg: nat, tag: T)

  function Msgs<T>(s: seq<Tagged<T>>): (m: multiset<nat>)
    ensures |m| == |s|
  {
    if s == [] then multiset{} else multiset{s[0].msg} + Msgs(s[1..])
  }

  lemma {:induction false} MsgsConcat<T>(s: seq<Tagged<T>>, t: seq<Tagged<T>>)
    ensures Msgs(s + t) == Msgs(s) + Msgs(t)
  {
    if s == [] {
      assert s + t == t;
    } else {
      assert (s + t)[0] == s[0] && (s + t)[1..] == s[1..] + t;
      MsgsConcat(s[1..], t);
    }
  }
}
