/** The FNV-1a hash and the reduction of a hash to a partition (output/kafka/partition.go). */
module Hashing {

  type Bytes = seq<bv8>

  function Mix(h: bv32, b: bv8): bv32 { (h ^ (b as bv32)) * 16777619 }

  /** FNV-1a, 32 bit, continued from h. */
  function FnvFrom(h: bv32, bytes: Bytes): bv32
    decreases |bytes|
  {
    if bytes == [] then h else FnvFrom(Mix(h, bytes[0]), bytes[1..])
  }

  function Fnv(bytes: Bytes): bv32 { FnvFrom(2166136261, bytes) }

  /** Hashing in two writes is hashing the concatenation. */
  lemma {:induction false} FnvConcat(h: bv32, a: Bytes, b: Bytes)
    ensures FnvFrom(h, a + b) == FnvFrom(FnvFrom(h, a), b)
    decreases |a|
  {
    hide Mix;
    if a == [] {
      assert a + b == b;
    } else {
      assert (a + b)[0] == a[0] && (a + b)[1..] == a[1..] + b;
      FnvConcat(Mix(h, a[0]), a[1..], b);
    }
  }

  /** The last byte is mixed in last. */
  lemma LastByte(h: bv32, a: Bytes, b: bv8)
    ensures FnvFrom(h, a + [b]) == Mix(FnvFrom(h, a), b)
  {
    hide Mix;
    FnvConcat(h, a, [b]);
    assert [b][1..] == [];
    assert FnvFrom(FnvFrom(h, a), [b]) == FnvFrom(Mix(FnvFrom(h, a), b), []);
  }

  /** Published values of the 32-bit FNV-1a: of nothing, of "a", and of "foobar". */
  lemma KnownHashes()
    ensures Fnv([]) == 0x811c_9dc5
    ensures Fnv([0x61]) == 0xe40c_292c
    ensures Fnv([0x66, 0x6f, 0x6f, 0x62, 0x61, 0x72]) == 0xbf9c_f968
  {
    assert Mix(0x811c_9dc5, 0x61) == 0xe40c_292c;
    assert [0x61 as bv8][1..] == [];
    var h1 := Mix(0x811c_9dc5, 0x66);
    var h2 := Mix(h1, 0x6f);
    var h3 := Mix(h2, 0x6f);
    var h4 := Mix(h3, 0x62);
    var h5 := Mix(h4, 0x61);
    var h6 := Mix(h5, 0x72);
    assert h6 == 0xbf9c_f968;
    hide Mix;
    SixBytes(0x811c_9dc5, 0x66, 0x6f, 0x6f, 0x62, 0x61, 0x72);
  }

  lemma SixBytes(h: bv32, a: bv8, b: bv8, c: bv8, d: bv8, e: bv8, f: bv8)
    ensures FnvFrom(h, [a, b, c, d, e, f]) == Mix(Mix(Mix(Mix(Mix(Mix(h, a), b), c), d), e), f)
  {
    hide Mix;
    assert [a, b, c, d, e, f] == [] + [a] + [b] + [c] + [d] + [e] + [f];
    LastByte(h, [] + [a] + [b] + [c] + [d] + [e], f);
    LastByte(h, [] + [a] + [b] + [c] + [d], e);
    LastByte(h, [] + [a] + [b] + [c], d);
    LastByte(h, [] + [a] + [b], c);
    LastByte(h, [] + [a], b);
    LastByte(h, [], a);
  }

  /** hash2Partition: the conversion to int32 keeps the bits, the mask clears the sign. */
  function HashToPartition(hash: bv32, n: int): (p: int)
    requires n > 0
    ensures 0 <= p < n
  {
    (hash & 0x7FFF_FFFF) as int % n
  }

  lemma LowSum(h: bv32)
    requires h < 0x8000_0000
    ensures (h + 0x8000_0000) as int == h as int + 0x8000_0000
  {
  }

  lemma LowValue(h: bv32)
    requires h < 0x8000_0000
    ensures h as int < 0x8000_0000
  {
    LowSum(h);
  }

  lemma MaskLow(h: bv32)
    requires h < 0x8000_0000
    ensures (h & 0x7FFF_FFFF) as int == h as int
  {
    assert h & 0x7FFF_FFFF == h;
  }

  lemma HighDifference(h: bv32)
    requires h >= 0x8000_0000
    ensures (h - 0x8000_0000) as int == h as int - 0x8000_0000
  {
  }

  lemma MaskHigh(h: bv32)
    requires h >= 0x8000_0000
    ensures (h & 0x7FFF_FFFF) as int == h as int - 0x8000_0000
  {
    assert h & 0x7FFF_FFFF == h - 0x8000_0000;
    HighDifference(h);
  }

  lemma ReduceBelowTwo(x: int)
    requires 0 <= x < 0x1_0000_0000
    ensures x % 0x8000_0000 == if x < 0x8000_0000 then x else x - 0x8000_0000
  {
  }

  /** The mask is reduction modulo 2^31. */
  lemma MaskIsReduction(h: bv32)
    ensures (h & 0x7FFF_FFFF) as int == h as int % 0x8000_0000
  {
    var x := h as int;
    if h < 0x8000_0000 {
      LowValue(h);
      MaskLow(h);
      ReduceBelowTwo(x);
    } else {
      MaskHigh(h);
      ReduceBelowTwo(x);
    }
  }
}
