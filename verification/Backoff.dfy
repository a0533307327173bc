/**
 The two backoff computations: the doubling loop of the Elasticsearch output
 (output/elasticsearch/config.go) and the threshold-and-shift of the Kafka output
 (output/kafka/config.go). Durations are int64 nanoseconds and wrap around.
 The Kafka threshold is whatever the floating-point logarithm yields; for which values the
 result is right is part of what is proved.
 */
module Backoff {
  import opened Basics

  const TWO_62: int := 0x4000_0000_0000_0000

  function Pow2(k: nat): (r: nat)
    ensures r >= 1
  {
    if k == 0 then 1 else 2 * Pow2(k - 1)
  }

  /** a doubled k times, which is a * 2^k. */
  function Scaled(a: nat, k: nat): nat {
    if k == 0 then a else 2 * Scaled(a, k - 1)
  }

  lemma {:induction false} ScaledIsProduct(a: nat, k: nat)
    ensures Scaled(a, k) == a * Pow2(k)
  {
    if k > 0 {
      ScaledIsProduct(a, k - 1);
      Reassociate(a, Pow2(k - 1));
    }
  }

  lemma Reassociate(a: nat, p: nat)
    ensures a * (2 * p) == 2 * (a * p)
  {
  }

  lemma AtLeastFactor(a: nat, p: nat)
    requires a > 0
    ensures p <= a * p
  {
  }

  lemma {:induction false} ScaledShift(a: nat, k: nat)
    ensures Scaled(a, k + 1) == Scaled(2 * a, k)
  {
    if k > 0 {
      ScaledShift(a, k - 1);
    }
  }

  lemma {:induction false} ScaledMonotone(a: nat, j: nat, k: nat)
    requires j <= k
    ensures Scaled(a, j) <= Scaled(a, k)
    decreases k
  {
    if j < k {
      ScaledMonotone(a, j, k - 1);
    }
  }

  function Min(a: int, b: int): int { if a < b then a else b }

  /** What both are meant to compute: min(init * 2^k, max). */
  function Clamped(init: nat, max: nat, k: nat): nat { Min(Scaled(init, k), max) }

  lemma ClampedMonotone(init: nat, max: nat, j: nat, k: nat)
    requires j <= k
    ensures Clamped(init, max, j) <= Clamped(init, max, k)
    ensures Clamped(init, max, k) == Min(init * Pow2(k), max)
  {
    ScaledMonotone(init, j, k);
    ScaledIsProduct(init, k);
  }

  lemma DoubleFits(r: nat)
    ensures r < TWO_62 ==> ToInt64(2 * r) == 2 * r
    ensures TWO_62 <= r < TWO_63 ==> ToInt64(2 * r) == 2 * r - TWO_64
  {
  }

  // ---------------------------------------------------------------- Elasticsearch

  /** The result of up to n rounds of the doubling loop on r. */
  function Doubling(r: int, max: int, n: nat): int
    decreases n
  {
    if n == 0 then r
    else if ToInt64(2 * r) >= max then max
    else Doubling(ToInt64(2 * r), max, n - 1)
  }

  /** No doubling that the loop performs leaves the int64 range. */
  ghost predicate NeverOverflows(init: nat, max: nat) {
    init < TWO_62 && forall j: nat :: Scaled(init, j) < max ==> Scaled(init, j) < TWO_62
  }

  /** Backoff.delayTime, which also reports how often its loop ran. */
  method DelayTime(init: int, max: int, attempt: int) returns (result: int, rounds: nat)
    requires -TWO_63 <= init < TWO_63 && -TWO_63 <= max < TWO_63
    ensures result == Doubling(init, max, if attempt < 0 then 0 else attempt)
    ensures 0 < init && 0 < max && NeverOverflows(init, max) ==> rounds <= 1 || rounds <= Threshold(init, max)
  {
    hide ToInt64;
    result, rounds := init, 0;
    while rounds < attempt
      invariant 0 <= rounds && (rounds == 0 || rounds <= attempt)
      invariant Doubling(init, max, if attempt < 0 then 0 else attempt)
             == Doubling(result, max, if attempt < 0 then 0 else attempt - rounds)
      invariant 0 < init && 0 < max && NeverOverflows(init, max) ==>
                  result == Scaled(init, rounds) && (rounds == 0 || result < max)
    {
      if 0 < init && 0 < max && NeverOverflows(init, max) {
        BelowThreshold(init, max, rounds);
        DoubleFits(result);
      }
      rounds := rounds + 1;
      result := ToInt64(2 * result);
      if result >= max {
        return max, rounds;
      }
    }
    if 0 < init && 0 < max {
      BelowThreshold(init, max, rounds);
    }
  }

  lemma {:induction false} DoublingIsClamped(r: nat, max: nat, n: nat)
    requires 0 < r && 0 < max < TWO_63 && NeverOverflows(r, max)
    ensures Doubling(r, max, n) == if n == 0 then r else Clamped(r, max, n)
    decreases n
  {
    if n > 0 {
      DoubleFits(r);
      hide ToInt64;
      ScaledShift(r, n - 1);
      if 2 * r >= max {
        ScaledMonotone(2 * r, 0, n - 1);
      } else {
        NextNeverOverflows(r, max);
        DoublingIsClamped(2 * r, max, n - 1);
      }
    }
  }

  lemma NextNeverOverflows(r: nat, max: nat)
    requires NeverOverflows(r, max) && 2 * r < max
    ensures NeverOverflows(2 * r, max)
  {
    assert Scaled(r, 1) == 2 * Scaled(r, 0);
    forall j: nat | Scaled(2 * r, j) < max
      ensures Scaled(2 * r, j) < TWO_62
    {
      ScaledShift(r, j);
    }
  }

  /** An overflow is not benign: some attempt then gets a negative delay. */
  lemma {:induction false} OverflowShows(r: nat, max: nat, j: nat) returns (n: nat)
    requires 0 < r < TWO_63 && 0 < max < TWO_63
    requires r >= TWO_62 || TWO_62 <= Scaled(r, j) < max
    ensures n >= 1 && Doubling(r, max, n) < 0
    decreases j
  {
    hide ToInt64;
    DoubleFits(r);
    if r >= TWO_62 {
      n := 1;
      assert Doubling(ToInt64(2 * r), max, 0) == ToInt64(2 * r);
    } else {
      ScaledShift(r, j - 1);
      ScaledMonotone(2 * r, 0, j - 1);
      n := OverflowShows(2 * r, max, j - 1);
      n := n + 1;
    }
  }

  /** The last duration that the loop can double to: init * 2^m for the first m >= 1 that reaches max. */
  function LastDoubling(init: nat, max: nat): nat
    requires init > 0
  {
    init * Pow2(if init >= max then 1 else Threshold(init, max))
  }

  lemma NoOverflowIffLastFits(init: nat, max: nat)
    requires 0 < init
    ensures NeverOverflows(init, max) <==> LastDoubling(init, max) < TWO_63
  {
    var m := if init >= max then 1 else Threshold(init, max);
    ScaledIsProduct(init, m);
    assert Scaled(init, m) == 2 * Scaled(init, m - 1);
    ScaledMonotone(init, 0, m - 1);
    if init < max {
      BelowThreshold(init, max, m - 1);
    }
    if Scaled(init, m - 1) < TWO_62 {
      forall j: nat | Scaled(init, j) < max
        ensures Scaled(init, j) < TWO_62
      {
        BelowThreshold(init, max, j);
        ScaledMonotone(init, j, m - 1);
      }
    }
  }

  /** The loop computes the clamped exponential for every attempt >= 1 if and only if the last
      duration it can double to fits into an int64. */
  lemma DelayCorrectIffNoOverflow(init: nat, max: nat)
    requires 0 < init < TWO_63 && 0 < max < TWO_63
    ensures LastDoubling(init, max) < TWO_63 <==>
            forall n: nat :: n >= 1 ==> Doubling(init, max, n) == Clamped(init, max, n)
  {
    NoOverflowIffLastFits(init, max);
    if NeverOverflows(init, max) {
      forall n: nat | n >= 1
        ensures Doubling(init, max, n) == Clamped(init, max, n)
      {
        DoublingIsClamped(init, max, n);
      }
    } else {
      var j: nat := if init >= TWO_62 then 0 else var j: nat :| TWO_62 <= Scaled(init, j) < max; j;
      var n := OverflowShows(init, max, j);
      assert Doubling(init, max, n) != Clamped(init, max, n);
    }
  }

  /** A bound of 2^62 on both settings is enough. */
  lemma SmallSettingsAreSafe(init: nat, max: nat)
    requires init < TWO_62 && max <= TWO_62
    ensures NeverOverflows(init, max)
  {
  }

  /** Attempt 0 is not clamped: it is right exactly when init <= max. */
  lemma AttemptZero(init: nat, max: nat)
    ensures Doubling(init, max, 0) == Clamped(init, max, 0) <==> init <= max
  {
  }

  // ---------------------------------------------------------------- Kafka

  /** ceil(log2(max / init)), or 0 where that is negative. */
  function Threshold(init: nat, max: nat): (m: nat)
    requires init > 0
    decreases max - init
  {
    if init >= max then 0 else 1 + Threshold(2 * init, max)
  }

  lemma {:induction false} BelowThreshold(init: nat, max: nat, k: nat)
    requires init > 0
    ensures k < Threshold(init, max) <==> Scaled(init, k) < max
    decreases max - init
  {
    if init >= max {
      ScaledMonotone(init, 0, k);
    } else if k > 0 {
      ScaledShift(init, k - 1);
      BelowThreshold(2 * init, max, k - 1);
    }
  }

  /** The duration before jitter, with m for maxBackoffRetries. */
  function KafkaDuration(init: nat, max: nat, m: int, retries: nat): int {
    if retries < m then ToInt64(init * (Pow2(retries) % TWO_64) % TWO_64) else max
  }

  lemma ShiftValue(init: nat, k: nat)
    requires 0 < init && Scaled(init, k) < TWO_64
    ensures init * (Pow2(k) % TWO_64) % TWO_64 == Scaled(init, k)
  {
    hide Pow2, Scaled;
    ScaledIsProduct(init, k);
    AtLeastFactor(init, Pow2(k));
    Unwrapped(Pow2(k));
    Unwrapped(Scaled(init, k));
  }

  lemma Unwrapped(x: nat)
    ensures x < TWO_64 ==> x % TWO_64 == x
    ensures x < TWO_63 ==> ToInt64(x) == x
    ensures TWO_63 <= x < TWO_64 ==> ToInt64(x) < 0
  {
  }

  /** One retry: right below both thresholds and from both on; wrong in front of the exact one; and
      behind it, where the computed one is larger, right only where the shift hits max. */
  lemma KafkaRetry(init: nat, max: nat, m: int, k: nat)
    requires 0 < init < TWO_63 && 0 < max < TWO_63
    ensures k < Threshold(init, max) ==> (KafkaDuration(init, max, m, k) == Clamped(init, max, k) <==> k < m)
    ensures k >= Threshold(init, max) && k >= m ==> KafkaDuration(init, max, m, k) == Clamped(init, max, k)
    ensures k >= Threshold(init, max) && k < m && Scaled(init, k) < TWO_64 ==>
              (KafkaDuration(init, max, m, k) == Clamped(init, max, k) <==> Scaled(init, k) == max)
  {
    hide ToInt64, Threshold, Pow2, Scaled;
    BelowThreshold(init, max, k);
    if Scaled(init, k) < TWO_64 {
      ShiftValue(init, k);
      Unwrapped(Scaled(init, k));
    }
  }

  /** With the exact threshold every retry is right. */
  lemma KafkaIsClamped(init: nat, max: nat, retries: nat)
    requires 0 < init < TWO_63 && 0 < max < TWO_63
    ensures KafkaDuration(init, max, Threshold(init, max), retries) == Clamped(init, max, retries)
  {
    hide Threshold, KafkaDuration, Clamped;
    KafkaRetry(init, max, Threshold(init, max), retries);
  }

  /** The threshold is the exact one, or one too large where max is init doubled that often. */
  predicate GoodThreshold(init: nat, max: nat, m: int)
    requires init > 0
  {
    var t := Threshold(init, max);
    m == t || (m < 0 && t == 0) || (m == t + 1 && Scaled(init, t) == max)
  }

  lemma ThresholdFits(init: nat, max: nat)
    requires 0 < init < TWO_63 && 0 < max < TWO_63
    ensures Scaled(init, Threshold(init, max)) < TWO_64
  {
    var t := Threshold(init, max);
    if t > 0 {
      BelowThreshold(init, max, t - 1);
      assert Scaled(init, t) == 2 * Scaled(init, t - 1);
    }
  }

  /** However the logarithm is rounded: every retry gets min(init * 2^k, max) if and only if the
      computed threshold is good. */
  lemma KafkaCorrectIff(init: nat, max: nat, m: int)
    requires 0 < init < TWO_63 && 0 < max < TWO_63
    ensures GoodThreshold(init, max, m) <==>
            forall k: nat :: KafkaDuration(init, max, m, k) == Clamped(init, max, k)
  {
    hide KafkaDuration, Clamped, Threshold;
    var t := Threshold(init, max);
    ThresholdFits(init, max);
    if GoodThreshold(init, max, m) {
      forall k: nat
        ensures KafkaDuration(init, max, m, k) == Clamped(init, max, k)
      {
        KafkaRetry(init, max, m, k);
      }
    } else if m < t {
      KafkaRetry(init, max, m, if m < 0 then 0 else m);
    } else {
      KafkaRetry(init, max, m, t);
      if Scaled(init, t) == max {
        assert Scaled(init, t + 1) == 2 * max;
        KafkaRetry(init, max, m, t + 1);
      }
    }
  }

  /** makeBackoffFunc's result; draw stands for rand.Int63n(limit + 1). */
  function Jittered(dur: nat, draw: nat): (r: nat)
    requires draw <= dur / 2
    ensures dur / 2 <= r <= dur
  {
    dur / 2 + draw
  }

  /** Different draws give different delays, and every delay of the upper half has its draw. */
  lemma JitterCovers(dur: nat, r: nat)
    requires dur / 2 <= r <= 2 * (dur / 2)
    ensures r - dur / 2 <= dur / 2 && Jittered(dur, r - dur / 2) == r
    ensures forall draw :: 0 <= draw <= dur / 2 && Jittered(dur, draw) == r ==> draw == r - dur / 2
  {
  }

  /** Both implementations are one function: for 0 < init <= max, a good threshold and no overflow
      in the loop they agree on every attempt, with each other and with the clamped exponential, and
      the jittered delay stays between half of it and all of it. */
  lemma TwoBackoffsOneFunction(init: nat, max: nat, m: int, k: nat, draw: nat)
    requires 0 < init <= max < TWO_63 && NeverOverflows(init, max)
    requires draw <= Clamped(init, max, k) / 2
    requires GoodThreshold(init, max, m)
    ensures Doubling(init, max, k) == KafkaDuration(init, max, m, k) == Clamped(init, max, k)
    ensures Clamped(init, max, k) / 2 <= Jittered(Clamped(init, max, k), draw) <= Clamped(init, max, k)
  {
    DoublingIsClamped(init, max, k);
    KafkaCorrectIff(init, max, m);
  }
}
