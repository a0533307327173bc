/** Quotients and remainders by a variable divisor, which the ring arithmetic of hosts and
    partitions needs. */
module Division {

  lemma Distribute(a: int, b: int, d: int)
    ensures (a + b) * d == a * d + b * d
  {
  }

  lemma MultipleGrows(k: int, d: int)
    requires d > 0
    ensures k >= 1 ==> k * d >= d
    ensures k <= -1 ==> k * d <= -d
  {
  }

  lemma BelowOne(k: int, d: int, x: int)
    requires k * d == x && -d < x < d
    ensures k == 0
  {
    MultipleGrows(k, d);
  }

  lemma DivModParts(t: nat, d: nat)
    requires d > 0
    ensures t == (t / d) * d + t % d && 0 <= t % d < d && t / d >= 0
  {
  }

  lemma UniqueParts(d: nat, q: int, r: int, q': int, r': int)
    requires 0 <= r < d && 0 <= r' < d && q * d + r == q' * d + r'
    ensures q == q' && r == r'
  {
    Distribute(q, -q', d);
    BelowOne(q - q', d, r' - r);
  }

  lemma DivModUnique(t: nat, d: nat, q: nat, r: nat)
    requires r < d && t == q * d + r
    ensures t / d == q && t % d == r
  {
    DivModParts(t, d);
    UniqueParts(d, t / d, t % d, q, r);
  }

  lemma NextParts(t: nat, d: nat, q: nat, r: nat)
    requires r < d && t == q * d + r
    ensures (t + 1) / d == q + (if r == d - 1 then 1 else 0)
    ensures (t + 1) % d == if r == d - 1 then 0 else r + 1
  {
    if r == d - 1 {
      Distribute(q, 1, d);
      DivModUnique(t + 1, d, q + 1, 0);
    } else {
      DivModUnique(t + 1, d, q, r + 1);
    }
  }

  /** Counting up by one. */
  lemma NextDiv(t: nat, d: nat)
    requires d > 0
    ensures (t + 1) / d == t / d + (if t % d == d - 1 then 1 else 0)
    ensures (t + 1) % d == if t % d == d - 1 then 0 else t % d + 1
  {
    DivModParts(t, d);
    NextParts(t, d, t / d, t % d);
  }

  lemma AddMultiple(t: nat, d: nat, m: nat)
    requires d > 0
    ensures (t + m * d) / d == t / d + m && (t + m * d) % d == t % d
  {
    DivModParts(t, d);
    Distribute(t / d, m, d);
    DivModUnique(t + m * d, d, t / d + m, t % d);
  }
}
