/** The delay before a repeated model call, in milliseconds, in 64-bit arithmetic. */
module Backoff {
  const U64_MAX: nat := 0xFFFF_FFFF_FFFF_FFFF
  const U32_LIMIT: nat := 0x1_0000_0000
  const MAX_EXPONENT: nat := 16

  function Min(a: nat, b: nat): nat { if a <= b then a else b }
  function Max(a: nat, b: nat): nat { if a >= b then a else b }

  function Pow2(n: nat): (p: nat)
    ensures p >= 1
  {
    if n == 0 then 1 else 2 * Pow2(n - 1)
  }

  function Exponent(retry: nat): nat {
    Min(if retry == 0 then 0 else retry - 1, MAX_EXPONENT)
  }

  /** The exponential before jitter, as computed: a saturating product, then the cap. */
  function Bounded(retry: nat, base: nat, cap: nat): nat {
    Min(Min(base * Pow2(Exponent(retry)), U64_MAX), Max(cap, base))
  }

  /** One step of the generator behind the jitter. */
  function Shuffle(value: bv64): bv64 {
    var a := value ^ (value << 13);
    var b := a ^ (a >> 7);
    b ^ (b << 17)
  }

  /** The jitter: the generator's value below `bound`, cut to 32 bits. */
  function Jitter(value: nat, bound: nat): nat {
    (value % Max(bound, 1)) % U32_LIMIT
  }

  method BackoffDelay(retry: nat, base: nat, cap: nat, state: bv64) returns (delay: nat, after: bv64)
    requires base <= U64_MAX && cap <= U64_MAX
    ensures delay <= Bounded(retry, base, cap) && 4 * delay >= 3 * Bounded(retry, base, cap)
    ensures delay <= Max(cap, base)
    ensures after == if Bounded(retry, base, cap) < 4 then state else Shuffle(state)
  {
    var bounded := Bounded(retry, base, cap);
    var jitter := bounded / 4;
    if jitter == 0 {
      return bounded, state;
    }
    after := Shuffle(state);
    JitterBelow(after as nat, jitter);
    delay := bounded - Jitter(after as nat, jitter);
  }

  /** The generator never falls into its zero state, in which every later value would be zero. */
  lemma ShuffleNeverZero(value: bv64)
    requires value != 0
    ensures Shuffle(value) != 0
  {
  }

  lemma JitterBelow(value: nat, bound: nat)
    requires bound >= 1
    ensures Jitter(value, bound) < bound
  {
    var m := value % bound;
    assert m % U32_LIMIT <= m;
  }

  lemma {:induction false} Pow2Grows(m: nat, n: nat)
    requires m <= n
    ensures Pow2(m) <= Pow2(n)
    decreases n - m
  {
    if m < n {
      Pow2Grows(m + 1, n);
    }
  }

  lemma ScaleGrows(base: nat, x: nat, y: nat)
    requires x <= y
    ensures base * x <= base * y
  {
  }

  /** The delay is the exponential capped by the larger of cap and base: saturation never shows,
      and later retries never wait less. */
  lemma BoundedIsCappedExponential(retry: nat, base: nat, cap: nat)
    requires base <= U64_MAX && cap <= U64_MAX
    ensures Bounded(retry, base, cap) == Min(base * Pow2(Exponent(retry)), Max(cap, base))
    ensures Bounded(retry, base, cap) >= base
    ensures Bounded(retry, base, cap) <= Bounded(retry + 1, base, cap)
  {
    Pow2Grows(0, Exponent(retry));
    Pow2Grows(Exponent(retry), Exponent(retry + 1));
    ScaleGrows(base, 1, Pow2(Exponent(retry)));
    ScaleGrows(base, Pow2(Exponent(retry)), Pow2(Exponent(retry + 1)));
  }
}
