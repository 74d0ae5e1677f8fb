/** Sleeps between attempts. */
module Waits {
  function Pow2(n: nat): nat {
    if n == 0 then 1 else 2 * Pow2(n - 1)
  }

  lemma {:induction false} Pow2Monotone(m: nat, n: nat)
    requires m <= n
    ensures Pow2(m) <= Pow2(n)
    decreases n - m
  {
    if m < n { Pow2Monotone(m, n - 1); }
  }

  /** A requested sleep; a negative one returns at once. */
  function Sleep(x: real): real {
    if x > 0.0 then x else 0.0
  }
}
