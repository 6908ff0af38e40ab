/** Products by repeated addition. */
module Arithmetic {

  /** n times m, by adding up: keeps multiplication out of the proofs that only add or drop one m. */
  function Times(m: nat, n: nat): (product: nat)
    ensures product == m * n
  {
    if n == 0 then 0 else Times(m, n - 1) + m
  }

  lemma {:induction false} TimesMonotone(m: nat, a: nat, b: nat)
    requires a <= b
    ensures Times(m, a) <= Times(m, b)
    decreases b
  {
    if a >= b {
    } else {
      TimesMonotone(m, a, b - 1);
    }
  }
}
