/** The CPU-bound helper behind `GET /api/compute/:complexity`. */
module Fibonacci {

  /** The naive doubly recursive Fibonacci of the source: any `n <= 1`, negative ones
      included, is returned as it is. */
  function Fib(n: int): (r: int)
    ensures n >= 0 ==> r >= 0
    ensures n >= 1 ==> r >= 1
    decreases n
  {
    if n <= 1 then n else Fib(n - 1) + Fib(n - 2)
  }

  /** An independent, linear-time reference: the pair of consecutive Fibonacci numbers
      reached after `n` steps from (0, 1). */
  function FibPair(n: nat): (p: (int, int))
  {
    if n == 0 then (0, 1) else var q := FibPair(n - 1); (q.1, q.0 + q.1)
  }

  /** The recursive definition agrees with the linear reference on every natural number. */
  lemma {:induction false} FibAgreesWithPair(n: nat)
    ensures FibPair(n) == (Fib(n), Fib(n + 1))
  {
    if n > 0 {
      FibAgreesWithPair(n - 1);
    }
  }

  /** The base case: `n <= 1` is returned unchanged. */
  lemma FibBase(n: int)
    requires n <= 1
    ensures Fib(n) == n
  {
  }

  /** The recurrence for every `n >= 2`. */
  lemma FibRecurrence(n: int)
    requires n >= 2
    ensures Fib(n) == Fib(n - 1) + Fib(n - 2)
  {
  }

  /** Fib is non-decreasing on all integers, negative ones included. */
  lemma {:induction false} FibMonotone(m: int, n: int)
    requires m <= n
    ensures Fib(m) <= Fib(n)
    decreases n - m
  {
    if m < n {
      FibMonotone(m, n - 1);
    }
  }

  /** The value the compute endpoint returns for its default complexity. */
  lemma FibTen()
    ensures Fib(10) == 55
  {
  }
}
