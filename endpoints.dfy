/** The replies of `GET /api/compute/:complexity` and `GET /api/delay/:ms`, with the
    parsed path parameter as input. */
module Endpoints {
  import opened Params
  import opened Fibonacci

  /** `{ result, complexity }` */
  datatype ComputeReply = ComputeReply(result: int, complexity: int)

  /** `{ delayed: true, ms }` */
  datatype DelayReply = DelayReply(delayed: bool, ms: int)

  function Compute(parsed: Option<int>): (r: ComputeReply)
    ensures r.complexity != 0
    ensures r.complexity >= 0 ==> r.result >= 0
  {
    var complexity := Complexity(parsed);
    ComputeReply(Fib(complexity), complexity)
  }

  function Delay(parsed: Option<int>): (r: DelayReply)
    ensures r.delayed && r.ms != 0
  {
    DelayReply(true, DelayMs(parsed))
  }

  /** A non-numeric (NaN) or zero parse of the complexity computes Fib(10) = 55. */
  lemma ComputeFallback(parsed: Option<int>)
    requires parsed.None? || parsed.value == 0
    ensures Compute(parsed) == ComputeReply(55, 10)
  {
  }

  /** Any other parsed complexity is used as it is and answered with its Fibonacci number. */
  lemma ComputePassThrough(n: int)
    requires n != 0
    ensures Compute(Some(n)) == ComputeReply(Fib(n), n)
  {
  }

  /** Sending back the complexity a reply echoes gives the same reply. */
  lemma ComputeEchoStable(parsed: Option<int>)
    ensures Compute(Some(Compute(parsed).complexity)) == Compute(parsed)
  {
  }

  /** A non-numeric (NaN) or zero parse of the wait becomes 1000 ms; any other one is echoed. */
  lemma DelayFallback(parsed: Option<int>)
    ensures parsed.None? || parsed.value == 0 ==> Delay(parsed) == DelayReply(true, 1000)
    ensures parsed.Some? && parsed.value != 0 ==> Delay(parsed) == DelayReply(true, parsed.value)
  {
  }
}
