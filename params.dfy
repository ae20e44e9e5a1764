/** Path parameters of the compute and delay endpoints: the `parseInt(x) || default` idiom. */
module Params {

  /** What `parseInt` yields for a path segment: `None` stands for NaN. */
  datatype Option<T> = None | Some(value: T)

  /** Fallback complexity of `GET /api/compute/:complexity`. */
  const DefaultComplexity: int := 10

  /** Fallback wait, in milliseconds, of `GET /api/delay/:ms`. */
  const DefaultDelayMs: int := 1000

  /** `parseInt(x) || fallback`: NaN and 0 are falsy and give the fallback; any other
      parsed integer, negative ones included, is kept as it is. */
  function OrDefault(parsed: Option<int>, fallback: int): (r: int)
    ensures parsed.Some? && parsed.value != 0 ==> r == parsed.value
    ensures parsed.None? || parsed.value == 0 ==> r == fallback
    ensures fallback != 0 ==> r != 0
  {
    match parsed
    case None => fallback
    case Some(v) => if v != 0 then v else fallback
  }

  /** The complexity the compute endpoint runs with. */
  function Complexity(parsed: Option<int>): (r: int)
    ensures r != 0
    ensures r == DefaultComplexity <==> parsed.None? || parsed.value == 0 || parsed.value == DefaultComplexity
  {
    OrDefault(parsed, DefaultComplexity)
  }

  /** The wait, in milliseconds, the delay endpoint uses. */
  function DelayMs(parsed: Option<int>): (r: int)
    ensures r != 0
    ensures r == DefaultDelayMs <==> parsed.None? || parsed.value == 0 || parsed.value == DefaultDelayMs
  {
    OrDefault(parsed, DefaultDelayMs)
  }

  /** Parsing a value the fallback produced and applying the same fallback changes nothing:
      a reply's echoed parameter, sent back as the parameter, is taken as it is. */
  lemma OrDefaultIdempotent(parsed: Option<int>, fallback: int)
    ensures OrDefault(Some(OrDefault(parsed, fallback)), fallback) == OrDefault(parsed, fallback)
  {
  }
}
