# server_test: a Dafny model of the demo service's request logic

The service is a small Express application with five endpoints. Apart from HTTP glue it
holds four pieces of logic, and this project models each of them and proves what they
promise:

- **The capped data store** (`POST /api/data`). A module-level array `dataStore` receives
  one new item per request (a fresh UUID, the current time and the request body) and is
  then cut back to its most recent 1000 items. It is modelled as the class
  `Store.DataStore` with a `seq<DataItem>` field and an `Insert` method. A ghost `history`
  records every item ever inserted. The class invariant says that the store is exactly
  the last 1000 of them, in insertion order. The pure functions `AfterInsert` and
  `InsertAll` state the same thing for one insert and for a run of inserts.
- **`fibonacci`** (`GET /api/compute/:complexity`). The naive recursive function becomes
  `Fibonacci.Fib` over mathematical integers. It is proved equal to a linear-time
  reference (`FibPair`), non-negative and non-decreasing on the naturals, and `Fib(10) = 55`.
- **The bulk transform** (`POST /api/bulk`). An array body is mapped element by element to
  `{ id, processed: true, originalData, timestamp }` records. Any other body gives an
  empty list. `Bulk.Process` states the length, order and content of the reply, and
  `BulkRoundTrip` shows that unwrapping the reply gives back the body's elements.
- **Parameter fallback** (`parseInt(x) || default`). A NaN parse (`None`) and 0 fall back to the
  default: 10 for the complexity, 1000 ms for the delay. Any other parsed integer is kept.

Module layout: `json.dfy` (request bodies), `params.dfy` (the fallback), `fibonacci.dfy`,
`endpoints.dfy` (the compute and delay replies), `store.dfy`, `bulk.dfy`.

Inputs the source takes from the environment are parameters. `crypto.randomUUID()` and
`Date.now()` become the `id`/`timestamp` arguments of `DataStore.Insert`, and the `uuid(i)`/`now(i)`
functions of `Bulk.Process`: these give the values drawn while the `i`-th element is mapped.
`parseInt` on the path segment becomes an `Option<int>` argument.

## Model

| member | source | states |
|---|---|---|
| `Params.OrDefault` | src/server.ts:28 | the `parseInt(x)` fallback to `d`: a parsed non-zero value is kept, NaN or 0 gives `d`, and a non-zero `d` makes the result non-zero |
| `Params.Complexity` | src/server.ts:28 | the compute complexity is never 0 and equals 10 exactly when the parse failed, gave 0 or gave 10 |
| `Params.DelayMs` | src/server.ts:53 | the delay is never 0 and equals 1000 exactly when the parse failed, gave 0 or gave 1000 |
| `Params.OrDefaultIdempotent` | src/server.ts:28 | applying the fallback to its own output changes nothing, for every parse and every fallback |
| `Fibonacci.Fib` | src/server.ts:72-75 | fibonacci of a non-negative argument is non-negative, and of a positive one is at least 1 |
| `Fibonacci.FibAgreesWithPair` | src/server.ts:72-75 | the recursive definition equals the linear-time pair iteration `(Fib(n), Fib(n+1))` for every natural `n` |
| `Fibonacci.FibBase` | src/server.ts:73 | every `n <= 1`, negative ones included, is returned unchanged |
| `Fibonacci.FibRecurrence` | src/server.ts:74 | for `n >= 2` the result is the sum of the two previous values |
| `Fibonacci.FibMonotone` | src/server.ts:72-75 | fibonacci is non-decreasing on all integers, negative complexities included |
| `Fibonacci.FibTen` | src/server.ts:72-75 | `fibonacci(10) == 55` |
| `Endpoints.Compute` | src/server.ts:27-31 | the reply's complexity is never 0, and a non-negative complexity gives a non-negative result |
| `Endpoints.ComputeFallback` | src/server.ts:28-30 | a non-numeric (NaN) or zero parse of the complexity replies `{ result: 55, complexity: 10 }` |
| `Endpoints.ComputePassThrough` | src/server.ts:28-30 | any non-zero parsed complexity `n` replies `{ result: Fib(n), complexity: n }` |
| `Endpoints.ComputeEchoStable` | src/server.ts:28-30 | requesting again with the complexity a reply echoes yields the same reply |
| `Endpoints.Delay` | src/server.ts:52-56 | the delay reply always says `delayed: true` and never carries 0 ms |
| `Endpoints.DelayFallback` | src/server.ts:53-55 | a non-numeric (NaN) or zero parse of the wait replies 1000 ms; any other parsed wait is echoed |
| `Store.LastN` | src/server.ts:45 | for positive `n`, `slice(-n)` keeps a suffix of length `min(length, n)` (the source uses `n = 1000`) |
| `Store.AfterInsert` | src/server.ts:41-46 | after an insert the store has length `min(old + 1, 1000)` (so at most 1000), ends with the new item and is a suffix of `old + [item]` |
| `Store.InsertBelowCap` | src/server.ts:41-44 | below 1000 items nothing is evicted: the new store is `old + [item]` |
| `Store.InsertAtCap` | src/server.ts:44-45 | at exactly 1000 items only the oldest is evicted: the new store is `old[1..] + [item]`, still of length 1000 |
| `Store.InsertKeepsLast` | src/server.ts:41-46 | for any old store, the new store is the last 1000 items of `old + [item]` |
| `Store.LastNOfLastN` | src/server.ts:45 | cutting to the last `n`, appending and cutting again equals appending and cutting once |
| `Store.InsertAllKeepsMostRecent` | src/server.ts:34-49 | after any run of inserts into a store within the cap, the store is the most recent 1000 items in insertion order |
| `Store.LastNOfLongAppend` | src/server.ts:45 | when the appended part alone has at least `n` items, `slice(-n)` keeps only items of that part: its last `n` |
| `Store.InsertManyKeepsTail` | src/server.ts:41-46 | a run of at least 1000 inserts leaves exactly its own last 1000 items |
| `Store.DataStore.constructor` | src/server.ts:19 | the store starts empty |
| `Store.DataStore.Insert` | src/server.ts:34-49 | returns the item built from the id, clock reading and body; the store becomes `AfterInsert(old, item)`, ends with it, has at most 1000 items and still holds the last 1000 items ever inserted |
| `Bulk.ItemsOf` | src/server.ts:60 | an array body gives its elements in order; any other body gives `[]` |
| `Bulk.Process` | src/server.ts:59-68 | the reply has one record per array element in the same order, each `processed: true` with `originalData` equal to that element, and `count` equals the length; a non-array body gives `count == 0` |
| `Bulk.BulkRoundTrip` | src/server.ts:60-66 | projecting `originalData` out of the reply gives back exactly the array body's elements, or nothing for a non-array body |

## Left out

- Express setup, routing, JSON body parsing, status codes, response writing, the error middleware and `app.listen` (src/server.ts:5-9, 22-24, 78-86): library I/O plumbing, not logic. `GET /api/ping` only echoes the clock and is left out with them.
- The `setTimeout` wait of the delay endpoint (src/server.ts:54): timing behaviour. Only the reply it sends is modelled.
- `crypto.randomUUID` and `Date.now`: foreign, nondeterministic calls, taken as parameters. The model does not assume or prove that ids are unique.
- Fibonacci.Fib: computed over mathematical integers, whereas the source uses IEEE doubles. The two agree only while the values stay exactly representable (up to `n = 78`). The exponential running time of the naive recursion is not modelled either. Nor is its error path: a complexity deeper than the engine's recursion limit makes `fibonacci` throw a RangeError, which the error middleware (src/server.ts:78-81) turns into a 500 reply `{ error: 'Something broke!' }`, whereas `Endpoints.Compute` always returns `ComputeReply(Fib(n), n)`.
- Params.OrDefault: `parseInt` itself (whitespace, sign, radix, trailing characters, and its result of Infinity for very long digit strings) is abstracted as an `Option<int>` input.
- Json.Value: numbers in request bodies are integers. The model only carries bodies and does no arithmetic on them.
- A store lookup by id, a size query, a reset operation, a worker pool or job queue, backpressure, priorities, cancellation and process forking: none of them exists in src/server.ts, so none is modelled.
