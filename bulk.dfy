/** `POST /api/bulk`: every element of an array body is wrapped in a processed record. */
module Bulk {
  import Json

  /** `{ id, processed: true, originalData, timestamp }` */
  datatype ProcessedItem = ProcessedItem(id: string, processed: bool, originalData: Json.Value, timestamp: int)

  /** `{ processed, count }` */
  datatype BulkReply = BulkReply(processed: seq<ProcessedItem>, count: nat)

  /** `Array.isArray(body) ? body : []` */
  function ItemsOf(body: Json.Value): (r: seq<Json.Value>)
    ensures body.Array? ==> r == body.elems
    ensures !body.Array? ==> r == []
  {
    match body
    case Array(elems) => elems
    case _ => []
  }

  /** The reply for `body`. `uuid(i)` and `now(i)` are the id and the clock reading the
      source draws while it maps the `i`-th element. */
  function Process(body: Json.Value, uuid: nat -> string, now: nat -> int): (r: BulkReply)
    ensures |r.processed| == |ItemsOf(body)| && r.count == |r.processed|
    ensures !body.Array? ==> r.count == 0
    ensures body.Array? ==> r.count == |body.elems|
    ensures forall i :: 0 <= i < |r.processed| ==>
      r.processed[i].processed && r.processed[i].originalData == ItemsOf(body)[i] &&
      r.processed[i].id == uuid(i) && r.processed[i].timestamp == now(i)
  {
    var items := ItemsOf(body);
    var processed := seq(|items|, i requires 0 <= i < |items| =>
      ProcessedItem(uuid(i), true, items[i], now(i)));
    BulkReply(processed, |processed|)
  }

  /** The original elements carried by a list of processed records, in order. */
  function Originals(ps: seq<ProcessedItem>): (r: seq<Json.Value>)
    ensures |r| == |ps|
  {
    if ps == [] then [] else [ps[0].originalData] + Originals(ps[1..])
  }

  lemma {:induction false} OriginalsOfWrapped(ps: seq<ProcessedItem>, xs: seq<Json.Value>)
    requires |ps| == |xs|
    requires forall i :: 0 <= i < |ps| ==> ps[i].originalData == xs[i]
    ensures Originals(ps) == xs
  {
    if ps != [] {
      OriginalsOfWrapped(ps[1..], xs[1..]);
    }
  }

  /** Unwrapping the reply gives back exactly the array's elements, in their order; a
      body that is not an array gives back nothing. */
  lemma BulkRoundTrip(body: Json.Value, uuid: nat -> string, now: nat -> int)
    ensures Originals(Process(body, uuid, now).processed) == ItemsOf(body)
    ensures body.Array? ==> Originals(Process(body, uuid, now).processed) == body.elems
  {
    var r := Process(body, uuid, now);
    OriginalsOfWrapped(r.processed, ItemsOf(body));
  }
}
