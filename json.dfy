/** The values a request body can hold once the JSON body parser has run. */
module Json {

  /** A parsed JSON value. Numbers are kept as integers: no member of the model does
      arithmetic on a body, so their floating-point nature plays no part. */
  datatype Value =
    | Null
    | Boolean(b: bool)
    | Number(n: int)
    | String(s: string)
    | Array(elems: seq<Value>)
    | Object(fields: seq<(string, Value)>)
}
