/** Small value types shared by every part of the model. */
module Common {

  /** A value that may be absent: a nullable column, or a response without data. */
  datatype Option<+T> = None | Some(value: T)

  /** Errors the hosted backend can answer a request with. */
  datatype StoreError =
    | BackendError   // the request failed: network, row-level policy, constraint
    | NoRows         // `.single()` found no row to return
    | MultipleRows   // `.maybeSingle()` found more than one row

  /** The `{ data, error }` pair of every query: data only when there is no error. */
  datatype Result<+T> = Ok(value: T) | Err(error: StoreError)

  /** JavaScript's `x || ''` on a nullable text column. */
  function OrEmpty(o: Option<string>): (r: string)
    ensures o.Some? ==> r == o.value
    ensures o.None? ==> r == ""
  {
    match o
    case Some(s) => s
    case None => ""
  }
}
