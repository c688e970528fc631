/** Values that cross the boundary between the boards and the hosted backend.
    Every request a board makes is modelled by its outcome, which the caller
    supplies: the model never performs a request itself. */
module Backend {

  /** A value that may be absent (`null` or `undefined` in the component). */
  datatype Option<+T> = None | Some(value: T)

  /** What awaiting a `select` gives a board.
      - `Data(rows)`: the request succeeded and `data` holds these rows
        (possibly none: an empty array is still a truthy `data`);
      - `NullData`: the request succeeded but `data` is `null`;
      - `QueryError`: the backend reported an error (its `data` is `null`);
      - `Rejected`: the awaited promise itself was rejected, so the
        component sees an exception and not a `{ data, error }` pair. */
  datatype Response<+T> = Data(rows: seq<T>) | NullData | QueryError | Rejected

  /** What awaiting an `insert` or `update` gives a board. */
  datatype WriteResult = WriteOk | WriteError

  /** The rows a response carries, with `null` data read as no rows
      (the component's `data || []`). */
  function RowsOrEmpty<T>(r: Response<T>): seq<T>
  {
    if r.Data? then r.rows else []
  }
}
