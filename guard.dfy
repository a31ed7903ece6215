/** `raise_not_found_if_absent` (routers/utils.py). */
module Guard {
  import opened Wrappers
  import opened Errors

  /** What a handler passes to the guard: the result of `.first()` (a row or
      None) or of `.all()` / a page's items (a list). */
  datatype Fetched<T> = Absent | Row(row: T) | Rows(rows: seq<T>)

  /** Python truthiness of the fetched value: a row object is truthy, None is
      not, a list is truthy when it is not empty. */
  predicate Truthy<T>(item: Fetched<T>) {
    item.Row? || (item.Rows? && item.rows != [])
  }

  function FromOption<T>(o: Option<T>): (f: Fetched<T>)
    ensures Truthy(f) <==> o.Some?
    ensures o.Some? ==> f == Row(o.value)
  {
    if o.Some? then Row(o.value) else Absent
  }

  /** Passes on a truthy item, otherwise raises NotFound with exactly `message`. */
  function RaiseNotFoundIfAbsent<T>(item: Fetched<T>, message: string): (r: Outcome<Error>)
    ensures r.Pass? <==> Truthy(item)
    ensures r.Fail? ==> r.error == NotFound(message)
  {
    if !Truthy(item) then Fail(NotFound(message)) else Pass
  }
}
