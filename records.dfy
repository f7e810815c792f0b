/**
 * The job record: the PHP array a job travels as, stored JSON-encoded in the
 * queue, the processing hash and the success / failed lists.
 */
module JobRecords {
  import opened Wrappers

  /** The opaque payload handed to `perform`: any JSON value. */
  datatype Json =
    | JNull
    | JBool(b: bool)
    | JInt(i: int)
    | JStr(s: string)
    | JList(items: seq<Json>)
    | JObject(fields: map<string, Json>)

  /**
   * One job record. A field the PHP array does not hold is `None`, except
   * `id`, whose absence is the empty string (both are "empty" to PHP).
   */
  datatype Record = Record(
    id: string,
    className: string,
    attempt: int,
    createdAt: int,
    planningAt: Option<int>,
    runningAt: Option<int>,
    movedAt: Option<int>,
    data: Json)

  /** The id a record has before the store assigns one. */
  const NoId: string := ""

  /**
   * PHP's `empty()` on a string field: true for the empty string and for
   * the string "0".
   */
  predicate IsEmptyId(id: string) {
    id == "" || id == "0"
  }
}
