/** Optional values and the not-found outcome the services signal by throwing. */
module Outcomes {

  /** An optional value: a key absent from a JavaScript object, or a `null` field. */
  datatype Option<T> = None | Some(value: T)

  /** The result of an operation that addresses a record by Id: the record, or the
      "not found" error, which carries the Id that was asked for. */
  datatype Outcome<T, K> = Ok(value: T) | NotFound(id: K)

  /** The value of `{...stored, ...patch}` for one key: the patch wins when it has the key. */
  function Pick<T>(patched: Option<T>, stored: T): T
  {
    match patched
    case Some(v) => v
    case None => stored
  }
}
