/** Optional values: the model's stand-in for TypeScript's `T | null | undefined`.
    The source treats `null` and `undefined` alike at every site modelled here
    (`??`, `?.`, truthiness), so one `None` covers both. */
module Wrappers {

  datatype Option<+T> = None | Some(value: T) {

    /** The value, or `default` when absent: the `x ?? default` operator. */
    function GetOr(default: T): T {
      match this
      case Some(v) => v
      case None => default
    }
  }
}
