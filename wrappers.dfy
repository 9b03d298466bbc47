/** Optional values: JavaScript's `null` / `undefined` on the one hand, a present value on the other. */
module Wrappers {

  datatype Option<+T> = None | Some(value: T) {

    /** `x ?? d` */
    function GetOr(default: T): T {
      match this
      case Some(v) => v
      case None => default
    }
  }

  /** A JSON field as a route handler sees it: absent, a string, or some other JSON value. */
  datatype Field = Absent | Str(s: string) | OtherJson
}
