/** The "found or not found" outcome that the storefront's lookups return
    (`Array.prototype.find` yields the element or `undefined`). */
module Wrappers {
  datatype Option<+T> = None | Some(value: T)
}
