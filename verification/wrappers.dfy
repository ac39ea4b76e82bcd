/** A value that may be absent: PHP's `false`/`null` returns and missing array keys. */
module Wrappers {

  datatype Option<+T> = None | Some(value: T)
}
