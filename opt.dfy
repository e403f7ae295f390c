/** An optional value: a JavaScript `null` (or an absent query parameter) is `None`. */
module Opt {
  datatype Option<+T> = None | Some(value: T)
}
