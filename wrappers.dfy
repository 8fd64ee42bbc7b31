/** An optional value: the codec's "decoded or failed" and the router's "destination or drop". */
module Wrappers {
  datatype Option<+T> = None | Some(value: T)
}
