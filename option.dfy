/** The usual Some/None wrapper, used for dictionary lookups that may miss and
    for the "no best yet" state of the move-scoring loops. */
module Opt {
  datatype Option<+T> = None | Some(value: T)
}
