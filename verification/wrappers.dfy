/** The optional-value datatype used for the storage slot, rendered hints
    and navigation targets. */
module Wrappers {

  datatype Option<+T> = None | Some(value: T)
}
