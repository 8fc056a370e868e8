/** The optional result used wherever the C code either reports something or returns early. */
module Wrappers {

  datatype Option<+T> = None | Some(value: T)

}
