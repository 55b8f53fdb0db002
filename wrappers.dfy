/** The optional value used for results the program may fail to produce. */
module Wrappers {

  datatype Option<+T> = None | Some(value: T)
}
