/** An optional value: `None` stands for "no face was detected in this frame". */
module Wrappers {

  datatype Option<+T> = None | Some(value: T)
}
