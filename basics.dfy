/** Small shared vocabulary: an optional value, used for Python's None. */
module Basics {

  datatype Option<+T> = None | Some(value: T)
}
