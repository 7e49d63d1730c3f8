/** The optional value used wherever the editors return `null` or leave a field `undefined`. */
module Wrappers {

  datatype Option<T> = None | Some(value: T)
}
