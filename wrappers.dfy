/** The optional value used wherever the JavaScript code may yield `null` or `undefined`. */
module Wrappers {

  datatype Option<+T> = None | Some(value: T)

}
