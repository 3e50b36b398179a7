/** The optional value used wherever the plugin's JavaScript would see `undefined`. */
module Wrappers {

  datatype Option<+T> = None | Some(value: T)
}
