/** The JavaScript `null` of the source, as an explicit optional value. */
module Wrappers {

  datatype Option<T> = None | Some(value: T)
}
