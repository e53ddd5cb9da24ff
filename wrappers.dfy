/** Optional values: the model of Java's nullable references and of `Optional`. */
module Wrappers {

  datatype Option<+T> = None | Some(value: T)
}
