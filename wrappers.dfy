/** The optional value used wherever the supervisor may or may not get a result:
    a configuration file that could not be read, a configuration that failed to load. */
module Wrappers {
  datatype Option<T> = None | Some(value: T)
}
