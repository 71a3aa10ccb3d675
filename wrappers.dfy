/** The optional value that stands for Java's nullable references and
    for Spring Data's `Optional` results. */
module Wrappers {

  datatype Option<+T> = None | Some(value: T)
}
