/** The optional value used where the Java code holds a possibly-null reference. */
module Options {

  datatype Option<+T> = None | Some(value: T)

}
