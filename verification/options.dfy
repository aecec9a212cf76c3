/** The optional value used for "found / not found" answers of the searches. */
module Options {

  datatype Option<+T> = None | Some(value: T)

}
