/** A nullable value: every ticket column is a nullable string. */
module Optional {

  datatype Option<+T> = None | Some(value: T)

}
