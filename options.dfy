/** The optional value the pages write as `T | null`. */
module Options {

  datatype Option<+T> = None | Some(value: T)
}
