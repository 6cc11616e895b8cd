/** The nullable values of the console (`string | null`, a selection that may be empty). */
module Optional {

  datatype Option<+T> = None | Some(value: T)
}
