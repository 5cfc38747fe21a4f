/** The optional value used for "no match" results and missing spreadsheet cells. */
module Optional {
  datatype Option<+T> = None | Some(value: T)
}
