/** The optional value used wherever the player may have nothing to report. */
module Optional {
  datatype Option<T> = None | Some(value: T)
}
