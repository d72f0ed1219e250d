/** The optional value used wherever the game has a Swift optional (a holder, a found index, an item). */
module Optional {
  datatype Option<+T> = None | Some(value: T)
}
