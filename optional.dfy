/** The optional value used where the program reads a key that may be missing
    or calls something that may raise. */
module Optional {

  datatype Option<+T> = None | Some(value: T)
}
