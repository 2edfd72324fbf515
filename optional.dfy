/** The absent-or-present value used wherever the game keeps a nullable field
    (a drop target, a drag session, a timestamp) or a lookup can miss. */
module Optional {

  datatype Option<+T> = None | Some(value: T)

}
