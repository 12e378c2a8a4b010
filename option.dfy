/** Swift's `Optional`: the value-or-nil wrapper that every projection and
    array helper below returns. */
module Option {

  datatype Option<+T> = None | Some(value: T)
}
