/** The absent-or-present values the field code reads from its host: an
    optional additional change handler, an optional variable scope, and a
    block that may or may not offer `getParameters`. */
module Optional {

  datatype Option<+T> = None | Some(value: T)
}
