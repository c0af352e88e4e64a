/** The absent-or-present value the screens use wherever JavaScript yields
    `undefined` or `null` (a failed `find`, a session with no user). */
module Wrappers {

  datatype Option<+T> = None | Some(value: T)
}
