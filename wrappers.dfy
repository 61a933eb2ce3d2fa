/** An absent-or-present value: a missing JSON
    field, a regular expression that matches nowhere, an external call that fails. */
module Wrappers {

  datatype Option<+T> = None | Some(value: T)
}
