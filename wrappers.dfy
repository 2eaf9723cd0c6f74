/** Swift's `Optional`, used for a view's `accessibilityIdentifier` (a `String?`)
    and for the failable raw-value initialiser of `ViewStates`. */
module Wrappers {

  datatype Option<+T> = None | Some(value: T)
}
