/** Nullable values, results, and the IllegalArgumentException causes of the modelled code. */
module Base {

  /** A Java reference that may be null, for values that have no identity of their own. */
  datatype Option<+T> = None | Some(value: T)

  /** A value, or the IllegalArgumentException that was thrown instead of returning it. */
  datatype Result<+T> = Success(value: T) | Failure(error: IllegalArgument)

  /** The distinct causes for which the modelled code throws IllegalArgumentException. */
  datatype IllegalArgument =
    | NegativeBits    // Args.notNegative on a raw permission mask
    | BitsAboveAll    // Args.check(bits <= Permission.ALL_PERMISSIONS)
    | NullPermission  // Args.notNull on an element of a permission collection or array
    | NullCollection  // Args.notNull on the collection given to hasPermission
    | ForeignChannel  // a channel of another guild given to getPermissions
}
