/** Option and Result, used for lookups that may find nothing and for operations that throw. */
module Wrappers {

  datatype Option<+T> = None | Some(value: T)

  /** The exceptions the hooks raise, by kind (their messages are not modelled). */
  datatype HookError =
    | ObjectDisposed          // ObjectDisposedException
    | PlatformNotSupported    // PlatformNotSupportedException
    | UnauthorizedAccess      // UnauthorizedAccessException
    | InvalidOperation        // InvalidOperationException
    | DisplayUnavailable      // the plain Exception thrown when no X display opens
    | ExtensionUnavailable    // the plain Exception thrown when the X server lacks XInput2

  datatype Result<+R> = Success(value: R) | Failure(error: HookError)
}
