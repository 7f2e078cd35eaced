/**
 * Error codes shared by the modelled components. The numeric values of the
 * C constants do not matter to any modelled behaviour, only their identity,
 * so each named code is a constructor and every other code is `Other`.
 */
module Errno {
  datatype Errno =
    | EOK       // success
    | ENOENT    // no such entry
    | ENOSPC    // no space left
    | ENOTSUP   // not supported
    | ESTALL    // USB: endpoint stalled
    | ENAK      // USB: device answered NAK, try again later
    | Other(code: int)  // any other code, passed through unchanged
}
