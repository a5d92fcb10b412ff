/** The crate's error value: a kind, a human-readable message and an optional HTTP status. */
module Errors {
  import opened Wrappers

  datatype ErrorKind =
    | InvalidConfig
    | InvalidResponse
    | EndpointNotFound
    | AuthenticationFailed
      /** The kind derived from an HTTP status code by the crate's error module (`status.into()`);
          that mapping is not part of this model, so the kind records the code it came from. */
    | FromStatus(code: int)

  datatype Error = Error(kind: ErrorKind, message: string, status: Option<int>)

  /** `Error::new(kind, message)`: no status attached. */
  function NewError(kind: ErrorKind, message: string): Error {
    Error(kind, message, None)
  }
}
