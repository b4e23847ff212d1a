/** Options, results and the native error values shared by every module. */
module Wrappers {

  datatype Option<+T> = None | Some(value: T)

  datatype Result<+T, +E> = Ok(value: T) | Err(error: E)

  /** The native failures the crate distinguishes. The texts of malformed-output errors are not kept. */
  datatype SysError =
    | Os(code: nat)
    | CountOverflow
    | AllocationFailure
    | CallbackInUse
    | DataChanged
    | MalformedOutput
    | SessionEnded

  type SysResult<+T> = Result<T, SysError>

  const ERROR_SUCCESS: nat := 0
  const ERROR_MORE_DATA: nat := 234

  function Check(code: nat): SysResult<()> {
    if code == ERROR_SUCCESS then Ok(()) else Err(Os(code))
  }
}
