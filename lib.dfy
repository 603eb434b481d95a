/** Crate-level definitions: the retype fan-out limit, the canonical result
    type of capability invocations, the error wrapper and its three tags, and
    `ToCap` on a raw capability pointer. */
module Lib {
  import opened Sel4Sys

  /** The most objects one seL4_Untyped_Retype call may create. */
  const FAN_OUT_LIMIT: Word := 256

  /** Why an operation failed: consult the IPC buffer, or one of the two
      limits that are checked before any call is made. */
  datatype GoOn = CheckIPCBuf | TooMuchData | TooManyCaps

  /** `Error(pub GoOn)`: wraps exactly one tag. */
  datatype Error = Error(goOn: GoOn)

  /** `core::result::Result<(), E>`. */
  datatype Result<+E> = Ok | Err(error: E)

  /** The crate's canonical `Result`. */
  type SysResult = Result<Error>

  /** `ToCap for seL4_CPtr`: a raw capability pointer unwraps to itself. */
  function RawToCap(cptr: Word): (r: Word)
    ensures r == cptr
  {
    cptr
  }
}
