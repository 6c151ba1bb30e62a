/** Value types shared by the whole model: Go's fixed-width integers, optional values,
    results carrying an error message, and the error wrapping used throughout the
    transport. */
module Base {

  /** Go's `byte` (uint8). */
  type uint8 = b: int | 0 <= b < 256

  /** 2^32: the number of distinct `uint32` values. */
  const TwoPow32: int := 0x1_0000_0000

  /** Go's `time.Duration`: a signed 64-bit count of nanoseconds. */
  type Duration = d: int | -0x8000_0000_0000_0000 <= d < 0x8000_0000_0000_0000

  /** A Go pointer that may be nil, or a value that may be absent. */
  datatype Option<+T> = None | Some(value: T)

  /** A Go `(value, error)` pair in which exactly one side is meaningful; an error is
      represented by the text its `Error()` method yields. */
  datatype Result<+T> = Ok(value: T) | Err(error: string)

  /** The text of `errors.Wrap(cause, message)` from github.com/pkg/errors. */
  function Wrap(cause: string, message: string): (s: string)
    ensures |s| == |message| + 2 + |cause|
    ensures s[..|message|] == message
    ensures s[|message| + 2..] == cause
  {
    message + ": " + cause
  }
}
