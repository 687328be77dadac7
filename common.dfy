/** Shared vocabulary of the assembler model: bytes, and the outcome of an
    operation that can stop the assembler with a fatal error. */
module Common {

  /** One unsigned 8-bit value, as `uint8_t` in the assembler. */
  newtype byte = x: int | 0 <= x < 256

  /** Either a value, or the fatal error the assembler would have printed
      before exiting with status 1. */
  datatype Result<+T> = Ok(value: T) | Fatal(message: string)

  /** A step that produces no value but can still be fatal. */
  datatype Outcome = Pass | Fail(message: string)

  datatype Option<+T> = None | Some(value: T)

  /** The byte values of the ASCII characters the assembler tests for. */
  const TAB: byte := 9
  const NEWLINE: byte := 10
  const SPACE: byte := 32
  const LEFT_PAREN: byte := 40
  const RIGHT_PAREN: byte := 41
  const COMMA: byte := 44
  const DIGIT_0: byte := 48
  const DIGIT_1: byte := 49
  const DIGIT_9: byte := 57
  const LOWER_A: byte := 97
  const LOWER_F: byte := 102
  const LOWER_X: byte := 120
  const LOWER_Z: byte := 122

  /** The bytes of an ASCII string literal. */
  function Ascii(s: string): (r: seq<byte>)
    requires forall k :: 0 <= k < |s| ==> s[k] as int < 256
    ensures |r| == |s|
    ensures forall k :: 0 <= k < |s| ==> r[k] as int == s[k] as int
  {
    if s == [] then [] else [s[0] as int as byte] + Ascii(s[1..])
  }
}
