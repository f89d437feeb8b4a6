/**
  Types shared by every part of the model: Go's fixed-width integers that the
  protocol uses, an Option and a Result, and the errors the protocol engine
  can report.
 */
module Base {

  /** Go's `byte` (`uint8`). */
  type byte = b: int | 0 <= b < 0x100

  /** Go's `uint16`, the type of a port. */
  type uint16 = p: int | 0 <= p < 0x1_0000

  datatype Option<+T> = None | Some(value: T) {
    function GetOr(default: T): T {
      if Some? then value else default
    }
  }

  /** The errors of the model. Errors that come from collaborators outside
      the model (a failed dial, a failed listen, an error a callback
      returns) are `External`, told apart by a code. */
  datatype Error =
    | EOF                  // io.EOF: a read found the stream at its end
    | UnexpectedEOF        // io.ErrUnexpectedEOF: io.ReadFull stopped part-way
    | ReadFailure          // a failure injected on a stream's read side
    | WriteFailure         // a failure injected on a stream's write side
    | BadVersion           // ErrBadVersion
    | BadMethod            // ErrBadMethod
    | AuthFailure          // ErrAuthFailure
    | UnsupportedCommand   // the error Handle makes for a command it does not serve
    | External(code: nat)

  datatype Result<+T> = Ok(value: T) | Err(error: Error) {
    /** The error of a failed result, as Go's `err` value (nil on success). */
    function ErrorOf(): Option<Error> {
      if Err? then Some(error) else None
    }
  }

  function Min(a: int, b: int): int {
    if a <= b then a else b
  }
}
