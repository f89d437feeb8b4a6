/**
  A connection endpoint (Go's `net.Conn`) as a value: the bytes still to be
  read, the bytes written so far, a failure injected on either side, and
  whether it has been closed. Reading and writing are functions from the old
  endpoint to the new one.
 */
module Streams {
  import opened Base

  /** `id` stands for the identity of a Go connection value: a selector that
      hands back "the same conn" returns an endpoint with the same id. */
  datatype Stream = Stream(
    id: nat,
    input: seq<byte>,
    output: seq<byte>,
    readFails: bool,
    writeFails: bool,
    closed: bool)

  /** The outcome of one I/O call and the endpoint after it. */
  datatype Io<+T> = Io(result: Result<T>, s: Stream)

  /** What a message reader (such as ReadRequest) makes of the bytes it is
      offered: the message or an error, and how many bytes it consumed. */
  datatype Parsed<+T> = Parsed(result: Result<T>, used: nat)

  /** `conn.Write(b)`: all of `b` is written, or the injected failure is
      reported and nothing is written. */
  function Write(s: Stream, b: seq<byte>): Io<()> {
    if s.writeFails then Io(Err(WriteFailure), s)
    else Io(Ok(()), s.(output := s.output + b))
  }

  /** `io.ReadFull(conn, buf[:n])`: exactly `n` bytes, or EOF when none were
      left, or ErrUnexpectedEOF when some but too few were. */
  function ReadFull(s: Stream, n: nat): Io<seq<byte>> {
    if s.readFails then Io(Err(ReadFailure), s)
    else if n <= |s.input| then Io(Ok(s.input[..n]), s.(input := s.input[n..]))
    else Io(Err(if |s.input| == 0 then EOF else UnexpectedEOF), s.(input := []))
  }

  /** `conn.Read(buf)` with a buffer of `n` bytes: between one and `n` bytes,
      or EOF at the end of the stream. The model always delivers as many
      bytes as are available. */
  function ReadSome(s: Stream, n: nat): Io<seq<byte>> {
    if s.readFails then Io(Err(ReadFailure), s)
    else if n == 0 then Io(Ok([]), s)
    else if |s.input| == 0 then Io(Err(EOF), s)
    else
      var k := Min(n, |s.input|);
      Io(Ok(s.input[..k]), s.(input := s.input[k..]))
  }

  /** A message reader applied to a connection: it sees the bytes still to
      be read and consumes what it used of them. */
  function ReadWith<T>(s: Stream, reader: seq<byte> -> Parsed<T>): Io<T> {
    if s.readFails then Io(Err(ReadFailure), s)
    else
      var p := reader(s.input);
      var k := Min(p.used, |s.input|);
      Io(p.result, s.(input := s.input[k..]))
  }

  /** `conn.Close()`. */
  function Close(s: Stream): Stream {
    s.(closed := true)
  }
}
