/**
  client.go: the package's original client. Its handshake always offers
  the one method NoAuth, whatever methods it was built with, and `Request`
  is one request followed by one reply.
 */
module LegacyClient {
  import opened Base
  import opened Streams
  import opened Messages
  import opened Socks5

  /** The named results `method` and `err` of `Handshake`, with the
      connection after it. */
  datatype Greeted = Greeted(m: byte, err: Option<Error>, s: Stream)

  /** What `Handshake` writes: version 5, one method, NoAuth. */
  const Greeting: seq<byte> := [Ver5, 1, MethodNoAuth]

  /** `Handshake` as a function of the connection. */
  function Greet(s: Stream): Greeted {
    var w := Write(s, Greeting);
    if w.result.Err? then Greeted(0, Some(w.result.error), w.s)
    else
      var rd := ReadFull(w.s, 2);
      if rd.result.Err? then Greeted(0, Some(rd.result.error), rd.s)
      else
        var m := rd.result.value[1];
        if rd.result.value[0] != Ver5 then Greeted(m, Some(BadVersion), rd.s)
        else Greeted(m, None, rd.s)
  }

  /** `Request` as a function of the connection: the reply, or the error
      of the write or of the read. */
  function Exchange(codec: Codec, s: Stream, r: Request): Io<Reply> {
    var w := Write(s, codec.encodeRequest(r));
    if w.result.Err? then Io(Err(w.result.error), w.s)
    else ReadWith(w.s, codec.readReply)
  }

  // ---------------------------------------------------------------------
  // Properties

  /** `Handshake` writes exactly [5, 1, 0], which is the method-negotiation
      message offering NoAuth alone. */
  lemma GreetingOffersNoAuth()
    ensures Greeting == MethodsMessage([MethodNoAuth])
    ensures DecodeMethods(Greeting) == Some([MethodNoAuth])
  {
    MethodsMessageDecodes([MethodNoAuth]);
  }

  /** A write error returns method 0 with nothing read. A read error is
      passed on with method 0. Otherwise exactly two bytes are read, the
      method is the second one even when the version is wrong, and it is
      ErrBadVersion exactly when the first byte is not 5. */
  lemma GreetOutcomes(s: Stream)
    ensures var g := Greet(s);
      && (s.writeFails ==> g == Greeted(0, Some(WriteFailure), s))
      && (!s.writeFails && (s.readFails || |s.input| < 2) ==> g.m == 0 && g.err.Some?)
      && (!s.writeFails && !s.readFails && |s.input| >= 2 ==>
            && g.m == s.input[1]
            && (g.err == Some(BadVersion) <==> s.input[0] != Ver5)
            && (g.err.None? <==> s.input[0] == Ver5)
            && g.s.input == s.input[2..]
            && g.s.output == s.output + Greeting)
  {
  }

  /** `Request` writes the request before it reads; a failed write means
      nothing is read. */
  lemma ExchangeOrder(codec: Codec, s: Stream, r: Request)
    ensures var x := Exchange(codec, s, r);
      && (s.writeFails ==> x == Io(Err(WriteFailure), s))
      && (!s.writeFails && !s.readFails ==>
            var p := codec.readReply(s.input);
            && x.result == p.result
            && x.s.output == s.output + codec.encodeRequest(r)
            && x.s.input == s.input[Min(p.used, |s.input|)..])
  {
  }

  // ---------------------------------------------------------------------
  // The client object

  /** `Client`. */
  class Client {
    var methods: seq<byte>
    var conn: Stream

    /** The composite literal `&Client{...}`. */
    constructor (methods: seq<byte>, conn: Stream)
      ensures this.methods == methods && this.conn == conn
    {
      this.methods := methods;
      this.conn := conn;
    }

    /** `Handshake`: sizes its buffer from the methods but neither sends
        nor checks them. */
    method Handshake() returns (m: byte, err: Option<Error>)
      modifies this
      ensures Greeted(m, err, conn) == Greet(old(conn))
      ensures methods == old(methods)
    {
      var nm := |methods|;
      if nm == 0 {
        nm := 1;
      }
      var b := new byte[2 + nm](_ => 0);
      m, err := 0, None;
      var w := Write(conn, [Ver5, 1, 0]);
      conn := w.s;
      if w.result.Err? {
        err := Some(w.result.error);
        return;
      }
      var rd := ReadFull(conn, 2);
      conn := rd.s;
      if rd.result.Err? {
        err := Some(rd.result.error);
        return;
      }
      b[0], b[1] := rd.result.value[0], rd.result.value[1];
      m := b[1];
      if b[0] != Ver5 {
        err := Some(BadVersion);
        return;
      }
    }

    /** `Request`. */
    method Request(codec: Codec, r: Messages.Request) returns (rep: Option<Reply>, err: Option<Error>)
      modifies this
      ensures var x := Exchange(codec, old(conn), r);
        && conn == x.s
        && err == x.result.ErrorOf()
        && rep == (if x.result.Ok? then Some(x.result.value) else None)
      ensures methods == old(methods)
    {
      var w := Write(conn, codec.encodeRequest(r));
      conn := w.s;
      if w.result.Err? {
        return None, Some(w.result.error);
      }
      var rd := ReadWith(conn, codec.readReply);
      conn := rd.s;
      rep := if rd.result.Ok? then Some(rd.result.value) else None;
      err := rd.result.ErrorOf();
    }
  }
}
