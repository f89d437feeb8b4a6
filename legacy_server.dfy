/**
  server.go: the package's original server. For each connection it
  negotiates the method in sequence, runs the `MethodSelected` callback,
  hands the resulting connection to `Handle`, and closes the connection it
  accepted on every way out.
 */
module LegacyServer {
  import opened Base
  import opened Streams
  import opened Messages
  import opened Socks5
  import SocksConn
  import LegacyClient

  /** The end of `handle`: the connection given to `Handle` (None when it
      is not called), and the accepted connection, closed. */
  datatype Session = Session(handed: Option<Stream>, accepted: Stream)

  /** `handle` as a function of the callbacks and the connection. The
      deferred `Close` is bound to the accepted connection, not to the one
      `MethodSelected` may return. */
  function Serve(
    codec: Codec,
    selectMethod: Option<seq<byte> -> byte>,
    methodSelected: Option<(byte, Stream) -> SocksConn.Negotiation>,
    hasHandle: bool,
    conn: Stream): Session
  {
    var rm := ReadWith(conn, codec.readMethods);
    if rm.result.Err? then Session(None, Close(rm.s))
    else
      var m := if selectMethod.Some? then selectMethod.value(rm.result.value) else MethodNoAuth;
      var w := Write(rm.s, [Ver5, m]);
      if w.result.Err? then Session(None, Close(w.s))
      else if methodSelected.None? then Session(if hasHandle then Some(w.s) else None, Close(w.s))
      else
        var n := methodSelected.value(m, w.s);
        if n.result.Err? then Session(None, Close(n.origin))
        else Session(if hasHandle then Some(n.result.value) else None, Close(n.origin))
  }

  // ---------------------------------------------------------------------
  // Properties

  /** The accepted connection is closed whatever happens, and `Handle` is
      only reached when a handler is set. */
  lemma AlwaysClosed(codec: Codec, sm: Option<seq<byte> -> byte>,
                     ms: Option<(byte, Stream) -> SocksConn.Negotiation>, hasHandle: bool, conn: Stream)
    ensures var x := Serve(codec, sm, ms, hasHandle, conn);
      x.accepted.closed && (x.handed.Some? ==> hasHandle)
  {
  }

  /** A ReadMethods error means nothing is written and `Handle` is not
      called. */
  lemma UnreadableMethods(codec: Codec, sm: Option<seq<byte> -> byte>,
                          ms: Option<(byte, Stream) -> SocksConn.Negotiation>, hasHandle: bool, conn: Stream)
    requires conn.readFails || codec.readMethods(conn.input).result.Err?
    ensures var x := Serve(codec, sm, ms, hasHandle, conn);
      x.handed.None? && x.accepted.output == conn.output
  {
  }

  /** Exactly [5, method] is written, the method being NoAuth unless
      `SelectMethod` is set; a failed write stops before `MethodSelected`. */
  lemma AnswersMethod(codec: Codec, sm: Option<seq<byte> -> byte>,
                      ms: Option<(byte, Stream) -> SocksConn.Negotiation>, hasHandle: bool, conn: Stream)
    requires !conn.readFails && codec.readMethods(conn.input).result.Ok?
    ensures var x := Serve(codec, sm, ms, hasHandle, conn);
      var rm := ReadWith(conn, codec.readMethods);
      var m := if sm.Some? then sm.value(rm.result.value) else MethodNoAuth;
      && (conn.writeFails ==> x == Session(None, Close(rm.s)))
      && (!conn.writeFails && ms.None? ==>
            x.accepted.output == conn.output + [Ver5, m]
            && x.handed == (if hasHandle then Some(rm.s.(output := conn.output + [Ver5, m])) else None))
  {
  }

  /** An error from `MethodSelected` stops before `Handle`; otherwise
      `Handle` receives the connection the callback returned. */
  lemma CallbackDecides(codec: Codec, sm: Option<seq<byte> -> byte>,
                        ms: Option<(byte, Stream) -> SocksConn.Negotiation>, hasHandle: bool, conn: Stream)
    requires !conn.readFails && codec.readMethods(conn.input).result.Ok? && !conn.writeFails && ms.Some?
    ensures var x := Serve(codec, sm, ms, hasHandle, conn);
      var rm := ReadWith(conn, codec.readMethods);
      var m := if sm.Some? then sm.value(rm.result.value) else MethodNoAuth;
      var n := ms.value(m, rm.s.(output := conn.output + [Ver5, m]));
      && (n.result.Err? ==> x == Session(None, Close(n.origin)))
      && (n.result.Ok? ==> x.handed == (if hasHandle then Some(n.result.value) else None)
                           && x.accepted == Close(n.origin))
  {
  }

  /** The deferred `Close` is bound before `conn` is rebound: with a
      callback that keeps its origin, the connection closed is the one
      accepted, whatever connection `Handle` was given. */
  lemma ClosesTheAccepted(codec: Codec, sm: Option<seq<byte> -> byte>,
                          ms: Option<(byte, Stream) -> SocksConn.Negotiation>, hasHandle: bool, conn: Stream)
    requires SocksConn.KeepsOrigin(ms)
    ensures var x := Serve(codec, sm, ms, hasHandle, conn);
      x.accepted.id == conn.id && x.accepted.closed
  {
  }

  /** The same negotiation as the server side of `Conn`: `Handle` is
      reached exactly when `serverHandshake` with the same callbacks
      succeeds, with the connection it ends holding. */
  lemma SameAsServerHandshake(codec: Codec, sm: Option<seq<byte> -> byte>,
                              ms: Option<(byte, Stream) -> SocksConn.Negotiation>, conn: Stream)
    ensures var x := Serve(codec, sm, ms, true, conn);
      var o := SocksConn.ServerRun(codec, SocksConn.Fresh(conn, Some(SocksConn.Config([], sm, ms))));
      && (x.handed.Some? <==> o.err.None?)
      && (x.handed.Some? ==> x.handed.value == o.st.c)
  {
  }

  /** The legacy client and the legacy server agree: when the server reads
      back [NoAuth] from the client's greeting and the client reads the
      server's answer, the client's method is the server's choice for
      [NoAuth]. */
  lemma ClientAndServerAgree(codec: Codec, sm: Option<seq<byte> -> byte>, hasHandle: bool,
                             client: Stream, server: Stream)
    requires !client.writeFails && !client.readFails && !server.writeFails && !server.readFails
    requires codec.readMethods(server.input) == Parsed(Ok([MethodNoAuth]), |server.input|)
    requires var x := Serve(codec, sm, None, hasHandle, server);
      client.input == x.accepted.output[|server.output|..]
    ensures var g := LegacyClient.Greet(client);
      && g.err.None?
      && g.m == (if sm.Some? then sm.value([MethodNoAuth]) else MethodNoAuth)
  {
    var m := if sm.Some? then sm.value([MethodNoAuth]) else MethodNoAuth;
    var x := Serve(codec, sm, None, hasHandle, server);
    assert x.accepted.output == server.output + [Ver5, m];
    assert client.input == [Ver5, m];
  }

  // ---------------------------------------------------------------------
  // The server object

  /** `Server` with its callbacks; `Handle` is known only by whether it is
      set, since what it does with the connection is up to the user. */
  class Server {
    const selectMethod: Option<seq<byte> -> byte>
    const methodSelected: Option<(byte, Stream) -> SocksConn.Negotiation>
    const hasHandle: bool

    /** The composite literal `&Server{...}`. */
    constructor (selectMethod: Option<seq<byte> -> byte>,
                 methodSelected: Option<(byte, Stream) -> SocksConn.Negotiation>,
                 hasHandle: bool)
      ensures this.selectMethod == selectMethod && this.methodSelected == methodSelected
      ensures this.hasHandle == hasHandle
    {
      this.selectMethod := selectMethod;
      this.methodSelected := methodSelected;
      this.hasHandle := hasHandle;
    }

    /** `handle`: reassigns its local connection after `MethodSelected`,
        returns early on each error and closes the accepted one. */
    method Handle(codec: Codec, accepted: Stream) returns (handed: Option<Stream>, closed: Stream)
      ensures Session(handed, closed) == Serve(codec, selectMethod, methodSelected, hasHandle, accepted)
    {
      var original := accepted;
      handed := None;
      var rm := ReadWith(original, codec.readMethods);
      original := rm.s;
      if rm.result.Err? {
        closed := Close(original);
        return;
      }
      var m := MethodNoAuth;
      if selectMethod.Some? {
        m := selectMethod.value(rm.result.value);
      }
      var w := Write(original, [Ver5, m]);
      original := w.s;
      if w.result.Err? {
        closed := Close(original);
        return;
      }
      var conn := original;
      if methodSelected.Some? {
        var n := methodSelected.value(m, original);
        original := n.origin;
        if n.result.Err? {
          closed := Close(original);
          return;
        }
        conn := n.result.value;
      }
      if hasHandle {
        handed := Some(conn);
      }
      closed := Close(original);
    }
  }
}
