/**
  server/handler.go: what the server does with one client connection after
  the method negotiation. It reads the request, dispatches on its command
  and writes the first reply of CONNECT or BIND. What the network answers
  (the dial, the listen, the local address, how the relay ends) comes in as
  an `Env`.
 */
module ServerHandler {
  import opened Base
  import opened Streams
  import opened Messages
  import opened Socks5
  import opened SocksConn

  /** A `net.Addr` after `net.SplitHostPort` and `strconv.Atoi`: the host
      text and the port number (0 when the port is not a number). */
  datatype NetAddr = NetAddr(host: string, port: int)

  /** The result of `net.Dial` for CONNECT. */
  datatype DialOutcome = Dialed | DialFailed(error: Error)

  /** The result of `net.ListenTCP` for BIND, with the listener's address. */
  datatype ListenOutcome = Listening(addr: Option<NetAddr>) | ListenFailed(error: Error)

  /** What the network contributes to one request: the dial, the error the
      CONNECT relay finishes with, the listen, the host of the client
      connection's local address, and the error the BIND relay ends with. */
  datatype Env = Env(
    dial: DialOutcome,
    relayEnd: Option<Error>,
    listen: ListenOutcome,
    localHost: string,
    bindEnd: Option<Error>)

  /** Where `Handle` sends a request. */
  datatype Route = ToConnect | ToBind | Unsupported

  /** The end of one `Handle`: its error, the connection state, whether a
      relay was started, and whether a BIND listener was opened and closed. */
  datatype Served = Served(err: Option<Error>, st: ConnState, relayed: bool, listenerClosed: bool)

  /** `toSocksAddr`: always typed IPv4; a nil address becomes 0.0.0.0:0;
      the port is converted to `uint16`, keeping its low 16 bits. */
  function ToSocksAddr(addr: Option<NetAddr>): (a: Addr)
    ensures a.atype == AddrIPv4
  {
    if addr.None? then Addr(AddrIPv4, "0.0.0.0", 0)
    else Addr(AddrIPv4, addr.value.host, addr.value.port % 0x1_0000)
  }

  /** The error normalisation at the end of `transport`: io.EOF from the
      first direction to finish is a clean end. */
  function Transport(first: Option<Error>): (r: Option<Error>)
    ensures r.None? <==> first.None? || first == Some(EOF)
    ensures r.Some? ==> r == first
  {
    if first == Some(EOF) then None else first
  }

  /** The dispatch on the request's command byte. */
  function RouteOf(cmd: byte): Route {
    if cmd == CmdConnect then ToConnect
    else if cmd == CmdBind then ToBind
    else Unsupported
  }

  /** The encoded reply with the given code and address. */
  function ReplyBytes(codec: Codec, rep: byte, addr: Option<Addr>): seq<byte> {
    codec.encodeReply(Reply(rep, addr))
  }

  /** `handleConnect` on a negotiated connection. */
  function Connect(codec: Codec, st: ConnState, env: Env): Served {
    if env.dial.DialFailed? then
      var w := Write(st.c, ReplyBytes(codec, HostUnreachable, None));
      Served(Some(env.dial.error), st.(c := w.s), false, false)
    else
      var w := Write(st.c, ReplyBytes(codec, Succeeded, None));
      if w.result.Err? then Served(Some(w.result.error), st.(c := w.s), false, false)
      else Served(Transport(env.relayEnd), st.(c := w.s), true, false)
  }

  /** The first reply of a BIND once the listener is up: the listener's
      port with the host of the client connection's local address. */
  function BoundAddr(env: Env): Addr
    requires env.listen.Listening?
  {
    ToSocksAddr(env.listen.addr).(host := env.localHost)
  }

  /** `handleBind` up to the first reply; what follows it is the race
      between the accept and the client, whose error is `env.bindEnd` and
      which closes the listener either way. */
  function Bind(codec: Codec, st: ConnState, env: Env): Served {
    if env.listen.ListenFailed? then
      var w := Write(st.c, ReplyBytes(codec, Failure, None));
      Served(Some(env.listen.error), st.(c := w.s), false, false)
    else
      var w := Write(st.c, ReplyBytes(codec, Succeeded, Some(BoundAddr(env))));
      if w.result.Err? then Served(Some(w.result.error), st.(c := w.s), false, true)
      else Served(env.bindEnd, st.(c := w.s), true, true)
  }

  /** The `switch` on the command. No reply is written for a command that
      is not served. */
  function Dispatch(codec: Codec, st: ConnState, req: Request, env: Env): Served {
    match RouteOf(req.cmd)
    case ToConnect => Connect(codec, st, env)
    case ToBind => Bind(codec, st, env)
    case Unsupported => Served(Some(UnsupportedCommand), st, false, false)
  }

  /** `Handle` on a fresh server connection configured by `cfg`: reading
      the request runs the handshake first. */
  function Handled(codec: Codec, cfg: Config, raw: Stream, env: Env): Served {
    var h := Handshake(false, codec, Fresh(raw, Some(cfg)));
    if h.err.Some? then Served(h.err, h.st, false, false)
    else
      var rd := ReadWith(h.st.c, codec.readRequest);
      var st := h.st.(c := rd.s);
      if rd.result.Err? then Served(Some(rd.result.error), st, false, false)
      else Dispatch(codec, st, rd.result.value, env)
  }

  // ---------------------------------------------------------------------
  // Properties

  /** `toSocksAddr(nil)` is 0.0.0.0:0 and a port that fits in 16 bits is
      kept; every result is typed IPv4. */
  lemma ToSocksAddrValues(addr: Option<NetAddr>)
    ensures ToSocksAddr(None) == Addr(AddrIPv4, "0.0.0.0", 0)
    ensures addr.Some? ==> ToSocksAddr(addr).host == addr.value.host
    ensures addr.Some? && 0 <= addr.value.port < 0x1_0000 ==> ToSocksAddr(addr).port == addr.value.port
    ensures addr.Some? ==> ToSocksAddr(addr).port == addr.value.port % 0x1_0000
  {
  }

  /** Command 1 is CONNECT, command 2 is BIND, and every other command,
      UDP ASSOCIATE (3) included, is refused with an error and no reply. */
  lemma DispatchByCommand(codec: Codec, st: ConnState, req: Request, env: Env)
    ensures RouteOf(req.cmd) == ToConnect <==> req.cmd == CmdConnect
    ensures RouteOf(req.cmd) == ToBind <==> req.cmd == CmdBind
    ensures RouteOf(CmdUdp) == Unsupported
    ensures RouteOf(req.cmd) == Unsupported ==>
      Dispatch(codec, st, req, env) == Served(Some(UnsupportedCommand), st, false, false)
  {
  }

  /** A failed dial writes exactly one HostUnreachable reply (whether that
      write fails does not matter) and returns the dial error; nothing is
      relayed. */
  lemma ConnectDialFailure(codec: Codec, st: ConnState, env: Env)
    requires env.dial.DialFailed?
    ensures var s := Connect(codec, st, env);
      && s.err == Some(env.dial.error) && !s.relayed
      && (!st.c.writeFails ==> s.st.c.output == st.c.output + ReplyBytes(codec, HostUnreachable, None))
      && (st.c.writeFails ==> s.st == st)
  {
  }

  /** A successful dial writes a Succeeded reply with no address before
      relaying; the relay starts exactly when that reply is written, and its
      io.EOF counts as success. */
  lemma ConnectDialSuccess(codec: Codec, st: ConnState, env: Env)
    requires env.dial.Dialed?
    ensures var s := Connect(codec, st, env);
      && (s.relayed <==> !st.c.writeFails)
      && (st.c.writeFails ==> s.err == Some(WriteFailure))
      && (!st.c.writeFails ==>
            s.st.c.output == st.c.output + ReplyBytes(codec, Succeeded, None)
            && s.err == Transport(env.relayEnd))
  {
  }

  /** A failed listen writes a Failure reply and returns the listen error. */
  lemma BindListenFailure(codec: Codec, st: ConnState, env: Env)
    requires env.listen.ListenFailed?
    ensures var s := Bind(codec, st, env);
      && s.err == Some(env.listen.error) && !s.relayed && !s.listenerClosed
      && (!st.c.writeFails ==> s.st.c.output == st.c.output + ReplyBytes(codec, Failure, None))
  {
  }

  /** Once listening, the first reply is Succeeded with an IPv4-typed
      address made of the client connection's local host and the
      listener's port; if it cannot be written, the listener is closed and
      nothing more happens. */
  lemma BindFirstReply(codec: Codec, st: ConnState, env: Env)
    requires env.listen.Listening?
    ensures var s := Bind(codec, st, env);
      var a := BoundAddr(env);
      && a.atype == AddrIPv4 && a.host == env.localHost
      && a.port == (if env.listen.addr.None? then 0 else env.listen.addr.value.port % 0x1_0000)
      && s.listenerClosed
      && (st.c.writeFails ==> s.err == Some(WriteFailure) && !s.relayed && s.st == st)
      && (!st.c.writeFails ==> s.st.c.output == st.c.output + ReplyBytes(codec, Succeeded, Some(a)))
  {
  }

  /** A handshake error or a `ReadRequest` error is returned before any
      dispatch, with no relay started; otherwise the request read is the
      one dispatched, on the connection as the read left it. */
  lemma RequestComesFirst(codec: Codec, cfg: Config, raw: Stream, env: Env)
    ensures var s := Handled(codec, cfg, raw, env);
      var h := Handshake(false, codec, Fresh(raw, Some(cfg)));
      && (h.err.Some? ==> s.err == h.err && !s.relayed)
      && (h.err.None? ==>
            var rd := ReadWith(h.st.c, codec.readRequest);
            && (rd.result.Err? ==> s.err == rd.result.ErrorOf() && s.st.c == rd.s && !s.relayed)
            && (rd.result.Ok? ==> s == Dispatch(codec, h.st.(c := rd.s), rd.result.value, env)))
  {
  }

  /** The handler's replies all go to the underlying connection after the
      handshake: no step takes bytes away from it. */
  lemma OutputOnlyGrows(codec: Codec, st: ConnState, req: Request, env: Env)
    ensures var s := Dispatch(codec, st, req, env);
      |s.st.c.output| >= |st.c.output| && s.st.c.output[..|st.c.output|] == st.c.output
  {
  }

  // ---------------------------------------------------------------------
  // The handler's methods, over a negotiated connection object

  /** `handleConnect`. */
  method HandleConnect(conn: Conn, codec: Codec, env: Env) returns (s: Served)
    requires conn.handshaked && conn.handshakeErr.None?
    modifies conn
    ensures s == Connect(codec, old(conn.State()), env) && conn.State() == s.st
  {
    if env.dial.DialFailed? {
      var _, _ := conn.Write(ReplyBytes(codec, HostUnreachable, None));
      return Served(Some(env.dial.error), conn.State(), false, false);
    }
    var _, err := conn.Write(ReplyBytes(codec, Succeeded, None));
    if err.Some? {
      return Served(err, conn.State(), false, false);
    }
    return Served(Transport(env.relayEnd), conn.State(), true, false);
  }

  /** `handleBind` up to the first reply. */
  method HandleBind(conn: Conn, codec: Codec, env: Env) returns (s: Served)
    requires conn.handshaked && conn.handshakeErr.None?
    modifies conn
    ensures s == Bind(codec, old(conn.State()), env) && conn.State() == s.st
  {
    if env.listen.ListenFailed? {
      var _, _ := conn.Write(ReplyBytes(codec, Failure, None));
      return Served(Some(env.listen.error), conn.State(), false, false);
    }
    var socksAddr := ToSocksAddr(env.listen.addr);
    socksAddr := socksAddr.(host := env.localHost);
    var _, err := conn.Write(ReplyBytes(codec, Succeeded, Some(socksAddr)));
    if err.Some? {
      return Served(err, conn.State(), false, true);
    }
    return Served(env.bindEnd, conn.State(), true, true);
  }

  /** `serverHandler.Handle`: wraps the raw connection as a server
      connection, reads the request through it and dispatches. */
  method Handle(codec: Codec, cfg: Config, raw: Stream, env: Env) returns (s: Served)
    ensures s == Handled(codec, cfg, raw, env)
  {
    var conn := new Conn.ServerConn(raw, Some(cfg), codec);
    HandshakeRecords(false, codec, conn.State());
    var r := conn.ReadMessage(codec.readRequest);
    if r.Err? {
      return Served(Some(r.error), conn.State(), false, false);
    }
    var req := r.value;
    if req.cmd == CmdConnect {
      s := HandleConnect(conn, codec, env);
    } else if req.cmd == CmdBind {
      s := HandleBind(conn, codec, env);
    } else {
      s := Served(Some(UnsupportedCommand), conn.State(), false, false);
    }
  }
}
