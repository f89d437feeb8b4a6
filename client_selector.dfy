/**
  client/selector.go: the client's side of method selection. It offers its
  configured methods, always answers 0 when asked to choose, and runs the
  username/password subnegotiation when the server picks that method.
 */
module ClientSelection {
  import opened Base
  import opened Streams
  import opened Messages
  import opened Socks5
  import SocksConn
  import ServerSelection

  /** The username and password the client sends: those of its user, or two
      empty strings when it has none. */
  function Credentials(codec: Codec, user: Option<UserInfo>): UserPassRequest {
    if user.Some? then UserPassRequest(codec.userPassVer, user.value.username, user.value.Password())
    else UserPassRequest(codec.userPassVer, "", "")
  }

  /** `OnSelected` as a function of the user and the connection. */
  function Offer(codec: Codec, user: Option<UserInfo>, m: byte, conn: Stream): SocksConn.Negotiation {
    if m == MethodUserPass then
      var w := Write(conn, codec.encodeUserPassRequest(Credentials(codec, user)));
      if w.result.Err? then SocksConn.Negotiation(w.s, Err(w.result.error))
      else
        var rr := ReadWith(w.s, codec.readUserPassResponse);
        if rr.result.Err? then SocksConn.Negotiation(rr.s, Err(rr.result.error))
        else if rr.result.value.status != Succeeded then SocksConn.Negotiation(rr.s, Err(AuthFailure))
        else SocksConn.Negotiation(rr.s, Ok(rr.s))
    else if m == MethodNoAcceptable then SocksConn.Negotiation(conn, Err(BadMethod))
    else SocksConn.Negotiation(conn, Ok(conn))
  }

  /** The selector as the configuration of a client connection. */
  function AsConfig(codec: Codec, methods: seq<byte>, user: Option<UserInfo>): SocksConn.Config {
    SocksConn.Config(methods, Some((offered: seq<byte>) => 0), Some((m: byte, c: Stream) => Offer(codec, user, m, c)))
  }

  // ---------------------------------------------------------------------
  // Properties

  /** The selector's callback keeps its origin: whatever it reads and
      writes, it reports the connection it was given. */
  lemma AsConfigKeepsOrigin(codec: Codec, methods: seq<byte>, user: Option<UserInfo>)
    ensures SocksConn.KeepsOrigin(AsConfig(codec, methods, user).methodSelected)
  {
  }

  /** For UserPass the request written carries the user's name and password,
      or empty ones without a user; if it cannot be written, nothing is
      read. */
  lemma OfferSendsCredentials(codec: Codec, user: Option<UserInfo>, conn: Stream)
    ensures var n := Offer(codec, user, MethodUserPass, conn);
      var req := Credentials(codec, user);
      && (user.None? ==> req.username == "" && req.password == "")
      && (user.Some? ==> req.username == user.value.username && req.password == user.value.Password())
      && (conn.writeFails ==> n == SocksConn.Negotiation(conn, Err(WriteFailure)))
      && (!conn.writeFails ==> n.origin.output == conn.output + codec.encodeUserPassRequest(req))
  {
  }

  /** The negotiation succeeds exactly when a response was read and its
      status is Succeeded; a read error is passed on; any other status is
      ErrAuthFailure. On success the connection is handed back. */
  lemma OfferChecksStatus(codec: Codec, user: Option<UserInfo>, conn: Stream)
    requires !conn.writeFails
    ensures var n := Offer(codec, user, MethodUserPass, conn);
      var sent := conn.(output := conn.output + codec.encodeUserPassRequest(Credentials(codec, user)));
      var rr := ReadWith(sent, codec.readUserPassResponse);
      && (rr.result.Err? ==> n.result == Err(rr.result.error))
      && (n.result.Ok? <==> rr.result.Ok? && rr.result.value.status == Succeeded)
      && (rr.result.Ok? && rr.result.value.status != Succeeded ==> n.result == Err(AuthFailure))
      && (n.result.Ok? ==> n.result.value == n.origin && n.origin.id == conn.id)
  {
  }

  /** NoAcceptable fails with ErrBadMethod, and every method other than
      UserPass and NoAcceptable is accepted; neither does any I/O. */
  lemma OfferOtherMethods(codec: Codec, user: Option<UserInfo>, m: byte, conn: Stream)
    requires m != MethodUserPass
    ensures var n := Offer(codec, user, m, conn);
      && n.origin == conn
      && (m == MethodNoAcceptable <==> n.result == Err(BadMethod))
      && (m != MethodNoAcceptable <==> n.result == Ok(conn))
  {
  }

  /** The two selectors talk to each other: when the server reads the
      request the client writes and the client reads the response the
      server writes, the client succeeds exactly when the server does, and
      that is exactly when no users are configured or one of them accepts
      the client's credentials. */
  lemma SelectorsAgree(codec: Codec, user: Option<UserInfo>, users: seq<UserInfo>, client: Stream, server: Stream)
    requires !client.writeFails && !client.readFails && !server.writeFails && !server.readFails
    requires var req := Credentials(codec, user);
      codec.readUserPassRequest(server.input) == Parsed(Ok(req), |server.input|)
    requires var sn := ServerSelection.Admit(codec, users, MethodUserPass, server);
      client.input == sn.origin.output[|server.output|..]
    requires forall status :: status == Succeeded || status == Failure ==>
      codec.readUserPassResponse(ServerSelection.Response(codec, status))
        == Parsed(Ok(UserPassResponse(codec.userPassVer, status)), |ServerSelection.Response(codec, status)|)
    ensures var sn := ServerSelection.Admit(codec, users, MethodUserPass, server);
      var cn := Offer(codec, user, MethodUserPass, client);
      && (cn.result.Ok? <==> sn.result.Ok?)
      && (sn.result.Ok? <==> |users| == 0 || ServerSelection.Admitted(users, Credentials(codec, user)))
  {
    var req := Credentials(codec, user);
    var sn := ServerSelection.Admit(codec, users, MethodUserPass, server);
    var status := if |users| > 0 && !ServerSelection.Admitted(users, req) then Failure else Succeeded;
    assert sn.origin.output == server.output + ServerSelection.Response(codec, status);
    assert client.input == ServerSelection.Response(codec, status);
  }

  // ---------------------------------------------------------------------
  // The selector object

  /** `clientSelector`. */
  class ClientSelector {
    var methods: seq<byte>
    var user: Option<UserInfo>

    /** `NewClientSelector`. */
    constructor NewClientSelector(user: Option<UserInfo>, methods: seq<byte>)
      ensures this.methods == methods && this.user == user
    {
      this.methods := methods;
      this.user := user;
    }

    /** `Methods`. */
    method Methods() returns (ms: seq<byte>)
      ensures ms == methods
    {
      return methods;
    }

    /** `AddMethod`: appends in order; the user is untouched. */
    method AddMethod(ms: seq<byte>)
      modifies this
      ensures methods == old(methods) + ms
      ensures user == old(user)
    {
      methods := methods + ms;
    }

    /** `Select`: the client never chooses; it answers NoAuth's code 0. */
    method Select(offered: seq<byte>) returns (m: byte)
      ensures m == 0
    {
      m := 0;
    }

    /** `OnSelected`: for UserPass, writes the request, reads the response
        and checks its status. */
    method OnSelected(codec: Codec, m: byte, conn: Stream) returns (n: SocksConn.Negotiation)
      ensures n == Offer(codec, user, m, conn)
    {
      if m == MethodUserPass {
        var username, password := "", "";
        if user.Some? {
          username := user.value.username;
          password := user.value.Password();
        }
        var req := UserPassRequest(codec.userPassVer, username, password);
        var w := Write(conn, codec.encodeUserPassRequest(req));
        if w.result.Err? {
          return SocksConn.Negotiation(w.s, Err(w.result.error));
        }
        var rr := ReadWith(w.s, codec.readUserPassResponse);
        if rr.result.Err? {
          return SocksConn.Negotiation(rr.s, Err(rr.result.error));
        }
        if rr.result.value.status != Succeeded {
          return SocksConn.Negotiation(rr.s, Err(AuthFailure));
        }
        return SocksConn.Negotiation(rr.s, Ok(rr.s));
      } else if m == MethodNoAcceptable {
        return SocksConn.Negotiation(conn, Err(BadMethod));
      }
      return SocksConn.Negotiation(conn, Ok(conn));
    }

    /** The selector as the configuration of a client connection. */
    function Config(codec: Codec): (cfg: SocksConn.Config)
      reads this
      ensures cfg.methods == methods
      ensures cfg.selectMethod.Some? && forall offered :: cfg.selectMethod.value(offered) == 0
      ensures cfg.methodSelected.Some?
    {
      AsConfig(codec, methods, user)
    }
  }
}
